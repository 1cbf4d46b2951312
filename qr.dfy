/** GenerateQRCodeHandler (pkg/handlers/qr.go), up to the point where the image
    library takes over: the colour parser and the size, module width, colour and
    content settings. */
module QrHandlers {
  import opened Wrappers
  import opened Strings
  import opened Strconv
  import opened Models
  import Config
  import UrlHandlers

  /** color.NRGBA: four 8-bit components. */
  datatype NRGBA = NRGBA(r: nat, g: nat, b: nat, a: nat)

  predicate IsColor(c: NRGBA) {
    c.r < 256 && c.g < 256 && c.b < 256 && c.a < 256
  }

  const OpaqueBlack: NRGBA := NRGBA(0, 0, 0, 255)
  const OpaqueWhite: NRGBA := NRGBA(255, 255, 255, 255)

  /** Six hexadecimal digits of either case: the only colour syntax accepted. */
  predicate IsSixDigitHex(s: string) {
    |s| == 6 && AllHexDigits(s)
  }

  /** hexToNRGBA: strips at most one leading "#", then needs exactly six hexadecimal
      digits; each pair is one component, and alpha is always 255. */
  function HexToNRGBA(hexColor: string): (c: Option<NRGBA>)
    ensures c.Some? <==> IsSixDigitHex(TrimPrefix(hexColor, "#"))
    ensures c.Some? ==> IsColor(c.value) && c.value.a == 255
    ensures c.Some? ==>
              var h := TrimPrefix(hexColor, "#");
              && c.value.r == 16 * HexDigitValue(h[0]) + HexDigitValue(h[1])
              && c.value.g == 16 * HexDigitValue(h[2]) + HexDigitValue(h[3])
              && c.value.b == 16 * HexDigitValue(h[4]) + HexDigitValue(h[5])
  {
    var h := TrimPrefix(hexColor, "#");
    if ByteLen(h) != 6 then None
    // Six bytes but fewer characters: some byte is not a hexadecimal digit.
    else if |h| != 6 then None
    else
      var red, green, blue := ParseHexUint8(h[0..2]), ParseHexUint8(h[2..4]), ParseHexUint8(h[4..6]);
      if red.None? then
        assert !IsHexDigit(h[0]) || !IsHexDigit(h[1]) by {
          if IsHexDigit(h[0]) && IsHexDigit(h[1]) { HexPairValue(h[0..2]); }
        }
        None
      else if green.None? then
        assert !IsHexDigit(h[2]) || !IsHexDigit(h[3]) by {
          if IsHexDigit(h[2]) && IsHexDigit(h[3]) { HexPairValue(h[2..4]); }
        }
        None
      else if blue.None? then
        assert !IsHexDigit(h[4]) || !IsHexDigit(h[5]) by {
          if IsHexDigit(h[4]) && IsHexDigit(h[5]) { HexPairValue(h[4..6]); }
        }
        None
      else
        assert IsSixDigitHex(h) by {
          forall k | 0 <= k < 6 ensures IsHexDigit(h[k]) {
            var pair := h[k / 2 * 2..k / 2 * 2 + 2];
            var parsed := ParseHexUint8(pair);
            assert parsed.Some? && AllHexDigits(pair);
            assert h[k] == pair[k % 2];
          }
        }
        HexPairValue(h[0..2]);
        HexPairValue(h[2..4]);
        HexPairValue(h[4..6]);
        Some(NRGBA(red.value, green.value, blue.value, 255))
  }

  /** "#" and three upper-case hexadecimal pairs, as printed by "#%02X%02X%02X". */
  function ColorHex(c: NRGBA): (s: string)
    requires IsColor(c)
    ensures |s| == 7 && s[0] == '#'
  {
    "#" + HexByte(c.r) + HexByte(c.g) + HexByte(c.b)
  }

  /** Printing a colour and parsing it back gives the colour, made opaque. */
  lemma HexRoundTrip(c: NRGBA)
    requires IsColor(c)
    ensures HexToNRGBA(ColorHex(c)) == Some(c.(a := 255))
  {
    var s := ColorHex(c);
    var h := TrimPrefix(s, "#");
    assert HasPrefix(s, "#") && h == s[1..];
    assert h[0..2] == HexByte(c.r) && h[2..4] == HexByte(c.g) && h[4..6] == HexByte(c.b);
    HexPairValue(HexByte(c.r));
    HexPairValue(HexByte(c.g));
    HexPairValue(HexByte(c.b));
    ParseHexByte(c.r);
    ParseHexByte(c.g);
    ParseHexByte(c.b);
  }

  /** Only one "#" is stripped: "##12345" leaves "#12345", which is not hexadecimal. */
  lemma OneHashOnly()
    ensures HexToNRGBA("##12345") == None
  {
    assert TrimPrefix("##12345", "#") == "#12345";
    assert !IsHexDigit("#12345"[0]);
  }

  /** The default foreground names the same colour as its fallback. */
  lemma DefaultForeground()
    ensures HexToNRGBA("#000000") == Some(OpaqueBlack)
  {
    var h := TrimPrefix("#000000", "#");
    assert h == "000000";
    assert IsSixDigitHex(h);
    var c := HexToNRGBA("#000000");
    assert HexDigitValue(h[0]) == 0 && HexDigitValue(h[1]) == 0;
    assert c.value.r == 0 && c.value.g == 0 && c.value.b == 0;
  }

  /** The default background names the same colour as its fallback. */
  lemma DefaultBackground()
    ensures HexToNRGBA("#FFFFFF") == Some(OpaqueWhite)
  {
    var h := TrimPrefix("#FFFFFF", "#");
    assert h == "FFFFFF";
    assert IsSixDigitHex(h);
    var c := HexToNRGBA("#FFFFFF");
    assert HexDigitValue(h[0]) == 15 && HexDigitValue(h[1]) == 15;
    assert c.value.r == 255 && c.value.g == 255 && c.value.b == 255;
  }

  /** url.Values.Get: the value of a query parameter, "" when it is absent. */
  function QueryGet(query: map<string, string>, key: string): string {
    if key in query then query[key] else ""
  }

  /** The requested image size in pixels: 256 unless `size` parses as a positive integer. */
  function PixelSize(sizeStr: string): (size: int)
    ensures size > 0
    ensures Atoi(sizeStr).Some? && Atoi(sizeStr).value > 0 ==> size == Atoi(sizeStr).value
    ensures Atoi(sizeStr).None? || Atoi(sizeStr).value <= 0 ==> size == 256
  {
    if sizeStr != "" && Atoi(sizeStr).Some? && Atoi(sizeStr).value > 0 then Atoi(sizeStr).value else 256
  }

  function Clamp(x: int, lo: int, hi: int): int
    requires lo <= hi
  {
    if x < lo then lo else if x > hi then hi else x
  }

  /** The module width: size / 35 converted to uint8 (so it wraps at 256), then clamped
      to [1, 20]. */
  function ModuleWidth(size: int): (width: nat)
    requires size > 0
    ensures 1 <= width <= 20
    ensures size / 35 < 256 ==> width == Clamp(size / 35, 1, 20)
  {
    var w := (size / 35) % 256;
    if w < 1 then 1 else if w > 20 then 20 else w
  }

  /** The default size gives modules of 7 pixels; 8960 pixels wraps to 0 and is
      clamped up to 1. */
  lemma ModuleWidthExamples()
    ensures ModuleWidth(256) == 7
    ensures ModuleWidth(700) == 20
    ensures ModuleWidth(8960) == 1
  {
  }

  /** A colour parameter with its default and its fallback: the default when the
      parameter is absent, and the fallback when what is there does not parse. */
  function ColorParam(given: string, default: string, fallback: NRGBA): (c: NRGBA)
    ensures given != "" && HexToNRGBA(given).Some? ==> c == HexToNRGBA(given).value
    ensures given != "" && HexToNRGBA(given).None? ==> c == fallback
    ensures given == "" ==> c == HexToNRGBA(default).GetOr(fallback)
    ensures IsColor(fallback) && fallback.a == 255 ==> IsColor(c) && c.a == 255
  {
    HexToNRGBA(if given == "" then default else given).GetOr(fallback)
  }

  /** What the handler hands to the QR library. */
  datatype QRSettings = QRSettings(content: string, moduleWidth: nat, fg: NRGBA, bg: NRGBA)

  datatype QRResult = QRReady(settings: QRSettings) | QRFailed(status: int, message: string)

  /** The block the handler writes once for `fg` and once for `bg`: an absent parameter
      takes the default text, and text that does not parse leaves the fallback colour. */
  method ReadColor(given: string, default: string, fallback: NRGBA) returns (c: NRGBA)
    ensures c == ColorParam(given, default, fallback)
  {
    var colorHex := given;
    if colorHex == "" {
      colorHex := default;
    }
    var parsed := HexToNRGBA(colorHex);
    c := fallback;
    if parsed.Some? {
      c := parsed.value;
    }
  }

  /** GenerateQRCodeHandler up to the library calls: the local settings are worked out
      step by step, exactly as the handler does. */
  method PrepareQRCode(cfg: Config.AppConfig, shortCode: string, query: map<string, string>)
    returns (result: QRResult)
    ensures shortCode == "" ==> result == QRFailed(StatusBadRequest, "Shortcode parameter is missing")
    ensures shortCode != "" ==> result.QRReady?
    ensures result.QRReady? ==>
              var s := result.settings;
              && s.content == UrlHandlers.ShortURL(cfg.scheme, cfg.domain, shortCode)
              && s.moduleWidth == ModuleWidth(PixelSize(QueryGet(query, "size")))
              && 1 <= s.moduleWidth <= 20
              && s.fg == ColorParam(QueryGet(query, "fg"), "#000000", OpaqueBlack)
              && s.bg == ColorParam(QueryGet(query, "bg"), "#FFFFFF", OpaqueWhite)
              && IsColor(s.fg) && s.fg.a == 255 && IsColor(s.bg) && s.bg.a == 255
  {
    if shortCode == "" {
      return QRFailed(StatusBadRequest, "Shortcode parameter is missing");
    }
    var fullURL := cfg.scheme + "://" + cfg.domain + "/" + shortCode;

    var desiredPixelSize := 256;
    var sizeStr := QueryGet(query, "size");
    if sizeStr != "" {
      var parsedSize := Atoi(sizeStr);
      if parsedSize.Some? && parsedSize.value > 0 {
        desiredPixelSize := parsedSize.value;
      }
    }

    var modulePixelWidth := (desiredPixelSize / 35) % 256;
    if modulePixelWidth < 1 {
      modulePixelWidth := 1;
    }
    if modulePixelWidth > 20 {
      modulePixelWidth := 20;
    }

    var fgColor := ReadColor(QueryGet(query, "fg"), "#000000", OpaqueBlack);
    var bgColor := ReadColor(QueryGet(query, "bg"), "#FFFFFF", OpaqueWhite);

    result := QRReady(QRSettings(fullURL, modulePixelWidth, fgColor, bgColor));
  }
}
