/** The parts of Go's `strconv` package the core uses: strconv.Atoi (decimal, 64-bit
    `int`) and strconv.ParseUint(s, 16, 8) (one hexadecimal byte), each with the
    printer that inverts it. */
module Strconv {
  import opened Wrappers

  const MinInt64: int := -0x8000_0000_0000_0000
  const MaxInt64: int := 0x7FFF_FFFF_FFFF_FFFF

  predicate IsDigit(c: char) {
    '0' <= c <= '9'
  }

  predicate AllDigits(s: string) {
    forall k :: 0 <= k < |s| ==> IsDigit(s[k])
  }

  function DigitValue(c: char): (d: nat)
    requires IsDigit(c)
    ensures d < 10
  {
    c as int - '0' as int
  }

  function DigitChar(d: nat): (c: char)
    requires d < 10
    ensures IsDigit(c) && DigitValue(c) == d
  {
    ('0' as int + d) as char
  }

  /** The value of a string of decimal digits, most significant first. */
  function DecimalValue(s: string): nat
    requires AllDigits(s)
    decreases |s|
  {
    if s == [] then 0 else 10 * DecimalValue(s[..|s| - 1]) + DigitValue(s[|s| - 1])
  }

  /** The shortest decimal spelling of a natural number. */
  function Decimal(n: nat): (s: string)
    ensures s != [] && AllDigits(s)
    decreases n
  {
    if n < 10 then [DigitChar(n)] else Decimal(n / 10) + [DigitChar(n % 10)]
  }

  lemma {:induction false} DecimalValueOfDecimal(n: nat)
    ensures DecimalValue(Decimal(n)) == n
    decreases n
  {
    if n >= 10 {
      DecimalValueOfDecimal(n / 10);
      var s := Decimal(n);
      assert s[..|s| - 1] == Decimal(n / 10);
    }
  }

  /** The digits after an optional leading sign. */
  function Unsigned(s: string): (digits: string)
    ensures |digits| <= |s|
  {
    if |s| > 0 && (s[0] == '+' || s[0] == '-') then s[1..] else s
  }

  function Signed(negative: bool, magnitude: nat): int {
    if negative then 0 - magnitude else magnitude
  }

  /** strconv.Atoi on a 64-bit platform: an optional sign, then at least one decimal
      digit (no blanks, no underscores), whose value must fit in 64 bits. */
  function Atoi(s: string): (r: Option<int>)
    ensures r.Some? <==> Unsigned(s) != [] && AllDigits(Unsigned(s)) &&
                         MinInt64 <= Signed(s[0] == '-', DecimalValue(Unsigned(s))) <= MaxInt64
    ensures r.Some? ==> MinInt64 <= r.value <= MaxInt64
    ensures r.Some? ==> (r.value < 0 <==> s[0] == '-' && DecimalValue(Unsigned(s)) != 0)
    ensures r.Some? ==> r.value == Signed(s[0] == '-', DecimalValue(Unsigned(s)))
  {
    var digits := Unsigned(s);
    if digits == [] || !AllDigits(digits) then None
    else
      var magnitude := DecimalValue(digits);
      var v := Signed(s[0] == '-', magnitude);
      if MinInt64 <= v <= MaxInt64 then Some(v) else None
  }

  /** strconv.Itoa: a minus sign for negative numbers, then the decimal digits. */
  function Itoa(n: int): string {
    if n < 0 then "-" + Decimal(-n) else Decimal(n)
  }

  /** Atoi reads back every 64-bit integer that Itoa prints. */
  lemma AtoiItoa(n: int)
    requires MinInt64 <= n <= MaxInt64
    ensures Atoi(Itoa(n)) == Some(n)
  {
    var s := Itoa(n);
    if n < 0 {
      DecimalValueOfDecimal(-n);
      assert Unsigned(s) == Decimal(-n);
    } else {
      DecimalValueOfDecimal(n);
      assert Unsigned(s) == Decimal(n);
    }
  }

  predicate IsHexDigit(c: char) {
    ('0' <= c <= '9') || ('a' <= c <= 'f') || ('A' <= c <= 'F')
  }

  function HexDigitValue(c: char): (d: nat)
    requires IsHexDigit(c)
    ensures d < 16
  {
    if '0' <= c <= '9' then c as int - '0' as int
    else if 'a' <= c <= 'f' then c as int - 'a' as int + 10
    else c as int - 'A' as int + 10
  }

  /** Upper-case hexadecimal digit, as printed by the %X verb. */
  function HexDigitChar(d: nat): (c: char)
    requires d < 16
    ensures IsHexDigit(c) && HexDigitValue(c) == d
  {
    if d < 10 then ('0' as int + d) as char else ('A' as int + d - 10) as char
  }

  predicate AllHexDigits(s: string) {
    forall k :: 0 <= k < |s| ==> IsHexDigit(s[k])
  }

  function HexValue(s: string): nat
    requires AllHexDigits(s)
    decreases |s|
  {
    if s == [] then 0 else 16 * HexValue(s[..|s| - 1]) + HexDigitValue(s[|s| - 1])
  }

  /** strconv.ParseUint(s, 16, 8): at least one hexadecimal digit of either case, no
      prefix, no sign, no underscores, and a value that fits in eight bits. */
  function ParseHexUint8(s: string): (r: Option<nat>)
    ensures r.Some? <==> s != [] && AllHexDigits(s) && HexValue(s) < 256
    ensures r.Some? ==> r.value < 256 && r.value == HexValue(s)
  {
    if s != [] && AllHexDigits(s) && HexValue(s) < 256 then Some(HexValue(s)) else None
  }

  /** Two hexadecimal digits always parse, to 16 times the first plus the second. */
  lemma HexPairValue(s: string)
    requires |s| == 2 && IsHexDigit(s[0]) && IsHexDigit(s[1])
    ensures ParseHexUint8(s) == Some(16 * HexDigitValue(s[0]) + HexDigitValue(s[1]))
  {
    var first := s[..1];
    assert first == [s[0]] && first[..0] == [];
    assert HexValue(first) == HexDigitValue(s[0]);
    assert s[..|s| - 1] == first;
    assert HexValue(s) == 16 * HexDigitValue(s[0]) + HexDigitValue(s[1]);
  }

  /** Two upper-case hexadecimal digits, as printed by the %02X verb. */
  function HexByte(v: nat): (s: string)
    requires v < 256
    ensures |s| == 2 && AllHexDigits(s)
  {
    [HexDigitChar(v / 16), HexDigitChar(v % 16)]
  }

  /** ParseUint(s, 16, 8) reads back every byte that %02X prints. */
  lemma ParseHexByte(v: nat)
    requires v < 256
    ensures ParseHexUint8(HexByte(v)) == Some(v)
  {
    HexPairValue(HexByte(v));
  }
}
