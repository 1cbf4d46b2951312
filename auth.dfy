/** POST /validate-auth (pkg/handlers/auth.go), and the allow-list scan that the
    create flow runs too. */
module AuthHandlers {
  import opened Models
  import Config

  /** The flag loop over the allow-list: stops at the first entry equal to `code`.
      Matching is exact string equality, with no trimming or case folding. */
  method ContainsCode(validCodes: seq<string>, code: string) returns (found: bool)
    ensures found <==> code in validCodes
  {
    found := false;
    for i := 0 to |validCodes|
      invariant !found
      invariant forall k :: 0 <= k < i ==> validCodes[k] != code
    {
      if code == validCodes[i] {
        found := true;
        break;
      }
    }
  }

  /** The answer to POST /validate-auth, after the body has been decoded: an empty code
      is a bad request; any other code is answered with 200 and whether it is allowed. */
  function AuthAnswer(validCodes: seq<string>, authCode: string): (resp: AuthValidationResponse)
    ensures authCode == "" ==> resp == AuthValidationResponse(StatusBadRequest, false, "Authorization code cannot be empty")
    ensures authCode != "" ==> resp.status == StatusOK && (resp.valid <==> authCode in validCodes)
    ensures authCode != "" && resp.valid ==> resp.message == ""
    ensures authCode != "" && !resp.valid ==> resp.message == "Invalid authorization code"
    ensures validCodes == [] ==> !resp.valid
  {
    if authCode == "" then AuthValidationResponse(StatusBadRequest, false, "Authorization code cannot be empty")
    else if authCode in validCodes then AuthValidationResponse(StatusOK, true, "")
    else AuthValidationResponse(StatusOK, false, "Invalid authorization code")
  }

  /** ValidateAuthCodeHandler: the allow-list scan, then the answer. */
  method ValidateAuthCode(cfg: Config.AppConfig, authCode: string) returns (resp: AuthValidationResponse)
    ensures resp == AuthAnswer(cfg.validAuthCodes, authCode)
  {
    if authCode == "" {
      return AuthValidationResponse(StatusBadRequest, false, "Authorization code cannot be empty");
    }
    var isValidCode := ContainsCode(cfg.validAuthCodes, authCode);
    if isValidCode {
      resp := AuthValidationResponse(StatusOK, true, "");
    } else {
      resp := AuthValidationResponse(StatusOK, false, "Invalid authorization code");
    }
  }

  /** Matching is exact: a code that differs from an allowed one only by surrounding
      white space or by case is refused. */
  lemma ExactMatchOnly()
    ensures !AuthAnswer(["secret"], " secret").valid
    ensures !AuthAnswer(["secret"], "SECRET").valid
    ensures AuthAnswer(["secret"], "secret").valid
  {
    assert " secret" != "secret" by { assert |" secret"| != |"secret"|; }
    assert "SECRET" != "secret" by { assert "SECRET"[0] != "secret"[0]; }
  }
}
