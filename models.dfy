/** Request and response records of the HTTP handlers (pkg/models/models.go) and
    the HTTP status codes the handlers answer with. */
module Models {
  import opened Wrappers

  const StatusOK: int := 200
  const StatusMovedPermanently: int := 301
  const StatusFound: int := 302
  const StatusBadRequest: int := 400
  const StatusUnauthorized: int := 401
  const StatusNotFound: int := 404
  const StatusConflict: int := 409
  const StatusInternalServerError: int := 500

  /** Body of POST /shorten. An absent optional string field decodes to "";
      `expirationDays` is None when the field is absent, which is how the source
      tells "not given" apart from 0. */
  datatype URLRequest = URLRequest(
    longURL: string,
    customHandle: string,
    authCode: string,
    expirationDays: Option<int>)

  /** Body of POST /validate-auth's answer, with the status it is sent with.
      An empty message stands for the omitted field. */
  datatype AuthValidationResponse = AuthValidationResponse(status: int, valid: bool, message: string)

  /** One click as the statistics endpoint reports it; None is a NULL column. */
  datatype ClickDetail = ClickDetail(timestamp: nat, userAgent: Option<string>, referrer: Option<string>)

  datatype LinkStatsResponse = LinkStatsResponse(shortCode: string, totalClicks: int, clicks: seq<ClickDetail>)
}
