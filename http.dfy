/** The HTTPException the routers and dependencies raise: a status, a detail and headers. */
module Http {

  import Text

  datatype HttpError = HttpError(status: nat, detail: string, headers: seq<(string, string)>)

  /** HTTPException(status_code=status, detail=detail) without headers. */
  function Plain(status: nat, detail: string): (e: HttpError)
    ensures e.status == status && e.detail == detail && e.headers == []
  {
    HttpError(status, detail, [])
  }

  /** str() of an HTTPException: "{status_code}: {detail}". */
  function Str(e: HttpError): string {
    Text.NatToDecimal(e.status) + ": " + e.detail
  }
}
