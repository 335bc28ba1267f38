/** Verification and signing failures, and the HTTP error each one becomes. */
module TokenErrors {
  import opened HttpErrors

  datatype TokenError = CrateError(detail: string) | InvalidKeyError | ExpiredTokenError

  /** The `Display` text of each error. */
  function Display(e: TokenError): (s: string)
    ensures e.CrateError? ==> s == "jsonwebtoken crate: " + e.detail
    ensures e.InvalidKeyError? ==> s == "invalid_key"
    ensures e.ExpiredTokenError? ==> s == "expired_token"
  {
    match e
    case CrateError(d) => "jsonwebtoken crate: " + d
    case InvalidKeyError => "invalid_key"
    case ExpiredTokenError => "expired_token"
  }

  /** Distinct errors read differently. */
  lemma DisplayInjective(a: TokenError, b: TokenError)
    ensures Display(a) == Display(b) ==> a == b
  {
    if Display(a) == Display(b) {
      if a.CrateError? && b.CrateError? {
        var prefix := "jsonwebtoken crate: ";
        assert Display(a)[|prefix|..] == a.detail;
        assert Display(b)[|prefix|..] == b.detail;
      }
    }
  }

  /** `From<TokenError> for HttpError`. */
  function ToHttpError(e: TokenError): (h: HttpError)
    ensures h.Simple?
    ensures h.code == UNAUTHORIZED <==> e.ExpiredTokenError?
    ensures h.code == BAD_REQUEST <==> !e.ExpiredTokenError?
    ensures e.CrateError? ==> h.msg == "bad_token: " + e.detail
    ensures e.InvalidKeyError? ==> h.msg == "invalid_key"
    ensures e.ExpiredTokenError? ==> h.msg == "expired_token"
  {
    match e
    case CrateError(d) => Simple(BAD_REQUEST, "bad_token: " + d)
    case InvalidKeyError => Simple(BAD_REQUEST, "invalid_key")
    case ExpiredTokenError => Simple(UNAUTHORIZED, "expired_token")
  }

  /** Distinct token errors give distinct responses, so a client can tell them apart. */
  lemma ResponsesDistinguishTokenErrors(a: TokenError, b: TokenError)
    ensures IntoResponse(ToHttpError(a)) == IntoResponse(ToHttpError(b)) ==> a == b
  {
    if a.CrateError? { BadTokenIsNotInvalidKey(a.detail); }
    if b.CrateError? { BadTokenIsNotInvalidKey(b.detail); }
    var ra, rb := IntoResponse(ToHttpError(a)), IntoResponse(ToHttpError(b));
    if ra == rb {
      var prefix := "bad_token: ";
      if a.CrateError? && b.CrateError? {
        assert ra.body.error[|prefix|..] == a.detail;
        assert rb.body.error[|prefix|..] == b.detail;
      }
    }
  }

  lemma BadTokenIsNotInvalidKey(d: string)
    ensures "bad_token: " + d != "invalid_key"
  {
    assert ("bad_token: " + d)[0] == 'b';
  }
}
