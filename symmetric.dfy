/** The pre-shared-secret authenticator: HS512 with one secret, both ways. */
module Symmetric {
  import opened JwtLibrary
  import opened Wrappers
  import opened TokenErrors
  import opened TokenCodec
  import opened Startup

  datatype Symmetric = Symmetric(secret: string)

  /** `verify_jwt`: HS512 verification with the stored secret; errors pass through. */
  function VerifyJwt(lib: Library<PongaToken>, s: Symmetric, token: string, aud: seq<string>)
    : (r: Result<PongaToken, TokenError>)
    ensures VerifiedHS512(lib, token, s.secret, aud, r)
    ensures r.Failure? ==> !r.error.InvalidKeyError?
  {
    FromString(lib, token, s.secret, aud)
  }

  /** `create_jwt`: HS512 signing with the same stored secret; errors pass through. */
  function CreateJwt(lib: Library<PongaToken>, s: Symmetric, claims: PongaToken)
    : (r: Result<string, TokenError>)
    ensures SignedHS512(lib, claims, s.secret, r)
    ensures r.Failure? ==> r.error.CrateError?
  {
    Sign(lib, claims, s.secret)
  }

  /** `Symmetric::new`: the secret is `JWT_SECRET`; without it the process panics. */
  function New(env: Env): (r: Startup<Symmetric>)
    ensures !r.Failed?
    ensures r.Started? <==> "JWT_SECRET" in env
    ensures r.Started? ==> r.value.secret == env["JWT_SECRET"]
    ensures r.Panicked? ==> r.message == "JWT_SECRET is not defined"
  {
    if "JWT_SECRET" in env then Started(Symmetric(env["JWT_SECRET"]))
    else Panicked("JWT_SECRET is not defined")
  }
}
