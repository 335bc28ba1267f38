/**
 * The authenticator capability as a closed sum of its two variants; each call
 * delegates to the variant's codec with the variant's own key material.
 */
module Authenticator {
  import opened JwtLibrary
  import opened Wrappers
  import opened TokenErrors
  import opened TokenCodec
  import Symmetric
  import Asymmetric

  datatype Authenticator =
    | SymmetricAuth(symmetric: Symmetric.Symmetric)
    | AsymmetricAuth(asymmetric: Asymmetric.Asymmetric)

  /** `verify_jwt`, dispatched on the variant. */
  function VerifyJwt(lib: Library<PongaToken>, a: Authenticator, token: string, aud: seq<string>)
    : (r: Result<PongaToken, TokenError>)
    ensures a.SymmetricAuth? ==> VerifiedHS512(lib, token, a.symmetric.secret, aud, r)
    ensures a.AsymmetricAuth? ==> VerifiedRS256(lib, token, a.asymmetric.n, a.asymmetric.e, aud, r)
    ensures r == Failure(InvalidKeyError) ==> a.AsymmetricAuth?
  {
    match a
    case SymmetricAuth(s) => Symmetric.VerifyJwt(lib, s, token, aud)
    case AsymmetricAuth(k) => Asymmetric.VerifyJwt(lib, k, token, aud)
  }

  /** `create_jwt`, dispatched on the variant. */
  function CreateJwt(lib: Library<PongaToken>, a: Authenticator, claims: PongaToken)
    : (r: Result<string, TokenError>)
    ensures a.SymmetricAuth? ==> SignedHS512(lib, claims, a.symmetric.secret, r)
    ensures a.AsymmetricAuth? ==> SignedRS256(lib, claims, a.asymmetric.privateKey, r)
    ensures r.Failure? ==> r.error.CrateError?
  {
    match a
    case SymmetricAuth(s) => Symmetric.CreateJwt(lib, s, claims)
    case AsymmetricAuth(k) => Asymmetric.CreateJwt(lib, k, claims)
  }
}
