/**
 * Signing and verification of service tokens: which algorithm and key each
 * entry point hands to the crate, and how the crate's result is reported.
 */
module TokenCodec {
  import opened Wrappers
  import opened Types
  import opened JwtLibrary
  import opened TokenErrors

  /** The claims of a service token. */
  datatype PongaToken = PongaToken(exp: Usize, iat: Usize, iss: string, sub: string)

  /** The validation both decoders configure: one algorithm, and the given audience. */
  function ValidationFor(alg: Algorithm, audience: seq<string>): (v: Validation)
    ensures v.algorithms == [alg]
    ensures v.audience.Some? && forall a :: a in v.audience.value <==> a in audience
  {
    SetAudience(NewValidation(alg), audience)
  }

  /** `r` reports the crate's `encode` result `enc`: any crate error becomes `CrateError`. */
  predicate ReportsSign(enc: Result<string, Error>, r: Result<string, TokenError>) {
    match enc
    case Success(token) => r == Success(token)
    case Failure(e) => r == Failure(CrateError(e.message))
  }

  /**
   * `r` reports the crate's `decode` result `d`: the claims on success, an
   * expired signature as `ExpiredTokenError`, any other error as `CrateError`
   * with the crate's message.
   */
  predicate ReportsDecode<T(==)>(d: Result<T, Error>, r: Result<T, TokenError>) {
    match d
    case Success(claims) => r == Success(claims)
    case Failure(e) =>
      if e.kind == ExpiredSignature then r == Failure(ExpiredTokenError)
      else r == Failure(CrateError(e.message))
  }

  /** `sign_rsa`'s promise: a PEM the crate rejects is a `CrateError`, otherwise an RS256 `encode`. */
  predicate SignedRS256<T(==)>(lib: Library<T>, claims: T, pem: seq<byte>, r: Result<string, TokenError>) {
    match lib.fromRsaPem(pem)
    case Fail(e) => r == Failure(CrateError(e.message))
    case Pass => ReportsSign(lib.encode(NewHeader(RS256), claims, RsaPemEncodingKey(pem)), r)
  }

  /** `sign`'s promise: an HS512 `encode` with the secret. */
  predicate SignedHS512<T(==)>(lib: Library<T>, claims: T, secret: string, r: Result<string, TokenError>) {
    ReportsSign(lib.encode(NewHeader(HS512), claims, SecretEncodingKey(secret)), r)
  }

  /** `from_string`'s promise: an HS512-only `decode` with the secret and the audience. */
  predicate VerifiedHS512<T(==)>(lib: Library<T>, token: string, secret: string, audience: seq<string>,
                             r: Result<T, TokenError>) {
    ReportsDecode(lib.decode(token, SecretDecodingKey(secret), ValidationFor(HS512, audience)), r)
  }

  /**
   * `from_string_jwk`'s promise: components the crate rejects give
   * `InvalidKeyError` and nothing is decoded; otherwise an RS256-only `decode`.
   */
  predicate VerifiedRS256<T(==)>(lib: Library<T>, token: string, n: string, e: string, audience: seq<string>,
                             r: Result<T, TokenError>) {
    match lib.fromRsaComponents(n, e)
    case Fail(_) => r == Failure(InvalidKeyError)
    case Pass => ReportsDecode(lib.decode(token, RsaComponentsDecodingKey(n, e), ValidationFor(RS256, audience)), r)
  }

  /** `From<jsonwebtoken::errors::Error> for TokenError`. */
  function FromLibraryError(e: Error): (t: TokenError)
    ensures t.CrateError? && t.detail == e.message
  {
    CrateError(e.message)
  }

  /** The error arm shared by both decoders. */
  function FromDecodeError(e: Error): (t: TokenError)
    ensures t == ExpiredTokenError <==> e.kind == ExpiredSignature
    ensures e.kind != ExpiredSignature ==> t == CrateError(e.message)
    ensures !t.InvalidKeyError?
  {
    if e.kind == ExpiredSignature then ExpiredTokenError else CrateError(e.message)
  }

  /** `Token::sign_rsa`. */
  function SignRsa<T(==)>(lib: Library<T>, claims: T, key: seq<byte>): (r: Result<string, TokenError>)
    ensures SignedRS256(lib, claims, key, r)
    ensures r.Failure? ==> r.error.CrateError?
  {
    match lib.fromRsaPem(key)
    case Fail(e) => Failure(FromLibraryError(e))
    case Pass => MapError(lib.encode(NewHeader(RS256), claims, RsaPemEncodingKey(key)), FromLibraryError)
  }

  /** `Token::sign`. */
  function Sign<T(==)>(lib: Library<T>, claims: T, key: string): (r: Result<string, TokenError>)
    ensures SignedHS512(lib, claims, key, r)
    ensures r.Failure? ==> r.error.CrateError?
  {
    MapError(lib.encode(NewHeader(HS512), claims, SecretEncodingKey(key)), FromLibraryError)
  }

  /** `Token::from_string`. */
  function FromString<T(==)>(lib: Library<T>, token: string, key: string, audience: seq<string>): (r: Result<T, TokenError>)
    ensures VerifiedHS512(lib, token, key, audience, r)
    ensures r.Failure? ==> !r.error.InvalidKeyError?
  {
    var validation := SetAudience(NewValidation(HS512), audience);
    MapError(lib.decode(token, SecretDecodingKey(key), validation), FromDecodeError)
  }

  /** `Token::from_string_jwk`. */
  function FromStringJwk<T(==)>(lib: Library<T>, token: string, n: string, e: string, audience: seq<string>)
    : (r: Result<T, TokenError>)
    ensures VerifiedRS256(lib, token, n, e, audience, r)
    ensures r == Failure(InvalidKeyError) <==> lib.fromRsaComponents(n, e).Fail?
  {
    var validation := SetAudience(NewValidation(RS256), audience);
    match lib.fromRsaComponents(n, e)
    case Pass => MapError(lib.decode(token, RsaComponentsDecodingKey(n, e), validation), FromDecodeError)
    case Fail(_) => Failure(InvalidKeyError)
  }

  /**
   * When the key components are rejected, `decode` is never consulted: two
   * crates that build keys alike give the same answer however they decode.
   */
  lemma BadKeySkipsDecode<T>(lib1: Library<T>, lib2: Library<T>, token1: string, token2: string,
                             n: string, e: string, aud1: seq<string>, aud2: seq<string>)
    requires lib1.fromRsaComponents(n, e).Fail? && lib2.fromRsaComponents(n, e).Fail?
    ensures FromStringJwk(lib1, token1, n, e, aud1) == FromStringJwk(lib2, token2, n, e, aud2)
  {
  }

  /**
   * Expiry is reported exactly when the crate reports an expired signature,
   * by either decoder.
   */
  lemma ExpiredExactlyWhenCrateSaysSo<T>(lib: Library<T>, token: string, secret: string, n: string, e: string,
                                         audience: seq<string>)
    ensures FromString(lib, token, secret, audience) == Failure(ExpiredTokenError) <==>
      var d := lib.decode(token, SecretDecodingKey(secret), ValidationFor(HS512, audience));
      d.Failure? && d.error.kind == ExpiredSignature
    ensures FromStringJwk(lib, token, n, e, audience) == Failure(ExpiredTokenError) <==>
      var d := lib.decode(token, RsaComponentsDecodingKey(n, e), ValidationFor(RS256, audience));
      lib.fromRsaComponents(n, e).Pass? && d.Failure? && d.error.kind == ExpiredSignature
  {
  }
}
