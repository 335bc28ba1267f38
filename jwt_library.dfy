/**
 * The parts of the `jsonwebtoken` crate the service relies on. Token layout,
 * signatures and the crate's own claim checks are not modelled: `encode`,
 * `decode` and the two fallible key builders are supplied as a `Library`
 * value, so every property below holds for any behaviour of the crate.
 */
module JwtLibrary {
  import opened Wrappers
  import opened Types

  datatype Algorithm =
    | HS256 | HS384 | HS512
    | ES256 | ES384
    | RS256 | RS384 | RS512
    | PS256 | PS384 | PS512
    | EdDSA

  /** A token header: the algorithm and an optional key identifier. */
  datatype Header = Header(alg: Algorithm, kid: Option<string>)

  /** `Header::new(alg)`: only the algorithm is set, no key identifier. */
  function NewHeader(alg: Algorithm): (h: Header)
    ensures h.alg == alg && h.kid.None?
  {
    Header(alg, None)
  }

  /**
   * The decode settings the service changes: the accepted algorithms and the
   * required audience. The crate's other defaults are not modelled.
   */
  datatype Validation = Validation(algorithms: seq<Algorithm>, audience: Option<set<string>>)

  /** `Validation::new(alg)`: accepts `alg` only and requires no audience yet. */
  function NewValidation(alg: Algorithm): (v: Validation)
    ensures v.algorithms == [alg] && v.audience.None?
  {
    Validation([alg], None)
  }

  /** `Validation::set_audience(items)`: the required audience becomes the set of the items. */
  function SetAudience(v: Validation, items: seq<string>): (w: Validation)
    ensures w.algorithms == v.algorithms
    ensures w.audience.Some? && forall a :: a in w.audience.value <==> a in items
  {
    v.(audience := Some(set a | a in items))
  }

  /** A signing key, identified by the material it was built from. */
  datatype EncodingKey =
    | SecretEncodingKey(secret: string)
    | RsaPemEncodingKey(pem: seq<byte>)

  /** A verification key, identified by the material it was built from. */
  datatype DecodingKey =
    | SecretDecodingKey(secret: string)
    | RsaComponentsDecodingKey(modulus: string, exponent: string)

  datatype ErrorKind =
    | InvalidToken
    | InvalidSignature
    | InvalidRsaKey
    | InvalidKeyFormat
    | InvalidAlgorithm
    | InvalidAudience
    | InvalidIssuer
    | ImmatureSignature
    | ExpiredSignature
    | MissingRequiredClaim(claim: string)
    | Base64
    | Json
    | Utf8
    | Crypto

  /** A crate error: its kind and its `to_string()` text. */
  datatype Error = Error(kind: ErrorKind, message: string)

  /**
   * The crate's entry points as the service calls them. `fromRsaPem` and
   * `fromRsaComponents` say whether `EncodingKey::from_rsa_pem` and
   * `DecodingKey::from_rsa_components` accept their material; when they do,
   * the key is `RsaPemEncodingKey` or `RsaComponentsDecodingKey` of it.
   * The clock `decode` reads to check `exp` is part of the `Library` value.
   */
  datatype Library<!T> = Library(
    encode: (Header, T, EncodingKey) -> Result<string, Error>,
    decode: (string, DecodingKey, Validation) -> Result<T, Error>,
    fromRsaPem: seq<byte> -> Outcome<Error>,
    fromRsaComponents: (string, string) -> Outcome<Error>)
}
