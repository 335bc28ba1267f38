/**
 * The key-pair authenticator: RS256, verifying with the first key of a key
 * set fetched once at start and signing with a private key read from a file.
 */
module Asymmetric {
  import opened Types
  import opened JwtLibrary
  import opened Wrappers
  import opened TokenErrors
  import opened TokenCodec
  import opened Startup

  /** One entry of the key set; fields other than `n` and `e` are ignored. */
  datatype JwkObject = JwkObject(n: string, e: string)

  datatype JwksEndpointResponse = JwksEndpointResponse(keys: seq<JwkObject>)

  /** The outcome of deserialising the reply body as a key set. */
  datatype BodyOutcome = Parsed(response: JwksEndpointResponse) | Unparsable(message: string)

  /** The outcome of sending the GET request: a transport failure, or a reply of any status. */
  datatype FetchOutcome = SendFailed(message: string) | Received(status: nat, body: BodyOutcome)

  /** The outcome of reading a file. */
  datatype ReadOutcome = Read(bytes: seq<byte>) | ReadFailed(message: string)

  /** The client timeout, in seconds, for the key-set request. */
  const JwksTimeoutSeconds: nat := 2

  const ReadPanic := "cannot read private_key"
  const IndexPanic := "index out of bounds: the len is 0 but the index is 0"

  datatype Asymmetric = Asymmetric(jwkUri: string, n: string, e: string, privateKey: seq<byte>)

  /**
   * `Asymmetric::new`. `fetch(uri, timeout)` is the outcome of the GET request
   * and of deserialising its body; `readFile(path)` that of reading the file.
   */
  function New(jwkUri: string, privateKeyPath: string,
               fetch: (string, nat) -> FetchOutcome, readFile: string -> ReadOutcome)
    : (r: Startup<Asymmetric>)
    ensures fetch(jwkUri, JwksTimeoutSeconds).SendFailed? ==>
      r == Failed(JwksUrlError(fetch(jwkUri, JwksTimeoutSeconds).message))
    ensures fetch(jwkUri, JwksTimeoutSeconds).Received? && fetch(jwkUri, JwksTimeoutSeconds).body.Unparsable? ==>
      r == Failed(JwksParseError(fetch(jwkUri, JwksTimeoutSeconds).body.message))
    ensures fetch(jwkUri, JwksTimeoutSeconds).Received? && fetch(jwkUri, JwksTimeoutSeconds).body.Parsed? ==>
      var keys := fetch(jwkUri, JwksTimeoutSeconds).body.response.keys;
      match readFile(privateKeyPath)
      case ReadFailed(_) => r == Panicked(ReadPanic)
      case Read(bytes) =>
        if |keys| == 0 then r == Panicked(IndexPanic)
        else r == Started(Asymmetric(jwkUri, keys[0].n, keys[0].e, bytes))
  {
    match fetch(jwkUri, JwksTimeoutSeconds)
    case SendFailed(m) => Failed(JwksUrlError(m))
    case Received(_, Unparsable(m)) => Failed(JwksParseError(m))
    case Received(_, Parsed(response)) =>
      match readFile(privateKeyPath)
      case ReadFailed(_) => Panicked(ReadPanic)
      case Read(privateKey) =>
        if |response.keys| == 0 then Panicked(IndexPanic)
        else Started(Asymmetric(jwkUri, response.keys[0].n, response.keys[0].e, privateKey))
  }

  /** The private key file is read only after the key set was fetched and parsed. */
  lemma KeyFileReadOnlyAfterFetch(jwkUri: string, privateKeyPath: string, fetch: (string, nat) -> FetchOutcome,
                                  read1: string -> ReadOutcome, read2: string -> ReadOutcome)
    requires !(fetch(jwkUri, JwksTimeoutSeconds).Received? && fetch(jwkUri, JwksTimeoutSeconds).body.Parsed?)
    ensures New(jwkUri, privateKeyPath, fetch, read1) == New(jwkUri, privateKeyPath, fetch, read2)
    ensures New(jwkUri, privateKeyPath, fetch, read1).Failed?
  {
  }

  /** The reply's status is never looked at: only whether its body parses. */
  lemma StatusNeverChecked(jwkUri: string, privateKeyPath: string, fetch1: (string, nat) -> FetchOutcome,
                           fetch2: (string, nat) -> FetchOutcome, readFile: string -> ReadOutcome)
    requires fetch1(jwkUri, JwksTimeoutSeconds).Received? && fetch2(jwkUri, JwksTimeoutSeconds).Received?
    requires fetch1(jwkUri, JwksTimeoutSeconds).body == fetch2(jwkUri, JwksTimeoutSeconds).body
    ensures New(jwkUri, privateKeyPath, fetch1, readFile) == New(jwkUri, privateKeyPath, fetch2, readFile)
  {
  }

  /** Only the first key of the set matters. */
  lemma OnlyFirstKeyUsed(jwkUri: string, privateKeyPath: string, fetch1: (string, nat) -> FetchOutcome,
                         fetch2: (string, nat) -> FetchOutcome, readFile: string -> ReadOutcome)
    requires fetch1(jwkUri, JwksTimeoutSeconds).Received? && fetch1(jwkUri, JwksTimeoutSeconds).body.Parsed?
    requires fetch2(jwkUri, JwksTimeoutSeconds).Received? && fetch2(jwkUri, JwksTimeoutSeconds).body.Parsed?
    requires var k1 := fetch1(jwkUri, JwksTimeoutSeconds).body.response.keys;
             var k2 := fetch2(jwkUri, JwksTimeoutSeconds).body.response.keys;
             |k1| > 0 && |k2| > 0 && k1[0] == k2[0]
    ensures New(jwkUri, privateKeyPath, fetch1, readFile) == New(jwkUri, privateKeyPath, fetch2, readFile)
  {
  }

  /** `verify_jwt`: RS256 verification with the stored components; errors pass through. */
  function VerifyJwt(lib: Library<PongaToken>, a: Asymmetric, token: string, aud: seq<string>)
    : (r: Result<PongaToken, TokenError>)
    ensures VerifiedRS256(lib, token, a.n, a.e, aud, r)
  {
    FromStringJwk(lib, token, a.n, a.e, aud)
  }

  /** `create_jwt`: RS256 signing with the stored private key; errors pass through. */
  function CreateJwt(lib: Library<PongaToken>, a: Asymmetric, claims: PongaToken)
    : (r: Result<string, TokenError>)
    ensures SignedRS256(lib, claims, a.privateKey, r)
    ensures r.Failure? ==> r.error.CrateError?
  {
    SignRsa(lib, claims, a.privateKey)
  }
}
