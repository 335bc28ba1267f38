# Request authentication core of pongaok, in Dafny

This project models how the service decides whether a request is authenticated.
It covers four steps:

- reading the `Authorization` header and finding the bearer token in it;
- handing the token to one of two authenticators: a pre-shared secret with HS512, or an RSA key pair with RS256 whose public half comes from a remote key set;
- choosing and building that authenticator once at startup, from the configured mode;
- turning every failure into an HTTP status and a JSON body.

The `jsonwebtoken` crate is given as a value `JwtLibrary.Library` whose fields are
`encode`, `decode` and the two fallible key builders. Every property proved here
therefore holds whatever the crate does. The environment, the key-set request, the
private-key file read and the header's `to_str` are parameters too. Panics (`expect`,
indexing an empty key list) are an explicit `Panicked` outcome. They are kept apart
from the two initialisation errors the code returns.

Module layout, following the source files:

- `Wrappers`, `Types`: `Option`, `Result`, `Outcome`, `byte`, `Usize`.
- `StrSplit`: Rust's `str::split` with a non-empty pattern (leftmost matches, no overlap), with `Join`, which undoes splitting.
- `JwtLibrary`: algorithms, headers, validations, keys, crate errors, the `Library` record.
- `HttpErrors` (`src/web/errors/http_error.rs`), `TokenErrors` (`src/web/errors/token_error.rs`).
- `TokenCodec` and `TokenExtractor` (`src/web/extractors/token.rs`, split in two because the extractor needs the application state).
- `Symmetric`, `Asymmetric`, `Authenticator` (`src/web/authenticator/`).
- `Startup`, `AuthMode`, `AppState` (`src/web/app_state.rs`, `src/auth_mode.rs`).

Behaviour the model pins down:

- A token is found when the header contains `"Bearer "` anywhere, not only at the start. The match is case-sensitive. The token runs from after the first occurrence up to the next occurrence or the end. For example, `"xBearer abc"` gives `abc`, `"Bearer "` gives the empty token, and `"Bearer a Bearer b"` gives `"a "`.
- The status of the key-set reply is never checked. Only a failed send (`JwksUrlError`) or a body that does not parse (`JwksParseError`) is an initialisation error.
- The private key is read only after the key set was fetched and parsed. An unreadable key file panics; it does not return an initialisation error.

## Model

| member | source | states |
|---|---|---|
| `StrSplit.FindFrom` | src/web/extractors/token.rs:121 | the result is the first index at or after `i` where the pattern occurs; no result means there is no occurrence from `i` on |
| `StrSplit.Find` | src/web/extractors/token.rs:121 | the result is the leftmost occurrence, and there is none exactly when the value does not contain the pattern |
| `StrSplit.Split` | src/web/extractors/token.rs:121 | `split` always yields at least one piece |
| `StrSplit.SplitJoin` | src/web/extractors/token.rs:121 | joining the pieces back with the pattern gives the original value (no text is lost or added) |
| `StrSplit.SplitPiecesAvoidPattern` | src/web/extractors/token.rs:121 | no piece contains the pattern |
| `StrSplit.SecondPieceAt` | src/web/extractors/token.rs:121-128 | when the leftmost occurrence starts at `i`, there are at least two pieces, and `pieces[1]` is the text after it up to the next occurrence or the end |
| `StrSplit.SecondPiece` | src/web/extractors/token.rs:121-128 | at least two pieces exactly when the pattern occurs; the second piece is as above |
| `TokenExtractor.BearerToken` | src/web/extractors/token.rs:121-128 | no token exactly when the value lacks `"Bearer "`; otherwise the token is the text after the first `"Bearer "`, up to the next one or the end |
| `TokenExtractor.UpToNextOccurrenceUnique` | src/web/extractors/token.rs:128 | "the text up to the next occurrence or the end" determines one string |
| `TokenExtractor.BearerTokenAt` | src/web/extractors/token.rs:121-128 | a string that meets that description is the token the extractor takes |
| `TokenExtractor.BearerAtStart` | src/web/extractors/token.rs:121-128 | `"Bearer abc"` gives `abc`; `"Bearer "` gives the empty token, not a rejection |
| `TokenExtractor.BearerNotAtStart` | src/web/extractors/token.rs:121-128 | `"xBearer abc"` gives `abc`: the match is not a prefix check |
| `TokenExtractor.BearerTwice` | src/web/extractors/token.rs:121-128 | `"Bearer a Bearer b"` gives `"a "`: the token stops at the next `"Bearer "` |
| `TokenExtractor.NoBearerExamples` | src/web/extractors/token.rs:121-127 | `"bearer x"` and `"Token abc"` have no token (the match is case-sensitive) |
| `TokenExtractor.FromRequestParts` | src/web/extractors/token.rs:113-143 | no header gives 400 `no_auth` whatever the authenticator; an unreadable header gives 400 `invalid_auth_header`; no `"Bearer "` gives 400 `no_bearer_specified`; otherwise the result is the authenticator's verdict on the bearer token with audience exactly `["ponga"]`, its error converted to an HTTP error |
| `TokenExtractor.RejectionStatuses` | src/web/extractors/token.rs:113-143 | every rejection body has `success = false` and status 400 or 401; status 401 happens exactly when the verifier reported an expired token |
| `TokenExtractor.TokenSchemeRejected` | src/web/extractors/token.rs:121-127 | the header `Token abc` is answered with 400 `{"success": false, "error": "no_bearer_specified"}` |
| `TokenCodec.ValidationFor` | src/web/extractors/token.rs:43-44 | the decoders' validation accepts exactly one algorithm, and the required audience is exactly the given items |
| `TokenCodec.SignRsa` | src/web/extractors/token.rs:13-24 | a PEM the crate rejects gives `CrateError` with the crate's message and nothing is encoded; otherwise it is the crate's RS256 `encode` with the PEM key, a crate error becoming `CrateError`; every failure is a `CrateError` |
| `TokenCodec.Sign` | src/web/extractors/token.rs:26-36 | the crate's HS512 `encode` with the secret key, a crate error becoming `CrateError` with its message; every failure is a `CrateError` |
| `TokenCodec.FromString` | src/web/extractors/token.rs:38-59 | the crate's `decode` with the secret key, accepting only HS512 and the given audience: its claims on success, `ExpiredTokenError` for an expired signature, `CrateError` with the crate's message otherwise; never `InvalidKeyError` |
| `TokenCodec.FromStringJwk` | src/web/extractors/token.rs:61-87 | components the crate rejects give `InvalidKeyError`; otherwise the crate's `decode` with the RSA key, accepting only RS256 and the given audience, reported as above; `InvalidKeyError` happens exactly when the components are rejected |
| `TokenCodec.FromLibraryError` | src/web/extractors/token.rs:90-94 | every crate error becomes `CrateError` of the crate's message |
| `TokenCodec.FromDecodeError` | src/web/extractors/token.rs:53-56 | in the decoders' error arm, `ExpiredTokenError` exactly for an expired signature and `CrateError` of the message otherwise; never `InvalidKeyError` |
| `TokenCodec.BadKeySkipsDecode` | src/web/extractors/token.rs:69-85 | with rejected components the result does not depend on the crate's `decode`, the token or the audience: decoding is not attempted |
| `TokenCodec.ExpiredExactlyWhenCrateSaysSo` | src/web/extractors/token.rs:51-81 | both decoders report `ExpiredTokenError` exactly when the crate reports `ExpiredSignature` (and, for RS256, the key was built) |
| `TokenErrors.Display` | src/web/errors/token_error.rs:5-13 | the display texts are `"jsonwebtoken crate: " + e`, `"invalid_key"` and `"expired_token"` |
| `TokenErrors.DisplayInjective` | src/web/errors/token_error.rs:5-13 | the display texts `"jsonwebtoken crate: " + e`, `"invalid_key"` and `"expired_token"` tell the three errors apart |
| `TokenErrors.ToHttpError` | src/web/errors/token_error.rs:15-32 | always a `Simple` error; `CrateError(e)` gives 400 `"bad_token: " + e`, `InvalidKeyError` 400 `invalid_key`, `ExpiredTokenError` 401 `expired_token`; 401 exactly for an expired token and 400 otherwise |
| `TokenErrors.BadTokenIsNotInvalidKey` | src/web/errors/token_error.rs:18-25 | no crate message makes the `bad_token` reply equal the `invalid_key` reply |
| `TokenErrors.ResponsesDistinguishTokenErrors` | src/web/errors/token_error.rs:15-32 | distinct token errors give distinct HTTP responses |
| `HttpErrors.IntoResponse` | src/web/errors/http_error.rs:14-41 | `success` is always false; `ParsingError(text, _)` gives 400 with error `text`; `InvalidFieldsError(m)` gives 400 `invalid_fields` with `fields` equal to the key set of `m`; `Simple(code, msg)` gives exactly `code` and `msg`; `DatabaseError` gives 500 `fatal_error`; a field list appears only for field errors |
| `HttpErrors.ParsingStatusIgnored` | src/web/errors/http_error.rs:17-20 | a parsing error answers 400 whatever status it carries |
| `HttpErrors.ServerErrorSources` | src/web/errors/http_error.rs:14-41 | status 500 comes only from `DatabaseError` or a `Simple` error carrying 500 |
| `HttpErrors.FromJsonRejection` | src/web/errors/http_error.rs:43-48 | a JSON rejection becomes `ParsingError("invalid_body", its status)` and is answered 400 `invalid_body` |
| `HttpErrors.FromValidationErrors` | src/web/errors/http_error.rs:50-55 | validation failures become `InvalidFieldsError` of the same map, answered 400 `invalid_fields` with exactly the failing field names |
| `HttpErrors.FromJoinError` | src/web/errors/http_error.rs:56-61 | a join error is answered 500 `async_error` |
| `HttpErrors.FromJwtError` | src/web/errors/http_error.rs:62-66 | a crate error is answered 500 `bad_jwt`, without its message |
| `HttpErrors.FromRqliteError` | src/web/errors/http_error.rs:68-72 | an rqlite error is answered 500 `"bad_rqlite_request: " + message` |
| `Symmetric.VerifyJwt` | src/web/authenticator/symmetric.rs:14-21 | HS512-only decoding with the stored secret and the given audience, reported as `from_string` reports it (errors unchanged); never `InvalidKeyError` |
| `Symmetric.CreateJwt` | src/web/authenticator/symmetric.rs:23-29 | HS512 signing with the same stored secret, errors unchanged; every failure is a `CrateError` |
| `Symmetric.New` | src/web/authenticator/symmetric.rs:32-37 | never an initialisation error; it succeeds exactly when `JWT_SECRET` is set, storing its value, and panics otherwise |
| `Asymmetric.New` | src/web/authenticator/asymmetric.rs:42-65 | a failed send (with the 2-second timeout) gives `JwksUrlError(msg)`; an unparsable body gives `JwksParseError(msg)`; after a parse, an unreadable key file or an empty key list panics; otherwise the result stores the input URI, `keys[0].n`, `keys[0].e` and the file's bytes |
| `Asymmetric.KeyFileReadOnlyAfterFetch` | src/web/authenticator/asymmetric.rs:50-58 | when the fetch or parse fails, the result is an initialisation error that does not depend on the file system |
| `Asymmetric.StatusNeverChecked` | src/web/authenticator/asymmetric.rs:50-56 | replies with the same body give the same result whatever their HTTP status |
| `Asymmetric.OnlyFirstKeyUsed` | src/web/authenticator/asymmetric.rs:59-64 | key sets with the same first key give the same result; the other entries are ignored |
| `Asymmetric.VerifyJwt` | src/web/authenticator/asymmetric.rs:70-77 | RS256-only decoding with the stored `n` and `e`, reported as `from_string_jwk` reports it, errors unchanged |
| `Asymmetric.CreateJwt` | src/web/authenticator/asymmetric.rs:79-85 | RS256 signing with the stored private key, errors unchanged; every failure is a `CrateError` |
| `Authenticator.VerifyJwt` | src/web/authenticator/mod.rs:9-14 | the symmetric variant verifies HS512 with its secret and the asymmetric variant RS256 with its components; only the asymmetric variant can report `InvalidKeyError` |
| `Authenticator.CreateJwt` | src/web/authenticator/mod.rs:15-18 | the symmetric variant signs HS512 with its secret and the asymmetric variant RS256 with its private key; every failure is a `CrateError` |
| `AppState.FirstMissing` | src/web/app_state.rs:28-35 | the first of the names, in reading order, that is not set: every name before it is set; none exactly when all are set |
| `AppState.New` | src/web/app_state.rs:25-63 | a missing variable panics, and a missing rqlite variable panics with the first missing name in the order host, user, password; in symmetric mode with every variable set, startup succeeds with the `Symmetric` authenticator holding `JWT_SECRET`; symmetric mode never returns an initialisation error; a built state holds the variant named by the mode; in asymmetric mode the outcome of `Asymmetric::new` on `JWK_URI` and `PRIVATE_KEY_PATH` is passed on unchanged; in symmetric mode the secret is `JWT_SECRET` |
| `AppState.InitErrorsComeFromKeySet` | src/web/app_state.rs:39-50 | an initialisation error happens only in asymmetric mode, and it is exactly the error `Asymmetric::new` returned |
| `Startup.Display` | src/web/app_state.rs:16-22 | the display texts are `"error while querying the jwks uri: " + m` and `"error while parsing the jwk object: " + m` |
| `Startup.DisplayInjective` | src/web/app_state.rs:16-22 | the two initialisation errors, each carrying a message, have display texts that tell them and their messages apart |

## Left out

- HTTP fetch, file read and `env::var`: modelled only by their outcomes. The network and the file system are functions passed in. The environment is a map; a variable that is not valid Unicode counts as missing.
- The 2-second timeout is only the argument passed to the fetch. What a timeout does is part of the fetch outcome.
- The `reqwest` client builder's `unwrap` and the rqlite client's `build().expect`: both are assumed to succeed. The rqlite client itself is not part of `AppState`; only the order in which its variables are read is modelled.
- Panic messages: the text given to `expect`, or the standard index-out-of-bounds text. The error detail that Rust appends after the `expect` text is not modelled.
- Inside `jsonwebtoken`: the token format, HMAC-SHA512 and RSA-SHA256 signatures (section 3 of RFC 7518), and the crate's own expiry and audience checks. `Validation` keeps only the accepted algorithms and the audience; the crate's other defaults are not modelled.
- Round trip from signing to verifying: not stated. `PongaToken` has no `aud` field while verification always requires an audience, so the code gives no ground for it.
- The `Token<T>` wrapper: the model returns the claims directly.
- axum glue (`FromRequestParts`, `FromRef`, `IntoResponse`, `Json`): the header is an optional byte string, and `HeaderValue::to_str` is a function passed in.
- `src/web/extractors/body.rs`, `src/web/app.rs` and `src/main.rs`: the body extractor, router and server bootstrap are not part of this model. The JSON parsing of `AUTH_MODE` is library behaviour and is not modelled.
- `Arc`, `Send`, `Sync` and async scheduling: concurrency, with no effect on the decision logic.
- Field-error order: the names come from a hash map, so the `fields` list of an `InvalidFieldsError` response is a set.
- The clock that the crate's `decode` reads to check `exp` is not a separate input. It is part of the `Library` value passed to each call.
- The `tracing::info!` log line after the key set is fetched has no effect on any outcome and is not modelled.
- Integer widths: `exp` and `iat` are 64-bit `usize`. No arithmetic is done on them here.
