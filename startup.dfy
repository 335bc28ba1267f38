/**
 * What construction of the shared state can end in: a value, one of the two
 * initialisation errors the service returns, or a panic (`expect`, an index
 * out of bounds), which aborts the process.
 */
module Startup {

  datatype AppStateInitializationError = JwksUrlError(message: string) | JwksParseError(message: string)

  /** The `Display` text of each initialisation error. */
  function Display(e: AppStateInitializationError): (s: string)
    ensures e.JwksUrlError? ==> s == "error while querying the jwks uri: " + e.message
    ensures e.JwksParseError? ==> s == "error while parsing the jwk object: " + e.message
  {
    match e
    case JwksUrlError(m) => "error while querying the jwks uri: " + m
    case JwksParseError(m) => "error while parsing the jwk object: " + m
  }

  /** Distinct initialisation errors read differently. */
  lemma DisplayInjective(a: AppStateInitializationError, b: AppStateInitializationError)
    ensures Display(a) == Display(b) ==> a == b
  {
    assert Display(a)[12] == if a.JwksUrlError? then 'q' else 'p';
    assert Display(b)[12] == if b.JwksUrlError? then 'q' else 'p';
    if Display(a) == Display(b) {
      var prefix := if a.JwksUrlError? then "error while querying the jwks uri: "
                    else "error while parsing the jwk object: ";
      assert Display(a)[|prefix|..] == a.message;
      assert Display(b)[|prefix|..] == b.message;
    }
  }

  datatype Startup<+T> =
    | Started(value: T)
    | Failed(error: AppStateInitializationError)
    | Panicked(message: string)

  /** The process environment, by variable name. */
  type Env = map<string, string>
}
