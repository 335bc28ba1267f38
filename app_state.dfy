/** Construction of the shared state: the authenticator chosen by the mode. */
module AppState {
  import opened Startup
  import opened Authenticator
  import AuthMode
  import Symmetric
  import Asymmetric

  /** The state handed to every request; the database client is not modelled. */
  datatype AppState = AppState(authenticator: Authenticator)

  /** What construction reads from outside: the environment, the network and the file system. */
  datatype World = World(
    env: Env,
    fetch: (string, nat) -> Asymmetric.FetchOutcome,
    readFile: string -> Asymmetric.ReadOutcome)

  /** The database client's variables, read first in either mode. */
  const RqliteVars: seq<string> := ["RQLITE_HOST", "RQLITE_USER", "RQLITE_PASSWORD"]

  /** Every variable construction in `mode` needs. */
  function RequiredVars(mode: AuthMode.AuthMode): set<string> {
    (set x | x in RqliteVars) +
    (if mode.Asymmetric? then {"JWK_URI", "PRIVATE_KEY_PATH"} else {"JWT_SECRET"})
  }

  /** The first of `names` missing from `env`, read in order. */
  function FirstMissing(env: Env, names: seq<string>): (r: Wrappers.Option<string>)
    ensures r.None? <==> forall x <- names :: x in env
    ensures r.Some? ==> r.value in names && r.value !in env
    ensures r.Some? ==> exists k | 0 <= k < |names| :: names[k] == r.value && forall j | 0 <= j < k :: names[j] in env
  {
    if |names| == 0 then Wrappers.None
    else if names[0] !in env then Wrappers.Some(names[0])
    else FirstMissing(env, names[1..])
  }

  /** `AppState::new`. */
  function New(mode: AuthMode.AuthMode, world: World): (r: Startup<AppState>)
    ensures !(RequiredVars(mode) <= world.env.Keys) ==> r.Panicked?
    ensures FirstMissing(world.env, RqliteVars).Some? ==>
      r == Panicked(FirstMissing(world.env, RqliteVars).value + " is not defined")
    ensures mode.Symmetric? && RequiredVars(mode) <= world.env.Keys ==>
      r == Started(AppState(SymmetricAuth(Symmetric.Symmetric(world.env["JWT_SECRET"]))))
    ensures mode.Symmetric? ==> !r.Failed?
    ensures r.Started? ==> (r.value.authenticator.AsymmetricAuth? <==> mode.Asymmetric?)
    ensures r.Started? && mode.Symmetric? ==>
      r.value.authenticator == SymmetricAuth(Symmetric.Symmetric(world.env["JWT_SECRET"]))
    ensures mode.Asymmetric? && RequiredVars(mode) <= world.env.Keys ==>
      var a := Asymmetric.New(world.env["JWK_URI"], world.env["PRIVATE_KEY_PATH"], world.fetch, world.readFile);
      match a
      case Started(k) => r == Started(AppState(AsymmetricAuth(k)))
      case Failed(e) => r == Failed(e)
      case Panicked(m) => r == Panicked(m)
  {
    match FirstMissing(world.env, RqliteVars)
    case Some(name) => Panicked(name + " is not defined")
    case None =>
      if mode.Asymmetric? then
        if "JWK_URI" !in world.env then Panicked("JWK_URI is not defined")
        else if "PRIVATE_KEY_PATH" !in world.env then Panicked("PRIVATE_KEY_PATH is not defined")
        else
          match Asymmetric.New(world.env["JWK_URI"], world.env["PRIVATE_KEY_PATH"], world.fetch, world.readFile)
          case Started(k) => Started(AppState(AsymmetricAuth(k)))
          case Failed(e) => Failed(e)
          case Panicked(m) => Panicked(m)
      else
        match Symmetric.New(world.env)
        case Started(s) => Started(AppState(SymmetricAuth(s)))
        case Failed(e) => Failed(e)
        case Panicked(m) => Panicked(m)
  }

  /** An initialisation error only ever comes from the key-set fetch, unchanged. */
  lemma InitErrorsComeFromKeySet(mode: AuthMode.AuthMode, world: World)
    ensures New(mode, world).Failed? ==>
      && mode.Asymmetric?
      && RequiredVars(mode) <= world.env.Keys
      && Asymmetric.New(world.env["JWK_URI"], world.env["PRIVATE_KEY_PATH"], world.fetch, world.readFile)
         == Failed(New(mode, world).error)
  {
  }
}
