/**
 * The request extractor: from the `Authorization` header to verified claims
 * or a structured rejection.
 */
module TokenExtractor {
  import opened Types
  import opened Wrappers
  import opened StrSplit
  import opened JwtLibrary
  import opened HttpErrors
  import opened TokenErrors
  import opened TokenCodec
  import opened Authenticator
  import opened AppState

  const Bearer := "Bearer "

  /** The audience every request's token must carry. */
  const Audience: seq<string> := ["ponga"]

  /**
   * `split("Bearer ")` and `pieces[1]`: there is a token exactly when the
   * value contains `"Bearer "` anywhere (case-sensitively), and it is the text
   * after the first occurrence up to the next one or the end.
   */
  function BearerToken(value: string): (r: Option<string>)
    ensures r.None? <==> !Contains(value, Bearer)
    ensures forall i: nat :: FirstAt(value, Bearer, i) ==>
      r.Some? && UpToNextOccurrence(value[i + |Bearer|..], Bearer, r.value)
  {
    var pieces := Split(value, Bearer);
    SecondPiece(value, Bearer);
    if |pieces| < 2 then None else Some(pieces[1])
  }

  /** "The text up to the next occurrence or the end" names one string. */
  lemma UpToNextOccurrenceUnique(rest: string, p: string, t1: string, t2: string)
    requires UpToNextOccurrence(rest, p, t1) && UpToNextOccurrence(rest, p, t2)
    ensures t1 == t2
  {
    if FirstAt(rest, p, |t1|) { OccurrenceIsContained(rest, p, |t1|); }
    if FirstAt(rest, p, |t2|) { OccurrenceIsContained(rest, p, |t2|); }
    if FirstAt(rest, p, |t1|) && FirstAt(rest, p, |t2|) {
      FirstAtUnique(rest, p, |t1|, |t2|);
      assert t1 == rest[..|t1|] && t2 == rest[..|t2|];
    }
  }

  lemma OccurrenceIsContained(s: string, p: string, i: nat)
    requires OccursAt(s, p, i)
    ensures Contains(s, p)
  {
  }

  /** The token found when the leftmost `"Bearer "` starts at `i`. */
  lemma BearerTokenAt(value: string, i: nat, t: string)
    requires FirstAt(value, Bearer, i)
    requires UpToNextOccurrence(value[i + |Bearer|..], Bearer, t)
    ensures BearerToken(value) == Some(t)
  {
    UpToNextOccurrenceUnique(value[i + |Bearer|..], Bearer, BearerToken(value).value, t);
  }

  /** No `"Bearer "` fits in a value shorter than it. */
  lemma ShortHasNoBearer(s: string)
    requires |s| < |Bearer|
    ensures !Contains(s, Bearer)
  {
  }

  lemma BearerAtStart()
    ensures BearerToken("Bearer abc") == Some("abc")
    ensures BearerToken("Bearer ") == Some("")
  {
    var s1 := "Bearer abc";
    assert s1[..7] == Bearer;
    assert s1[7..] == "abc";
    ShortHasNoBearer("abc");
    BearerTokenAt(s1, 0, "abc");
    var s3 := "Bearer ";
    assert s3[..7] == Bearer;
    assert s3[7..] == "";
    ShortHasNoBearer("");
    BearerTokenAt(s3, 0, "");
  }

  lemma BearerNotAtStart()
    ensures BearerToken("xBearer abc") == Some("abc")
  {
    var s2 := "xBearer abc";
    assert s2[1..8] == Bearer;
    assert !OccursAt(s2, Bearer, 0) by { assert s2[0..7][0] == 'x'; }
    assert FirstAt(s2, Bearer, 1);
    assert s2[8..] == "abc";
    ShortHasNoBearer("abc");
    BearerTokenAt(s2, 1, "abc");
  }

  lemma BearerTwice()
    ensures BearerToken("Bearer a Bearer b") == Some("a ")
  {
    var s4 := "Bearer a Bearer b";
    assert s4[..7] == Bearer;
    var rest4 := s4[7..];
    assert rest4 == "a Bearer b";
    assert rest4[..2] == "a ";
    assert rest4[2..9] == Bearer;
    assert !OccursAt(rest4, Bearer, 0) by { assert rest4[0..7][0] == 'a'; }
    assert !OccursAt(rest4, Bearer, 1) by { assert rest4[1..8][0] == ' '; }
    assert FirstAt(rest4, Bearer, 2);
    BearerTokenAt(s4, 0, "a ");
  }

  lemma NoBearerExamples()
    ensures BearerToken("bearer x") == None
    ensures BearerToken("Token abc") == None
  {
    var s5 := "bearer x";
    forall i: nat | i <= |s5| ensures !OccursAt(s5, Bearer, i) {
      if i == 0 { assert s5[0..7][0] == 'b'; }
      else if i == 1 { assert s5[1..8][0] == 'e'; }
    }
    var s6 := "Token abc";
    forall i: nat | i <= |s6| ensures !OccursAt(s6, Bearer, i) {
      if i == 0 { assert s6[0..7][0] == 'T'; }
      else if i == 1 { assert s6[1..8][0] == 'o'; }
      else if i == 2 { assert s6[2..9][0] == 'k'; }
    }
  }

  /**
   * `from_request_parts`. `authorization` is the header's raw value, if the
   * request has one; `toStr` is the header value's `to_str`.
   */
  function FromRequestParts(lib: Library<PongaToken>, state: AppState, authorization: Option<seq<byte>>,
                            toStr: seq<byte> -> Option<string>)
    : (r: Result<PongaToken, HttpError>)
    ensures authorization.None? ==> r == Failure(Simple(BAD_REQUEST, "no_auth"))
    ensures authorization.Some? && toStr(authorization.value).None? ==>
      r == Failure(Simple(BAD_REQUEST, "invalid_auth_header"))
    ensures authorization.Some? && toStr(authorization.value).Some? ==>
      var value := toStr(authorization.value).value;
      (!Contains(value, Bearer) ==> r == Failure(Simple(BAD_REQUEST, "no_bearer_specified")))
      && (Contains(value, Bearer) ==>
            r == MapError(VerifyJwt(lib, state.authenticator, BearerToken(value).value, Audience), ToHttpError))
  {
    match authorization
    case None => Failure(Simple(BAD_REQUEST, "no_auth"))
    case Some(header) =>
      match toStr(header)
      case None => Failure(Simple(BAD_REQUEST, "invalid_auth_header"))
      case Some(value) =>
        var pieces := Split(value, Bearer);
        SecondPiece(value, Bearer);
        if |pieces| < 2 then Failure(Simple(BAD_REQUEST, "no_bearer_specified"))
        else MapError(VerifyJwt(lib, state.authenticator, pieces[1], Audience), ToHttpError)
  }

  /**
   * Every rejection answers 400 except an expired token, which answers 401,
   * and the body never reports success.
   */
  lemma RejectionStatuses(lib: Library<PongaToken>, state: AppState, authorization: Option<seq<byte>>,
                          toStr: seq<byte> -> Option<string>)
    ensures var r := FromRequestParts(lib, state, authorization, toStr);
      r.Failure? ==>
        && !IntoResponse(r.error).body.success
        && (IntoResponse(r.error).status == BAD_REQUEST || IntoResponse(r.error).status == UNAUTHORIZED)
        && (IntoResponse(r.error).status == UNAUTHORIZED <==>
              && authorization.Some? && toStr(authorization.value).Some?
              && BearerToken(toStr(authorization.value).value).Some?
              && VerifyJwt(lib, state.authenticator, BearerToken(toStr(authorization.value).value).value, Audience)
                 == Failure(ExpiredTokenError))
  {
    var r := FromRequestParts(lib, state, authorization, toStr);
    if authorization.Some? && toStr(authorization.value).Some? {
      var value := toStr(authorization.value).value;
      if Contains(value, Bearer) {
        var v := VerifyJwt(lib, state.authenticator, BearerToken(value).value, Audience);
        if v.Failure? {
          assert r.error == ToHttpError(v.error);
        }
      }
    }
  }

  /** A request whose header reads `Token abc` is rejected with 400 `no_bearer_specified`. */
  lemma TokenSchemeRejected(lib: Library<PongaToken>, state: AppState, header: seq<byte>,
                            toStr: seq<byte> -> Option<string>)
    requires toStr(header) == Some("Token abc")
    ensures var r := FromRequestParts(lib, state, Some(header), toStr);
      r.Failure? && IntoResponse(r.error) == Response(BAD_REQUEST, Body(false, "no_bearer_specified", None))
  {
    NoBearerExamples();
  }
}
