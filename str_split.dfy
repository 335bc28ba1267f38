/**
 * The behaviour of Rust's `str::split` with a non-empty string pattern,
 * stated as functions on strings: the value is scanned from the left, every
 * match found is cut out, and the search resumes right after it, so matches
 * never overlap.
 */
module StrSplit {
  import opened Wrappers

  /** `p` occurs in `s` starting at index `i`. */
  predicate OccursAt(s: string, p: string, i: nat) {
    i + |p| <= |s| && s[i..i + |p|] == p
  }

  predicate Contains(s: string, p: string) {
    exists i: nat | i <= |s| :: OccursAt(s, p, i)
  }

  /** `i` is where the leftmost occurrence of `p` in `s` starts. */
  predicate FirstAt(s: string, p: string, i: nat) {
    OccursAt(s, p, i) && forall k: nat :: k < i ==> !OccursAt(s, p, k)
  }

  /** The first index at or after `i` where `p` occurs. */
  function FindFrom(s: string, p: string, i: nat): (r: Option<nat>)
    requires i <= |s|
    ensures r.Some? ==> i <= r.value && OccursAt(s, p, r.value)
    ensures r.Some? ==> forall k: nat :: i <= k < r.value ==> !OccursAt(s, p, k)
    ensures r.None? ==> forall k: nat :: i <= k ==> !OccursAt(s, p, k)
    decreases |s| - i
  {
    if i + |p| > |s| then None
    else if s[i..i + |p|] == p then Some(i)
    else FindFrom(s, p, i + 1)
  }

  /** The leftmost occurrence of `p` in `s`, if there is one. */
  function Find(s: string, p: string): (r: Option<nat>)
    ensures r.Some? ==> FirstAt(s, p, r.value)
    ensures r.None? <==> !Contains(s, p)
  {
    FindFrom(s, p, 0)
  }

  /** `s.split(p).collect::<Vec<&str>>()` for a non-empty `p`. */
  function Split(s: string, p: string): (pieces: seq<string>)
    requires |p| > 0
    ensures |pieces| >= 1
    decreases |s|
  {
    match Find(s, p)
    case None => [s]
    case Some(j) => [s[..j]] + Split(s[j + |p|..], p)
  }

  /** The pieces glued back together with `sep` between each two. */
  function Join(pieces: seq<string>, sep: string): string
    decreases |pieces|
  {
    if |pieces| == 0 then []
    else if |pieces| == 1 then pieces[0]
    else pieces[0] + sep + Join(pieces[1..], sep)
  }

  /** `t` is all of `rest` up to the leftmost occurrence of `p`, or all of it if there is none. */
  predicate UpToNextOccurrence(rest: string, p: string, t: string) {
    t <= rest && (FirstAt(rest, p, |t|) || (t == rest && !Contains(rest, p)))
  }

  lemma FirstAtUnique(s: string, p: string, i: nat, j: nat)
    requires FirstAt(s, p, i) && FirstAt(s, p, j)
    ensures i == j
  {
  }

  /** Splitting loses nothing: joining the pieces with the pattern gives the value back. */
  lemma {:induction false} SplitJoin(s: string, p: string)
    requires |p| > 0
    ensures Join(Split(s, p), p) == s
    decreases |s|
  {
    match Find(s, p)
    case None =>
    case Some(j) =>
      var rest := s[j + |p|..];
      var tail := Split(rest, p);
      SplitJoin(rest, p);
      var pieces := [s[..j]] + tail;
      assert pieces[1..] == tail;
      calc {
        Join(pieces, p);
        s[..j] + p + Join(tail, p);
        s[..j] + p + rest;
        { assert s[j..j + |p|] == p; }
        s;
      }
  }

  /** No piece contains the pattern. */
  lemma {:induction false} SplitPiecesAvoidPattern(s: string, p: string)
    requires |p| > 0
    ensures forall piece <- Split(s, p) :: !Contains(piece, p)
    decreases |s|
  {
    match Find(s, p)
    case None =>
    case Some(j) =>
      var rest := s[j + |p|..];
      SplitPiecesAvoidPattern(rest, p);
      PrefixBeforeFirstAvoidsPattern(s, p, j);
      assert Split(s, p) == [s[..j]] + Split(rest, p);
  }

  /** The text in front of the leftmost occurrence contains no occurrence. */
  lemma PrefixBeforeFirstAvoidsPattern(s: string, p: string, j: nat)
    requires |p| > 0 && FirstAt(s, p, j)
    ensures !Contains(s[..j], p)
  {
    var pre := s[..j];
    assert |pre| == j;
    forall i: nat | i <= |pre| && OccursAt(pre, p, i)
      ensures false
    {
      assert i + |p| <= j;
      assert pre[i..i + |p|] == s[i..i + |p|];
      assert OccursAt(s, p, i);
    }
  }

  /** The second piece when the leftmost occurrence starts at `i`. */
  lemma SecondPieceAt(s: string, p: string, i: nat)
    requires |p| > 0 && FirstAt(s, p, i)
    ensures |Split(s, p)| >= 2 && UpToNextOccurrence(s[i + |p|..], p, Split(s, p)[1])
  {
    assert i <= |s|;
    assert Contains(s, p);
    var j := Find(s, p).value;
    FirstAtUnique(s, p, i, j);
    var rest := s[i + |p|..];
    var tail := Split(rest, p);
    assert Split(s, p) == [s[..i]] + tail;
    match Find(rest, p)
    case None =>
      assert tail[0] == rest;
    case Some(k) =>
      assert tail[0] == rest[..k];
  }

  /**
   * There are at least two pieces exactly when the pattern occurs, and the
   * second piece is the text after the leftmost occurrence, up to the next
   * occurrence or the end.
   */
  lemma SecondPiece(s: string, p: string)
    requires |p| > 0
    ensures |Split(s, p)| >= 2 <==> Contains(s, p)
    ensures forall i: nat :: FirstAt(s, p, i) ==>
      |Split(s, p)| >= 2 && UpToNextOccurrence(s[i + |p|..], p, Split(s, p)[1])
  {
    forall i: nat | FirstAt(s, p, i)
      ensures |Split(s, p)| >= 2 && UpToNextOccurrence(s[i + |p|..], p, Split(s, p)[1])
    {
      SecondPieceAt(s, p, i);
    }
  }
}
