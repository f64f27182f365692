/** Reachability along a successor function, and the two facts a worklist needs. */
module Reach {
  /** A walk from a starting point, each step to a successor. */
  ghost predicate Walk<T(!new)>(start: set<T>, succ: T -> set<T>, w: seq<T>) {
    w != [] &&
    if |w| == 1 then w[0] in start
    else Walk(start, succ, w[..|w| - 1]) && w[|w| - 1] in succ(w[|w| - 2])
  }

  ghost predicate Reached<T(!new)>(start: set<T>, succ: T -> set<T>, x: T) {
    exists w: seq<T> :: Walk(start, succ, w) && w[|w| - 1] == x
  }

  lemma StartReached<T(!new)>(start: set<T>, succ: T -> set<T>, x: T)
    requires x in start
    ensures Reached(start, succ, x)
  {
    assert Walk(start, succ, [x]) && [x][0] == x;
  }

  lemma NextReached<T(!new)>(start: set<T>, succ: T -> set<T>, x: T, y: T)
    requires Reached(start, succ, x) && y in succ(x)
    ensures Reached(start, succ, y)
  {
    var w: seq<T> :| Walk(start, succ, w) && w[|w| - 1] == x;
    var v := w + [y];
    assert v[..|v| - 1] == w && v[|v| - 2] == x;
    assert Walk(start, succ, v) && v[|v| - 1] == y;
  }

  /** A set that holds the start and is closed holds all that is reached. */
  lemma ClosedHolds<T(!new)>(start: set<T>, succ: T -> set<T>, s: set<T>, x: T)
    requires start <= s && Reached(start, succ, x)
    requires forall y :: y in s ==> succ(y) <= s
    ensures x in s
  {
    var w: seq<T> :| Walk(start, succ, w) && w[|w| - 1] == x;
    WalkStays(start, succ, s, w);
  }

  lemma {:induction false} WalkStays<T(!new)>(start: set<T>, succ: T -> set<T>, s: set<T>, w: seq<T>)
    requires start <= s && Walk(start, succ, w)
    requires forall y :: y in s ==> succ(y) <= s
    ensures w[|w| - 1] in s
  {
    if |w| > 1 {
      WalkStays(start, succ, s, w[..|w| - 1]);
    }
  }
}
