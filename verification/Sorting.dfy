/** Insertion into a list in ascending order, for any order. */
module Sorting {
  function Insert<T>(le: (T, T) -> bool, x: T, s: seq<T>): (t: seq<T>)
    ensures |t| == |s| + 1
  {
    if s == [] then [x] else if le(x, s[0]) then [x] + s else [s[0]] + Insert(le, x, s[1..])
  }

  /** What the tail keeps before x, the whole list keeps. */
  lemma InsertTake<T>(le: (T, T) -> bool, x: T, s: seq<T>, m: nat)
    requires s != [] && !le(x, s[0]) && 1 <= m <= |s|
    requires Insert(le, x, s[1..])[..m - 1] == s[1..][..m - 1]
    ensures Insert(le, x, s)[..m] == s[..m]
  {
    assert Insert(le, x, s) == [s[0]] + Insert(le, x, s[1..]);
    assert s[..m] == [s[0]] + s[1..][..m - 1];
  }

  ghost predicate IsOrder<T(!new)>(le: (T, T) -> bool) {
    && (forall a, b :: le(a, b) || le(b, a))
    && (forall a, b, c :: le(a, b) && le(b, c) ==> le(a, c))
  }

  ghost predicate Ascending<T>(le: (T, T) -> bool, s: seq<T>) {
    forall i, j :: 0 <= i < j < |s| ==> le(s[i], s[j])
  }

  /** x comes before everything in s. */
  ghost predicate Below<T>(le: (T, T) -> bool, x: T, s: seq<T>) {
    forall i :: 0 <= i < |s| ==> le(x, s[i])
  }

  lemma {:induction false} InsertContents<T>(le: (T, T) -> bool, x: T, s: seq<T>)
    ensures multiset(Insert(le, x, s)) == multiset(s) + multiset{x}
  {
    if s != [] && !le(x, s[0]) {
      InsertContents(le, x, s[1..]);
      assert s == [s[0]] + s[1..];
    }
  }

  lemma {:induction false} InsertBelow<T>(le: (T, T) -> bool, low: T, x: T, s: seq<T>)
    requires Below(le, low, s) && le(low, x)
    ensures Below(le, low, Insert(le, x, s))
  {
    if s != [] && !le(x, s[0]) { InsertBelow(le, low, x, s[1..]); }
  }

  lemma {:induction false} InsertAscends<T(!new)>(le: (T, T) -> bool, x: T, s: seq<T>)
    requires IsOrder(le) && Ascending(le, s)
    ensures Ascending(le, Insert(le, x, s))
  {
    if s != [] && !le(x, s[0]) {
      InsertAscends(le, x, s[1..]);
      InsertBelow(le, s[0], x, s[1..]);
    }
  }
}
