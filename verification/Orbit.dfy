/** A run of states given by nine rows of eleven, and keys that tell the states of the run apart.
    The states, and the form in which their keys are computed, are left open. */
module Orbit {

  /** A key, and the number of steps that lead to it. */
  datatype Rank = Rank(key: int, place: nat)

  /** States, the forms they have, and the ranks of their keys among all keys. */
  datatype Row<T, L> = Row(states: seq<T>, forms: seq<L>, ranks: seq<nat>)

  /** How states follow each other, what state a form stands for, what its key is, the rows and all
      keys in ascending order. */
  datatype Table<!T, !L> = Table(next: T -> T, stateOf: L -> T, ok: L -> bool, keyOf: L -> int,
                                 rowAt: nat -> Row<T, L>, rankAt: nat -> Rank)

  function Iterate<T>(next: T -> T, x: T, m: nat): T { if m == 0 then x else next(Iterate(next, x, m - 1)) }

  /** The first n + 1 states of a row follow each other. */
  predicate Chain<T(==), L>(next: T -> T, row: Row<T, L>, n: nat)
    requires n < |row.states|
  {
    n == 0 || (Chain(next, row, n - 1) && next(row.states[n - 1]) == row.states[n])
  }

  /** Their forms stand for them. */
  predicate Formed<T(==), L>(stateOf: L -> T, ok: L -> bool, row: Row<T, L>, n: nat)
    requires n < |row.states| && n < |row.forms|
  {
    (n == 0 || Formed(stateOf, ok, row, n - 1)) && ok(row.forms[n]) && stateOf(row.forms[n]) == row.states[n]
  }

  /** Their ranks are those of their keys. */
  predicate Ranked<T, L>(keyOf: L -> int, rankAt: nat -> Rank, row: Row<T, L>, at: nat, n: nat)
    requires n < |row.forms| && n < |row.ranks|
  {
    (n == 0 || Ranked(keyOf, rankAt, row, at, n - 1)) && row.ranks[n] <= 90
    && rankAt(row.ranks[n]) == Rank(keyOf(row.forms[n]), at + n)
  }

  ghost predicate IsRow<T, L>(t: Table<T, L>, row: Row<T, L>, at: nat) {
    && |row.states| == |row.forms| == |row.ranks| == 11
    && Chain(t.next, row, 10) && Formed(t.stateOf, t.ok, row, 10) && Ranked(t.keyOf, t.rankAt, row, at, 10)
  }

  predicate Joined<T(==), L>(row: Row<T, L>, following: Row<T, L>) {
    |row.states| == |following.states| == 11 && following.states[0] == row.states[10]
  }

  ghost predicate Ascends(rankAt: nat -> Rank) { forall i :: 0 <= i < 90 ==> rankAt(i).key < rankAt(i + 1).key }

  /** The rows are right, each begins where the one before it ends, and the keys ascend. */
  ghost predicate Right<T, L>(t: Table<T, L>) {
    && (forall i :: 0 <= i < 9 ==> IsRow(t, t.rowAt(i), 10 * i))
    && (forall i :: 0 <= i < 8 ==> Joined(t.rowAt(i), t.rowAt(i + 1)))
    && Ascends(t.rankAt)
  }

  ghost predicate HasRank(rankAt: nat -> Rank, key: int, m: nat) {
    exists i: nat :: i <= 90 && rankAt(i) == Rank(key, m)
  }

  // ---- every state of the run has a rank ----

  lemma {:induction false} Along<T, L>(next: T -> T, row: Row<T, L>, x: T, m: nat, n: nat, k: nat)
    requires n <= k < |row.states| && Chain(next, row, k) && Iterate(next, x, m) == row.states[0]
    ensures Iterate(next, x, m + n) == row.states[n]
  {
    if n < k {
      Along(next, row, x, m, n, k - 1);
    } else if n > 0 {
      Along(next, row, x, m, n - 1, n - 1);
    }
  }

  lemma {:induction false} FormOf<T, L>(stateOf: L -> T, ok: L -> bool, row: Row<T, L>, n: nat, k: nat)
    requires n <= k && k < |row.states| && k < |row.forms| && Formed(stateOf, ok, row, k)
    ensures ok(row.forms[n]) && stateOf(row.forms[n]) == row.states[n]
  {
    if n < k { FormOf(stateOf, ok, row, n, k - 1); }
  }

  lemma {:induction false} RankOf<T, L>(keyOf: L -> int, rankAt: nat -> Rank, row: Row<T, L>, at: nat, n: nat, k: nat)
    requires n <= k && k < |row.forms| && k < |row.ranks| && Ranked(keyOf, rankAt, row, at, k)
    ensures row.ranks[n] <= 90 && rankAt(row.ranks[n]) == Rank(keyOf(row.forms[n]), at + n)
  {
    if n < k { RankOf(keyOf, rankAt, row, at, n, k - 1); }
  }

  lemma {:induction false} RowStarts<T, L>(t: Table<T, L>, x: T, i: nat)
    requires i < 9 && Right(t) && IsRow(t, t.rowAt(0), 0) && t.rowAt(0).states[0] == x
    ensures IsRow(t, t.rowAt(i), 10 * i) && Iterate(t.next, x, 10 * i) == t.rowAt(i).states[0]
  {
    if i > 0 {
      RowStarts(t, x, i - 1);
      assert Joined(t.rowAt(i - 1), t.rowAt(i - 1 + 1));
      Along(t.next, t.rowAt(i - 1), x, 10 * (i - 1), 10, 10);
    }
  }

  /** Among the keys is that of the state after m steps, under its number of steps. */
  lemma StateHasRank<T, L>(t: Table<T, L>, x: T, m: nat) returns (form: L)
    requires m <= 90 && Right(t) && IsRow(t, t.rowAt(0), 0) && t.rowAt(0).states[0] == x
    ensures t.ok(form) && t.stateOf(form) == Iterate(t.next, x, m) && HasRank(t.rankAt, t.keyOf(form), m)
  {
    var i := if m == 90 then 8 else m / 10;
    var row, n := t.rowAt(i), m - 10 * i;
    RowStarts(t, x, i);
    Along(t.next, row, x, 10 * i, n, 10);
    FormOf(t.stateOf, t.ok, row, n, 10);
    RankOf(t.keyOf, t.rankAt, row, 10 * i, n, 10);
    form := row.forms[n];
  }

  // ---- different places have different keys ----

  lemma {:induction false} RanksRise(rankAt: nat -> Rank, i: nat, j: nat)
    requires Ascends(rankAt) && i < j <= 90
    ensures rankAt(i).key < rankAt(j).key
  {
    assert rankAt(j - 1).key < rankAt(j - 1 + 1).key;
    if i < j - 1 { RanksRise(rankAt, i, j - 1); }
  }

  lemma PlacesApart(rankAt: nat -> Rank, key: int, m: nat, n: nat)
    requires Ascends(rankAt) && HasRank(rankAt, key, m) && HasRank(rankAt, key, n)
    ensures m == n
  {
    var i: nat :| i <= 90 && rankAt(i) == Rank(key, m);
    var j: nat :| j <= 90 && rankAt(j) == Rank(key, n);
    if i < j { RanksRise(rankAt, i, j); }
    if j < i { RanksRise(rankAt, j, i); }
  }

  /** States at different places of the run have forms with different keys. */
  lemma KeysApart<T, L>(t: Table<T, L>, x: T, m: nat, n: nat) returns (f: L, g: L)
    requires Right(t) && IsRow(t, t.rowAt(0), 0) && t.rowAt(0).states[0] == x && m <= 90 && n <= 90 && m != n
    ensures t.ok(f) && t.stateOf(f) == Iterate(t.next, x, m)
    ensures t.ok(g) && t.stateOf(g) == Iterate(t.next, x, n)
    ensures t.keyOf(f) != t.keyOf(g)
  {
    f := StateHasRank(t, x, m);
    g := StateHasRank(t, x, n);
    if t.keyOf(f) == t.keyOf(g) { PlacesApart(t.rankAt, t.keyOf(f), m, n); }
  }

  // ---- rows of ascending keys ----

  /** The first n + 1 keys of a row ascend. */
  predicate Rising(row: seq<Rank>, n: nat)
    requires n < |row|
  {
    n == 0 || (Rising(row, n - 1) && row[n - 1].key < row[n].key)
  }

  lemma {:induction false} RowRises(row: seq<Rank>, i: nat, n: nat)
    requires i < n < |row| && Rising(row, n)
    ensures row[i].key < row[i + 1].key
  {
    if i < n - 1 { RowRises(row, i, n - 1); }
  }
}
