/** The choice of a TLS fingerprint for a box from the signed weighted list. */
module FingerprintPick {
  import opened Prelude
  import opened Json
  import opened Sorting
  import opened Text
  import opened Weights
  import P = Payload

  const DEFAULT: string := "chrome"

  /** Escaped stands for an exception that is not a ConfigError. */
  datatype Pick = Picked(fp: string) | ConfigError | Escaped

  function Pos(w: int): nat { if w > 0 then w else 0 }

  function Total(ws: seq<Weighted>): nat {
    if ws == [] then 0 else Pos(ws[0].weight) + Total(ws[1..])
  }

  /** The fingerprint whose bucket holds index idx, the buckets laid out in list order. */
  function PickFrom(ws: seq<Weighted>, idx: nat): Option<string> {
    if ws == [] then None
    else if idx < Pos(ws[0].weight) then Some(ws[0].fp)
    else PickFrom(ws[1..], idx - Pos(ws[0].weight))
  }

  /** The sum of the positive weights of one fingerprint. */
  function Share(ws: seq<Weighted>, fp: string): nat {
    if ws == [] then 0 else (if ws[0].fp == fp then Pos(ws[0].weight) else 0) + Share(ws[1..], fp)
  }

  predicate AllKnown(ws: seq<Weighted>) {
    forall i :: 0 <= i < |ws| ==> ws[i].fp in P.KNOWN_FINGERPRINTS
  }

  /** The pairs a list is read as; what iteration over another JSON value yields is malformed or,
      for a number or a boolean, not iterable. */
  function Pairs(co: P.Coercion, raw: Json): Option<P.Result<seq<Weighted>>> {
    match raw
    case Arr(items) => Some(P.ReadWeightedList(co, items))
    case Str(_) => Some(P.Err(P.TypeError))
    case Lone(_) => Some(P.Err(P.TypeError))
    case Obj(_) => Some(P.Err(P.TypeError))
    case Odd(_, _) => Some(P.Err(P.TypeError))
    case _ => None
  }

  function PickOf(ws: seq<Weighted>, digest: nat): Pick {
    if !AllKnown(ws) then ConfigError
    else if Total(ws) == 0 then Picked(DEFAULT)
    else match PickFrom(Sort(ws), digest % Total(ws)) case Some(fp) => Picked(fp) case None => Escaped
  }

  function PickFingerprint(co: P.Coercion, raw: Option<Json>, digest: nat): Pick {
    if raw.None? || P.Falsy(raw.value) then Picked(DEFAULT)
    else match Pairs(co, raw.value)
      case None => Escaped
      case Some(Err(e)) => if e == P.OverflowError then Escaped else ConfigError
      case Some(Ok(ws)) => PickOf(ws, digest)
  }

  // ---- the loops of the source ----

  method ReadPairs(co: P.Coercion, items: seq<Json>) returns (r: P.Result<seq<Weighted>>)
    ensures r == P.ReadWeightedList(co, items)
  {
    var pairs: seq<Weighted> := [];
    ghost var goal := P.ReadWeightedList(co, items);
    assert items[0..] == items;
    P.AfterSnoc([], Weighted("", 0), goal);
    for k := 0 to |items|
      invariant goal == P.After(pairs, P.ReadWeightedList(co, items[k..]))
    {
      assert items[k..][1..] == items[k + 1..];
      var w := P.ReadWeighted(co, items[k]);
      if w.Err? { return P.Err(w.raised); }
      P.AfterSnoc(pairs, w.value, P.ReadWeightedList(co, items[k + 1..]));
      pairs := pairs + [w.value];
    }
    assert pairs + [] == pairs;
    return P.Ok(pairs);
  }

  method Sum(ws: seq<Weighted>) returns (total: nat)
    ensures total == Total(ws)
  {
    total := 0;
    assert ws[0..] == ws;
    for k := 0 to |ws|
      invariant total + Total(ws[k..]) == Total(ws)
    {
      assert ws[k..][1..] == ws[k + 1..];
      total := total + Pos(ws[k].weight);
    }
  }

  /** The walk over the sorted pairs; the last fingerprint is the fallback. */
  method Walk(sorted: seq<Weighted>, idx: nat) returns (fp: string)
    requires sorted != []
    ensures fp == match PickFrom(sorted, idx) case Some(f) => f case None => sorted[|sorted| - 1].fp
  {
    var acc: nat := 0;
    assert sorted[0..] == sorted;
    for k := 0 to |sorted|
      invariant acc <= idx && PickFrom(sorted, idx) == PickFrom(sorted[k..], idx - acc)
    {
      assert sorted[k..][1..] == sorted[k + 1..];
      acc := acc + Pos(sorted[k].weight);
      if idx < acc { return sorted[k].fp; }
    }
    return sorted[|sorted| - 1].fp;
  }

  /** The source's procedure; digest is the number made of the first eight bytes of the hash of
      the box id. */
  method Choose(co: P.Coercion, raw: Option<Json>, digest: nat) returns (r: Pick)
    ensures r == PickFingerprint(co, raw, digest)
  {
    if raw.None? || P.Falsy(raw.value) { return Picked(DEFAULT); }
    match raw.value {
      case Arr(items) =>
        var pairs := ReadPairs(co, items);
        if pairs.Err? { return if pairs.raised == P.OverflowError then Escaped else ConfigError; }
        var ws := pairs.value;
        for k := 0 to |ws|
          invariant forall i :: 0 <= i < k ==> ws[i].fp in P.KNOWN_FINGERPRINTS
        {
          if ws[k].fp !in P.KNOWN_FINGERPRINTS { return ConfigError; }
        }
        var total := Sum(ws);
        if total == 0 { return Picked(DEFAULT); }
        var idx := digest % total;
        SortKeepsTotals(ws, "");
        FallbackUnreachable(Sort(ws), idx);
        var fp := Walk(Sort(ws), idx);
        return Picked(fp);
      case Str(_) => return ConfigError;
      case Lone(_) => return ConfigError;
      case Obj(_) => return ConfigError;
      case Odd(_, _) => return ConfigError;
      case _ => return Escaped;
    }
  }

  // ---- the buckets ----

  /** Below the total the walk never reaches its fallback. */
  lemma {:induction false} FallbackUnreachable(ws: seq<Weighted>, idx: nat)
    ensures PickFrom(ws, idx).Some? <==> idx < Total(ws)
  {
    if ws != [] && idx >= Pos(ws[0].weight) { FallbackUnreachable(ws[1..], idx - Pos(ws[0].weight)); }
  }

  /** What is chosen has a positive weight. */
  lemma {:induction false} ChosenHasWeight(ws: seq<Weighted>, idx: nat)
    requires PickFrom(ws, idx).Some?
    ensures exists i :: 0 <= i < |ws| && PickFrom(ws, idx) == Some(ws[i].fp) && ws[i].weight > 0
  {
    if idx < Pos(ws[0].weight) {
      assert PickFrom(ws, idx) == Some(ws[0].fp);
    } else {
      ChosenHasWeight(ws[1..], idx - Pos(ws[0].weight));
      var i :| 0 <= i < |ws| - 1 && PickFrom(ws, idx) == Some(ws[1..][i].fp) && ws[1..][i].weight > 0;
      assert ws[i + 1] == ws[1..][i];
    }
  }

  /** How many of the indices below n choose fp. */
  ghost function Hits(ws: seq<Weighted>, fp: string, n: nat): nat {
    if n == 0 then 0 else Hits(ws, fp, n - 1) + (if PickFrom(ws, n - 1) == Some(fp) then 1 else 0)
  }

  lemma {:induction false} HitsInFirst(ws: seq<Weighted>, fp: string, n: nat)
    requires ws != [] && n <= Pos(ws[0].weight)
    ensures Hits(ws, fp, n) == if ws[0].fp == fp then n else 0
  {
    if n > 0 { HitsInFirst(ws, fp, n - 1); }
  }

  lemma {:induction false} HitsBeyondFirst(ws: seq<Weighted>, fp: string, m: nat)
    requires ws != []
    ensures Hits(ws, fp, Pos(ws[0].weight) + m) == Hits(ws, fp, Pos(ws[0].weight)) + Hits(ws[1..], fp, m)
  {
    if m > 0 { HitsBeyondFirst(ws, fp, m - 1); }
  }

  lemma {:induction false} HitsAreShare(ws: seq<Weighted>, fp: string)
    ensures Hits(ws, fp, Total(ws)) == Share(ws, fp)
  {
    if ws != [] {
      HitsInFirst(ws, fp, Pos(ws[0].weight));
      HitsBeyondFirst(ws, fp, Total(ws[1..]));
      HitsAreShare(ws[1..], fp);
    }
  }

  ghost function Choosers(ws: seq<Weighted>, fp: string, n: nat): set<int> {
    set i | 0 <= i < n && PickFrom(ws, i) == Some(fp)
  }

  lemma {:induction false} HitsCount(ws: seq<Weighted>, fp: string, n: nat)
    ensures |Choosers(ws, fp, n)| == Hits(ws, fp, n)
  {
    if n > 0 {
      HitsCount(ws, fp, n - 1);
      if PickFrom(ws, n - 1) == Some(fp) {
        assert Choosers(ws, fp, n) == Choosers(ws, fp, n - 1) + {n - 1};
      } else {
        assert Choosers(ws, fp, n) == Choosers(ws, fp, n - 1);
      }
    }
  }

  // ---- sorting changes no bucket size ----

  lemma {:induction false} InsertKeepsTotals(x: Weighted, s: seq<Weighted>, fp: string)
    ensures Total(Insert(Le, x, s)) == Pos(x.weight) + Total(s)
    ensures Share(Insert(Le, x, s), fp) == (if x.fp == fp then Pos(x.weight) else 0) + Share(s, fp)
  {
    if s != [] && !Le(x, s[0]) {
      InsertKeepsTotals(x, s[1..], fp);
      assert Insert(Le, x, s)[1..] == Insert(Le, x, s[1..]);
    } else {
      assert Insert(Le, x, s)[1..] == s;
    }
  }

  lemma {:induction false} SortKeepsTotals(ws: seq<Weighted>, fp: string)
    ensures Total(Sort(ws)) == Total(ws) && Share(Sort(ws), fp) == Share(ws, fp)
    ensures ws != [] ==> Sort(ws) != []
  {
    if ws != [] {
      SortKeepsTotals(ws[1..], fp);
      InsertKeepsTotals(ws[0], Sort(ws[1..]), fp);
      InsertContents(Le, ws[0], Sort(ws[1..]));
    }
  }

  /** The digests below the total that choose fp. */
  ghost function DigestsFor(ws: seq<Weighted>, fp: string): set<int> {
    set d: int | 0 <= d < Total(ws) && PickOf(ws, d) == Picked(fp)
  }

  lemma PickBelowTotal(ws: seq<Weighted>, fp: string, d: nat)
    requires AllKnown(ws) && d < Total(ws)
    ensures PickOf(ws, d) == Picked(fp) <==> PickFrom(Sort(ws), d) == Some(fp)
  {
    assert d % Total(ws) == d;
    SortKeepsTotals(ws, fp);
    FallbackUnreachable(Sort(ws), d);
  }

  /** Each fingerprint is chosen by exactly as many indices below the total as its positive
      weights add up to. */
  lemma SharesAreExact(ws: seq<Weighted>, fp: string)
    requires AllKnown(ws)
    ensures |DigestsFor(ws, fp)| == Share(ws, fp)
  {
    var sorted, total := Sort(ws), Total(ws);
    SortKeepsTotals(ws, fp);
    HitsAreShare(sorted, fp);
    HitsCount(sorted, fp, total);
    forall d: nat | d < total ensures PickOf(ws, d) == Picked(fp) <==> PickFrom(sorted, d) == Some(fp) {
      PickBelowTotal(ws, fp, d);
    }
    assert DigestsFor(ws, fp) == Choosers(sorted, fp, total);
  }

  /** A known list with some positive weight always yields one of its fingerprints of positive
      weight, whatever the digest. */
  lemma PickHasWeight(ws: seq<Weighted>, digest: nat)
    requires AllKnown(ws) && Total(ws) > 0
    ensures exists i :: 0 <= i < |ws| && PickOf(ws, digest) == Picked(ws[i].fp) && ws[i].weight > 0
  {
    var sorted, idx := Sort(ws), digest % Total(ws);
    SortKeepsTotals(ws, "");
    FallbackUnreachable(sorted, idx);
    ChosenHasWeight(sorted, idx);
    var j :| 0 <= j < |sorted| && PickFrom(sorted, idx) == Some(sorted[j].fp) && sorted[j].weight > 0;
    SortSorts(ws);
    assert sorted[j] in multiset(ws);
    var i :| 0 <= i < |ws| && ws[i] == sorted[j];
  }

  // ---- which fingerprint an index belongs to ----

  /** The positive weights of the names that are kept, added up. */
  ghost function WeightOf(ws: seq<Weighted>, kept: string -> bool): nat {
    if ws == [] then 0
    else (if kept(ws[0].fp) && ws[0].weight > 0 then ws[0].weight else 0) + WeightOf(ws[1..], kept)
  }

  lemma {:induction false} NothingKept(ws: seq<Weighted>, kept: string -> bool)
    requires forall i :: 0 <= i < |ws| ==> !kept(ws[i].fp)
    ensures WeightOf(ws, kept) == 0
  {
    if ws != [] { NothingKept(ws[1..], kept); }
  }

  lemma {:induction false} AllKept(ws: seq<Weighted>, kept: string -> bool)
    requires forall n :: kept(n)
    ensures WeightOf(ws, kept) == Total(ws)
  {
    if ws != [] { AllKept(ws[1..], kept); }
  }

  lemma {:induction false} InsertKeepsWeight(x: Weighted, s: seq<Weighted>, kept: string -> bool)
    ensures WeightOf(Insert(Le, x, s), kept)
      == (if kept(x.fp) && x.weight > 0 then x.weight else 0) + WeightOf(s, kept)
  {
    if s != [] && !Le(x, s[0]) {
      InsertKeepsWeight(x, s[1..], kept);
      assert Insert(Le, x, s)[1..] == Insert(Le, x, s[1..]);
    } else {
      assert Insert(Le, x, s)[1..] == s;
    }
  }

  lemma {:induction false} SortKeepsWeight(ws: seq<Weighted>, kept: string -> bool)
    ensures WeightOf(Sort(ws), kept) == WeightOf(ws, kept)
  {
    if ws != [] {
      SortKeepsWeight(ws[1..], kept);
      InsertKeepsWeight(ws[0], Sort(ws[1..]), kept);
    }
  }

  /** The names less than one, and that one. */
  ghost predicate Splits(fp: string, smaller: string -> bool, own: string -> bool) {
    forall n :: (smaller(n) <==> Less(n, fp)) && (own(n) <==> n == fp)
  }

  /** In a list in order of names, the indices of a name are those from the weight of the smaller ones
      on, as many as it weighs. */
  lemma {:induction false} OrderedBucket(ws: seq<Weighted>, fp: string, smaller: string -> bool,
                                         own: string -> bool, idx: nat)
    requires ByName(ws) && Splits(fp, smaller, own)
    ensures PickFrom(ws, idx) == Some(fp) <==>
      WeightOf(ws, smaller) <= idx < WeightOf(ws, smaller) + WeightOf(ws, own)
  {
    if ws != [] {
      var first, rest := ws[0], ws[1..];
      NoSmallerAfter(ws, fp, smaller);
      LessIrreflexive(fp);
      if first.weight <= 0 || idx >= first.weight {
        OrderedBucket(rest, fp, smaller, own, idx - Pos(first.weight));
      }
      if !Less(first.fp, fp) && first.fp != fp {
        forall i | 0 <= i < |rest| ensures !own(rest[i].fp) { NotAfter(ws, fp, i + 1); }
        NothingKept(rest, own);
      }
    }
  }

  lemma NotAfter(ws: seq<Weighted>, fp: string, i: nat)
    requires ByName(ws) && 0 < i < |ws| && !Less(ws[0].fp, fp)
    ensures !Less(ws[i].fp, fp) && (ws[0].fp != fp ==> ws[i].fp != fp)
  {
    if Less(ws[0].fp, ws[i].fp) && Less(ws[i].fp, fp) { LessTransitive(ws[0].fp, ws[i].fp, fp); }
  }

  lemma NoSmallerAfter(ws: seq<Weighted>, fp: string, smaller: string -> bool)
    requires ws != [] && ByName(ws) && (forall n :: smaller(n) <==> Less(n, fp))
    ensures !Less(ws[0].fp, fp) ==> WeightOf(ws, smaller) == 0 && WeightOf(ws[1..], smaller) == 0
  {
    if !Less(ws[0].fp, fp) {
      forall i | 0 <= i < |ws| ensures !smaller(ws[i].fp) { if i > 0 { NotAfter(ws, fp, i); } }
      NothingKept(ws, smaller);
      NothingKept(ws[1..], smaller);
    }
  }

  lemma PickBySums(ws: seq<Weighted>, digest: nat, fp: string, smaller: string -> bool, own: string -> bool)
    requires Splits(fp, smaller, own) && AllKnown(ws) && Total(ws) > 0
    ensures PickOf(ws, digest) == Picked(fp) <==>
      WeightOf(ws, smaller) <= digest % Total(ws) < WeightOf(ws, smaller) + WeightOf(ws, own)
  {
    var sorted := Sort(ws);
    SortedExactly(ws, sorted);
    SortKeepsTotals(ws, fp);
    SortKeepsWeight(ws, smaller);
    SortKeepsWeight(ws, own);
    FallbackUnreachable(sorted, digest % Total(ws));
    OrderedBucket(sorted, fp, smaller, own, digest % Total(ws));
  }

  /** What is picked from any list, whatever its order and however often a name occurs: the name for
      which the positive weights of the smaller names add up to no more than the digest's remainder,
      and together with its own to more than that. */
  lemma PickExactly(ws: seq<Weighted>, digest: nat, fp: string)
    ensures var total, smaller := WeightOf(ws, n => true), WeightOf(ws, n => Less(n, fp));
      if exists w :: w in ws && w.fp !in P.KNOWN_FINGERPRINTS then PickOf(ws, digest) == ConfigError
      else if total == 0 then PickOf(ws, digest) == Picked("chrome")
      else PickOf(ws, digest) == Picked(fp) <==>
             smaller <= digest % total < smaller + WeightOf(ws, n => n == fp)
  {
    KnownMeans(ws);
    AllKept(ws, n => true);
    if AllKnown(ws) && Total(ws) > 0 { PickBySums(ws, digest, fp, n => Less(n, fp), n => n == fp); }
  }

  lemma KnownMeans(ws: seq<Weighted>)
    ensures AllKnown(ws) <==> !exists w :: w in ws && w.fp !in P.KNOWN_FINGERPRINTS
  {
    forall i | 0 <= i < |ws| ensures ws[i] in ws {}
  }

  // ---- the order of the list does not matter ----

  function Without(s: seq<Json>, i: nat): seq<Json>
    requires i < |s|
  {
    s[..i] + s[i + 1..]
  }

  lemma WithoutContents(s: seq<Json>, i: nat)
    requires i < |s|
    ensures multiset(s) == multiset(Without(s, i)) + multiset{s[i]}
  {
    assert s == s[..i] + [s[i]] + s[i + 1..];
  }

  /** Reading the list with one item taken out, and the item on its own. */
  lemma {:induction false} ReadWithout(co: P.Coercion, s: seq<Json>, i: nat)
    requires i < |s|
    ensures P.ReadWeightedList(co, s).Ok? <==>
              P.ReadWeightedList(co, Without(s, i)).Ok? && P.ReadWeighted(co, s[i]).Ok?
    ensures P.ReadWeightedList(co, s).Ok? ==>
              multiset(P.ReadWeightedList(co, s).value)
              == multiset(P.ReadWeightedList(co, Without(s, i)).value) + multiset{P.ReadWeighted(co, s[i]).value}
  {
    if i == 0 {
      assert Without(s, 0) == s[1..];
    } else {
      ReadWithout(co, s[1..], i - 1);
      assert Without(s, i)[1..] == Without(s[1..], i - 1) && Without(s, i)[0] == s[0];
    }
  }

  lemma {:induction false} ReadIgnoresOrder(co: P.Coercion, s: seq<Json>, t: seq<Json>)
    requires multiset(s) == multiset(t)
    ensures P.ReadWeightedList(co, s).Ok? <==> P.ReadWeightedList(co, t).Ok?
    ensures P.ReadWeightedList(co, s).Ok? ==>
              multiset(P.ReadWeightedList(co, s).value) == multiset(P.ReadWeightedList(co, t).value)
    decreases |s|
  {
    assert |s| == |multiset(s)| == |multiset(t)| == |t|;
    if s != [] {
      assert s[0] in multiset(t);
      var i :| 0 <= i < |t| && t[i] == s[0];
      WithoutContents(s, 0);
      WithoutContents(t, i);
      assert multiset(Without(s, 0)) == multiset(s) - multiset{s[0]};
      assert multiset(Without(t, i)) == multiset(t) - multiset{t[i]};
      ReadIgnoresOrder(co, Without(s, 0), Without(t, i));
      ReadWithout(co, s, 0);
      ReadWithout(co, t, i);
    }
  }

  lemma PickOfIgnoresOrder(ws: seq<Weighted>, vs: seq<Weighted>, digest: nat)
    requires multiset(ws) == multiset(vs)
    ensures PickOf(ws, digest) == PickOf(vs, digest)
  {
    SortIgnoresOrder(ws, vs);
    SortKeepsTotals(ws, "");
    SortKeepsTotals(vs, "");
    KnownIgnoresOrder(ws, vs);
    KnownIgnoresOrder(vs, ws);
  }

  lemma KnownIgnoresOrder(ws: seq<Weighted>, vs: seq<Weighted>)
    requires multiset(ws) == multiset(vs)
    ensures AllKnown(ws) ==> AllKnown(vs)
  {
    forall i | AllKnown(ws) && 0 <= i < |vs| ensures vs[i].fp in P.KNOWN_FINGERPRINTS { assert vs[i] in multiset(ws); }
  }

  /** An item that cannot be read, other than for an infinite weight. */
  predicate Malformed(co: P.Coercion, item: Json) { P.ReadWeighted(co, item).Err? && !P.InfiniteWeighted(item) }

  /** Two orders of a list have the same outcome exactly when both or neither of them meet, as their
      first item that cannot be read, one with an infinite weight: that raises OverflowError, which
      is no ConfigError. */
  lemma SameOutcomeExactly(co: P.Coercion, s: seq<Json>, t: seq<Json>, digest: nat)
    requires multiset(s) == multiset(t)
    ensures PickFingerprint(co, Some(Arr(s)), digest) == PickFingerprint(co, Some(Arr(t)), digest) <==>
      (P.MeetsInfiniteWeighted(co, s) <==> P.MeetsInfiniteWeighted(co, t))
  {
    assert |s| == |multiset(s)| == |multiset(t)| == |t|;
    ReadIgnoresOrder(co, s, t);
    P.FingerprintsRaise(co, s);
    P.FingerprintsRaise(co, t);
    if P.ReadWeightedList(co, s).Ok? {
      PickOfIgnoresOrder(P.ReadWeightedList(co, s).value, P.ReadWeightedList(co, t).value, digest);
    }
  }

  lemma MeetsFirst(co: P.Coercion, s: seq<Json>)
    requires s != []
    ensures P.InfiniteWeighted(s[0]) ==> P.MeetsInfiniteWeighted(co, s)
    ensures Malformed(co, s[0]) ==> !P.MeetsInfiniteWeighted(co, s)
  {
    var rs := P.WeightedResults(co, s);
    assert rs[0] == P.ReadWeighted(co, s[0]) && P.AllOk(rs[..0]);
    forall k | 0 < k < |s| && Malformed(co, s[0]) ensures !P.AllOk(rs[..k]) { assert rs[..k][0] == rs[0]; }
  }

  lemma Moved(s: seq<Json>, i: nat) returns (t: seq<Json>)
    requires i < |s|
    ensures t != [] && t[0] == s[i] && multiset(t) == multiset(s)
  {
    t := [s[i]] + Without(s, i);
    WithoutContents(s, i);
  }

  lemma NothingMalformed(co: P.Coercion, s: seq<Json>, t: seq<Json>)
    requires multiset(s) == multiset(t)
    requires (forall x :: x in s ==> !P.InfiniteWeighted(x)) || (forall x :: x in s ==> !Malformed(co, x))
    ensures P.MeetsInfiniteWeighted(co, s) <==> P.MeetsInfiniteWeighted(co, t)
  {
    forall x ensures x in s <==> x in t { assert x in s <==> x in multiset(s); assert x in t <==> x in multiset(t); }
    if forall x :: x in s ==> !Malformed(co, x) {
      P.FingerprintsRaise(co, s);
      P.FingerprintsRaise(co, t);
      ReadIgnoresOrder(co, s, t);
      OnlyOverflow(co, s);
      OnlyOverflow(co, t);
    }
  }

  lemma {:induction false} OnlyOverflow(co: P.Coercion, s: seq<Json>)
    requires forall x :: x in s ==> !Malformed(co, x)
    ensures P.ReadWeightedList(co, s).Ok? || P.ReadWeightedList(co, s) == P.Err(P.OverflowError)
  {
    if s != [] {
      assert s[0] in s;
      P.ItemFails(co, s[0]);
      OnlyOverflow(co, s[1..]);
    }
  }

  /** Reordering a list, unknown entries included, never changes the outcome, exactly when it does not
      hold both an item with an infinite weight and one that is malformed in another way. */
  lemma PickIgnoresOrder(co: P.Coercion, s: seq<Json>, digest: nat)
    ensures (forall t :: multiset(t) == multiset(s) ==>
               PickFingerprint(co, Some(Arr(s)), digest) == PickFingerprint(co, Some(Arr(t)), digest)) <==>
            (forall x :: x in s ==> !P.InfiniteWeighted(x)) || (forall x :: x in s ==> !Malformed(co, x))
  {
    if (forall x :: x in s ==> !P.InfiniteWeighted(x)) || (forall x :: x in s ==> !Malformed(co, x)) {
      forall t | multiset(t) == multiset(s)
        ensures PickFingerprint(co, Some(Arr(s)), digest) == PickFingerprint(co, Some(Arr(t)), digest)
      {
        NothingMalformed(co, s, t);
        SameOutcomeExactly(co, s, t, digest);
      }
    } else {
      var i :| 0 <= i < |s| && P.InfiniteWeighted(s[i]);
      var j :| 0 <= j < |s| && Malformed(co, s[j]);
      var t := Moved(s, i);
      var u := Moved(s, j);
      MeetsFirst(co, t);
      MeetsFirst(co, u);
      SameOutcomeExactly(co, t, u, digest);
      assert PickFingerprint(co, Some(Arr(t)), digest) != PickFingerprint(co, Some(Arr(u)), digest);
    }
  }

  /** Two items that are refused in one order and raise in the other. */
  lemma OrderCanMatter(co: P.Coercion, digest: nat)
    ensures var infinite := Obj([Field("fp", Str(DEFAULT)), Field("weight", Float("Infinity"))]);
      && PickFingerprint(co, Some(Arr([Null, infinite])), digest) == ConfigError
      && PickFingerprint(co, Some(Arr([infinite, Null])), digest) == Escaped
  {
    var fields := [Field("fp", Str(DEFAULT)), Field("weight", Float("Infinity"))];
    assert Get(fields, "fp") == Some(fields[0].value);
    assert Get(fields, "weight") == Get(fields[1..], "weight") == Some(fields[1].value);
    var s, t := [Null, Obj(fields)], [Obj(fields), Null];
    assert P.ReadWeighted(co, t[0]) == P.Err(P.OverflowError);
    assert P.ReadWeighted(co, s[0]) == P.Err(P.TypeError);
  }
}
