/** Weighted fingerprints, and the order the source sorts them in: by name, then by weight. */
module Weights {
  import opened Sorting
  import opened Text

  datatype Weighted = Weighted(fp: string, weight: int)

  predicate Le(a: Weighted, b: Weighted) {
    Less(a.fp, b.fp) || (a.fp == b.fp && a.weight <= b.weight)
  }

  function Sort(s: seq<Weighted>): seq<Weighted> {
    if s == [] then [] else Insert(Le, s[0], Sort(s[1..]))
  }

  lemma LeTransitive(a: Weighted, b: Weighted, c: Weighted)
    requires Le(a, b) && Le(b, c)
    ensures Le(a, c)
  {
    if Less(a.fp, b.fp) && Less(b.fp, c.fp) { LessTransitive(a.fp, b.fp, c.fp); }
  }

  lemma LeTotal(a: Weighted, b: Weighted)
    ensures Le(a, b) || Le(b, a)
  {
    LessTotal(a.fp, b.fp);
  }

  lemma LeAntisymmetric(a: Weighted, b: Weighted)
    requires Le(a, b) && Le(b, a)
    ensures a == b
  {
    if Less(a.fp, b.fp) { LessAsymmetric(a.fp, b.fp); }
    if Less(b.fp, a.fp) { LessAsymmetric(b.fp, a.fp); }
  }

  lemma LeIsOrder()
    ensures IsOrder(Le)
  {
    forall a, b ensures Le(a, b) || Le(b, a) { LeTotal(a, b); }
    forall a, b, c | Le(a, b) && Le(b, c) ensures Le(a, c) { LeTransitive(a, b, c); }
  }

  lemma {:induction false} SortSorts(s: seq<Weighted>)
    ensures Ascending(Le, Sort(s)) && multiset(Sort(s)) == multiset(s)
  {
    if s != [] {
      SortSorts(s[1..]);
      LeIsOrder();
      InsertAscends(Le, s[0], Sort(s[1..]));
      InsertContents(Le, s[0], Sort(s[1..]));
      assert s == [s[0]] + s[1..];
    }
  }

  lemma SameHead(s: seq<Weighted>, t: seq<Weighted>)
    requires Ascending(Le, s) && Ascending(Le, t) && multiset(s) == multiset(t) && s != [] && t != []
    ensures s[0] == t[0]
  {
    assert s[0] in multiset(t) && t[0] in multiset(s);
    var i :| 0 <= i < |t| && t[i] == s[0];
    var j :| 0 <= j < |s| && s[j] == t[0];
    if i > 0 && j > 0 { LeAntisymmetric(s[0], t[0]); }
  }

  lemma {:induction false} AscendingIsUnique(s: seq<Weighted>, t: seq<Weighted>)
    requires Ascending(Le, s) && Ascending(Le, t) && multiset(s) == multiset(t)
    ensures s == t
  {
    assert |s| == |multiset(s)| == |multiset(t)| == |t|;
    if s != [] {
      SameHead(s, t);
      assert s == [s[0]] + s[1..] && t == [t[0]] + t[1..];
      assert multiset(s[1..]) == multiset(s) - multiset{s[0]};
      assert multiset(t[1..]) == multiset(t) - multiset{t[0]};
      AscendingIsUnique(s[1..], t[1..]);
    }
  }

  /** The sorted list depends only on what is in the list. */
  lemma SortIgnoresOrder(s: seq<Weighted>, t: seq<Weighted>)
    requires multiset(s) == multiset(t)
    ensures Sort(s) == Sort(t)
  {
    SortSorts(s);
    SortSorts(t);
    AscendingIsUnique(Sort(s), Sort(t));
  }

  lemma SortOfSorted(s: seq<Weighted>)
    ensures Sort(Sort(s)) == Sort(s) && |Sort(s)| == |s|
  {
    SortSorts(s);
    SortIgnoresOrder(Sort(s), s);
    assert |multiset(s)| == |multiset(Sort(s))|;
  }

  /** In ascending order of names, and of weights where names are equal. */
  ghost predicate ByName(ws: seq<Weighted>) {
    forall i, j :: 0 <= i < j < |ws| ==>
      Less(ws[i].fp, ws[j].fp) || (ws[i].fp == ws[j].fp && ws[i].weight <= ws[j].weight)
  }

  /** The one list of the same pairs in that order. */
  lemma SortedExactly(s: seq<Weighted>, t: seq<Weighted>)
    ensures t == Sort(s) <==> multiset(t) == multiset(s) && ByName(t)
  {
    SortSorts(s);
    if multiset(t) == multiset(s) && ByName(t) { AscendingIsUnique(t, Sort(s)); }
  }
}
