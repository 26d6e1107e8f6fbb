/** Exactly which changed recipients go unnoticed, and that seven neighbouring characters are enough. */
module TypoLimits {
  import opened BitOps
  import opened Bech32
  import opened Recipient
  import D = BechDistance

  // ---- when two words have the same checksum ----

  lemma SameRunExactly(s: nat, u: seq<nat>, v: seq<nat>)
    requires |u| == |v|
    ensures Run(s, u) == Run(s, v) <==> Run(0, XorSeq(u, v)) == 0
  {
    RunLinear(s, s, u, v);
    XorSelf(s);
    XorSelf(Run(s, u));
    if Run(0, XorSeq(u, v)) == 0 { XorCancel(Run(s, u), Run(s, v)); }
  }

  lemma SameChecksumExactly(chk: nat, hrp: seq<nat>, u: seq<nat>, v: seq<nat>)
    requires |u| == |v|
    ensures Run(chk, hrp + u) == Run(chk, hrp + v) <==> Run(0, XorSeq(u, v)) == 0
  {
    RunAppend(chk, hrp, u);
    RunAppend(chk, hrp, v);
    SameRunExactly(Run(chk, hrp), u, v);
  }

  /** How a text differs from an accepted recipient, symbol by symbol. */
  function Difference(r: string, typo: string): (d: seq<nat>)
    requires Decode(r).Some? && Decode(typo).Some? && |Decode(r).value| == |Decode(typo).value|
  {
    XorSeq(Decode(r).value, Decode(typo).value)
  }

  lemma DecodedLength(s: string)
    ensures Decode(s).Some? ==> |Decode(s).value| == |s|
  {
    DecodeMeans(s);
  }

  lemma ChecksumKeptExactly(s: string, t: string)
    requires ChecksumHolds(s) && |t| == |s| && Decode(t).Some?
    ensures |Decode(s).value| == |Decode(t).value|
    ensures ChecksumHolds(t) <==> Run(0, Difference(s, t)) == 0
  {
    DecodedLength(s);
    DecodedLength(t);
    SameChecksumExactly(1, HrpExpand("age"), Decode(s).value, Decode(t).value);
  }

  /** A text of the same length as an accepted recipient is accepted exactly when it keeps the
      prefix and the alphabet and its difference takes the register from 0 back to 0. */
  lemma TypoAcceptedExactly(r: string, typo: string)
    requires Validate(r) == Accepted && |typo| == |r|
    ensures |r| >= 4 && Decode(r[4..]).Some? && |Decode(r[4..]).value| == |r| - 4
    ensures Decode(typo[4..]).Some? ==> |Decode(typo[4..]).value| == |r| - 4
    ensures Validate(typo) == Accepted <==>
      "age1" <= typo && Decode(typo[4..]).Some? && Run(0, Difference(r[4..], typo[4..])) == 0
  {
    AcceptedIff(r);
    AcceptedIff(typo);
    DecodedLength(r[4..]);
    DecodedLength(typo[4..]);
    if Decode(typo[4..]).Some? { ChecksumKeptExactly(r[4..], typo[4..]); }
  }

  // ---- a difference of seven symbols ----

  const WORD: seq<nat> := [29, 22, 20, 21, 29, 19]

  /** 1, then the symbols of the first generator word. */
  function Seven(one: nat): (d: seq<nat>)
    ensures |d| == 7 && d[0] == one
  {
    [one] + XorSeq(WORD, D.Zeros(5) + [one])
  }

  lemma DifferenceOfSame(one: nat, w: seq<nat>, v: seq<nat>)
    requires |w| == |v| && Run(one, w) == Run(0, v)
    ensures Run(one, XorSeq(w, v)) == 0
  {
    RunLinear(one, 0, w, v);
    XorSelf(Run(0, v));
  }

  lemma LastIsOne(one: nat)
    ensures Run(0, D.Zeros(5) + [one]) == one
  {
    D.ZerosKeepZero(5);
    D.RunSnoc(0, D.Zeros(5), one);
    D.StepFromZero(one);
  }

  lemma AfterFirst(one: nat, w: seq<nat>)
    ensures Run(0, [one] + w) == Run(one, w)
  {
    D.RunSnoc(0, [], one);
    assert [] + [one] == [one];
    D.StepFromZero(one);
    RunAppend(0, [one], w);
  }

  /** The seven symbols take the register from 0 to 0. */
  lemma SevenKeepZero(one: nat)
    requires one == 1
    ensures Run(0, Seven(one)) == 0
  {
    var w, v := WORD, D.Zeros(5) + [one];
    OneToOne(one, w);
    LastIsOne(one);
    DifferenceOfSame(one, w, v);
    AfterFirst(one, XorSeq(w, v));
  }

  lemma SevenAreSymbols()
    ensures Symbols(Seven(1))
  {
    var v := D.Zeros(5) + [1];
    assert Symbols(WORD) && Symbols(v);
    forall i | 0 <= i < 6 ensures Xor(WORD[i], v[i]) < 32 { XorBack(WORD[i], v[i]); }
  }

  /** The seven symbols at place lo among n. */
  function At(lo: nat, n: nat): (d: seq<nat>)
    requires lo + 7 <= n
    ensures |d| == n
  {
    D.Zeros(lo) + Seven(1) + D.Zeros(n - lo - 7)
  }

  lemma AtKeepsZero(lo: nat, n: nat)
    requires lo + 7 <= n
    ensures Run(0, At(lo, n)) == 0
  {
    var seven, rest := Seven(1), D.Zeros(n - lo - 7);
    D.ZerosKeepZero(lo);
    SevenKeepZero(1);
    D.ZerosKeepZero(n - lo - 7);
    RunAppend(0, D.Zeros(lo) + seven, rest);
    RunAppend(0, D.Zeros(lo), seven);
  }

  lemma XorBack(a: nat, b: nat)
    ensures Xor(a, Xor(a, b)) == b
    ensures a < 32 && b < 32 ==> Xor(a, b) < 32
  {
    XorAssoc(a, a, b);
    XorSelf(a);
    assert Pow2(5) == 32;
    if a < 32 && b < 32 { XorFits(a, b, 5); }
  }

  lemma AddedBack(x: seq<nat>, d: seq<nat>)
    requires |x| == |d| && Symbols(x) && Symbols(d)
    ensures Symbols(XorSeq(x, d)) && XorSeq(x, XorSeq(x, d)) == d
  {
    forall i | 0 <= i < |x| ensures Xor(x[i], Xor(x[i], d[i])) == d[i] && Xor(x[i], d[i]) < 32 {
      XorBack(x[i], d[i]);
    }
  }

  lemma SevenSymbols(lo: nat, n: nat)
    requires lo + 7 <= n
    ensures Symbols(At(lo, n)) && At(lo, n)[lo] == 1
    ensures forall i :: 0 <= i < n && !(lo <= i < lo + 7) ==> At(lo, n)[i] == 0
  {
    SevenAreSymbols();
  }

  /** Where the difference is zero the text is kept; where it is not, it is changed. */
  lemma KeptExactly(s: string, d: seq<nat>, i: nat)
    requires Decode(s).Some? && |d| == |Decode(s).value| && Symbols(d) && Symbols(XorSeq(Decode(s).value, d))
    requires i < |d|
    ensures |s| == |d|
    ensures TextOf(XorSeq(Decode(s).value, d))[i] == s[i] <==> d[i] == 0
  {
    DecodeMeans(s);
    SymbolMeans(s[i]);
    var a := Decode(s).value[i];
    assert XorSeq(Decode(s).value, d)[i] == Xor(a, d[i]);
    SymbolAt(Xor(a, d[i]));
    SymbolAt(a);
    XorBack(a, d[i]);
    if Xor(a, d[i]) == a { XorSelf(a); }
  }

  lemma SevenChanged(s: string, lo: nat) returns (t: string)
    requires Decode(s).Some? && lo + 7 <= |s|
    ensures |t| == |s| && Decode(t).Some? && |Decode(t).value| == |Decode(s).value| == |s|
    ensures Run(0, Difference(s, t)) == 0
    ensures t[lo] != s[lo] && forall i :: 0 <= i < |s| && !(lo <= i < lo + 7) ==> t[i] == s[i]
  {
    DecodeMeans(s);
    var x, d := Decode(s).value, At(lo, |s|);
    SevenSymbols(lo, |s|);
    AddedBack(x, d);
    AtKeepsZero(lo, |s|);
    t := TextOf(XorSeq(x, d));
    DecodeOfText(XorSeq(x, d));
    forall i | 0 <= i < |s| ensures t[i] == s[i] <==> d[i] == 0 { KeptExactly(s, d, i); }
  }

  lemma SevenAccepted(r: string, t: string)
    requires Validate(r) == Accepted && |r| >= 4 && |t| == |r| - 4 && Decode(r[4..]).Some? && Decode(t).Some?
    requires |Decode(r[4..]).value| == |Decode(t).value| && Run(0, Difference(r[4..], t)) == 0
    ensures Validate(r[..4] + t) == Accepted
  {
    AcceptedIff(r);
    Joined(r, t);
    TypoAcceptedExactly(r, r[..4] + t);
  }

  /** Within seven neighbouring characters a typo may go unnoticed: wherever a recipient is
      accepted, some other text that differs only there is accepted too. */
  lemma SevenMayGoUnnoticed(r: string, at: nat) returns (typo: string)
    requires Validate(r) == Accepted && 4 <= at && at + 7 <= |r|
    ensures Validate(typo) == Accepted && |typo| == |r| && typo != r
    ensures forall i :: 0 <= i < |r| && !(at <= i < at + 7) ==> typo[i] == r[i]
  {
    AcceptedShape(r);
    var t := SevenChanged(r[4..], at - 4);
    SevenAccepted(r, t);
    typo := r[..4] + t;
    assert typo[at] != r[at];
  }

  lemma Joined(r: string, t: string)
    requires "age1" <= r && |t| == |r| - 4
    ensures "age1" <= r[..4] + t && (r[..4] + t)[4..] == t
  {}
}
