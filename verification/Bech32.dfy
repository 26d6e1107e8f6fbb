/** The checksum of Bech32 (BIP-173, "Checksum") as the recipient check computes it. */
module Bech32 {
  import opened BitOps

  const GEN: seq<nat> := [0x3B6A57B2, 0x26508E6D, 0x1EA119FA, 0x3D4233DD, 0x2A1462B3]

  /** The generator words whose bit of `top` is set, folded into `chk` one after the other. */
  function Feed(chk: nat, top: nat, n: nat): nat
    requires n <= 5
  {
    if n == 0 then chk
    else Xor(Feed(chk, top, n - 1), if Bit(Shr(top, n - 1)) then GEN[n - 1] else 0)
  }

  /** One symbol shifted into the register. */
  function Step(chk: nat, v: nat): nat {
    Feed(Xor(Shl(Low(chk, 25), 5), v), Shr(chk, 25), 5)
  }

  function Run(chk: nat, values: seq<nat>): nat
    decreases |values|
  {
    if values == [] then chk else Run(Step(chk, values[0]), values[1..])
  }

  /** One symbol shifted in, generator word by generator word. */
  method Absorb(chk0: nat, v: nat) returns (chk: nat)
    ensures chk == Step(chk0, v)
  {
    var top := Shr(chk0, 25);
    chk := Xor(Shl(Low(chk0, 25), 5), v);
    ghost var shifted := chk;
    for i := 0 to 5
      invariant chk == Feed(shifted, top, i)
    {
      chk := Xor(chk, if Bit(Shr(top, i)) then GEN[i] else 0);
    }
  }

  method Polymod(values: seq<nat>) returns (chk: nat)
    ensures chk == Run(1, values)
  {
    chk := 1;
    for k := 0 to |values|
      invariant Run(chk, values[k..]) == Run(1, values)
    {
      assert values[k..][1..] == values[k + 1..];
      chk := Absorb(chk, values[k]);
    }
  }

  // ---- the register step is linear and injective ----

  lemma {:induction false} FeedSplits(chk: nat, top: nat, n: nat)
    requires n <= 5
    ensures Feed(chk, top, n) == Xor(chk, Feed(0, top, n))
  {
    if n > 0 {
      FeedSplits(chk, top, n - 1);
      XorAssoc(chk, Feed(0, top, n - 1), if Bit(Shr(top, n - 1)) then GEN[n - 1] else 0);
    }
  }

  lemma {:induction false} FeedLinear(a: nat, b: nat, s: nat, t: nat, n: nat)
    requires n <= 5
    ensures Feed(Xor(a, b), Xor(s, t), n) == Xor(Feed(a, s, n), Feed(b, t, n))
  {
    if n > 0 {
      FeedLinear(a, b, s, t, n - 1);
      ShrXor(s, t, n - 1);
      XorParts(Shr(s, n - 1), Shr(t, n - 1));
      XorSelf(GEN[n - 1]);
      XorExchange(Feed(a, s, n - 1), Feed(b, t, n - 1),
        if Bit(Shr(s, n - 1)) then GEN[n - 1] else 0, if Bit(Shr(t, n - 1)) then GEN[n - 1] else 0);
    }
  }

  lemma StepLinear(a: nat, b: nat, u: nat, v: nat)
    ensures Step(Xor(a, b), Xor(u, v)) == Xor(Step(a, u), Step(b, v))
  {
    LowXor(a, b, 25);
    ShlXor(Low(a, 25), Low(b, 25), 5);
    ShrXor(a, b, 25);
    XorExchange(Shl(Low(a, 25), 5), Shl(Low(b, 25), 5), u, v);
    FeedLinear(Xor(Shl(Low(a, 25), 5), u), Xor(Shl(Low(b, 25), 5), v), Shr(a, 25), Shr(b, 25), 5);
  }

  lemma {:induction false} FeedFits(chk: nat, top: nat, n: nat)
    requires n <= 5 && chk < Pow2(30)
    ensures Feed(chk, top, n) < Pow2(30)
  {
    if n > 0 {
      FeedFits(chk, top, n - 1);
      Pow2Of30();
      XorFits(Feed(chk, top, n - 1), if Bit(Shr(top, n - 1)) then GEN[n - 1] else 0, 30);
    }
  }

  lemma Pow2Of30()
    ensures Pow2(30) == 0x4000_0000
  {
    assert Pow2(2) == 4 && Pow2(4) == 16 && Pow2(6) == 64 && Pow2(8) == 256 && Pow2(10) == 1024;
    assert Pow2(12) == 4096 && Pow2(14) == 16384 && Pow2(16) == 65536 && Pow2(18) == 262144;
    assert Pow2(20) == 1048576 && Pow2(22) == 4194304 && Pow2(24) == 16777216;
    assert Pow2(26) == 67108864 && Pow2(28) == 268435456;
  }

  lemma StepFits(chk: nat, v: nat)
    requires v < Pow2(30)
    ensures Step(chk, v) < Pow2(30)
  {
    LowFits(chk, 25);
    ShlFits(Low(chk, 25), 25, 5);
    XorFits(Shl(Low(chk, 25), 5), v, 30);
    FeedFits(Xor(Shl(Low(chk, 25), 5), v), Shr(chk, 25), 5);
  }

  ghost predicate BitAt(a: nat, j: nat) { Bit(Shr(a, j)) }

  /** Bit j of the first n selected generator words is the parity of their bits j. */
  ghost predicate Parity(top: nat, n: nat, j: nat)
    requires n <= 5
  {
    n > 0 && Parity(top, n - 1, j) != (BitAt(top, n - 1) && BitAt(GEN[n - 1], j))
  }

  lemma {:induction false} BitOfFeed(top: nat, n: nat, j: nat)
    requires n <= 5
    ensures BitAt(Feed(0, top, n), j) == Parity(top, n, j)
  {
    ShrZero(j);
    if n > 0 {
      BitOfFeed(top, n - 1, j);
      var gate := if Bit(Shr(top, n - 1)) then GEN[n - 1] else 0;
      ShrXor(Feed(0, top, n - 1), gate, j);
      XorParts(Shr(Feed(0, top, n - 1), j), Shr(gate, j));
    }
  }

  /** The low five bits of each generator word, lowest first. */
  lemma GeneratorBits()
    ensures !BitAt(GEN[0], 0) && BitAt(GEN[0], 1) && !BitAt(GEN[0], 2) && !BitAt(GEN[0], 3) && BitAt(GEN[0], 4)
    ensures BitAt(GEN[1], 0) && !BitAt(GEN[1], 1) && BitAt(GEN[1], 2) && BitAt(GEN[1], 3) && !BitAt(GEN[1], 4)
    ensures !BitAt(GEN[2], 0) && BitAt(GEN[2], 1) && !BitAt(GEN[2], 2) && BitAt(GEN[2], 3) && BitAt(GEN[2], 4)
    ensures BitAt(GEN[3], 0) && !BitAt(GEN[3], 1) && BitAt(GEN[3], 2) && BitAt(GEN[3], 3) && BitAt(GEN[3], 4)
    ensures BitAt(GEN[4], 0) && BitAt(GEN[4], 1) && !BitAt(GEN[4], 2) && !BitAt(GEN[4], 3) && BitAt(GEN[4], 4)
  {
    assert !BitAt(0x3B6A57B2, 0) && BitAt(0x3B6A57B2, 1) && !BitAt(0x3B6A57B2, 2) && !BitAt(0x3B6A57B2, 3)
      && BitAt(0x3B6A57B2, 4);
    assert BitAt(0x26508E6D, 0) && !BitAt(0x26508E6D, 1) && BitAt(0x26508E6D, 2) && BitAt(0x26508E6D, 3)
      && !BitAt(0x26508E6D, 4);
    assert !BitAt(0x1EA119FA, 0) && BitAt(0x1EA119FA, 1) && !BitAt(0x1EA119FA, 2) && BitAt(0x1EA119FA, 3)
      && BitAt(0x1EA119FA, 4);
    assert BitAt(0x3D4233DD, 0) && !BitAt(0x3D4233DD, 1) && BitAt(0x3D4233DD, 2) && BitAt(0x3D4233DD, 3)
      && BitAt(0x3D4233DD, 4);
    assert BitAt(0x2A1462B3, 0) && BitAt(0x2A1462B3, 1) && !BitAt(0x2A1462B3, 2) && !BitAt(0x2A1462B3, 3)
      && BitAt(0x2A1462B3, 4);
  }

  lemma ParityOfFive(top: nat, j: nat)
    ensures Parity(top, 5, j) ==
      (((((BitAt(top, 0) && BitAt(GEN[0], j)) != (BitAt(top, 1) && BitAt(GEN[1], j)))
       != (BitAt(top, 2) && BitAt(GEN[2], j))) != (BitAt(top, 3) && BitAt(GEN[3], j)))
       != (BitAt(top, 4) && BitAt(GEN[4], j)))
  {
    assert !Parity(top, 0, j);
    assert Parity(top, 1, j) == (BitAt(top, 0) && BitAt(GEN[0], j));
    assert Parity(top, 2, j) == (Parity(top, 1, j) != (BitAt(top, 1) && BitAt(GEN[1], j)));
    assert Parity(top, 3, j) == (Parity(top, 2, j) != (BitAt(top, 2) && BitAt(GEN[2], j)));
    assert Parity(top, 4, j) == (Parity(top, 3, j) != (BitAt(top, 3) && BitAt(GEN[3], j)));
  }

  /** The low five bits of the generator words are linearly independent, so a register
      whose fed-in low bits are all zero had nothing to feed in. */
  lemma Independent(top: nat)
    requires forall j :: 0 <= j < 5 ==> !BitAt(Feed(0, top, 5), j)
    ensures forall i :: 0 <= i < 5 ==> !BitAt(top, i)
  {
    forall j | 0 <= j < 5 ensures !Parity(top, 5, j) { BitOfFeed(top, 5, j); }
    ParityOfFive(top, 0);
    ParityOfFive(top, 1);
    ParityOfFive(top, 2);
    ParityOfFive(top, 3);
    ParityOfFive(top, 4);
    GeneratorBits();
  }

  lemma {:induction false} ZeroFromBits(a: nat, k: nat)
    ensures Low(a, k) == 0 <==> forall i :: 0 <= i < k ==> !BitAt(a, i)
  {
    if k > 0 {
      ZeroFromBits(a / 2, k - 1);
      assert BitAt(a, 0) == Bit(a);
      forall i | 1 <= i < k ensures BitAt(a, i) == BitAt(a / 2, i - 1) {}
      forall i | 0 <= i < k - 1 ensures BitAt(a, i + 1) == BitAt(a / 2, i) {}
    }
  }

  /** Shifting in a zero symbol loses nothing: only the zero register steps to zero. */
  lemma StepKernel(d: nat)
    requires d < Pow2(30) && Step(d, 0) == 0
    ensures d == 0
  {
    var shifted, top := Shl(Low(d, 25), 5), Shr(d, 25);
    FeedSplits(shifted, top, 5);
    XorCancel(shifted, Feed(0, top, 5));
    LowShl(Low(d, 25), 5);
    ZeroFromBits(Feed(0, top, 5), 5);
    Independent(top);
    ZeroFromBits(top, 5);
    ShrFits(d, 5, 25);
    LowOfSmall(top, 5);
    FeedNothing(5);
    SplitJoin(d, 25);
    LowShl(0, 25);
    assert Shr(shifted, 5) == Low(d, 25);
    ShrZero(5);
    ShlZero(25);
  }
  lemma {:induction false} FeedNothing(n: nat)
    requires n <= 5
    ensures Feed(0, 0, n) == 0
  {
    if n > 0 {
      FeedNothing(n - 1);
      ShrZero(n - 1);
    }
  }

  lemma StepInjective(a: nat, b: nat, v: nat)
    requires a < Pow2(30) && b < Pow2(30) && Step(a, v) == Step(b, v)
    ensures a == b
  {
    StepLinear(a, b, v, v);
    XorSelf(v);
    XorSelf(Step(a, v));
    XorFits(a, b, 30);
    StepKernel(Xor(a, b));
    XorCancel(a, b);
  }

  // ---- whole runs ----

  ghost predicate Symbols(w: seq<nat>) { forall i :: 0 <= i < |w| ==> w[i] < 32 }

  lemma {:induction false} RunAppend(chk: nat, a: seq<nat>, b: seq<nat>)
    ensures Run(chk, a + b) == Run(Run(chk, a), b)
    decreases |a|
  {
    if a == [] {
      assert a + b == b;
    } else {
      assert (a + b)[1..] == a[1..] + b;
      RunAppend(Step(chk, a[0]), a[1..], b);
    }
  }

  /** The register never outgrows 30 bits. */
  lemma {:induction false} RunFits(chk: nat, values: seq<nat>)
    requires chk < 0x4000_0000 && forall i :: 0 <= i < |values| ==> values[i] < 0x4000_0000
    ensures Run(chk, values) < 0x4000_0000
    decreases |values|
  {
    Pow2Of30();
    if values != [] {
      StepFits(chk, values[0]);
      RunFits(Step(chk, values[0]), values[1..]);
    }
  }

  function XorSeq(u: seq<nat>, v: seq<nat>): (w: seq<nat>)
    requires |u| == |v|
    ensures |w| == |u|
  {
    seq(|u|, i requires 0 <= i < |u| => Xor(u[i], v[i]))
  }

  lemma {:induction false} RunLinear(a: nat, b: nat, u: seq<nat>, v: seq<nat>)
    requires |u| == |v|
    ensures Run(Xor(a, b), XorSeq(u, v)) == Xor(Run(a, u), Run(b, v))
    decreases |u|
  {
    if u != [] {
      StepLinear(a, b, u[0], v[0]);
      assert XorSeq(u, v)[1..] == XorSeq(u[1..], v[1..]);
      RunLinear(Step(a, u[0]), Step(b, v[0]), u[1..], v[1..]);
    }
  }

  lemma {:induction false} RunInjective(a: nat, b: nat, values: seq<nat>)
    requires a < Pow2(30) && b < Pow2(30) && forall i :: 0 <= i < |values| ==> values[i] < Pow2(30)
    requires Run(a, values) == Run(b, values)
    ensures a == b
    decreases |values|
  {
    if values != [] {
      StepFits(a, values[0]);
      StepFits(b, values[0]);
      RunInjective(Step(a, values[0]), Step(b, values[0]), values[1..]);
      StepInjective(a, b, values[0]);
    }
  }

  /** While the top five bits are clear, a step only makes room for the symbol. */
  lemma StepOfSmall(d: nat, e: nat)
    requires d < Pow2(25)
    ensures Step(d, e) == Xor(Shl(d, 5), e)
  {
    LowOfSmall(d, 25);
    FitsIffShrZero(d, 25);
    FeedNothing(5);
    FeedSplits(Xor(Shl(d, 5), e), 0, 5);
  }

  /** Up to six symbols fill the register side by side, so only zero symbols leave it zero. */
  lemma {:induction false} SymbolsDoNotOverlap(d: nat, k: nat, w: seq<nat>)
    requires Symbols(w) && k + 5 * |w| <= 30 && d < Pow2(k)
    requires Run(d, w) == 0
    ensures d == 0 && forall i :: 0 <= i < |w| ==> w[i] == 0
    decreases |w|
  {
    if w != [] {
      var next := SmallStep(d, k, w);
      var rest := w[1..];
      SymbolsDoNotOverlap(next, k + 5, rest);
      forall i | 1 <= i < |w| ensures w[i] == 0 { assert w[i] == rest[i - 1]; }
    }
  }

  lemma SmallStep(d: nat, k: nat, w: seq<nat>) returns (next: nat)
    requires k <= 25 && d < Pow2(k) && |w| > 0 && w[0] < 32
    ensures Run(d, w) == Run(next, w[1..]) && next < Pow2(k + 5)
    ensures next == 0 ==> d == 0 && w[0] == 0
  {
    next := Xor(Shl(d, 5), w[0]);
    Pow2Grows(k, 25);
    StepOfSmall(d, w[0]);
    RoomForSymbol(d, k, w[0]);
    if next == 0 { ZeroSmallStep(d, w[0]); }
  }

  lemma RoomForSymbol(d: nat, k: nat, e: nat)
    requires d < Pow2(k) && e < 32
    ensures Xor(Shl(d, 5), e) < Pow2(k + 5)
  {
    assert Pow2(5) == 32;
    ShlFits(d, k, 5);
    Pow2Grows(5, k + 5);
    XorFits(Shl(d, 5), e, k + 5);
  }

  lemma ZeroSmallStep(d: nat, e: nat)
    requires e < 32 && Xor(Shl(d, 5), e) == 0
    ensures d == 0 && e == 0
  {
    assert Pow2(5) == 32;
    XorCancel(Shl(d, 5), e);
    LowShl(d, 5);
    LowOfSmall(e, 5);
    ShrZero(5);
  }

  lemma {:induction false} Pow2Grows(j: nat, k: nat)
    requires j <= k
    ensures Pow2(j) <= Pow2(k)
    decreases k
  {
    if j < k { Pow2Grows(j, k - 1); }
  }

  /** A change confined to at most six neighbouring symbols always changes the checksum:
      whatever comes before and after, and however long it is. */
  lemma BurstChangesChecksum(chk: nat, before: seq<nat>, u: seq<nat>, v: seq<nat>, after: seq<nat>)
    requires chk < 0x4000_0000 && Symbols(after)
    requires forall i :: 0 <= i < |before| ==> before[i] < 0x4000_0000
    requires |u| == |v| <= 6 && Symbols(u) && Symbols(v) && u != v
    ensures Run(chk, before + u + after) != Run(chk, before + v + after)
  {
    Pow2Of30();
    var s := Run(chk, before);
    RunFits(chk, before);
    RunAppend(chk, before + u, after);
    RunAppend(chk, before + v, after);
    RunAppend(chk, before, u);
    RunAppend(chk, before, v);
    RunFits(s, u);
    RunFits(s, v);
    if Run(Run(s, u), after) == Run(Run(s, v), after) {
      RunInjective(Run(s, u), Run(s, v), after);
      SymbolsReadable(s, u, v);
    }
  }

  /** From one register, different runs of up to six symbols end in different registers. */
  lemma SymbolsReadable(s: nat, u: seq<nat>, v: seq<nat>)
    requires |u| == |v| <= 6 && Symbols(u) && Symbols(v) && Run(s, u) == Run(s, v)
    ensures u == v
  {
    RunLinear(s, s, u, v);
    XorSelf(s);
    XorSelf(Run(s, u));
    XorSymbols(u, v);
    SymbolsDoNotOverlap(0, 0, XorSeq(u, v));
    forall i | 0 <= i < |u| ensures u[i] == v[i] {
      assert XorSeq(u, v)[i] == 0;
      XorCancel(u[i], v[i]);
    }
  }

  lemma XorSymbols(u: seq<nat>, v: seq<nat>)
    requires |u| == |v| && Symbols(u) && Symbols(v)
    ensures Symbols(XorSeq(u, v))
  {
    assert Pow2(5) == 32;
    forall i | 0 <= i < |u| ensures XorSeq(u, v)[i] < 32 { XorFits(u[i], v[i], 5); }
  }

  lemma ShlFive(d: nat)
    ensures Shl(d, 5) == 32 * d
  {
    assert Shl(d, 0) == d && Shl(d, 1) == 2 * d && Shl(d, 2) == 2 * Shl(d, 1);
    assert Shl(d, 3) == 2 * Shl(d, 2) && Shl(d, 4) == 2 * Shl(d, 3);
  }

  lemma StepValue(d: nat, e: nat)
    requires d < 33554432 && e < 32
    ensures Step(d, e) == 32 * d + e
  {
    assert Pow2(5) == 32 && Pow2(10) == 1024 && Pow2(15) == 32768 && Pow2(20) == 1048576 && Pow2(25) == 33554432;
    StepOfSmall(d, e);
    XorOfDisjoint(d, e, 5);
    ShlFive(d);
  }

  lemma RunOfSix(chk: nat, w: seq<nat>, a: nat, b: nat, c: nat, d: nat, e: nat, end: nat)
    requires |w| == 6 && Step(chk, w[0]) == a && Step(a, w[1]) == b && Step(b, w[2]) == c
    requires Step(c, w[3]) == d && Step(d, w[4]) == e && Step(e, w[5]) == end
    ensures Run(chk, w) == end
  {
    RunDrop(chk, w, 0);
    RunDrop(a, w, 1);
    RunDrop(b, w, 2);
    RunDrop(c, w, 3);
    RunDrop(d, w, 4);
    RunDrop(e, w, 5);
    assert w[0..] == w && w[6..] == [];
  }

  lemma RunDrop(chk: nat, w: seq<nat>, k: nat)
    requires k < |w|
    ensures Run(chk, w[k..]) == Run(Step(chk, w[k]), w[k + 1..])
  {
    assert w[k..][1..] == w[k + 1..];
  }

  /** The six symbols of the first generator word plus one bring the register from 1 back to 1. */
  lemma OneToOne(one: nat, w: seq<nat>)
    requires one == 1 && w == [29, 22, 20, 21, 29, 19]
    ensures Run(one, w) == 1
  {
    var a := 32 * one + w[0];
    var b := 32 * a + w[1];
    var c := 32 * b + w[2];
    var d := 32 * c + w[3];
    var e := 32 * d + w[4];
    StepValue(one, w[0]);
    StepValue(a, w[1]);
    StepValue(b, w[2]);
    StepValue(c, w[3]);
    StepValue(d, w[4]);
    LastStepToOne(e, w[5]);
    RunOfSix(one, w, a, b, c, d, e, 1);
  }

  lemma LastStepToOne(d: nat, v: nat)
    requires d == 64705213 && v == 19
    ensures Step(d, v) == 1
  {
    var low: nat := 31150781;
    assert Pow2(5) == 32 && Pow2(10) == 1024 && Pow2(15) == 32768 && Pow2(20) == 1048576 && Pow2(25) == 33554432;
    SplitAt(d, 25, 1, low);
    XorOfDisjoint(low, v, 5);
    ShlFive(low);
    FeedOne(32 * low + v);
    EvenAndNext(32 * low + v - 1);
  }

  /** A number given as high part and low part. */
  lemma {:induction false} SplitAt(a: nat, k: nat, high: nat, low: nat)
    requires low < Pow2(k) && a == high * Pow2(k) + low
    ensures Shr(a, k) == high && Low(a, k) == low
  {
    if k > 0 {
      assert a == 2 * (high * Pow2(k - 1)) + low;
      assert a / 2 == high * Pow2(k - 1) + low / 2 && a % 2 == low % 2;
      SplitAt(a / 2, k - 1, high, low / 2);
    }
  }

  lemma FeedOne(chk: nat)
    ensures Feed(chk, 1, 5) == Xor(chk, GEN[0])
  {
    assert !Bit(Shr(1, 1)) && !Bit(Shr(1, 2)) && !Bit(Shr(1, 3)) && !Bit(Shr(1, 4)) && Bit(Shr(1, 0));
    assert Feed(chk, 1, 1) == Xor(chk, GEN[0]);
    assert Feed(chk, 1, 2) == Xor(Feed(chk, 1, 1), 0) && Feed(chk, 1, 3) == Xor(Feed(chk, 1, 2), 0);
    assert Feed(chk, 1, 4) == Xor(Feed(chk, 1, 3), 0) && Feed(chk, 1, 5) == Xor(Feed(chk, 1, 4), 0);
  }

  lemma EvenAndNext(a: nat)
    requires a % 2 == 0
    ensures Xor(a + 1, a) == 1
  {
    XorParts(a + 1, a);
    XorSelf(a / 2);
    assert (a + 1) / 2 == a / 2;
    assert Xor(a + 1, a) / 2 == 0 && Bit(Xor(a + 1, a));
  }

  /** A register that is not zero and still small keeps growing. */
  lemma {:induction false} RunGrows(d: nat, k: nat, w: seq<nat>)
    requires Symbols(w) && w != [] && 1 <= d < Pow2(k) && k + 5 * |w| <= 30
    ensures Run(d, w) >= 32
    decreases |w|
  {
    var next := Xor(Shl(d, 5), w[0]);
    Pow2Grows(k, 25);
    StepOfSmall(d, w[0]);
    RoomForSymbol(d, k, w[0]);
    assert Pow2(5) == 32;
    XorOfDisjoint(d, w[0], 5);
    ShlFive(d);
    if w[1..] != [] { RunGrows(next, k + 5, w[1..]); }
  }

  // ---- exactly one checksum completes a prefix ----

  /** The low 5n bits of t, as n symbols, highest first. */
  function SymbolsOf(t: nat, n: nat): (w: seq<nat>)
    ensures |w| == n
    decreases n
  {
    if n == 0 then [] else SymbolsOf(Shr(t, 5), n - 1) + [Low(t, 5)]
  }

  lemma {:induction false} RunOfSymbols(t: nat, n: nat)
    requires n <= 6 && t < Pow2(5 * n)
    ensures Symbols(SymbolsOf(t, n)) && Run(0, SymbolsOf(t, n)) == t
    decreases n
  {
    if n > 0 {
      ShrFits(t, 5 * (n - 1), 5);
      RunOfSymbols(Shr(t, 5), n - 1);
      RunAppend(0, SymbolsOf(Shr(t, 5), n - 1), [Low(t, 5)]);
      Pow2Grows(5 * (n - 1), 25);
      StepRestores(t);
    }
  }

  lemma StepRestores(t: nat)
    requires Shr(t, 5) < Pow2(25)
    ensures Low(t, 5) < 32 && Run(Shr(t, 5), [Low(t, 5)]) == t
  {
    StepOfSmall(Shr(t, 5), Low(t, 5));
    LowFits(t, 5);
    assert Pow2(5) == 32;
    XorOfDisjoint(Shr(t, 5), Low(t, 5), 5);
    SplitJoin(t, 5);
    assert Run(Shr(t, 5), [Low(t, 5)]) == Run(Step(Shr(t, 5), Low(t, 5)), []);
  }

  /** The six symbols that bring a register to 1. */
  function Checksum(chk: nat): (w: seq<nat>)
    ensures |w| == 6
  {
    SymbolsOf(Xor(Run(chk, [0, 0, 0, 0, 0, 0]), 1), 6)
  }

  lemma ChecksumIsUnique(chk: nat, c: seq<nat>)
    requires chk < 0x4000_0000 && |c| == 6 && Symbols(c)
    ensures Run(chk, c) == 1 <==> c == Checksum(chk)
  {
    ChecksumWorks(chk);
    if Run(chk, c) == 1 { SymbolsReadable(chk, c, Checksum(chk)); }
  }

  lemma ChecksumWorks(chk: nat)
    requires chk < 0x4000_0000
    ensures Symbols(Checksum(chk)) && Run(chk, Checksum(chk)) == 1
  {
    Pow2Of30();
    var zeros: seq<nat> := [0, 0, 0, 0, 0, 0];
    var r, c := Run(chk, zeros), Checksum(chk);
    RunFits(chk, zeros);
    XorFits(r, 1, 30);
    RunOfSymbols(Xor(r, 1), 6);
    RunLinear(chk, 0, zeros, c);
    assert XorSeq(zeros, c) == c;
    XorAssoc(r, r, 1);
    XorSelf(r);
  }
}
