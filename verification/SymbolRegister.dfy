/** Registers of six symbols over any field of 32 elements that exclusive or adds up. */
module SymbolRegister {
  import opened BitOps
  import opened Bech32

  /** Six symbols, lowest first. */
  datatype Reg<T> = Reg(s0: T, s1: T, s2: T, s3: T, s4: T, s5: T)

  function Plus<T>(add: (T, T) -> T, x: Reg<T>, y: Reg<T>): Reg<T> {
    Reg(add(x.s0, y.s0), add(x.s1, y.s1), add(x.s2, y.s2), add(x.s3, y.s3), add(x.s4, y.s4), add(x.s5, y.s5))
  }

  function Map<T>(f: T -> T, r: Reg<T>): Reg<T> { Reg(f(r.s0), f(r.s1), f(r.s2), f(r.s3), f(r.s4), f(r.s5)) }

  function Shifted<T>(zero: T, r: Reg<T>): Reg<T> { Reg(zero, r.s0, r.s1, r.s2, r.s3, r.s4) }

  /** A zero symbol shifted in; the top one feeds in what `fold` says. */
  function Next<T>(add: (T, T) -> T, zero: T, fold: T -> Reg<T>, r: Reg<T>): Reg<T> {
    Plus(add, Shifted(zero, r), fold(r.s5))
  }

  /** Base-32 digits, lowest first. */
  function Num(s: seq<nat>): nat { if s == [] then 0 else s[0] + 32 * Num(s[1..]) }

  function Digits<T>(value: T -> nat, r: Reg<T>): seq<nat> {
    [value(r.s0), value(r.s1), value(r.s2), value(r.s3), value(r.s4), value(r.s5)]
  }

  function Number<T>(value: T -> nat, r: Reg<T>): nat { Num(Digits(value, r)) }

  ghost predicate Linear<T(!new)>(f: T -> T, add: (T, T) -> T) {
    forall u: T, w: T :: f(add(u, w)) == add(f(u), f(w))
  }

  ghost predicate Adds<T(!new)>(value: T -> nat, add: (T, T) -> T) {
    forall u: T, w: T :: value(add(u, w)) == Xor(value(u), value(w))
  }

  ghost predicate Small<T(!new)>(value: T -> nat) { forall u: T :: value(u) < 32 }

  // ---- scaling ----

  lemma MapPlus<T(!new)>(f: T -> T, add: (T, T) -> T, x: Reg<T>, y: Reg<T>)
    requires Linear(f, add)
    ensures Map(f, Plus(add, x, y)) == Plus(add, Map(f, x), Map(f, y))
  {}

  /** A linear map that the fold respects commutes with a step. */
  lemma NextMaps<T(!new)>(add: (T, T) -> T, zero: T, fold: T -> Reg<T>, f: T -> T, r: Reg<T>)
    requires Linear(f, add) && f(zero) == zero && fold(f(r.s5)) == Map(f, fold(r.s5))
    ensures Next(add, zero, fold, Map(f, r)) == Map(f, Next(add, zero, fold, r))
  {
    MapPlus(f, add, Shifted(zero, r), fold(r.s5));
  }

  // ---- the number of a register ----

  /** The exclusive or of numbers with a lowest symbol each. */
  lemma DigitXor(m: nat, a: nat, n: nat, b: nat)
    requires a < 32 && b < 32
    ensures Xor(32 * m + a, 32 * n + b) == 32 * Xor(m, n) + Xor(a, b)
  {
    assert Pow2(5) == 32;
    ShlFive(m);
    ShlFive(n);
    ShlFive(Xor(m, n));
    XorOfDisjoint(m, a, 5);
    XorOfDisjoint(n, b, 5);
    XorExchange(Shl(m, 5), Shl(n, 5), a, b);
    ShlXor(m, n, 5);
    XorFits(a, b, 5);
    XorOfDisjoint(Xor(m, n), Xor(a, b), 5);
  }

  lemma {:induction false} NumXor(a: seq<nat>, b: seq<nat>, c: seq<nat>)
    requires |a| == |b| == |c|
    requires forall i :: 0 <= i < |a| ==> a[i] < 32 && b[i] < 32 && c[i] == Xor(a[i], b[i])
    ensures Num(c) == Xor(Num(a), Num(b))
  {
    if a != [] {
      NumXor(a[1..], b[1..], c[1..]);
      DigitXor(Num(a[1..]), a[0], Num(b[1..]), b[0]);
    }
  }

  lemma NumberPlus<T(!new)>(value: T -> nat, add: (T, T) -> T, x: Reg<T>, y: Reg<T>)
    requires Adds(value, add) && Small(value)
    ensures Number(value, Plus(add, x, y)) == Xor(Number(value, x), Number(value, y))
  {
    NumXor(Digits(value, x), Digits(value, y), Digits(value, Plus(add, x, y)));
  }

  lemma {:induction false} NumConcat(s: seq<nat>, t: seq<nat>)
    requires forall i :: 0 <= i < |s| ==> s[i] < 32
    ensures Num(s) < Pow2(5 * |s|) && Num(s + t) == Num(s) + Pow2(5 * |s|) * Num(t)
  {
    if s == [] {
      assert s + t == t;
    } else {
      NumConcat(s[1..], t);
      assert (s + t)[1..] == s[1..] + t;
      Pow2Five(5 * (|s| - 1));
      Distribute(s[0], Num(s[1..]), Pow2(5 * (|s| - 1)), Num(t));
    }
  }

  lemma Pow2Five(k: nat)
    ensures Pow2(k + 5) == 32 * Pow2(k)
  {
    assert Pow2(k + 1) == 2 * Pow2(k) && Pow2(k + 2) == 2 * Pow2(k + 1) && Pow2(k + 3) == 2 * Pow2(k + 2);
    assert Pow2(k + 4) == 2 * Pow2(k + 3) && Pow2(k + 5) == 2 * Pow2(k + 4);
  }

  lemma Distribute(d: nat, m: nat, p: nat, n: nat)
    ensures d + 32 * (m + p * n) == d + 32 * m + 32 * p * n
  {}

  lemma Lowest(s: seq<nat>, low: seq<nat>, top: nat, d: nat)
    requires |low| == 5 && s == low + [top] && forall i :: 0 <= i < 5 ==> low[i] < 32
    requires d == Num(s)
    ensures Shr(d, 25) == top && Low(d, 25) == Num(low)
  {
    NumConcat(low, [top]);
    assert [top][1..] == [];
    assert Num([top]) == top + 32 * Num([top][1..]);
    SplitAt(d, 25, top, Num(low));
  }

  lemma ShiftedNumber<T>(value: T -> nat, zero: T, r: Reg<T>, low: seq<nat>)
    requires value(zero) == 0 && low == [value(r.s0), value(r.s1), value(r.s2), value(r.s3), value(r.s4)]
    ensures Number(value, Shifted(zero, r)) == 32 * Num(low)
    ensures Digits(value, r) == low + [value(r.s5)]
  {
    var s := Digits(value, Shifted(zero, r));
    assert s == [0] + low;
    assert s[1..] == low;
  }

  /** A zero symbol takes the checksum's register of r to that of its successor. */
  lemma StepIsNext<T(!new)>(value: T -> nat, add: (T, T) -> T, zero: T, fold: T -> Reg<T>, r: Reg<T>)
    requires Adds(value, add) && Small(value) && value(zero) == 0
    requires Feed(0, value(r.s5), 5) == Number(value, fold(r.s5))
    ensures Step(Number(value, r), 0) == Number(value, Next(add, zero, fold, r))
  {
    var low := [value(r.s0), value(r.s1), value(r.s2), value(r.s3), value(r.s4)];
    ShiftedNumber(value, zero, r, low);
    Lowest(Digits(value, r), low, value(r.s5), Number(value, r));
    StepParts(Number(value, r), value(r.s5), Num(low));
    NumberPlus(value, add, Shifted(zero, r), fold(r.s5));
  }

  lemma StepParts(d: nat, top: nat, low: nat)
    requires Shr(d, 25) == top && Low(d, 25) == low
    ensures Step(d, 0) == Xor(32 * low, Feed(0, top, 5))
  {
    ShlFive(low);
    FeedSplits(32 * low, top, 5);
  }

  // ---- the fold of the checksum ----

  function On<T>(zero: T, b: bool, r: Reg<T>): Reg<T> { if b then r else Reg(zero, zero, zero, zero, zero, zero) }

  /** The first n words whose bit is set, folded together. */
  function Folded<T>(add: (T, T) -> T, zero: T, words: seq<Reg<T>>, bits: seq<bool>, n: nat): Reg<T>
    requires n <= |bits| == |words|
  {
    if n == 0 then On(zero, false, Reg(zero, zero, zero, zero, zero, zero))
    else Plus(add, Folded(add, zero, words, bits, n - 1), On(zero, bits[n - 1], words[n - 1]))
  }

  lemma ZeroNumber<T>(value: T -> nat, zero: T, s: seq<nat>)
    requires value(zero) == 0 && s == [0, 0, 0, 0, 0, 0]
    ensures Number(value, Reg(zero, zero, zero, zero, zero, zero)) == 0
  {
    assert Digits(value, Reg(zero, zero, zero, zero, zero, zero)) == s;
    AllZero(s);
  }

  lemma {:induction false} AllZero(s: seq<nat>)
    requires forall i :: 0 <= i < |s| ==> s[i] == 0
    ensures Num(s) == 0
  {
    if s != [] { AllZero(s[1..]); }
  }

  lemma {:induction false} FoldedFeeds<T(!new)>(value: T -> nat, add: (T, T) -> T, zero: T, words: seq<Reg<T>>,
                                                bits: seq<bool>, top: nat, n: nat)
    requires Adds(value, add) && Small(value) && value(zero) == 0 && n <= |bits| == |words| == 5
    requires forall i :: 0 <= i < 5 ==> Number(value, words[i]) == GEN[i] && Bit(Shr(top, i)) == bits[i]
    ensures Feed(0, top, n) == Number(value, Folded(add, zero, words, bits, n))
  {
    ZeroNumber(value, zero, [0, 0, 0, 0, 0, 0]);
    if n > 0 {
      FoldedFeeds(value, add, zero, words, bits, top, n - 1);
      NumberPlus(value, add, Folded(add, zero, words, bits, n - 1), On(zero, bits[n - 1], words[n - 1]));
    }
  }
}
