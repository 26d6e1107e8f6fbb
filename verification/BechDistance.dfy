/** Three changed symbols, at any distances within a recipient. Symbols are added as five-bit words
    and doubled as elements of the field of 32 elements of BIP-173. */
module BechDistance {
  import opened BitOps
  import opened Bech32
  import opened Orbit
  import opened SymbolRegister

  type Symbols5 = Reg<bv5>

  function Add(a: bv5, b: bv5): bv5 { a ^ b }

  function Value(b: bv5): nat {
    (if b & 1 != 0 then 1 else 0) + (if b & 2 != 0 then 2 else 0) + (if b & 4 != 0 then 4 else 0)
    + (if b & 8 != 0 then 8 else 0) + (if b & 16 != 0 then 16 else 0)
  }

  function Twice(b: bv5): bv5 { (b << 1) ^ (if b & 16 != 0 then 9 else 0) }

  /** The generator words, lowest symbol first. */
  const WORDS: seq<Symbols5> := [
    Reg(18, 29, 21, 20, 22, 29),
    Reg(13, 19, 3, 1, 5, 19),
    Reg(26, 15, 6, 2, 10, 15),
    Reg(29, 30, 12, 4, 20, 30),
    Reg(19, 21, 24, 8, 1, 21)]

  function Bits(t: bv5): seq<bool> { [t & 1 != 0, t & 2 != 0, t & 4 != 0, t & 8 != 0, t & 16 != 0] }

  function Fold(t: bv5): Symbols5 { Folded(Add, 0, WORDS, Bits(t), 5) }

  function Succ(r: Symbols5): Symbols5 { Next(Add, 0, Fold, r) }

  // ---- the value of a symbol ----

  function Join(p: bool, m: nat): nat { (if p then 1 else 0) + 2 * m }

  lemma JoinXor(p: bool, m: nat, q: bool, n: nat)
    ensures Xor(Join(p, m), Join(q, n)) == Join(p != q, Xor(m, n))
  {
    var i, j := Join(p, m), Join(q, n);
    assert i / 2 == m && j / 2 == n && Bit(i) == p && Bit(j) == q;
    XorParts(i, j);
  }

  /** A number of five bits. */
  function Five(a: bool, b: bool, c: bool, d: bool, e: bool): nat {
    Join(a, Join(b, Join(c, Join(d, Join(e, 0)))))
  }

  lemma FiveXor(a: bool, b: bool, c: bool, d: bool, e: bool, v: bool, w: bool, x: bool, y: bool, z: bool,
      i: nat, j: nat)
    requires i == Five(a, b, c, d, e) && j == Five(v, w, x, y, z)
    ensures Xor(i, j) == Five(a != v, b != w, c != x, d != y, e != z)
  {
    var i4, j4 := Join(e, 0), Join(z, 0);
    var i3, j3 := Join(d, i4), Join(y, j4);
    var i2, j2 := Join(c, i3), Join(x, j3);
    var i1, j1 := Join(b, i2), Join(w, j2);
    JoinXor(e, 0, z, 0);
    JoinXor(d, i4, y, j4);
    JoinXor(c, i3, x, j3);
    JoinXor(b, i2, w, j2);
    JoinXor(a, i1, v, j1);
  }

  lemma ValueIsFive(b: bv5)
    ensures Value(b) == Five(b & 1 != 0, b & 2 != 0, b & 4 != 0, b & 8 != 0, b & 16 != 0)
  {}

  lemma ValueOfXor(u: bv5, w: bv5)
    ensures Value(u ^ w) ==
      Five((u & 1 != 0) != (w & 1 != 0), (u & 2 != 0) != (w & 2 != 0), (u & 4 != 0) != (w & 4 != 0),
           (u & 8 != 0) != (w & 8 != 0), (u & 16 != 0) != (w & 16 != 0))
  {}

  lemma ValueXor(u: bv5, w: bv5)
    ensures Value(u ^ w) == Xor(Value(u), Value(w))
  {
    ValueIsFive(u);
    ValueIsFive(w);
    ValueOfXor(u, w);
    FiveXor(u & 1 != 0, u & 2 != 0, u & 4 != 0, u & 8 != 0, u & 16 != 0,
            w & 1 != 0, w & 2 != 0, w & 4 != 0, w & 8 != 0, w & 16 != 0, Value(u), Value(w));
  }

  lemma ValuesAdd()
    ensures Adds(Value, Add) && Small(Value) && Value(0) == 0
  {
    forall u: bv5, w: bv5 ensures Value(Add(u, w)) == Xor(Value(u), Value(w)) { ValueXor(u, w); }
  }

  lemma TwiceXor(u: bv5, w: bv5)
    ensures Twice(u ^ w) == Twice(u) ^ Twice(w)
  {}

  lemma TwiceIsLinear()
    ensures Linear(Twice, Add)
  {
    forall u: bv5, w: bv5 ensures Twice(Add(u, w)) == Add(Twice(u), Twice(w)) { TwiceXor(u, w); }
  }

  lemma WordIsGenerator(i: nat)
    requires i < 5
    ensures Number(Value, WORDS[i]) == GEN[i]
  {
    var s := Digits(Value, WORDS[i]);
    assert s[1..][1..] == s[2..] && s[2..][1..] == s[3..] && s[3..][1..] == s[4..] && s[4..][1..] == s[5..];
    assert s[5..][1..] == [] && Num(s[5..]) == s[5];
    assert Num(s[4..]) == s[4] + 32 * Num(s[5..]);
    assert Num(s[3..]) == s[3] + 32 * Num(s[4..]);
    assert Num(s[2..]) == s[2] + 32 * Num(s[3..]);
    assert Num(s[1..]) == s[1] + 32 * Num(s[2..]);
  }

  lemma BitsOfFive(a: bool, b: bool, c: bool, d: bool, e: bool, n: nat)
    ensures n == Five(a, b, c, d, e) ==>
      Bit(Shr(n, 0)) == a && Bit(Shr(n, 1)) == b && Bit(Shr(n, 2)) == c && Bit(Shr(n, 3)) == d && Bit(Shr(n, 4)) == e
  {
    if n == Five(a, b, c, d, e) {
      var n4 := Join(e, 0);
      var n3 := Join(d, n4);
      var n2 := Join(c, n3);
      var n1 := Join(b, n2);
      assert n / 2 == n1 && n1 / 2 == n2 && n2 / 2 == n3 && n3 / 2 == n4;
      assert Shr(n, 1) == n1 && Shr(n, 2) == Shr(n1, 1) == n2;
      assert Shr(n, 3) == Shr(n1, 2) == Shr(n2, 1) == n3 && Shr(n, 4) == Shr(n1, 3) == Shr(n2, 2) == Shr(n3, 1) == n4;
    }
  }

  lemma TopBits(t: bv5, n: nat, i: nat)
    requires n == Value(t) && i < 5
    ensures Bit(Shr(n, i)) == Bits(t)[i]
  {
    BitsOfFive(t & 1 != 0, t & 2 != 0, t & 4 != 0, t & 8 != 0, t & 16 != 0, n);
    ValueIsFive(t);
  }

  lemma FoldFeeds(t: bv5)
    ensures Feed(0, Value(t), 5) == Number(Value, Fold(t))
  {
    ValuesAdd();
    forall i | 0 <= i < 5 ensures Number(Value, WORDS[i]) == GEN[i] && Bit(Shr(Value(t), i)) == Bits(t)[i] {
      WordIsGenerator(i);
      TopBits(t, Value(t), i);
    }
    FoldedFeeds(Value, Add, 0, WORDS, Bits(t), Value(t), 5);
  }

  /** A zero symbol takes the register of r to that of its successor. */
  lemma StepIsSucc(r: Symbols5)
    ensures Step(Number(Value, r), 0) == Number(Value, Succ(r))
  {
    ValuesAdd();
    FoldFeeds(r.s5);
    StepIsNext(Value, Add, 0, Fold, r);
  }

  // ---- doubling ----

  /** One symbol of what is fed in, given that symbol of each word. */
  function Part(t: bv5, g0: bv5, g1: bv5, g2: bv5, g3: bv5, g4: bv5): bv5 {
    (if t & 1 != 0 then g0 else 0) ^ (if t & 2 != 0 then g1 else 0) ^ (if t & 4 != 0 then g2 else 0)
    ^ (if t & 8 != 0 then g3 else 0) ^ (if t & 16 != 0 then g4 else 0)
  }

  function Parts(t: bv5): Symbols5 {
    Reg(Part(t, 18, 13, 26, 29, 19),
        Part(t, 29, 19, 15, 30, 21),
        Part(t, 21, 3, 6, 12, 24),
        Part(t, 20, 1, 2, 4, 8),
        Part(t, 22, 5, 10, 20, 1),
        Part(t, 29, 19, 15, 30, 21))
  }

  lemma FoldIsParts(t: bv5)
    ensures Fold(t) == Parts(t)
  {
    var bits := Bits(t);
    var f1 := Folded(Add, 0, WORDS, bits, 1);
    var f2 := Folded(Add, 0, WORDS, bits, 2);
    var f3 := Folded(Add, 0, WORDS, bits, 3);
    var f4 := Folded(Add, 0, WORDS, bits, 4);
    assert f1 == Plus(Add, Folded(Add, 0, WORDS, bits, 0), On(0, bits[0], WORDS[0]));
    assert f2 == Plus(Add, f1, On(0, bits[1], WORDS[1]));
    assert f3 == Plus(Add, f2, On(0, bits[2], WORDS[2]));
    assert f4 == Plus(Add, f3, On(0, bits[3], WORDS[3]));
  }

  lemma PartsDouble(t: bv5)
    ensures Parts(Twice(t)) == Map(Twice, Parts(t))
  {}

  lemma SuccDoubles(r: Symbols5)
    ensures Succ(Map(Twice, r)) == Map(Twice, Succ(r))
  {
    TwiceIsLinear();
    FoldIsParts(r.s5);
    FoldIsParts(Twice(r.s5));
    PartsDouble(r.s5);
    assert Twice(0) == 0;
    NextMaps(Add, 0, Fold, Twice, r);
  }

  // ---- the orbit of 1 ----

  predicate Scalar(r: Symbols5) { r.s1 == 0 && r.s2 == 0 && r.s3 == 0 && r.s4 == 0 && r.s5 == 0 }

  function After(r: Symbols5, m: nat): Symbols5 { if m == 0 then r else Succ(After(r, m - 1)) }

  function Scale(a: bv5): Symbols5 { Reg(a, 0, 0, 0, 0, 0) }

  /** Succ, written out. */
  function Follower(r: Symbols5): Symbols5 { Plus(Add, Shifted(0, r), Parts(r.s5)) }

  /** How often a symbol must be doubled to give 1; 31 for zero. */
  function Log(a: bv5): nat {
    if a == 2 then 30 else if a == 4 then 29 else if a == 8 then 28 else if a == 16 then 27 else
    if a == 9 then 26 else if a == 18 then 25 else if a == 13 then 24 else if a == 26 then 23 else
    if a == 29 then 22 else if a == 19 then 21 else if a == 15 then 20 else if a == 30 then 19 else
    if a == 21 then 18 else if a == 3 then 17 else if a == 6 then 16 else if a == 12 then 15 else
    if a == 24 then 14 else if a == 25 then 13 else if a == 27 then 12 else if a == 31 then 11 else
    if a == 23 then 10 else if a == 7 then 9 else if a == 14 then 8 else if a == 28 then 7 else
    if a == 17 then 6 else if a == 11 then 5 else if a == 22 then 4 else if a == 5 then 3 else
    if a == 10 then 2 else if a == 20 then 1 else if a == 1 then 0 else 31
  }

  // The symbols by their logarithms.

  const POWERS0: seq<bv5> := [1, 20, 10, 5, 22, 11, 17, 28]
  const POWERS1: seq<bv5> := [14, 7, 23, 31, 27, 25, 24, 12]
  const POWERS2: seq<bv5> := [6, 3, 21, 30, 15, 19, 29, 26]
  const POWERS3: seq<bv5> := [13, 18, 9, 16, 8, 4, 2, 0]

  function Power(e: nat): bv5 {
    if e < 8 then POWERS0[e] else if e < 16 then POWERS1[e - 8] else if e < 24 then POWERS2[e - 16]
    else if e < 32 then POWERS3[e - 24] else 0
  }

  lemma LogOfPower0(e: nat)
    requires 0 <= e < 8
    ensures Log(Power(e)) == e
  {
    assert Log(1) == 0;
    assert Log(20) == 1;
    assert Log(10) == 2;
    assert Log(5) == 3;
    assert Log(22) == 4;
    assert Log(11) == 5;
    assert Log(17) == 6;
    assert Log(28) == 7;
  }

  lemma LogOfPower1(e: nat)
    requires 8 <= e < 16
    ensures Log(Power(e)) == e
  {
    assert Log(14) == 8;
    assert Log(7) == 9;
    assert Log(23) == 10;
    assert Log(31) == 11;
    assert Log(27) == 12;
    assert Log(25) == 13;
    assert Log(24) == 14;
    assert Log(12) == 15;
  }

  lemma LogOfPower2(e: nat)
    requires 16 <= e < 24
    ensures Log(Power(e)) == e
  {
    assert Log(6) == 16;
    assert Log(3) == 17;
    assert Log(21) == 18;
    assert Log(30) == 19;
    assert Log(15) == 20;
    assert Log(19) == 21;
    assert Log(29) == 22;
    assert Log(26) == 23;
  }

  lemma LogOfPower3(e: nat)
    requires 24 <= e < 32
    ensures Log(Power(e)) == e
  {
    assert Log(13) == 24;
    assert Log(18) == 25;
    assert Log(9) == 26;
    assert Log(16) == 27;
    assert Log(8) == 28;
    assert Log(4) == 29;
    assert Log(2) == 30;
    assert Log(0) == 31;
  }

  lemma LogOfPower(e: nat)
    requires e < 32
    ensures Log(Power(e)) == e
  {
    if e < 8 {
      LogOfPower0(e);
    } else if e < 16 {
      LogOfPower1(e);
    } else if e < 24 {
      LogOfPower2(e);
    } else {
      LogOfPower3(e);
    }
  }

  /** The quotient of two symbols, as the difference of their logarithms; 31 to 33 if one is zero. */
  function Quotient(e: int, f: int): int {
    if e == 31 then if f == 31 then 33 else 31
    else if f == 31 then 32
    else (e - f) % 31
  }

  type Logs = Reg<nat>

  /** Three quotients of the upper symbols, as one number. */
  function KeyOf(l: Logs): int {
    34 * 34 * Quotient(l.s1, l.s2) + 34 * Quotient(l.s1, l.s3) + Quotient(l.s4, l.s5)
  }

  function LogsOf(r: Symbols5): Logs { Reg(Log(r.s0), Log(r.s1), Log(r.s2), Log(r.s3), Log(r.s4), Log(r.s5)) }

  function Key(r: Symbols5): int { KeyOf(LogsOf(r)) }

  // ---- the registers that zero symbols lead to from 1 ----

  predicate Powers(l: Logs) { l.s0 < 32 && l.s1 < 32 && l.s2 < 32 && l.s3 < 32 && l.s4 < 32 && l.s5 < 32 }

  function RegOf(l: Logs): Symbols5 {
    Reg(Power(l.s0), Power(l.s1), Power(l.s2), Power(l.s3), Power(l.s4), Power(l.s5))
  }

  lemma KeyOfReg(l: Logs)
    requires Powers(l)
    ensures Key(RegOf(l)) == KeyOf(l)
  {
    LogOfPower(l.s1);
    LogOfPower(l.s2);
    LogOfPower(l.s3);
    LogOfPower(l.s4);
    LogOfPower(l.s5);
  }

  type Entries = Row<Symbols5, Logs>

  // Rows of ten registers and the next, with the logarithms of their symbols and the ranks of their
  // keys, and all keys in ascending order likewise.

  const ROW0: Entries := Row(
    [Reg(1, 0, 0, 0, 0, 0), Reg(0, 1, 0, 0, 0, 0), Reg(0, 0, 1, 0, 0, 0), Reg(0, 0, 0, 1, 0, 0),
     Reg(0, 0, 0, 0, 1, 0), Reg(0, 0, 0, 0, 0, 1), Reg(18, 29, 21, 20, 22, 29), Reg(6, 11, 26, 15, 29, 15),
     Reg(24, 25, 23, 9, 2, 2), Reg(13, 11, 26, 22, 12, 17), Reg(1, 5, 6, 6, 1, 4)],
    [Reg(0, 31, 31, 31, 31, 31), Reg(31, 0, 31, 31, 31, 31), Reg(31, 31, 0, 31, 31, 31), Reg(31, 31, 31, 0, 31, 31),
     Reg(31, 31, 31, 31, 0, 31), Reg(31, 31, 31, 31, 31, 0), Reg(25, 22, 18, 1, 4, 22), Reg(16, 5, 23, 20, 22, 20),
     Reg(14, 13, 10, 26, 30, 30), Reg(24, 5, 23, 4, 15, 6), Reg(0, 3, 16, 16, 0, 29)],
    [90, 86, 83, 87, 89, 88, 17, 37, 11, 35, 50])

  const ROW1: Entries := Row(
    [Reg(1, 5, 6, 6, 1, 4), Reg(26, 14, 3, 4, 12, 14), Reg(10, 24, 7, 4, 31, 14), Reg(10, 8, 17, 0, 31, 29),
     Reg(6, 19, 15, 11, 9, 6), Reg(23, 26, 22, 12, 4, 21), Reg(27, 16, 17, 8, 17, 3), Reg(31, 21, 6, 4, 27, 31),
     Reg(11, 21, 17, 29, 8, 17), Reg(1, 3, 24, 13, 10, 0), Reg(0, 1, 3, 24, 13, 10)],
    [Reg(0, 3, 16, 16, 0, 29), Reg(23, 8, 17, 29, 15, 8), Reg(2, 14, 9, 29, 11, 8), Reg(2, 28, 6, 31, 11, 22),
     Reg(16, 21, 20, 5, 26, 16), Reg(10, 23, 4, 15, 29, 18), Reg(12, 27, 6, 28, 6, 17), Reg(11, 18, 16, 29, 12, 11),
     Reg(5, 18, 6, 22, 28, 6), Reg(0, 17, 14, 24, 2, 31), Reg(31, 0, 17, 14, 24, 2)],
    [50, 62, 20, 67, 1, 51, 61, 5, 34, 13, 40])

  const ROW2: Entries := Row(
    [Reg(0, 1, 3, 24, 13, 10), Reg(16, 13, 14, 6, 9, 0), Reg(0, 16, 13, 14, 6, 9), Reg(15, 3, 9, 29, 12, 5),
     Reg(8, 29, 16, 31, 1, 30), Reg(25, 31, 12, 31, 5, 22), Reg(4, 16, 2, 7, 17, 12), Reg(7, 21, 26, 4, 25, 0),
     Reg(0, 7, 21, 26, 4, 25), Reg(28, 22, 6, 13, 25, 18), Reg(30, 26, 13, 15, 9, 31)],
    [Reg(31, 0, 17, 14, 24, 2), Reg(27, 24, 8, 16, 26, 31), Reg(31, 27, 24, 8, 16, 26), Reg(20, 17, 26, 22, 15, 3),
     Reg(28, 22, 27, 11, 0, 19), Reg(13, 11, 15, 11, 3, 4), Reg(29, 27, 30, 9, 6, 15), Reg(9, 18, 23, 29, 13, 31),
     Reg(31, 9, 18, 23, 29, 13), Reg(7, 4, 16, 24, 13, 25), Reg(19, 23, 24, 20, 26, 11)],
    [40, 45, 12, 65, 71, 73, 75, 72, 63, 52, 79])

  const ROW3: Entries := Row(
    [Reg(30, 26, 13, 15, 9, 31), Reg(11, 20, 30, 22, 3, 3), Reg(31, 5, 2, 11, 5, 13), Reg(21, 19, 26, 16, 3, 9),
     Reg(15, 22, 10, 10, 18, 0), Reg(0, 15, 22, 10, 10, 18), Reg(30, 6, 20, 31, 14, 12), Reg(7, 15, 12, 18, 1, 31),
     Reg(11, 13, 11, 23, 30, 11), Reg(2, 27, 23, 26, 16, 14), Reg(10, 0, 18, 16, 1, 18)],
    [Reg(19, 23, 24, 20, 26, 11), Reg(5, 1, 19, 4, 17, 17), Reg(11, 3, 30, 5, 3, 24), Reg(18, 21, 23, 27, 17, 26),
     Reg(20, 4, 2, 2, 25, 31), Reg(31, 20, 4, 2, 2, 25), Reg(19, 16, 1, 11, 8, 15), Reg(9, 20, 15, 25, 0, 11),
     Reg(5, 24, 5, 10, 19, 5), Reg(30, 12, 10, 23, 27, 8), Reg(2, 31, 25, 27, 0, 25)],
    [79, 39, 19, 78, 2, 47, 43, 22, 54, 6, 80])

  const ROW4: Entries := Row(
    [Reg(10, 0, 18, 16, 1, 18), Reg(30, 12, 27, 27, 20, 7), Reg(5, 31, 28, 12, 2, 21), Reg(27, 2, 20, 2, 17, 5),
     Reg(8, 9, 17, 2, 30, 3), Reg(31, 6, 31, 4, 17, 16), Reg(19, 10, 30, 23, 5, 4), Reg(26, 28, 12, 28, 29, 10),
     Reg(16, 23, 19, 9, 13, 16), Reg(19, 5, 15, 27, 8, 24), Reg(14, 24, 17, 3, 14, 3)],
    [Reg(2, 31, 25, 27, 0, 25), Reg(19, 15, 12, 12, 1, 9), Reg(3, 11, 7, 15, 30, 18), Reg(12, 30, 1, 30, 6, 3),
     Reg(28, 26, 6, 30, 19, 17), Reg(11, 16, 11, 29, 6, 27), Reg(21, 2, 19, 10, 3, 29), Reg(23, 7, 15, 7, 22, 2),
     Reg(27, 10, 21, 26, 24, 27), Reg(21, 3, 20, 12, 28, 14), Reg(8, 14, 6, 17, 8, 17)],
    [80, 9, 18, 77, 58, 21, 42, 68, 57, 41, 25])

  const ROW5: Entries := Row(
    [Reg(14, 24, 17, 3, 14, 3), Reg(31, 0, 14, 4, 16, 0), Reg(0, 31, 0, 14, 4, 16), Reg(19, 21, 7, 8, 15, 17),
     Reg(1, 27, 24, 27, 31, 7), Reg(5, 0, 11, 15, 2, 30), Reg(25, 18, 17, 4, 21, 21), Reg(27, 30, 25, 15, 25, 18),
     Reg(30, 29, 5, 16, 11, 31), Reg(11, 20, 25, 30, 28, 1), Reg(18, 22, 1, 13, 8, 1)],
    [Reg(8, 14, 6, 17, 8, 17), Reg(11, 31, 8, 29, 27, 31), Reg(31, 11, 31, 8, 29, 27), Reg(21, 18, 9, 28, 20, 6),
     Reg(0, 12, 14, 12, 11, 9), Reg(3, 31, 5, 20, 30, 19), Reg(13, 25, 6, 29, 18, 18), Reg(12, 19, 13, 20, 13, 25),
     Reg(19, 22, 3, 27, 5, 11), Reg(5, 1, 13, 19, 7, 0), Reg(25, 4, 0, 24, 28, 0)],
    [25, 82, 84, 28, 76, 81, 56, 24, 55, 53, 16])

  const ROW6: Entries := Row(
    [Reg(18, 22, 1, 13, 8, 1), Reg(18, 15, 3, 21, 27, 21), Reg(27, 21, 4, 29, 8, 28), Reg(20, 31, 7, 10, 2, 12),
     Reg(7, 5, 21, 1, 20, 19), Reg(12, 28, 11, 8, 19, 15), Reg(24, 19, 0, 24, 5, 12), Reg(7, 9, 25, 6, 6, 20),
     Reg(9, 29, 23, 19, 13, 28), Reg(20, 13, 15, 25, 12, 9), Reg(15, 23, 20, 31, 27, 15)],
    [Reg(25, 4, 0, 24, 28, 0), Reg(25, 20, 17, 18, 12, 18), Reg(12, 18, 29, 22, 28, 7), Reg(1, 11, 9, 2, 30, 15),
     Reg(9, 3, 18, 0, 1, 21), Reg(15, 7, 5, 28, 21, 20), Reg(14, 21, 31, 14, 3, 15), Reg(9, 26, 13, 16, 16, 1),
     Reg(26, 22, 10, 21, 24, 7), Reg(1, 24, 20, 13, 15, 26), Reg(20, 10, 1, 11, 12, 20)],
    [16, 8, 59, 3, 44, 4, 85, 36, 32, 15, 29])

  const ROW7: Entries := Row(
    [Reg(15, 23, 20, 31, 27, 15), Reg(24, 16, 11, 7, 18, 4), Reg(26, 23, 22, 9, 13, 29), Reg(6, 3, 16, 12, 0, 20),
     Reg(9, 28, 29, 26, 7, 26), Reg(3, 17, 11, 16, 10, 31), Reg(11, 9, 21, 16, 28, 0), Reg(0, 11, 9, 21, 16, 28),
     Reg(20, 4, 25, 7, 10, 20), Reg(9, 14, 26, 19, 12, 16), Reg(19, 28, 22, 18, 18, 25)],
    [Reg(20, 10, 1, 11, 12, 20), Reg(14, 27, 5, 9, 25, 29), Reg(23, 10, 4, 26, 24, 22), Reg(16, 17, 27, 15, 31, 1),
     Reg(26, 7, 22, 23, 9, 23), Reg(17, 6, 5, 27, 2, 11), Reg(5, 26, 18, 27, 7, 31), Reg(31, 5, 26, 18, 27, 7),
     Reg(1, 29, 13, 9, 2, 1), Reg(26, 8, 23, 21, 15, 27), Reg(21, 7, 4, 25, 25, 13)],
    [29, 64, 23, 60, 46, 0, 26, 30, 49, 48, 10])

  const ROW8: Entries := Row(
    [Reg(19, 28, 22, 18, 18, 25), Reg(28, 5, 29, 14, 17, 4), Reg(26, 19, 3, 31, 4, 30), Reg(25, 13, 2, 12, 5, 19),
     Reg(12, 2, 3, 31, 30, 30), Reg(25, 27, 19, 12, 5, 9), Reg(15, 26, 2, 3, 14, 6), Reg(23, 19, 31, 1, 12, 18),
     Reg(30, 17, 8, 22, 5, 10), Reg(16, 19, 30, 13, 7, 8), Reg(29, 14, 31, 26, 25, 25)],
    [Reg(21, 7, 4, 25, 25, 13), Reg(7, 3, 22, 8, 6, 29), Reg(23, 21, 17, 11, 29, 19), Reg(13, 24, 30, 15, 3, 21),
     Reg(15, 30, 17, 11, 19, 19), Reg(13, 12, 21, 15, 3, 26), Reg(20, 23, 30, 17, 8, 16), Reg(10, 21, 11, 0, 15, 25),
     Reg(19, 6, 28, 4, 3, 2), Reg(27, 21, 19, 24, 9, 28), Reg(22, 8, 11, 23, 13, 13)],
    [10, 33, 14, 70, 38, 66, 69, 31, 27, 7, 74])

  const RANKS0: seq<Rank> := [
    Rank(1518, 75), Rank(1710, 14), Rank(2412, 34), Rank(2633, 63), Rank(2653, 65), Rank(2993, 17),
    Rank(3011, 39), Rank(3276, 89), Rank(3561, 61), Rank(3593, 41), Rank(3922, 80)]

  const RANKS1: seq<Rank> := [
    Rank(3922, 80), Rank(4080, 8), Rank(4135, 22), Rank(4316, 19), Rank(4974, 82), Rank(5018, 69),
    Rank(5026, 60), Rank(5351, 6), Rank(5554, 42), Rank(5620, 32), Rank(6327, 12)]

  const RANKS2: seq<Rank> := [
    Rank(6327, 12), Rank(6402, 45), Rank(6684, 37), Rank(7448, 72), Rank(7975, 57), Rank(10222, 50),
    Rank(10300, 76), Rank(10473, 88), Rank(11132, 53), Rank(11447, 70), Rank(12192, 77)]

  const RANKS3: seq<Rank> := [
    Rank(12192, 77), Rank(12295, 87), Rank(13923, 68), Rank(14764, 81), Rank(14812, 18), Rank(15071, 9),
    Rank(15383, 67), Rank(15574, 7), Rank(15674, 84), Rank(15980, 31), Rank(16784, 20)]

  const RANKS4: seq<Rank> := [
    Rank(16784, 20), Rank(16946, 49), Rank(16971, 46), Rank(17534, 36), Rank(18609, 64), Rank(18800, 21),
    Rank(19023, 74), Rank(19116, 35), Rank(19127, 79), Rank(19177, 78), Rank(21422, 10)]

  const RANKS5: seq<Rank> := [
    Rank(21422, 10), Rank(22247, 15), Rank(22357, 29), Rank(22413, 59), Rank(22454, 38), Rank(22873, 58),
    Rank(22882, 56), Rank(23658, 48), Rank(24040, 44), Rank(24059, 62), Rank(24375, 73)]

  const RANKS6: seq<Rank> := [
    Rank(24375, 73), Rank(25316, 16), Rank(25779, 11), Rank(26026, 28), Rank(26071, 71), Rank(26328, 23),
    Rank(26392, 85), Rank(26540, 13), Rank(26608, 47), Rank(27971, 86), Rank(29219, 83)]

  const RANKS7: seq<Rank> := [
    Rank(29219, 83), Rank(30442, 24), Rank(30768, 27), Rank(31242, 25), Rank(32912, 90), Rank(33002, 26),
    Rank(33526, 54), Rank(33527, 43), Rank(34396, 33), Rank(34797, 30), Rank(36896, 40)]

  const RANKS8: seq<Rank> := [
    Rank(36896, 40), Rank(36901, 55), Rank(36922, 51), Rank(36991, 2), Rank(37096, 52), Rank(37249, 66),
    Rank(38113, 1), Rank(39235, 3), Rank(39301, 5), Rank(39302, 4), Rank(39303, 0)]

  function RowAt(i: nat): Entries {
    if i == 0 then ROW0 else
    if i == 1 then ROW1 else
    if i == 2 then ROW2 else
    if i == 3 then ROW3 else
    if i == 4 then ROW4 else
    if i == 5 then ROW5 else
    if i == 6 then ROW6 else
    if i == 7 then ROW7 else
    ROW8
  }

  function RankAt(i: nat): Rank {
    if i < 10 then RANKS0[i - 0] else
    if i < 20 then RANKS1[i - 10] else
    if i < 30 then RANKS2[i - 20] else
    if i < 40 then RANKS3[i - 30] else
    if i < 50 then RANKS4[i - 40] else
    if i < 60 then RANKS5[i - 50] else
    if i < 70 then RANKS6[i - 60] else
    if i < 80 then RANKS7[i - 70] else
    if i <= 90 then RANKS8[i - 80] else RANKS8[10]
  }

  // The predicates on rows, written out for these.

  predicate Logged(row: Entries, n: nat)
    requires n < |row.states| && n < |row.forms|
  {
    (n == 0 || Logged(row, n - 1)) && Powers(row.forms[n]) && RegOf(row.forms[n]) == row.states[n]
  }

  lemma {:induction false} LoggedIsFormed(row: Entries, n: nat)
    requires n < |row.states| && n < |row.forms| && Logged(row, n)
    ensures Formed(RegOf, Powers, row, n)
  {
    if n > 0 { LoggedIsFormed(row, n - 1); }
  }

  predicate InRanks(row: Entries, at: nat, n: nat)
    requires n < |row.forms| && n < |row.ranks|
  {
    (n == 0 || InRanks(row, at, n - 1)) && row.ranks[n] <= 90
    && RankAt(row.ranks[n]) == Rank(KeyOf(row.forms[n]), at + n)
  }

  lemma {:induction false} InRanksIsRanked(row: Entries, at: nat, n: nat)
    requires n < |row.forms| && n < |row.ranks| && InRanks(row, at, n)
    ensures Ranked(KeyOf, RankAt, row, at, n)
  {
    if n > 0 { InRanksIsRanked(row, at, n - 1); }
  }

  function Entered(): Table<Symbols5, Logs> { Table(Follower, RegOf, Powers, KeyOf, RowAt, RankAt) }

  lemma Row0()
    ensures Chain(Follower, ROW0, 10)
  {}

  lemma Logs0()
    ensures Logged(ROW0, 10)
  {}

  lemma Ranks0()
    ensures InRanks(ROW0, 0, 10)
  {}

  lemma Row1()
    ensures Chain(Follower, ROW1, 10)
  {}

  lemma Logs1()
    ensures Logged(ROW1, 10)
  {}

  lemma Ranks1()
    ensures InRanks(ROW1, 10, 10)
  {}

  lemma Row2()
    ensures Chain(Follower, ROW2, 10)
  {}

  lemma Logs2()
    ensures Logged(ROW2, 10)
  {}

  lemma Ranks2()
    ensures InRanks(ROW2, 20, 10)
  {}

  lemma Row3()
    ensures Chain(Follower, ROW3, 10)
  {}

  lemma Logs3()
    ensures Logged(ROW3, 10)
  {}

  lemma Ranks3()
    ensures InRanks(ROW3, 30, 10)
  {}

  lemma Row4()
    ensures Chain(Follower, ROW4, 10)
  {}

  lemma Logs4()
    ensures Logged(ROW4, 10)
  {}

  lemma Ranks4()
    ensures InRanks(ROW4, 40, 10)
  {}

  lemma Row5()
    ensures Chain(Follower, ROW5, 10)
  {}

  lemma Logs5()
    ensures Logged(ROW5, 10)
  {}

  lemma Ranks5()
    ensures InRanks(ROW5, 50, 10)
  {}

  lemma Row6()
    ensures Chain(Follower, ROW6, 10)
  {}

  lemma Logs6()
    ensures Logged(ROW6, 10)
  {}

  lemma Ranks6()
    ensures InRanks(ROW6, 60, 10)
  {}

  lemma Row7()
    ensures Chain(Follower, ROW7, 10)
  {}

  lemma Logs7()
    ensures Logged(ROW7, 10)
  {}

  lemma Ranks7()
    ensures InRanks(ROW7, 70, 10)
  {}

  lemma Row8()
    ensures Chain(Follower, ROW8, 10)
  {}

  lemma Logs8()
    ensures Logged(ROW8, 10)
  {}

  lemma Ranks8()
    ensures InRanks(ROW8, 80, 10)
  {}

  lemma Fits(t: Table<Symbols5, Logs>, row: Entries, at: nat)
    requires t == Entered() && |row.states| == |row.forms| == |row.ranks| == 11
    requires Chain(Follower, row, 10) && Formed(RegOf, Powers, row, 10) && Ranked(KeyOf, RankAt, row, at, 10)
    ensures IsRow(t, row, at)
  {}

  lemma IsRow0()
    ensures IsRow(Entered(), ROW0, 0)
  {
    Row0();
    Logs0();
    Ranks0();
    LoggedIsFormed(ROW0, 10);
    InRanksIsRanked(ROW0, 0, 10);
    Fits(Entered(), ROW0, 0);
  }

  lemma IsRow1()
    ensures IsRow(Entered(), ROW1, 10)
  {
    Row1();
    Logs1();
    Ranks1();
    LoggedIsFormed(ROW1, 10);
    InRanksIsRanked(ROW1, 10, 10);
    Fits(Entered(), ROW1, 10);
  }

  lemma IsRow2()
    ensures IsRow(Entered(), ROW2, 20)
  {
    Row2();
    Logs2();
    Ranks2();
    LoggedIsFormed(ROW2, 10);
    InRanksIsRanked(ROW2, 20, 10);
    Fits(Entered(), ROW2, 20);
  }

  lemma IsRow3()
    ensures IsRow(Entered(), ROW3, 30)
  {
    Row3();
    Logs3();
    Ranks3();
    LoggedIsFormed(ROW3, 10);
    InRanksIsRanked(ROW3, 30, 10);
    Fits(Entered(), ROW3, 30);
  }

  lemma IsRow4()
    ensures IsRow(Entered(), ROW4, 40)
  {
    Row4();
    Logs4();
    Ranks4();
    LoggedIsFormed(ROW4, 10);
    InRanksIsRanked(ROW4, 40, 10);
    Fits(Entered(), ROW4, 40);
  }

  lemma IsRow5()
    ensures IsRow(Entered(), ROW5, 50)
  {
    Row5();
    Logs5();
    Ranks5();
    LoggedIsFormed(ROW5, 10);
    InRanksIsRanked(ROW5, 50, 10);
    Fits(Entered(), ROW5, 50);
  }

  lemma IsRow6()
    ensures IsRow(Entered(), ROW6, 60)
  {
    Row6();
    Logs6();
    Ranks6();
    LoggedIsFormed(ROW6, 10);
    InRanksIsRanked(ROW6, 60, 10);
    Fits(Entered(), ROW6, 60);
  }

  lemma IsRow7()
    ensures IsRow(Entered(), ROW7, 70)
  {
    Row7();
    Logs7();
    Ranks7();
    LoggedIsFormed(ROW7, 10);
    InRanksIsRanked(ROW7, 70, 10);
    Fits(Entered(), ROW7, 70);
  }

  lemma IsRow8()
    ensures IsRow(Entered(), ROW8, 80)
  {
    Row8();
    Logs8();
    Ranks8();
    LoggedIsFormed(ROW8, 10);
    InRanksIsRanked(ROW8, 80, 10);
    Fits(Entered(), ROW8, 80);
  }

  lemma RowIsRow(i: nat)
    requires i < 9
    ensures IsRow(Entered(), RowAt(i), 10 * i)
  {
    match i {
      case 0 => IsRow0();
      case 1 => IsRow1();
      case 2 => IsRow2();
      case 3 => IsRow3();
      case 4 => IsRow4();
      case 5 => IsRow5();
      case 6 => IsRow6();
      case 7 => IsRow7();
      case _ => IsRow8();
    }
  }

  lemma RowsJoin(i: nat)
    requires i < 8
    ensures Joined(RowAt(i), RowAt(i + 1))
  {}

  lemma RanksAreRising()
    ensures Rising(RANKS0, 10) && Rising(RANKS1, 10) && Rising(RANKS2, 10) && Rising(RANKS3, 10) && Rising(RANKS4, 10)
    ensures Rising(RANKS5, 10) && Rising(RANKS6, 10) && Rising(RANKS7, 10) && Rising(RANKS8, 10)
  {}

  lemma LowRankRises(i: nat)
    requires i < 40
    ensures RankAt(i).key < RankAt(i + 1).key
  {
    RanksAreRising();
    if i < 10 {
      RowRises(RANKS0, i - 0, 10);
    } else if i < 20 {
      RowRises(RANKS1, i - 10, 10);
    } else if i < 30 {
      RowRises(RANKS2, i - 20, 10);
    } else if i < 40 {
      RowRises(RANKS3, i - 30, 10);
    }
  }

  lemma HighRankRises(i: nat)
    requires 40 <= i < 90
    ensures RankAt(i).key < RankAt(i + 1).key
  {
    RanksAreRising();
    if i < 50 {
      RowRises(RANKS4, i - 40, 10);
    } else if i < 60 {
      RowRises(RANKS5, i - 50, 10);
    } else if i < 70 {
      RowRises(RANKS6, i - 60, 10);
    } else if i < 80 {
      RowRises(RANKS7, i - 70, 10);
    } else if i < 90 {
      RowRises(RANKS8, i - 80, 10);
    }
  }

  lemma RankRises(i: nat)
    requires i < 90
    ensures RankAt(i).key < RankAt(i + 1).key
  {
    if i < 40 { LowRankRises(i); } else { HighRankRises(i); }
  }

  lemma FirstRow()
    ensures |RowAt(0).states| == 11 && RowAt(0).states[0] == Scale(1)
  {}

  lemma EnteredIsRight()
    ensures Right(Entered())
  {
    var t := Entered();
    forall i | 0 <= i < 9 ensures IsRow(t, t.rowAt(i), 10 * i) { RowIsRow(i); }
    forall i | 0 <= i < 8 ensures Joined(t.rowAt(i), t.rowAt(i + 1)) { RowsJoin(i); }
    forall i | 0 <= i < 90 ensures t.rankAt(i).key < t.rankAt(i + 1).key { RankRises(i); }
  }

  lemma {:induction false} AfterIsIterate(r: Symbols5, m: nat)
    ensures After(r, m) == Iterate(Follower, r, m)
  {
    if m > 0 {
      AfterIsIterate(r, m - 1);
      FoldIsParts(After(r, m - 1).s5);
    }
  }

  lemma FormsOfOne(t: Table<Symbols5, Logs>, m: nat, n: nat) returns (f: Logs, g: Logs)
    requires t == Entered() && m <= 90 && n <= 90 && m != n
    ensures Powers(f) && RegOf(f) == After(Scale(1), m)
    ensures Powers(g) && RegOf(g) == After(Scale(1), n)
    ensures KeyOf(f) != KeyOf(g)
  {
    EnteredIsRight();
    FirstRow();
    RowIsRow(0);
    f, g := KeysApart(t, Scale(1), m, n);
    AfterIsIterate(Scale(1), m);
    AfterIsIterate(Scale(1), n);
  }

  /** Different numbers of zero symbols after a 1 lead to registers with different keys. */
  lemma KeysOfOne(m: nat, n: nat)
    requires m <= 90 && n <= 90 && m != n
    ensures Key(After(Scale(1), m)) != Key(After(Scale(1), n))
  {
    var f, g := FormsOfOne(Entered(), m, n);
    KeyOfReg(f);
    KeyOfReg(g);
  }

  // ---- every scalar ----

  lemma {:induction false} AfterDoubles(r: Symbols5, m: nat)
    ensures After(Map(Twice, r), m) == Map(Twice, After(r, m))
  {
    if m > 0 {
      AfterDoubles(r, m - 1);
      SuccDoubles(After(r, m - 1));
    }
  }

  lemma LogTwice(a: bv5)
    requires a != 0
    ensures Twice(a) != 0 && Log(a) < 31 && Log(Twice(a)) == if Log(a) == 0 then 30 else Log(a) - 1
    ensures Log(a) == 0 <==> a == 1
  {}

  lemma LogsTwice(a: bv5)
    ensures Log(Twice(a)) == if Log(a) == 31 then 31 else if Log(a) == 0 then 30 else Log(a) - 1
    ensures Log(a) <= 31
  {
    assert Twice(0) == 0 && Log(0) == 31;
    if a != 0 { LogTwice(a); }
  }

  lemma QuotientTwice(a: bv5, b: bv5)
    ensures Quotient(Log(Twice(a)), Log(Twice(b))) == Quotient(Log(a), Log(b))
  {
    LogsTwice(a);
    LogsTwice(b);
    QuotientShift(Log(a), Log(b));
  }

  lemma QuotientShift(e: nat, f: nat)
    requires e <= 31 && f <= 31
    ensures Quotient(if e == 31 then 31 else if e == 0 then 30 else e - 1,
                     if f == 31 then 31 else if f == 0 then 30 else f - 1) == Quotient(e, f)
  {}

  lemma KeyTwice(r: Symbols5)
    ensures Key(Map(Twice, r)) == Key(r)
  {
    QuotientTwice(r.s1, r.s2);
    QuotientTwice(r.s1, r.s3);
    QuotientTwice(r.s4, r.s5);
  }

  lemma ScaleTwice(a: bv5)
    ensures Scale(Twice(a)) == Map(Twice, Scale(a))
  {}

  /** The key does not depend on the symbol before the zeros. */
  lemma {:induction false} KeyAfter(a: bv5, m: nat)
    requires a != 0
    ensures Key(After(Scale(a), m)) == Key(After(Scale(1), m))
    decreases Log(a)
  {
    LogTwice(a);
    if a != 1 {
      KeyAfter(Twice(a), m);
      ScaleTwice(a);
      AfterDoubles(Scale(a), m);
      KeyTwice(After(Scale(a), m));
    }
  }

  lemma KeysDiffer(a: bv5, m: nat, b: bv5, n: nat)
    requires a != 0 && b != 0 && m <= 90 && n <= 90 && m != n
    ensures Key(After(Scale(a), m)) != Key(After(Scale(b), n))
  {
    KeyAfter(a, m);
    KeyAfter(b, n);
    KeysOfOne(m, n);
  }

  // ---- the checksum ----

  function Zeros(m: nat): (w: seq<nat>)
    ensures |w| == m
  {
    seq(m, _ => 0)
  }

  lemma {:induction false} RunIsAfter(r: Symbols5, m: nat)
    ensures Run(Number(Value, r), Zeros(m)) == Number(Value, After(r, m))
  {
    if m > 0 {
      RunIsAfter(r, m - 1);
      assert Zeros(m) == Zeros(m - 1) + [0];
      RunAppend(Number(Value, r), Zeros(m - 1), [0]);
      StepIsSucc(After(r, m - 1));
      RunOf(Run(Number(Value, r), Zeros(m - 1)), 0);
    }
  }

  function SymbolOf(a: nat): bv5 {
    (if a % 2 == 1 then 1 else 0) | (if a / 2 % 2 == 1 then 2 else 0) | (if a / 4 % 2 == 1 then 4 else 0)
    | (if a / 8 % 2 == 1 then 8 else 0) | (if a / 16 % 2 == 1 then 16 else 0)
  }

  lemma SymbolValue(a: nat)
    requires 1 <= a < 32
    ensures Value(SymbolOf(a)) == a && SymbolOf(a) != 0
  {}

  lemma ValueZero(b: bv5)
    ensures Value(b) == 0 ==> b == 0
  {}

  lemma SmallIsScalar(r: Symbols5)
    requires Number(Value, r) < 32
    ensures Scalar(r)
  {
    var s := Digits(Value, r);
    assert Num(s) == s[0] + 32 * Num(s[1..]);
    NumZero(s[1..]);
    ValueZero(r.s1);
    ValueZero(r.s2);
    ValueZero(r.s3);
    ValueZero(r.s4);
    ValueZero(r.s5);
    assert s[1..][0] == s[1] && s[1..][1] == s[2] && s[1..][2] == s[3] && s[1..][3] == s[4] && s[1..][4] == s[5];
  }

  lemma {:induction false} NumZero(s: seq<nat>)
    ensures Num(s) == 0 ==> forall i :: 0 <= i < |s| ==> s[i] == 0
  {
    if s != [] {
      NumZero(s[1..]);
      assert forall i :: 1 <= i < |s| ==> s[i] == s[1..][i - 1];
    }
  }

  lemma ScaleNumber(a: nat, s: seq<nat>)
    requires 1 <= a < 32 && s == [a, 0, 0, 0, 0, 0]
    ensures Number(Value, Scale(SymbolOf(a))) == a
  {
    SymbolValue(a);
    assert Value(0) == 0;
    assert Digits(Value, Scale(SymbolOf(a))) == s;
    AllZero(s[1..]);
  }

  /** The lowest symbol does not matter for the key. */
  lemma SameUpperKey(x: Symbols5, y: Symbols5)
    requires x.s1 == y.s1 && x.s2 == y.s2 && x.s3 == y.s3 && x.s4 == y.s4 && x.s5 == y.s5
    ensures Key(x) == Key(y)
  {}

  /** A symbol followed by 1 to 90 zero symbols leaves at least one of the upper symbols set. */
  lemma SymbolSurvives(a: nat, m: nat)
    requires 1 <= a < 32 && 1 <= m <= 90
    ensures Run(a, Zeros(m)) >= 32
  {
    var r := Scale(SymbolOf(a));
    ScaleNumber(a, [a, 0, 0, 0, 0, 0]);
    SymbolValue(a);
    RunIsAfter(r, m);
    if Number(Value, After(r, m)) < 32 {
      SmallIsScalar(After(r, m));
      SameUpperKey(After(r, m), After(r, 0));
      KeysDiffer(SymbolOf(a), m, SymbolOf(a), 0);
    }
  }

  lemma StepFromZero(e: nat)
    ensures Step(0, e) == e
  {
    assert Pow2(25) > 0;
    StepOfSmall(0, e);
    ShlZero(5);
  }

  lemma RunOf(chk: nat, e: nat)
    ensures Run(chk, [e]) == Step(chk, e)
  {
    assert Run(chk, [e]) == Run(Step(chk, e), [e][1..]);
    assert [e][1..] == [];
  }

  lemma RunSnoc(chk: nat, w: seq<nat>, v: nat)
    ensures Run(chk, w + [v]) == Step(Run(chk, w), v)
  {
    RunAppend(chk, w, [v]);
    RunOf(Run(chk, w), v);
  }

  lemma {:induction false} ZerosKeepZero(n: nat)
    ensures Run(0, Zeros(n)) == 0
  {
    if n > 0 {
      ZerosKeepZero(n - 1);
      assert Zeros(n) == Zeros(n - 1) + [0];
      RunSnoc(0, Zeros(n - 1), 0);
      StepFromZero(0);
    }
  }

  /** Two symbols, followed by different numbers of zeros, lead to registers with different upper
      symbols. */
  lemma OrbitsApart(a: nat, m: nat, b: nat, n: nat)
    requires 1 <= a < 32 && b < 32 && 1 <= n < m <= 90
    ensures Xor(Run(a, Zeros(m)), Run(b, Zeros(n))) >= 32
  {
    if b == 0 {
      ZerosKeepZero(n);
      SymbolSurvives(a, m);
    } else {
      var x, y := After(Scale(SymbolOf(a)), m), After(Scale(SymbolOf(b)), n);
      OrbitNumber(a, m);
      OrbitNumber(b, n);
      ValuesAdd();
      NumberPlus(Value, Add, x, y);
      if Number(Value, Plus(Add, x, y)) < 32 {
        SmallIsScalar(Plus(Add, x, y));
        SameUpper(x, y);
        KeysDiffer(SymbolOf(a), m, SymbolOf(b), n);
      }
    }
  }

  lemma OrbitNumber(a: nat, m: nat)
    requires 1 <= a < 32
    ensures SymbolOf(a) != 0 && Run(a, Zeros(m)) == Number(Value, After(Scale(SymbolOf(a)), m))
  {
    ScaleNumber(a, [a, 0, 0, 0, 0, 0]);
    SymbolValue(a);
    RunIsAfter(Scale(SymbolOf(a)), m);
  }

  lemma AddZero(u: bv5, w: bv5)
    requires Add(u, w) == 0
    ensures u == w
  {}

  lemma SameUpper(x: Symbols5, y: Symbols5)
    requires Scalar(Plus(Add, x, y))
    ensures Key(x) == Key(y)
  {
    AddZero(x.s1, y.s1);
    AddZero(x.s2, y.s2);
    AddZero(x.s3, y.s3);
    AddZero(x.s4, y.s4);
    AddZero(x.s5, y.s5);
  }

  /** The last symbol is added to what a zero in its place would lead to. */
  lemma AddLast(chk: nat, w: seq<nat>, v: nat)
    ensures Run(chk, w + [v]) == Xor(Run(chk, w + [0]), v)
  {
    RunSnoc(chk, w, v);
    RunSnoc(chk, w, 0);
    StepLinear(Run(chk, w), 0, 0, v);
    StepFromZero(v);
  }

  lemma ZerosTogether(p: nat, n: nat)
    ensures Zeros(p) + Zeros(n) == Zeros(p + n)
  {}

  lemma FirstSymbol(a: nat, p: nat)
    ensures Run(0, [a] + Zeros(p)) == Run(a, Zeros(p))
  {
    RunAppend(0, [a], Zeros(p));
    RunOf(0, a);
    StepFromZero(a);
  }

  /** Zeros after a sum lead to the sum of what they lead to. */
  lemma ZerosAdd(s: nat, t: nat, n: nat)
    ensures Run(Xor(s, t), Zeros(n)) == Xor(Run(s, Zeros(n)), Run(t, Zeros(n)))
  {
    RunLinear(s, t, Zeros(n), Zeros(n));
    assert XorSeq(Zeros(n), Zeros(n)) == Zeros(n);
  }

  lemma ToSecond(a: nat, b: nat, p: nat)
    ensures Run(0, [a] + Zeros(p) + [b]) == Xor(Run(a, Zeros(p + 1)), b)
  {
    AddLast(0, [a] + Zeros(p), b);
    assert [a] + Zeros(p) + [0] == [a] + Zeros(p + 1);
    FirstSymbol(a, p + 1);
  }

  lemma SecondSymbol(a: nat, b: nat, p: nat, n: nat)
    ensures Run(0, ([a] + Zeros(p) + [b]) + Zeros(n)) == Xor(Run(a, Zeros(p + 1 + n)), Run(b, Zeros(n)))
  {
    var front, s := [a] + Zeros(p) + [b], Run(a, Zeros(p + 1));
    ToSecond(a, b, p);
    RunAppend(0, front, Zeros(n));
    ZerosAdd(s, b, n);
    RunAppend(a, Zeros(p + 1), Zeros(n));
    ZerosTogether(p + 1, n);
  }

  /** Three symbols, the first not zero, over at most 91 places never leave the register at zero. */
  lemma ThreeSymbolsSurvive(a: nat, b: nat, c: nat, p: nat, q: nat)
    requires 1 <= a < 32 && b < 32 && c < 32 && p + q + 2 <= 90
    ensures Run(0, [a] + Zeros(p) + [b] + Zeros(q) + [c]) != 0
  {
    var v := [a] + Zeros(p) + [b] + Zeros(q);
    AddLast(0, v, c);
    ZerosTogether(q, 1);
    assert v + [0] == ([a] + Zeros(p) + [b]) + (Zeros(q) + Zeros(1));
    SecondSymbol(a, b, p, q + 1);
    OrbitsApart(a, p + q + 2, b, q + 1);
    if Run(0, v + [c]) == 0 { XorCancel(Run(0, v + [0]), c); }
  }

  /** Two words that differ in their first symbol and otherwise at most in the one at k and in their
      last. */
  ghost predicate ThreeDiffer(u: seq<nat>, v: seq<nat>, k: nat) {
    0 < k < |u| - 1 && |u| == |v| && u[0] != v[0] && forall i :: 0 < i < |u| - 1 && i != k ==> u[i] == v[i]
  }

  lemma XorSymbols(u: nat, v: nat)
    requires u < 32 && v < 32
    ensures Xor(u, v) < 32 && (u != v ==> Xor(u, v) >= 1)
  {
    assert Pow2(5) == 32;
    XorFits(u, v, 5);
    if Xor(u, v) == 0 { XorCancel(u, v); }
  }

  lemma DifferenceOfThree(u: seq<nat>, v: seq<nat>, k: nat)
    requires ThreeDiffer(u, v, k) && Symbols(u) && Symbols(v)
    ensures var n := |u| - 1;
      var a, b, c := Xor(u[0], v[0]), Xor(u[k], v[k]), Xor(u[n], v[n]);
      && 1 <= a < 32 && b < 32 && c < 32
      && XorSeq(u, v) == [a] + Zeros(k - 1) + [b] + Zeros(n - k - 1) + [c]
  {
    var n := |u| - 1;
    XorSymbols(u[0], v[0]);
    XorSymbols(u[k], v[k]);
    XorSymbols(u[n], v[n]);
    forall i | 0 < i < n && i != k ensures Xor(u[i], v[i]) == 0 { XorSelf(u[i]); }
  }

  lemma ThreeChange(s: nat, u: seq<nat>, v: seq<nat>, k: nat)
    requires ThreeDiffer(u, v, k) && |u| <= 91 && Symbols(u) && Symbols(v)
    ensures Run(s, u) != Run(s, v)
  {
    var n := |u| - 1;
    DifferenceOfThree(u, v, k);
    ThreeSymbolsSurvive(Xor(u[0], v[0]), Xor(u[k], v[k]), Xor(u[n], v[n]), k - 1, n - k - 1);
    DifferenceSurvives(s, u, v);
  }

  lemma DifferenceSurvives(s: nat, u: seq<nat>, v: seq<nat>)
    requires |u| == |v| && Run(0, XorSeq(u, v)) != 0
    ensures Run(s, u) != Run(s, v)
  {
    RunLinear(s, s, u, v);
    XorSelf(s);
    XorSelf(Run(s, u));
  }

  /** Changing up to three symbols at most 90 places apart always changes the checksum: whatever comes
      before and after, and however long it is. */
  lemma ThreeChangesChecksum(chk: nat, before: seq<nat>, u: seq<nat>, v: seq<nat>, k: nat, after: seq<nat>)
    requires chk < 0x4000_0000 && Symbols(after)
    requires forall i :: 0 <= i < |before| ==> before[i] < 0x4000_0000
    requires ThreeDiffer(u, v, k) && |u| <= 91 && Symbols(u) && Symbols(v)
    ensures Run(chk, before + u + after) != Run(chk, before + v + after)
  {
    Pow2Of30();
    var s := Run(chk, before);
    RunFits(chk, before);
    RunAppend(chk, before + u, after);
    RunAppend(chk, before + v, after);
    RunAppend(chk, before, u);
    RunAppend(chk, before, v);
    RunFits(s, u);
    RunFits(s, v);
    if Run(Run(s, u), after) == Run(Run(s, v), after) {
      RunInjective(Run(s, u), Run(s, v), after);
      ThreeChange(s, u, v, k);
    }
  }
}
