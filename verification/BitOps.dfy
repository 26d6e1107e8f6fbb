/** Bitwise operations of nonnegative integers of any size, as the shifts, masks and
    exclusive-or of the source compute them. */
module BitOps {

  function Bit(a: nat): bool { a % 2 == 1 }

  function Xor(a: nat, b: nat): nat
    decreases a + b
  {
    if a == 0 then b
    else if b == 0 then a
    else 2 * Xor(a / 2, b / 2) + (if Bit(a) == Bit(b) then 0 else 1)
  }

  /** x << k */
  function Shl(a: nat, k: nat): nat {
    if k == 0 then a else 2 * Shl(a, k - 1)
  }

  /** x >> k */
  function Shr(a: nat, k: nat): nat {
    if k == 0 then a else Shr(a / 2, k - 1)
  }

  /** x & (2^k - 1) */
  function Low(a: nat, k: nat): nat {
    if k == 0 then 0 else 2 * Low(a / 2, k - 1) + a % 2
  }

  lemma {:induction false} XorParts(a: nat, b: nat)
    ensures Xor(a, b) / 2 == Xor(a / 2, b / 2)
    ensures Bit(Xor(a, b)) == (Bit(a) != Bit(b))
  {}

  lemma Same(a: nat, b: nat)
    requires a / 2 == b / 2 && Bit(a) == Bit(b)
    ensures a == b
  {}

  lemma {:induction false} XorComm(a: nat, b: nat)
    ensures Xor(a, b) == Xor(b, a)
    decreases a + b
  {
    if a != 0 && b != 0 { XorComm(a / 2, b / 2); }
  }

  lemma {:induction false} XorSelf(a: nat)
    ensures Xor(a, a) == 0
  {
    if a != 0 { XorSelf(a / 2); }
  }

  lemma {:induction false} XorAssoc(a: nat, b: nat, c: nat)
    ensures Xor(Xor(a, b), c) == Xor(a, Xor(b, c))
    decreases a + b + c
  {
    if a + b + c > 0 {
      XorAssoc(a / 2, b / 2, c / 2);
      XorParts(a, b);
      XorParts(b, c);
      XorParts(Xor(a, b), c);
      XorParts(a, Xor(b, c));
      Same(Xor(Xor(a, b), c), Xor(a, Xor(b, c)));
    }
  }

  lemma XorExchange(a: nat, b: nat, c: nat, d: nat)
    ensures Xor(Xor(a, b), Xor(c, d)) == Xor(Xor(a, c), Xor(b, d))
  {
    XorAssoc(a, b, Xor(c, d));
    XorAssoc(b, c, d);
    XorComm(b, c);
    XorAssoc(c, b, d);
    XorAssoc(a, c, Xor(b, d));
  }

  lemma XorCancel(a: nat, b: nat)
    requires Xor(a, b) == 0
    ensures a == b
  {
    XorAssoc(a, b, b);
    XorSelf(b);
  }

  lemma {:induction false} ShlXor(a: nat, b: nat, k: nat)
    ensures Shl(Xor(a, b), k) == Xor(Shl(a, k), Shl(b, k))
  {
    if k > 0 {
      ShlXor(a, b, k - 1);
      var x, y := Shl(a, k - 1), Shl(b, k - 1);
      XorParts(2 * x, 2 * y);
      Same(Xor(2 * x, 2 * y), 2 * Xor(x, y));
    }
  }

  lemma {:induction false} ShrXor(a: nat, b: nat, k: nat)
    ensures Shr(Xor(a, b), k) == Xor(Shr(a, k), Shr(b, k))
  {
    if k > 0 {
      XorParts(a, b);
      ShrXor(a / 2, b / 2, k - 1);
    }
  }

  lemma {:induction false} LowXor(a: nat, b: nat, k: nat)
    ensures Low(Xor(a, b), k) == Xor(Low(a, k), Low(b, k))
  {
    if k > 0 {
      XorParts(a, b);
      LowXor(a / 2, b / 2, k - 1);
      LowParts(a, k);
      LowParts(b, k);
      LowParts(Xor(a, b), k);
      XorParts(Low(a, k), Low(b, k));
      Same(Low(Xor(a, b), k), Xor(Low(a, k), Low(b, k)));
    }
  }

  lemma LowParts(a: nat, k: nat)
    requires k > 0
    ensures Low(a, k) / 2 == Low(a / 2, k - 1) && Bit(Low(a, k)) == Bit(a)
  {}

  lemma {:induction false} LowShl(a: nat, k: nat)
    ensures Low(Shl(a, k), k) == 0 && Shr(Shl(a, k), k) == a
  {
    if k > 0 { LowShl(a, k - 1); }
  }

  lemma {:induction false} SplitJoin(a: nat, k: nat)
    ensures a == Shl(Shr(a, k), k) + Low(a, k)
  {
    if k > 0 { SplitJoin(a / 2, k - 1); ShlDouble(Shr(a / 2, k - 1), k - 1); }
  }

  lemma {:induction false} ShlDouble(a: nat, k: nat)
    ensures Shl(2 * a, k) == 2 * Shl(a, k)
  {
    if k > 0 { ShlDouble(a, k - 1); }
  }
  function Pow2(k: nat): (r: nat)
    ensures r > 0
  {
    if k == 0 then 1 else 2 * Pow2(k - 1)
  }

  lemma {:induction false} FitsIffShrZero(a: nat, k: nat)
    ensures a < Pow2(k) <==> Shr(a, k) == 0
  {
    if k > 0 { FitsIffShrZero(a / 2, k - 1); }
  }

  lemma XorFits(a: nat, b: nat, k: nat)
    requires a < Pow2(k) && b < Pow2(k)
    ensures Xor(a, b) < Pow2(k)
  {
    FitsIffShrZero(a, k);
    FitsIffShrZero(b, k);
    FitsIffShrZero(Xor(a, b), k);
    ShrXor(a, b, k);
  }

  lemma {:induction false} ShlFits(a: nat, j: nat, k: nat)
    requires a < Pow2(j)
    ensures Shl(a, k) < Pow2(j + k)
  {
    if k > 0 { ShlFits(a, j, k - 1); }
  }

  lemma {:induction false} LowFits(a: nat, k: nat)
    ensures Low(a, k) < Pow2(k)
  {
    if k > 0 { LowFits(a / 2, k - 1); }
  }

  lemma {:induction false} ShrFits(a: nat, j: nat, k: nat)
    requires a < Pow2(j + k)
    ensures Shr(a, k) < Pow2(j)
  {
    if k > 0 { ShrFits(a / 2, j, k - 1); }
  }

  lemma {:induction false} LowOfSmall(a: nat, k: nat)
    requires a < Pow2(k)
    ensures Low(a, k) == a
  {
    if k > 0 { LowOfSmall(a / 2, k - 1); }
  }

  lemma {:induction false} XorOfDisjoint(a: nat, b: nat, k: nat)
    requires b < Pow2(k)
    ensures Xor(Shl(a, k), b) == Shl(a, k) + b
  {
    if k > 0 {
      XorOfDisjoint(a, b / 2, k - 1);
      XorParts(Shl(a, k), b);
      Same(Xor(Shl(a, k), b), Shl(a, k) + b);
    }
  }

  lemma {:induction false} ShrZero(k: nat)
    ensures Shr(0, k) == 0
  {
    if k > 0 { ShrZero(k - 1); }
  }

  lemma {:induction false} ShlZero(k: nat)
    ensures Shl(0, k) == 0
  {
    if k > 0 { ShlZero(k - 1); }
  }
}
