/** Strings compared by code point, as the source's sorts compare them, and searched from the end;
    and code points, of which Python strings are made. */
module Text {

  /** A code point, a surrogate included. */
  type Code = n: int | 0 <= n < 0x110000

  predicate Scalar(n: int) { 0 <= n < 0xD800 || 0xE000 <= n < 0x110000 }

  predicate AllScalar(codes: seq<Code>) { forall i :: 0 <= i < |codes| ==> Scalar(codes[i]) }

  function Chars(codes: seq<Code>): (s: string)
    requires AllScalar(codes)
    ensures |s| == |codes| && forall i :: 0 <= i < |s| ==> s[i] as int == codes[i]
  {
    seq(|codes|, i requires 0 <= i < |codes| => codes[i] as char)
  }

  function Codes(s: string): (codes: seq<Code>)
    ensures |codes| == |s| && forall i :: 0 <= i < |s| ==> codes[i] == s[i] as int
    ensures AllScalar(codes)
  {
    seq(|s|, i requires 0 <= i < |s| => s[i] as int)
  }

  lemma CharsOfCodes(s: string)
    ensures Chars(Codes(s)) == s
  {}

  predicate Less(a: string, b: string) {
    b != [] && (a == [] || a[0] < b[0] || (a[0] == b[0] && Less(a[1..], b[1..])))
  }

  /** One string is less than another exactly when, after a common beginning, it ends or goes on with
      a smaller character. */
  lemma LessExactly(a: string, b: string)
    ensures Less(a, b) <==>
      exists k :: 0 <= k <= |a| && k < |b| && a[..k] == b[..k] && (k == |a| || a[k] < b[k])
  {
    if k :| 0 <= k <= |a| && k < |b| && a[..k] == b[..k] && (k == |a| || a[k] < b[k]) { LessAfter(a, b, k); }
    if Less(a, b) { var k := LessDiffers(a, b); }
  }

  lemma {:induction false} LessAfter(a: string, b: string, k: nat)
    requires k <= |a| && k < |b| && a[..k] == b[..k] && (k == |a| || a[k] < b[k])
    ensures Less(a, b)
  {
    if k > 0 {
      assert a[0] == a[..k][0] == b[..k][0] == b[0];
      assert a[1..][..k - 1] == a[..k][1..] && b[1..][..k - 1] == b[..k][1..];
      LessAfter(a[1..], b[1..], k - 1);
    }
  }

  lemma {:induction false} LessDiffers(a: string, b: string) returns (k: nat)
    requires Less(a, b)
    ensures k <= |a| && k < |b| && a[..k] == b[..k] && (k == |a| || a[k] < b[k])
  {
    k := 0;
    if a != [] && a[0] == b[0] {
      var rest := LessDiffers(a[1..], b[1..]);
      k := rest + 1;
      assert a[..k] == [a[0]] + a[1..][..rest] && b[..k] == [b[0]] + b[1..][..rest];
    }
  }

  lemma {:induction false} LessTotal(a: string, b: string)
    ensures Less(a, b) || a == b || Less(b, a)
  {
    if a != [] && b != [] && a[0] == b[0] {
      LessTotal(a[1..], b[1..]);
      assert a == [a[0]] + a[1..] && b == [b[0]] + b[1..];
    }
  }

  lemma {:induction false} LessTransitive(a: string, b: string, c: string)
    requires Less(a, b) && Less(b, c)
    ensures Less(a, c)
  {
    if a != [] && a[0] == b[0] && b[0] == c[0] { LessTransitive(a[1..], b[1..], c[1..]); }
  }

  lemma {:induction false} LessIrreflexive(a: string)
    ensures !Less(a, a)
  {
    if a != [] { LessIrreflexive(a[1..]); }
  }

  lemma LessAsymmetric(a: string, b: string)
    requires Less(a, b)
    ensures !Less(b, a) && a != b
  {
    LessIrreflexive(a);
    if Less(b, a) { LessTransitive(a, b, a); }
  }

  /** The last position of c in s, or -1. */
  function RFind<T(==)>(s: seq<T>, c: T): (pos: int)
    ensures -1 <= pos < |s|
    ensures pos >= 0 ==> s[pos] == c
    ensures forall i :: pos < i < |s| ==> s[i] != c
  {
    if s == [] then -1
    else if s[|s| - 1] == c then |s| - 1
    else RFind(s[..|s| - 1], c)
  }

  /** The position found is the only one of c with no c after it. */
  lemma RFindExactly<T>(s: seq<T>, c: T, i: nat)
    requires i < |s|
    ensures RFind(s, c) == i <==> s[i] == c && c !in s[i + 1..]
  {
    if RFind(s, c) > i { assert s[RFind(s, c)] == s[i + 1..][RFind(s, c) - i - 1]; }
  }
}
