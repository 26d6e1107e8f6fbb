/** The check of an age recipient: prefix, case, length, human-readable part, alphabet and
    Bech32 checksum. */
module Recipient {
  import opened Prelude
  import opened BitOps
  import opened Bech32
  import opened Text
  import BechDistance

  const CHARSET: string := "qpzry9x8gf2tvdw0s3jn54khce6mua7l"

  datatype Verdict = Accepted | NotAge1 | MixedCase | Malformed | WrongHrp | BadChar | BadChecksum

  function Lower(s: string): (t: string)
    ensures |t| == |s|
  {
    seq(|s|, i requires 0 <= i < |s| => if 'A' <= s[i] <= 'Z' then s[i] + 32 as char else s[i])
  }

  function Upper(s: string): (t: string)
    ensures |t| == |s|
  {
    seq(|s|, i requires 0 <= i < |s| => if 'a' <= s[i] <= 'z' then s[i] - 32 as char else s[i])
  }

  predicate FirstAt(s: string, c: char, i: nat) { i < |s| && s[i] == c && c !in s[..i] }

  lemma {:induction false} FirstExists(s: string, c: char)
    requires c in s
    ensures exists i: nat :: FirstAt(s, c, i)
  {
    var n := |s| - 1;
    if c in s[..n] {
      FirstExists(s[..n], c);
      var i: nat :| FirstAt(s[..n], c, i);
      assert s[..n][..i] == s[..i];
      assert FirstAt(s, c, i);
    } else {
      assert FirstAt(s, c, n);
    }
  }

  /** The first position of c in s, if there is one. */
  function Index(s: string, c: char): Option<nat> {
    if c !in s then None
    else
      FirstExists(s, c);
      var i: nat :| i < |s| && FirstAt(s, c, i);
      Some(i)
  }

  /** The five-bit value of a character of the alphabet. */
  function SymbolOf(c: char): Option<nat> { Index(CHARSET, c) }

  lemma SymbolMeans(c: char)
    ensures SymbolOf(c).Some? <==> c in CHARSET
    ensures SymbolOf(c).Some? ==> SymbolOf(c).value < 32 && CHARSET[SymbolOf(c).value] == c
  {}

  lemma AlphabetDistinct(i: nat, j: nat)
    requires i < j < 32
    ensures CHARSET[i] != CHARSET[j]
  {}

  /** The symbol of the character that stands at position v of the alphabet is v. */
  lemma SymbolAt(v: nat)
    requires v < 32
    ensures SymbolOf(CHARSET[v]) == Some(v)
  {
    SymbolMeans(CHARSET[v]);
    var p := SymbolOf(CHARSET[v]).value;
    if p < v { AlphabetDistinct(p, v); }
    if v < p { AlphabetDistinct(v, p); }
  }

  lemma SymbolsDistinct(c: char, d: char)
    requires SymbolOf(c).Some? && SymbolOf(c) == SymbolOf(d)
    ensures c == d
  {
    SymbolMeans(c);
    SymbolMeans(d);
  }

  lemma SymbolsDiffer(c: char, d: char)
    requires SymbolOf(c).Some? && SymbolOf(d).Some? && c != d
    ensures SymbolOf(c) != SymbolOf(d)
  {
    SymbolMeans(c);
    SymbolMeans(d);
  }

  /** The five-bit values of a data part; none if a character is outside the alphabet. */
  function Decode(s: string): Option<seq<nat>> {
    if s == [] then Some([])
    else
      var first := SymbolOf(s[0]);
      if first.None? then None
      else match Decode(s[1..]) case None => None case Some(rest) => Some([first.value] + rest)
  }

  ghost predicate DecodesTo(s: string, data: seq<nat>) {
    |data| == |s| && forall i :: 0 <= i < |s| ==> SymbolOf(s[i]) == Some(data[i])
  }

  /** Decoding goes character by character. */
  lemma {:induction false} DecodeMeans(s: string)
    ensures Decode(s).Some? <==> forall i :: 0 <= i < |s| ==> SymbolOf(s[i]).Some?
    ensures Decode(s).Some? ==> DecodesTo(s, Decode(s).value) && Symbols(Decode(s).value)
  {
    if s != [] {
      DecodeMeans(s[1..]);
      SymbolMeans(s[0]);
      assert forall i :: 1 <= i < |s| ==> s[i] == s[1..][i - 1];
    }
  }

  lemma {:induction false} DecodeIs(s: string, w: seq<nat>)
    requires DecodesTo(s, w)
    ensures Decode(s) == Some(w)
  {
    if s != [] {
      DecodeIs(s[1..], w[1..]);
      assert w == [w[0]] + w[1..];
    }
  }

  function HrpExpand(hrp: string): (values: seq<nat>)
    ensures |values| == 2 * |hrp| + 1
    ensures forall i :: 0 <= i < |values| ==> values[i] < 0x4000_0000
  {
    seq(|hrp|, i requires 0 <= i < |hrp| => hrp[i] as int / 32) + [0] +
    seq(|hrp|, i requires 0 <= i < |hrp| => hrp[i] as int % 32)
  }

  lemma Halves(n: nat, high: nat, low: nat)
    ensures n == 32 * high + low && low < 32 <==> high == n / 32 && low == n % 32
  {}

  lemma ExpansionParts(hrp: string)
    ensures var w, n := HrpExpand(hrp), |hrp|;
      && w[n] == 0 && |w[..n]| == n && |w[n + 1..]| == n
      && forall i :: 0 <= i < n ==> w[..n][i] == hrp[i] as int / 32 && w[n + 1..][i] == hrp[i] as int % 32
  {}

  lemma SameParts<T>(v: seq<T>, w: seq<T>, n: nat)
    requires |v| == |w| > n && v[..n] == w[..n] && v[n] == w[n] && v[n + 1..] == w[n + 1..]
    ensures v == w
  {
    assert v == v[..n] + [v[n]] + v[n + 1..] && w == w[..n] + [w[n]] + w[n + 1..];
  }

  lemma PartsAgree(hrp: string, high: seq<nat>, low: seq<nat>, high': seq<nat>, low': seq<nat>)
    requires |high| == |low| == |high'| == |low'| == |hrp|
    requires forall i :: 0 <= i < |hrp| ==> high'[i] == hrp[i] as int / 32 && low'[i] == hrp[i] as int % 32
    ensures high == high' && low == low' <==>
      forall i :: 0 <= i < |hrp| ==> low[i] < 32 && 32 * high[i] + low[i] == hrp[i] as int
  {
    forall i | 0 <= i < |hrp|
      ensures low[i] < 32 && 32 * high[i] + low[i] == hrp[i] as int <==> high[i] == high'[i] && low[i] == low'[i]
    {
      Halves(hrp[i] as int, high[i], low[i]);
    }
  }

  /** The expansion is the one list that holds, around a zero, the parts of the characters above
      their low five bits first and those five bits last. */
  lemma HrpExpandMeans(hrp: string, v: seq<nat>)
    ensures v == HrpExpand(hrp) <==>
      && |v| == 2 * |hrp| + 1 && v[|hrp|] == 0
      && var high, low := v[..|hrp|], v[|hrp| + 1..];
        forall i :: 0 <= i < |hrp| ==> low[i] < 32 && 32 * high[i] + low[i] == hrp[i] as int
  {
    var w, n := HrpExpand(hrp), |hrp|;
    ExpansionParts(hrp);
    if |v| == 2 * n + 1 && v[n] == 0 {
      PartsAgree(hrp, v[..n], v[n + 1..], w[..n], w[n + 1..]);
      if v[..n] == w[..n] && v[n + 1..] == w[n + 1..] { SameParts(v, w, n); }
    }
  }

  lemma AgeExpands()
    ensures HrpExpand("age") == [3, 3, 3, 0, 1, 7, 5]
  {
    HrpExpandMeans("age", [3, 3, 3, 0, 1, 7, 5]);
  }

  function Validate(recipient: string): Verdict {
    if !("age1" <= recipient) then NotAge1
    else if Lower(recipient) != recipient && Upper(recipient) != recipient then MixedCase
    else
      var s := Lower(recipient);
      var pos := RFind(s, '1');
      if pos < 1 || pos + 7 > |s| || |s| > 90 then Malformed
      else if s[..pos] != "age" then WrongHrp
      else
        match Decode(s[pos + 1..])
        case None => BadChar
        case Some(data) =>
          if Run(1, HrpExpand(s[..pos]) + data) != 1 then BadChecksum else Accepted
  }

  method ValidateRecipient(recipient: string) returns (verdict: Verdict)
    ensures verdict == Validate(recipient)
  {
    if !("age1" <= recipient) { return NotAge1; }
    if Lower(recipient) != recipient && Upper(recipient) != recipient { return MixedCase; }
    var s := Lower(recipient);
    var pos := RFind(s, '1');
    if pos < 1 || pos + 7 > |s| || |s| > 90 { return Malformed; }
    if s[..pos] != "age" { return WrongHrp; }
    var data := Decode(s[pos + 1..]);
    if data.None? { return BadChar; }
    var chk := Polymod(HrpExpand(s[..pos]) + data.value);
    if chk != 1 { return BadChecksum; }
    return Accepted;
  }

  /** The checksum of a data part under the human-readable part "age". */
  ghost predicate ChecksumHolds(data: string) {
    Decode(data).Some? && Run(1, HrpExpand("age") + Decode(data).value) == 1
  }

  lemma CharsetShape(c: char)
    requires SymbolOf(c).Some?
    ensures c != '1' && !('A' <= c <= 'Z')
  {
    SymbolMeans(c);
    CharsetHasNone();
  }

  lemma CharsetHasNone()
    ensures forall c :: c in CHARSET ==> c != '1' && !('A' <= c <= 'Z')
  {}

  /** Decoding determines the text. */
  lemma SameData(s: string, t: string)
    requires Decode(s).Some? && Decode(s) == Decode(t)
    ensures s == t
  {
    DecodeMeans(s);
    DecodeMeans(t);
    forall i | 0 <= i < |s| ensures s[i] == t[i] {
      SymbolsDistinct(s[i], t[i]);
    }
  }

  lemma PrefixIsLower(r: string)
    requires "age1" <= r
    ensures Upper(r) != r
    ensures Lower(r)[..3] == "age" && Lower(r)[3] == '1'
  {
    assert r[0] == 'a' && r[1] == 'g' && r[2] == 'e' && r[3] == '1';
    assert Upper(r)[0] == 'A';
  }

  lemma AcceptedShape(r: string)
    requires Validate(r) == Accepted
    ensures 10 <= |r| <= 90 && "age1" <= r && ChecksumHolds(r[4..])
  {
    PrefixIsLower(r);
    var pos := RFind(r, '1');
    assert |r[..pos]| == 3;
  }

  lemma NothingToLower(s: string)
    requires forall i :: 0 <= i < |s| ==> !('A' <= s[i] <= 'Z')
    ensures Lower(s) == s
  {}

  lemma DataIsLower(r: string)
    requires "age1" <= r && forall i :: 4 <= i < |r| ==> r[i] != '1' && !('A' <= r[i] <= 'Z')
    ensures Lower(r) == r && RFind(r, '1') == 3
  {
    assert r[0] == 'a' && r[1] == 'g' && r[2] == 'e' && r[3] == '1';
    NothingToLower(r);
  }

  lemma ShapeAccepted(r: string)
    requires 10 <= |r| <= 90 && "age1" <= r && ChecksumHolds(r[4..])
    ensures Validate(r) == Accepted
  {
    DecodeMeans(r[4..]);
    forall i | 4 <= i < |r| ensures r[i] != '1' && !('A' <= r[i] <= 'Z') {
      assert r[i] == r[4..][i - 4];
      CharsetShape(r[i]);
    }
    DataIsLower(r);
    PrefixIsLower(r);
  }

  lemma AcceptedIff(r: string)
    ensures Validate(r) == Accepted <==>
            10 <= |r| <= 90 && "age1" <= r && ChecksumHolds(r[4..])
  {
    if Validate(r) == Accepted { AcceptedShape(r); }
    if 10 <= |r| <= 90 && "age1" <= r && ChecksumHolds(r[4..]) { ShapeAccepted(r); }
  }

  /** Exactly which strings are accepted: the register is fed the expansion of "age", written out,
      and the data part. */
  lemma AcceptedExactly(r: string)
    ensures Validate(r) == Accepted <==>
      && 10 <= |r| <= 90 && "age1" <= r && Decode(r[4..]).Some?
      && Run(1, [3, 3, 3, 0, 1, 7, 5] + Decode(r[4..]).value) == 1
  {
    AgeExpands();
    AcceptedIff(r);
  }

  lemma LastOne(r: string, n: nat)
    requires n <= |r|
    ensures RFind(r, '1') >= n <==> exists i :: n <= i < |r| && r[i] == '1'
  {
    if RFind(r, '1') >= n { assert r[RFind(r, '1')] == '1'; }
  }

  lemma UpperShows(r: string)
    ensures Lower(r) != r <==> exists i :: 0 <= i < |r| && 'A' <= r[i] <= 'Z'
  {
    if i :| 0 <= i < |r| && 'A' <= r[i] <= 'Z' { assert Lower(r)[i] != r[i]; }
  }

  lemma PrefixEndsIn(r: string)
    requires "age1" <= r
    ensures r[3] == '1' && r[..3] == "age" && RFind(r, '1') >= 3
  {
    assert r[..3] == "age1"[..3];
  }

  lemma AgeBefore(r: string, pos: nat)
    requires "age1" <= r && 3 <= pos < |r|
    ensures r[..pos] == "age" <==> pos == 3
  {
    PrefixEndsIn(r);
  }

  lemma VerdictOnAge(r: string)
    requires "age1" <= r && Lower(r) == r && RFind(r, '1') == 3 && 10 <= |r| <= 90
    ensures Validate(r) == if Decode(r[4..]).None? then BadChar
                           else if !ChecksumHolds(r[4..]) then BadChecksum else Accepted
  {
    PrefixEndsIn(r);
  }

  lemma VerdictOnOther(r: string, pos: int)
    requires "age1" <= r && Lower(r) == r && 3 <= pos < |r| && pos == RFind(r, '1')
    requires pos + 7 > |r| || |r| > 90 || pos != 3
    ensures Validate(r) == if pos + 7 > |r| || |r| > 90 then Malformed else WrongHrp
  {
    AgeBefore(r, pos);
  }

  lemma VerdictByPlace(r: string, pos: int)
    requires "age1" <= r && Lower(r) == r && 3 <= pos < |r| && pos == RFind(r, '1')
    ensures Validate(r) ==
      if pos + 7 > |r| || |r| > 90 then Malformed
      else if pos != 3 then WrongHrp
      else if Decode(r[4..]).None? then BadChar
      else if !ChecksumHolds(r[4..]) then BadChecksum
      else Accepted
  {
    if pos + 7 > |r| || |r| > 90 || pos != 3 { VerdictOnOther(r, pos); } else { VerdictOnAge(r); }
  }

  lemma MixedWhen(r: string)
    requires "age1" <= r && Lower(r) != r
    ensures Validate(r) == MixedCase
  {
    PrefixIsLower(r);
  }

  /** The verdict on any string, in terms of its own characters: an upper-case letter, more than 90
      characters or a '1' among the last six, a second '1', a character outside the alphabet, a
      register that does not end at 1. */
  lemma VerdictExactly(r: string)
    ensures Validate(r) ==
      if !("age1" <= r) then NotAge1
      else if exists i :: 0 <= i < |r| && 'A' <= r[i] <= 'Z' then MixedCase
      else if |r| > 90 || |r| < 10 || exists i :: |r| - 6 <= i < |r| && r[i] == '1' then Malformed
      else if exists i :: 4 <= i < |r| && r[i] == '1' then WrongHrp
      else if Decode(r[4..]).None? then BadChar
      else if Run(1, [3, 3, 3, 0, 1, 7, 5] + Decode(r[4..]).value) != 1 then BadChecksum
      else Accepted
  {
    if "age1" <= r {
      AgeExpands();
      UpperShows(r);
      PrefixEndsIn(r);
      if Lower(r) == r { VerdictByPlace(r, RFind(r, '1')); } else { MixedWhen(r); }
      LastOne(r, 4);
      if |r| >= 10 { LastOne(r, |r| - 6); }
    }
  }

  /** A typo confined to at most six neighbouring characters is always refused. */
  lemma TypoRefused(r: string, typo: string, at: nat)
    requires Validate(r) == Accepted
    requires |typo| == |r| && typo != r
    requires forall i :: 0 <= i < |r| && !(at <= i < at + 6) ==> typo[i] == r[i]
    ensures Validate(typo) != Accepted
  {
    if Validate(typo) == Accepted {
      AcceptedShape(r);
      AcceptedShape(typo);
      var lo := if at < 4 then 0 else if at > |r| then |r| - 4 else at - 4;
      var hi := if lo + 6 > |r| - 4 then |r| - 4 else lo + 6;
      TailsDiffer(r, typo, at, lo, hi);
      DataTypoRefused(r[4..], typo[4..], lo, hi);
    }
  }

  /** Three changed characters anywhere in a recipient are always refused. */
  lemma ThreeTyposRefused(r: string, typo: string, i: nat, j: nat, k: nat)
    requires Validate(r) == Accepted && i < j < k < |r|
    requires |typo| == |r| && typo != r
    requires forall m :: 0 <= m < |r| && m != i && m != j && m != k ==> typo[m] == r[m]
    ensures Validate(typo) != Accepted
  {
    if Validate(typo) == Accepted {
      AcceptedShape(r);
      AcceptedShape(typo);
      PrefixAgrees(r, typo);
      if typo[i] != r[i] {
        TailsWithThree(r, typo, i, j, k);
      } else if k < j + 6 {
        TypoRefused(r, typo, j);
      } else if typo[j] != r[j] {
        TailsWithThree(r, typo, j, j + 1, k);
      } else {
        TypoRefused(r, typo, k);
      }
    }
  }

  lemma TailsWithThree(r: string, typo: string, i: nat, j: nat, k: nat)
    requires 4 <= i < j < k < |r| == |typo| <= 90 && typo[i] != r[i] && ChecksumHolds(r[4..])
    requires forall m :: 0 <= m < |r| && m != i && m != j && m != k ==> typo[m] == r[m]
    ensures !ChecksumHolds(typo[4..])
  {
    DataThreeRefused(r[4..], typo[4..], i - 4, j - 4, k - 4);
  }

  lemma PrefixAgrees(r: string, typo: string)
    requires "age1" <= r && "age1" <= typo
    ensures forall m :: 0 <= m < 4 ==> r[m] == typo[m]
  {}

  lemma DataThreeRefused(s: string, t: string, i: nat, j: nat, k: nat)
    requires ChecksumHolds(s) && |t| == |s| <= 86 && i < j < k < |s| && s[i] != t[i]
    requires forall m :: 0 <= m < |s| && m != i && m != j && m != k ==> s[m] == t[m]
    ensures !ChecksumHolds(t)
  {
    if ChecksumHolds(t) {
      DifferAtThree(s, t, i, j, k);
      ThreeChangesRefused(1, HrpExpand("age"), Decode(s).value, Decode(t).value, i, j, k);
    }
  }

  lemma DifferAtThree(s: string, t: string, i: nat, j: nat, k: nat)
    requires |s| == |t| && Decode(s).Some? && Decode(t).Some? && i < j < k < |s| && s[i] != t[i]
    requires forall m :: 0 <= m < |s| && m != i && m != j && m != k ==> s[m] == t[m]
    ensures |Decode(s).value| == |Decode(t).value| == |s|
    ensures Symbols(Decode(s).value) && Symbols(Decode(t).value)
    ensures Decode(s).value[i] != Decode(t).value[i]
    ensures forall m :: 0 <= m < |s| && m != i && m != j && m != k ==> Decode(s).value[m] == Decode(t).value[m]
  {
    DecodeMeans(s);
    DecodeMeans(t);
    SymbolsDiffer(s[i], t[i]);
  }

  lemma ThreeChangesRefused(chk: nat, hrp: seq<nat>, x: seq<nat>, y: seq<nat>, i: nat, j: nat, k: nat)
    requires chk < 0x4000_0000 && forall m :: 0 <= m < |hrp| ==> hrp[m] < 0x4000_0000
    requires |x| == |y| && Symbols(x) && Symbols(y) && i < j < k < |x| && k - i <= 90 && x[i] != y[i]
    requires forall m :: 0 <= m < |x| && m != i && m != j && m != k ==> x[m] == y[m]
    ensures Run(chk, hrp + x) != Run(chk, hrp + y)
  {
    var n := k + 1;
    var before, after := hrp + x[..i], x[n..];
    EndsOfWindow(x, y, i, j, k);
    Recut(hrp, x, i, n, before, x[i..n], after);
    Recut(hrp, y, i, n, before, y[i..n], after);
    BechDistance.ThreeChangesChecksum(chk, before, x[i..n], y[i..n], j - i, after);
  }

  lemma Recut(hrp: seq<nat>, x: seq<nat>, i: nat, n: nat, before: seq<nat>, u: seq<nat>, after: seq<nat>)
    requires i <= n <= |x| && before == hrp + x[..i] && u == x[i..n] && after == x[n..]
    ensures hrp + x == before + u + after
  {}

  lemma EndsOfWindow(x: seq<nat>, y: seq<nat>, i: nat, j: nat, k: nat)
    requires |x| == |y| && Symbols(x) && Symbols(y) && i < j < k < |x| && x[i] != y[i]
    requires forall m :: 0 <= m < |x| && m != i && m != j && m != k ==> x[m] == y[m]
    ensures x[..i] == y[..i] && x[k + 1..] == y[k + 1..]
    ensures BechDistance.ThreeDiffer(x[i..k + 1], y[i..k + 1], j - i)
    ensures Symbols(x[i..k + 1]) && Symbols(y[i..k + 1]) && Symbols(x[k + 1..])
  {}

  lemma TailsDiffer(r: string, typo: string, at: nat, lo: nat, hi: nat)
    requires |typo| == |r| >= 4 && typo != r && r[..4] == typo[..4]
    requires forall i :: 0 <= i < |r| && !(at <= i < at + 6) ==> typo[i] == r[i]
    requires lo + 4 <= at || lo == 0
    requires hi + 4 >= at + 6 || hi + 4 == |r|
    ensures r[4..] != typo[4..]
    ensures forall i :: 0 <= i < |r| - 4 && !(lo <= i < hi) ==> r[4..][i] == typo[4..][i]
  {
    assert r == r[..4] + r[4..] && typo == typo[..4] + typo[4..];
  }

  lemma DataTypoRefused(s: string, t: string, lo: nat, hi: nat)
    requires ChecksumHolds(s) && |t| == |s| && s != t
    requires lo <= hi <= |s| && hi - lo <= 6
    requires forall i :: 0 <= i < |s| && !(lo <= i < hi) ==> s[i] == t[i]
    ensures !ChecksumHolds(t)
  {
    if ChecksumHolds(t) {
      DecodeMeans(s);
      DecodeMeans(t);
      SameOutside(s, t, lo, hi);
      if Decode(s) == Decode(t) { SameData(s, t); }
      BurstRefused(HrpExpand("age"), Decode(s).value, Decode(t).value, lo, hi);
    }
  }

  lemma SameOutside(s: string, t: string, lo: nat, hi: nat)
    requires |s| == |t| && Decode(s).Some? && Decode(t).Some?
    requires forall i :: 0 <= i < |s| && !(lo <= i < hi) ==> s[i] == t[i]
    ensures |Decode(s).value| == |Decode(t).value| == |s|
    ensures forall i :: 0 <= i < |s| && !(lo <= i < hi) ==> Decode(s).value[i] == Decode(t).value[i]
  {
    DecodeMeans(s);
    DecodeMeans(t);
  }

  lemma BurstRefused(hrp: seq<nat>, x: seq<nat>, y: seq<nat>, lo: nat, hi: nat)
    requires forall i :: 0 <= i < |hrp| ==> hrp[i] < 0x4000_0000
    requires |x| == |y| && Symbols(x) && Symbols(y) && x != y
    requires lo <= hi <= |x| && hi - lo <= 6
    requires forall i :: 0 <= i < |x| && !(lo <= i < hi) ==> x[i] == y[i]
    ensures Run(1, hrp + x) != Run(1, hrp + y)
  {
    WindowDiffers(x, y, lo, hi);
    Cut(hrp, x, lo, hi);
    Cut(hrp, y, lo, hi);
    BurstChangesChecksum(1, hrp + x[..lo], x[lo..hi], y[lo..hi], x[hi..]);
  }

  lemma WindowDiffers(x: seq<nat>, y: seq<nat>, lo: nat, hi: nat)
    requires |x| == |y| && x != y && lo <= hi <= |x|
    requires forall i :: 0 <= i < |x| && !(lo <= i < hi) ==> x[i] == y[i]
    ensures x[..lo] == y[..lo] && x[hi..] == y[hi..] && x[lo..hi] != y[lo..hi]
  {
    assert x == x[..lo] + x[lo..hi] + x[hi..] && y == y[..lo] + y[lo..hi] + y[hi..];
  }

  lemma Cut(hrp: seq<nat>, x: seq<nat>, lo: nat, hi: nat)
    requires lo <= hi <= |x|
    ensures hrp + x == hrp + x[..lo] + x[lo..hi] + x[hi..]
  {}

  // ---- truncation ----

  lemma {:induction false} DecodeConcat(s: string, t: string)
    ensures Decode(s + t) ==
      if Decode(s).Some? && Decode(t).Some? then Some(Decode(s).value + Decode(t).value) else None
  {
    if s == [] {
      assert s + t == t;
      if Decode(t).Some? { assert [] + Decode(t).value == Decode(t).value; }
    } else {
      DecodeConcat(s[1..], t);
      assert (s + t)[1..] == s[1..] + t && (s + t)[0] == s[0];
      if Decode(s).Some? && Decode(t).Some? {
        PrependConcat(SymbolOf(s[0]).value, Decode(s[1..]).value, Decode(t).value);
      }
    }
  }

  lemma PrependConcat(x: nat, a: seq<nat>, b: seq<nat>)
    ensures [x] + (a + b) == ([x] + a) + b
  {}

  /** Of the checksums of a whole, of its front and of its tail alone, two imply the third. */
  lemma TailRun(one: nat, hrp: seq<nat>, x: seq<nat>, y: seq<nat>)
    requires one == 1 && Symbols(x) && Symbols(y) && forall i :: 0 <= i < |hrp| ==> hrp[i] < 0x4000_0000
    ensures Run(one, hrp + (x + y)) == 1 && Run(one, hrp + x) == 1 ==> Run(one, y) == 1
    ensures Run(one, hrp + (x + y)) == 1 && Run(one, y) == 1 ==> Run(one, hrp + x) == 1
    ensures Run(one, hrp + x) == 1 && Run(one, y) == 1 ==> Run(one, hrp + (x + y)) == 1
  {
    var prefix := hrp + x;
    assert hrp + (x + y) == prefix + y;
    RunAppend(one, prefix, y);
    RunFits(one, prefix);
    Pow2Of30();
    if Run(one, y) == 1 && Run(one, prefix + y) == 1 { RunInjective(Run(one, prefix), one, y); }
  }

  lemma CutTail(data: string, tail: string)
    requires ChecksumHolds(data + tail)
    ensures Decode(tail).Some? && Decode(data).Some?
    ensures ChecksumHolds(data) <==> Run(1, Decode(tail).value) == 1
  {
    DecodeConcat(data, tail);
    DecodeMeans(data);
    DecodeMeans(tail);
    TailRun(1, HrpExpand("age"), Decode(data).value, Decode(tail).value);
  }

  lemma AddTail(data: string, tail: string)
    requires ChecksumHolds(data) && Decode(tail).Some? && Run(1, Decode(tail).value) == 1
    ensures ChecksumHolds(data + tail)
  {
    DecodeConcat(data, tail);
    DecodeMeans(data);
    DecodeMeans(tail);
    TailRun(1, HrpExpand("age"), Decode(data).value, Decode(tail).value);
  }

  /** Exactly when a truncated recipient is still accepted: it is not too short, and the part cut
      off alone leaves the register at 1. */
  lemma TruncationAcceptedExactly(r: string, k: nat)
    requires Validate(r) == Accepted && 1 <= k <= |r|
    ensures Validate(r[..|r| - k]) == Accepted <==>
      |r| - k >= 10 && Decode(r[|r| - k..]).Some? && Run(1, Decode(r[|r| - k..]).value) == 1
  {
    var n := |r| - k;
    if n >= 10 { CutAt(r, n); } else { TooShort(r[..n]); }
  }

  lemma Sliced(r: string, n: nat)
    requires 4 <= n <= |r| && "age1" <= r
    ensures r[4..] == r[4..n] + r[n..] && r[..n][4..] == r[4..n] && "age1" <= r[..n]
  {}

  lemma CutAt(r: string, n: nat)
    requires Validate(r) == Accepted && 10 <= n <= |r|
    ensures Decode(r[n..]).Some?
    ensures Validate(r[..n]) == Accepted <==> Run(1, Decode(r[n..]).value) == 1
  {
    AcceptedIff(r);
    AcceptedIff(r[..n]);
    Sliced(r, n);
    CutTail(r[4..n], r[n..]);
  }

  lemma TooShort(r: string)
    requires |r| < 10
    ensures Validate(r) != Accepted
  {
    AcceptedIff(r);
  }

  /** Cutting off one to five characters is always noticed. */
  lemma ShortTruncationRefused(r: string, k: nat)
    requires Validate(r) == Accepted && 1 <= k <= 5
    ensures |r| >= k && Validate(r[..|r| - k]) != Accepted
  {
    AcceptedShape(r);
    TruncationAcceptedExactly(r, k);
    ShortTail(r[|r| - k..]);
  }

  lemma ShortTail(tail: string)
    requires 1 <= |tail| <= 5
    ensures Decode(tail).Some? ==> Run(1, Decode(tail).value) != 1
  {
    DecodeMeans(tail);
    if Decode(tail).Some? {
      assert Pow2(1) == 2;
      RunGrows(1, 1, Decode(tail).value);
    }
  }

  const TAIL: string := "ak54an"

  lemma TailKeepsOne()
    ensures Decode(TAIL).Some? && Run(1, Decode(TAIL).value) == 1
  {
    var w: seq<nat> := [29, 22, 20, 21, 29, 19];
    forall i | 0 <= i < 6 ensures SymbolOf(TAIL[i]) == Some(w[i]) {
      SymbolAt(w[i]);
      assert CHARSET[w[i]] == TAIL[i];
    }
    DecodeIs(TAIL, w);
    OneToOne(1, w);
  }

  lemma DropOfConcat(a: string, b: string, k: nat)
    requires k <= |a|
    ensures (a + b)[k..] == a[k..] + b
  {}

  lemma ExtensionAccepted(r: string, tail: string)
    requires Validate(r) == Accepted && |r| + |tail| <= 90
    requires Decode(tail).Some? && Run(1, Decode(tail).value) == 1
    ensures Validate(r + tail) == Accepted
  {
    AcceptedIff(r);
    AddTail(r[4..], tail);
    DropOfConcat(r, tail, 4);
    AcceptedIff(r + tail);
  }

  /** Cutting off six is not always noticed: every accepted recipient that leaves room for them
      can be followed by these six, and then lose them again. */
  lemma SixMayGoUnnoticed(r: string)
    requires Validate(r) == Accepted && |r| <= 84
    ensures Validate(r + TAIL) == Accepted && |TAIL| == 6
  {
    TailKeepsOne();
    ExtensionAccepted(r, TAIL);
  }

  /** Every human-readable part and every data prefix, of any length, is completed by
      exactly one six-symbol checksum. */
  lemma OneChecksumPerPrefix(hrp: string, data: seq<nat>, c: seq<nat>)
    requires Symbols(data) && |c| == 6 && Symbols(c)
    ensures Run(1, HrpExpand(hrp) + data + c) == 1 <==>
            c == Checksum(Run(1, HrpExpand(hrp) + data))
    ensures Symbols(Checksum(Run(1, HrpExpand(hrp) + data)))
  {
    var prefix := HrpExpand(hrp) + data;
    RunFits(1, prefix);
    RunAppend(1, prefix, c);
    ChecksumIsUnique(Run(1, prefix), c);
    ChecksumWorks(Run(1, prefix));
  }

  // ---- the recipients that are accepted ----

  /** Symbols as text. */
  function TextOf(w: seq<nat>): (s: string)
    requires Symbols(w)
    ensures |s| == |w|
  {
    seq(|w|, i requires 0 <= i < |w| => CHARSET[w[i]])
  }

  lemma DecodeOfText(w: seq<nat>)
    requires Symbols(w)
    ensures Decode(TextOf(w)) == Some(w)
  {
    forall i | 0 <= i < |w| ensures SymbolOf(TextOf(w)[i]) == Some(w[i]) { SymbolAt(w[i]); }
    DecodeIs(TextOf(w), w);
  }

  lemma TextOfDecode(s: string)
    requires Decode(s).Some?
    ensures Symbols(Decode(s).value) && TextOf(Decode(s).value) == s
  {
    DecodeMeans(s);
    forall i | 0 <= i < |s| ensures TextOf(Decode(s).value)[i] == s[i] { SymbolMeans(s[i]); }
  }

  /** A data part of five-bit symbols with its checksum, as a recipient. */
  function RecipientOf(data: seq<nat>): string
    requires Symbols(data)
  {
    ChecksumSymbols(data);
    "age1" + TextOf(data + Checksum(Run(1, HrpExpand("age") + data)))
  }

  lemma ChecksumSymbols(data: seq<nat>)
    requires Symbols(data)
    ensures Symbols(Checksum(Run(1, HrpExpand("age") + data)))
  {
    RunFits(1, HrpExpand("age") + data);
    ChecksumWorks(Run(1, HrpExpand("age") + data));
  }

  lemma CompletedRun(hrp: seq<nat>, data: seq<nat>)
    requires Symbols(data) && forall i :: 0 <= i < |hrp| ==> hrp[i] < 0x4000_0000
    ensures Run(1, hrp + (data + Checksum(Run(1, hrp + data)))) == 1
  {
    var c := Checksum(Run(1, hrp + data));
    assert hrp + (data + c) == hrp + data + c;
    RunFits(1, hrp + data);
    RunAppend(1, hrp + data, c);
    ChecksumWorks(Run(1, hrp + data));
  }

  /** Every data part of up to 80 symbols gives an accepted recipient. */
  lemma EncodedIsAccepted(data: seq<nat>)
    requires Symbols(data) && |data| <= 80
    ensures Validate(RecipientOf(data)) == Accepted
  {
    ChecksumSymbols(data);
    var w := data + Checksum(Run(1, HrpExpand("age") + data));
    DecodeOfText(w);
    CompletedRun(HrpExpand("age"), data);
    assert RecipientOf(data) == "age1" + TextOf(w);
    HasChecksum(RecipientOf(data), TextOf(w), w);
  }

  lemma HasChecksum(r: string, text: string, w: seq<nat>)
    requires r == "age1" + text && Decode(text) == Some(w) && 6 <= |text| <= 86
    requires Run(1, HrpExpand("age") + w) == 1
    ensures Validate(r) == Accepted
  {
    assert r[4..] == text;
    ShapeAccepted(r);
  }

  lemma ChecksumApart(hrp: seq<nat>, w: seq<nat>, data: seq<nat>, c: seq<nat>)
    requires |w| >= 6 && data == w[..|w| - 6] && c == w[|w| - 6..]
    ensures w == data + c && hrp + w == hrp + data + c
  {}

  lemma PrefixApart(r: string)
    requires "age1" <= r
    ensures r == "age1" + r[4..]
  {}

  /** And every accepted recipient comes from its data part so. */
  lemma AcceptedIsEncoded(r: string) returns (data: seq<nat>)
    requires Validate(r) == Accepted
    ensures Symbols(data) && |data| == |r| - 10 && r == RecipientOf(data)
  {
    AcceptedShape(r);
    TextOfDecode(r[4..]);
    DecodeMeans(r[4..]);
    var w := Decode(r[4..]).value;
    data := w[..|w| - 6];
    var c := w[|w| - 6..];
    ChecksumApart(HrpExpand("age"), w, data, c);
    OneChecksumPerPrefix("age", data, c);
    PrefixApart(r);
  }
}
