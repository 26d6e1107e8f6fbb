/** Numbers in JSON text (RFC 8259, section 6). */
module Numbers {

  predicate IsDigit(c: char) { '0' <= c <= '9' }

  function TakeDigits(s: string): (t: string)
    ensures t <= s && forall i :: 0 <= i < |t| ==> IsDigit(t[i])
  {
    if s == "" || !IsDigit(s[0]) then "" else [s[0]] + TakeDigits(s[1..])
  }

  function NumberOf(digits: string): nat
    requires forall i :: 0 <= i < |digits| ==> IsDigit(digits[i])
  {
    if digits == "" then 0
    else
      var last := digits[|digits| - 1];
      assert IsDigit(last);
      10 * NumberOf(digits[..|digits| - 1]) + (last as int - '0' as int)
  }

  /** A single 0, or digits that do not start with 0. */
  function WholePart(s: string): (t: string)
    ensures t <= s && forall i :: 0 <= i < |t| ==> IsDigit(t[i])
  {
    if s != "" && s[0] == '0' then "0" else TakeDigits(s)
  }

  /** The length of what stands before the digits of a fraction or an exponent, if s starts with one. */
  function Mark(s: string): (n: nat)
    ensures n <= |s|
  {
    if s == "" then 0
    else if s[0] == '.' then 1
    else if s[0] != 'e' && s[0] != 'E' then 0
    else if |s| > 1 && (s[1] == '+' || s[1] == '-') then 2
    else 1
  }

  /** A mark and at least one digit, or nothing. */
  function Marked(s: string): (t: string)
    ensures t <= s
  {
    var digits := TakeDigits(s[Mark(s)..]);
    if Mark(s) == 0 || digits == "" then "" else s[..Mark(s)] + digits
  }

  /** The fraction, if s starts with one, and the exponent after it. */
  function TailPart(s: string): (t: string)
    ensures t <= s
  {
    var first := Marked(s);
    if first == "" || first[0] != '.' then first
    else
      var rest := s[|first|..];
      if rest != "" && rest[0] == '.' then first
      else
        Joined(first, Marked(rest), s);
        first + Marked(rest)
  }

  lemma Joined<T>(a: seq<T>, b: seq<T>, s: seq<T>)
    requires a <= s && b <= s[|a|..]
    ensures a + b <= s
  {}

  /** A number without its sign: digits, and the fraction and exponent together. */
  datatype Number = Number(whole: string, tail: string) {
    function Text(): string { whole + tail }
  }

  /** The number s starts with; it has no digits if there is none. */
  function Scan(s: string): (n: Number)
    ensures n.Text() <= s
  {
    var whole := WholePart(s);
    var tail := TailPart(s[|whole|..]);
    Joined(whole, tail, s);
    Number(whole, tail)
  }

  // ---- what follows does not matter ----

  /** Text in which no part of a number can go on. */
  ghost predicate Stops(s: string) {
    s == "" || (!IsDigit(s[0]) && s[0] != '.' && s[0] != 'e' && s[0] != 'E' && s[0] != '+' && s[0] != '-')
  }

  lemma DropFront<T>(a: seq<T>, b: seq<T>)
    ensures (a + b)[|a|..] == b
  {}

  lemma {:induction false} DigitsAgain(digits: string, x: string)
    requires forall i :: 0 <= i < |digits| ==> IsDigit(digits[i])
    requires x == "" || !IsDigit(x[0])
    ensures TakeDigits(digits + x) == digits
  {
    if digits == "" {
      assert digits + x == x;
    } else {
      assert (digits + x)[1..] == digits[1..] + x;
      DigitsAgain(digits[1..], x);
    }
  }

  lemma WholeAgain(s: string, x: string)
    requires x == "" || !IsDigit(x[0])
    ensures WholePart(WholePart(s) + x) == WholePart(s)
  {
    DigitsAgain(WholePart(s), x);
    if WholePart(s) == "" { assert WholePart(s) + x == x; }
  }

  lemma MarkedNothing(x: string)
    requires Stops(x)
    ensures Marked(x) == "" && TailPart(x) == ""
  {}

  lemma MarkOf(s: string, x: string)
    requires Marked(s) != ""
    ensures Mark(Marked(s) + x) == Mark(s) > 0
  {}

  lemma MarkedAgain(s: string, x: string)
    requires Marked(s) != "" && (x == "" || !IsDigit(x[0]))
    ensures Marked(Marked(s) + x) == Marked(s)
  {
    var n := Mark(s);
    var digits := TakeDigits(s[n..]);
    MarkOf(s, x);
    assert Marked(s) + x == s[..n] + (digits + x);
    DropFront(s[..n], digits + x);
    DigitsAgain(digits, x);
  }

  lemma TailOfOne(first: string, x: string)
    requires first != "" && Marked(first + x) == first && Stops(x)
    ensures TailPart(first + x) == first
  {
    DropFront(first, x);
    MarkedNothing(x);
    assert first + "" == first;
  }

  lemma TailOfTwo(first: string, second: string, x: string)
    requires first != "" && first[0] == '.' && second != "" && second[0] != '.'
    requires Marked(first + (second + x)) == first && Marked(second + x) == second
    ensures TailPart(first + (second + x)) == first + second
  {
    DropFront(first, second + x);
    assert (second + x)[0] == second[0];
  }

  lemma MarkedHead(s: string)
    requires Marked(s) != ""
    ensures Marked(s)[0] == s[0] && !IsDigit(s[0])
  {}

  lemma Regroup<T>(a: seq<T>, b: seq<T>, c: seq<T>)
    ensures (a + b) + c == a + (b + c)
  {}

  lemma TailAgain(s: string, x: string)
    requires Stops(x)
    ensures TailPart(TailPart(s) + x) == TailPart(s)
  {
    var first := Marked(s);
    var rest := s[|first|..];
    if first == "" {
      MarkedNothing(x);
      assert "" + x == x;
    } else if first[0] != '.' || (rest != "" && rest[0] == '.') || Marked(rest) == "" {
      assert first + "" == first;
      MarkedAgain(s, x);
      TailOfOne(first, x);
    } else {
      TailsAgain(s, x);
    }
  }

  lemma TailsAgain(s: string, x: string)
    requires Stops(x) && Marked(s) != "" && s[0] == '.'
    requires var rest := s[|Marked(s)|..]; Marked(rest) != "" && rest[0] != '.'
    ensures TailPart(s) == Marked(s) + Marked(s[|Marked(s)|..])
    ensures TailPart(TailPart(s) + x) == TailPart(s)
  {
    var first := Marked(s);
    var rest := s[|first|..];
    var second := Marked(rest);
    MarkedHead(s);
    MarkedHead(rest);
    MarkedAgain(rest, x);
    assert (second + x)[0] == second[0];
    MarkedAgain(s, second + x);
    TailOfTwo(first, second, x);
    Regroup(first, second, x);
  }

  lemma TailHead(s: string, x: string)
    requires Stops(x)
    ensures var t := TailPart(s) + x; t == "" || !IsDigit(t[0])
  {
    if Marked(s) != "" { MarkedHead(s); } else { assert "" + x == x; }
  }

  lemma ScanOf(whole: string, tail: string, x: string)
    requires WholePart(whole + (tail + x)) == whole && TailPart(tail + x) == tail
    ensures Scan((whole + tail) + x) == Number(whole, tail)
  {
    Regroup(whole, tail, x);
    DropFront(whole, tail + x);
  }

  /** What was scanned is scanned again, whatever ends it. */
  lemma ScanAgain(s: string, x: string)
    requires Stops(x)
    ensures Scan(Scan(s).Text() + x) == Scan(s)
  {
    var n := Scan(s);
    var rest := s[|n.whole|..];
    TailAgain(rest, x);
    TailHead(rest, x);
    WholeAgain(s, TailPart(rest) + x);
    ScanOf(WholePart(s), TailPart(rest), x);
  }
}
