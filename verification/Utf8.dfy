/** UTF-8 as the strict codec encodes and decodes it. */
module Utf8 {
  import opened Prelude
  import opened Text

  type Byte = b: int | 0 <= b < 256
  type Bytes = seq<Byte>

  function EncodeChar(c: char): (b: Bytes)
    ensures 1 <= |b| <= 4
  {
    var n := c as int;
    if n < 0x80 then [n]
    else if n < 0x800 then [0xC0 + n / 64, 0x80 + n % 64]
    else if n < 0x10000 then [0xE0 + n / 4096, 0x80 + n / 64 % 64, 0x80 + n % 64]
    else [0xF0 + n / 262144, 0x80 + n / 4096 % 64, 0x80 + n / 64 % 64, 0x80 + n % 64]
  }

  function Encode(s: string): Bytes {
    if s == [] then [] else EncodeChar(s[0]) + Encode(s[1..])
  }

  predicate Tail(b: Byte) { 0x80 <= b < 0xC0 }

  datatype Decoded = Char(c: char, size: nat) | Invalid

  /** The scalar value n written in `size` bytes; refused if it fits in fewer. */
  function Checked(n: int, least: int, size: nat): Decoded {
    if n >= least && Scalar(n) then Char(n as char, size) else Invalid
  }

  /** The payload bits of a byte once the marker is taken off. */
  function Part(b: Byte, marker: int): int { b - marker }

  function DecodeChar(b: Bytes): (d: Decoded)
    requires b != []
    ensures d.Char? ==> 1 <= d.size <= |b|
  {
    if b[0] < 0x80 then Char(b[0] as char, 1)
    else if b[0] < 0xC0 then Invalid
    else if b[0] < 0xE0 then
      if |b| >= 2 && Tail(b[1]) then Checked(Part(b[0], 0xC0) * 64 + Part(b[1], 0x80), 0x80, 2) else Invalid
    else if b[0] < 0xF0 then
      if |b| >= 3 && Tail(b[1]) && Tail(b[2]) then
        Checked(Part(b[0], 0xE0) * 4096 + Part(b[1], 0x80) * 64 + Part(b[2], 0x80), 0x800, 3)
      else Invalid
    else
      if |b| >= 4 && Tail(b[1]) && Tail(b[2]) && Tail(b[3]) then
        Checked(Part(b[0], 0xF0) * 262144 + Part(b[1], 0x80) * 4096 + Part(b[2], 0x80) * 64 + Part(b[3], 0x80),
          0x10000, 4)
      else Invalid
  }

  function Decode(b: Bytes): Option<string> {
    if b == [] then Some("")
    else
      match DecodeChar(b)
      case Invalid => None
      case Char(c, size) =>
        match Decode(b[size..])
        case None => None
        case Some(rest) => Some([c] + rest)
  }

  lemma Base64Parts(n: nat)
    ensures n == n / 64 * 64 + n % 64 && n / 64 / 64 == n / 4096 && n / 4096 / 64 == n / 262144
  {}

  lemma DecodeEncodedChar(c: char, rest: Bytes)
    ensures DecodeChar(EncodeChar(c) + rest) == Char(c, |EncodeChar(c)|)
  {
    var n, b := c as int, EncodeChar(c);
    var all := b + rest;
    assert all[0] == b[0];
    Base64Parts(n);
    Base64Parts(n / 64);
    if n < 0x80 {
    } else if n < 0x800 {
      assert all[1] == b[1];
      assert Part(b[0], 0xC0) * 64 + Part(b[1], 0x80) == n;
    } else if n < 0x10000 {
      assert all[1] == b[1] && all[2] == b[2];
      assert Part(b[0], 0xE0) * 4096 + Part(b[1], 0x80) * 64 + Part(b[2], 0x80) == n;
    } else {
      assert all[1] == b[1] && all[2] == b[2] && all[3] == b[3];
      Base64Parts(n / 4096);
      assert Part(b[0], 0xF0) * 262144 + Part(b[1], 0x80) * 4096 + Part(b[2], 0x80) * 64 + Part(b[3], 0x80) == n;
    }
  }

  lemma {:induction false} DecodeEncode(s: string)
    ensures Decode(Encode(s)) == Some(s)
  {
    if s != [] {
      var b, rest := EncodeChar(s[0]), Encode(s[1..]);
      DecodeEncodedChar(s[0], rest);
      assert (b + rest)[|b|..] == rest;
      DecodeEncode(s[1..]);
      assert Encode(s) == b + rest && s == [s[0]] + s[1..];
    }
  }

  /** Distinct texts have distinct encodings. */
  lemma EncodeInjective(s: string, t: string)
    requires Encode(s) == Encode(t)
    ensures s == t
  {
    DecodeEncode(s);
    DecodeEncode(t);
  }

  // ---- strictness ----

  lemma Last64(m: int, y: int)
    requires m >= 0 && 0 <= y < 64
    ensures (64 * m + y) / 64 == m && (64 * m + y) % 64 == y
  {}

  /** What is read as a character is the encoding of that character. */
  lemma EncodeDecodedChar(b: Bytes)
    requires b != [] && DecodeChar(b).Char?
    ensures EncodeChar(DecodeChar(b).c) == b[..DecodeChar(b).size]
  {
    var n := DecodeChar(b).c as int;
    Base64Parts(n);
    Base64Parts(n / 64);
    if b[0] < 0x80 {
    } else if b[0] < 0xE0 {
      Last64(Part(b[0], 0xC0), Part(b[1], 0x80));
    } else if b[0] < 0xF0 {
      var m := Part(b[0], 0xE0) * 64 + Part(b[1], 0x80);
      Last64(m, Part(b[2], 0x80));
      Last64(Part(b[0], 0xE0), Part(b[1], 0x80));
    } else {
      var k := Part(b[0], 0xF0) * 64 + Part(b[1], 0x80);
      var m := k * 64 + Part(b[2], 0x80);
      Base64Parts(n / 4096);
      Last64(m, Part(b[3], 0x80));
      Last64(k, Part(b[2], 0x80));
      Last64(Part(b[0], 0xF0), Part(b[1], 0x80));
    }
  }

  /** Bytes are read as a text exactly when they are its encoding: no other form of it is accepted. */
  lemma {:induction false} DecodeExactly(b: Bytes, s: string)
    ensures Decode(b) == Some(s) <==> b == Encode(s)
    decreases |b|
  {
    DecodeEncode(s);
    if Decode(b) == Some(s) && b != [] {
      var d := DecodeChar(b);
      EncodeDecodedChar(b);
      DecodeExactly(b[d.size..], s[1..]);
      assert b == b[..d.size] + b[d.size..];
    }
  }

  /** One character of each length. */
  lemma EncodedChars()
    ensures EncodeChar('A') == [0x41] && EncodeChar('\U{E9}') == [0xC3, 0xA9]
    ensures EncodeChar('\U{20AC}') == [0xE2, 0x82, 0xAC] && EncodeChar('\U{1F600}') == [0xF0, 0x9F, 0x98, 0x80]
  {}
}
