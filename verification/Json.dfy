/** JSON text as Python's json module writes it with sorted keys and compact separators, and
    reads it (RFC 8259). An object is kept as the list of its fields in key order. */
module Json {
  import opened Numbers
  import opened Prelude
  import opened Text

  /** The text of a number with a fraction or an exponent, or of one that is not finite. */
  predicate FloatText(t: string) {
    t == "NaN" || t == "Infinity" || t == "-Infinity" || FloatLiteral(t)
  }

  /** The text of a number without the sign it begins with. */
  function Unsigned(t: string): string { if t != "" && t[0] == '-' then t[1..] else t }

  predicate FloatLiteral(t: string) {
    var n := Scan(Unsigned(t));
    n.whole != "" && n.tail != "" && n.Text() == Unsigned(t)
  }

  /** How Python writes the number that a text stands for: as the text of a number, which is then
      written as it is. */
  type Repr = r: string -> string | IsRepr(r) witness (t => if FloatText(t) then t else "NaN")

  ghost predicate IsRepr(r: string -> string) {
    && (forall t: string :: Settled(r, t))
    && r("NaN") == "NaN" && r("Infinity") == "Infinity" && r("-Infinity") == "-Infinity"
  }

  predicate Settled(r: string -> string, t: string) { FloatText(r(t)) && r(r(t)) == r(t) }

  // ---- values ----

  /** Texts that are no sequence of characters, since they hold a lone surrogate, and objects with
      such a key are values of their own; the latter keep their other fields in key order. */
  datatype Json =
    | Null
    | Bool(b: bool)
    | Int(n: int)
    | Float(text: string)
    | Str(s: string)
    | Lone(codes: seq<Code>)
    | Arr(elems: seq<Json>)
    | Obj(fields: seq<Field>)
    | Odd(fields: seq<Field>, others: seq<OddField>)
  {
    predicate IsDict() { Obj? || Odd? }
  }

  datatype Field = Field(key: string, value: Json)

  datatype OddField = OddField(key: seq<Code>, value: Json)

  /** The value of a Python string. */
  function OfCodes(codes: seq<Code>): Json {
    if AllScalar(codes) then Str(Chars(codes)) else Lone(codes)
  }

  /** The value and all its parts can be encoded. */
  predicate Writable(j: Json) {
    match j
    case Lone(_) => false
    case Arr(elems) => forall i :: 0 <= i < |elems| ==> Writable(elems[i])
    case Obj(fields) => forall i :: 0 <= i < |fields| ==> Writable(fields[i].value)
    case Odd(_, _) => false
    case _ => true
  }

  // ---- objects ----

  ghost predicate Sorted(fields: seq<Field>) {
    forall i, j :: 0 <= i < j < |fields| ==> Less(fields[i].key, fields[j].key)
  }

  /** Every object of the value lists its fields in key order, each key once, and every number with
      a fraction is as Python writes it. */
  ghost predicate Ordered(repr: Repr, j: Json) {
    match j
    case Float(t) => repr(t) == t
    case Arr(elems) => forall i :: 0 <= i < |elems| ==> Ordered(repr, elems[i])
    case Obj(fields) => Sorted(fields) && forall i :: 0 <= i < |fields| ==> Ordered(repr, fields[i].value)
    case Odd(fields, others) =>
      && Sorted(fields)
      && (forall i :: 0 <= i < |fields| ==> Ordered(repr, fields[i].value))
      && (forall i :: 0 <= i < |others| ==> Ordered(repr, others[i].value))
    case _ => true
  }

  ghost predicate Canonical(repr: Repr, j: Json) { Writable(j) && Ordered(repr, j) }

  /** The value of a key set, whether it is new or not. */
  function Put(fields: seq<Field>, key: string, value: Json): seq<Field> {
    if fields == [] then [Field(key, value)]
    else if key == fields[0].key then [Field(key, value)] + fields[1..]
    else if Less(key, fields[0].key) then [Field(key, value)] + fields
    else [fields[0]] + Put(fields[1..], key, value)
  }

  function Get(fields: seq<Field>, key: string): Option<Json> {
    if fields == [] then None
    else if fields[0].key == key then Some(fields[0].value)
    else Get(fields[1..], key)
  }

  /** A dictionary filled pair by pair; the last value of a repeated key counts. */
  function Dict(pairs: seq<Field>): seq<Field>
    decreases |pairs|
  {
    if pairs == [] then []
    else
      var last := pairs[|pairs| - 1];
      Put(Dict(pairs[..|pairs| - 1]), last.key, last.value)
  }

  lemma {:induction false} PutLast(fields: seq<Field>, key: string, value: Json)
    requires forall i :: 0 <= i < |fields| ==> Less(fields[i].key, key)
    ensures Put(fields, key, value) == fields + [Field(key, value)]
  {
    if fields != [] {
      LessAsymmetric(fields[0].key, key);
      PutLast(fields[1..], key, value);
    }
  }

  lemma {:induction false} DictOfSorted(fields: seq<Field>)
    requires Sorted(fields)
    ensures Dict(fields) == fields
    decreases |fields|
  {
    if fields != [] {
      var front, last := fields[..|fields| - 1], fields[|fields| - 1];
      DictOfSorted(front);
      PutLast(front, last.key, last.value);
    }
  }

  // ---- writing ----

  function Digit(d: nat): char
    requires d < 10
  {
    '0' + d as char
  }

  function Digits(n: nat): (s: string)
    ensures s != ""
  {
    if n < 10 then [Digit(n)] else Digits(n / 10) + [Digit(n % 10)]
  }

  function PrintInt(n: int): string {
    if n < 0 then "-" + Digits(-n) else Digits(n)
  }

  function Hex(d: nat): char
    requires d < 16
  {
    if d < 10 then '0' + d as char else 'a' + (d - 10) as char
  }

  function EscapeChar(c: char): string {
    if c == '\"' then "\\\""
    else if c == '\\' then "\\\\"
    else if c == '\n' then "\\n"
    else if c == '\r' then "\\r"
    else if c == '\t' then "\\t"
    else if c == '\U{0C}' then "\\f"
    else if c == '\U{08}' then "\\b"
    else if c < ' ' then "\\u00" + [Hex(c as int / 16), Hex(c as int % 16)]
    else [c]
  }

  function Escape(s: string): string {
    if s == "" then "" else EscapeChar(s[0]) + Escape(s[1..])
  }

  function Quote(s: string): string { "\"" + Escape(s) + "\"" }

  function Print(j: Json): string
    requires Writable(j)
  {
    match j
    case Null => "null"
    case Bool(b) => if b then "true" else "false"
    case Int(n) => PrintInt(n)
    case Float(t) => t
    case Str(s) => Quote(s)
    case Arr(elems) => "[" + PrintElems(elems) + "]"
    case Obj(fields) => "{" + PrintFields(fields) + "}"
  }

  function PrintElems(elems: seq<Json>): string
    requires forall i :: 0 <= i < |elems| ==> Writable(elems[i])
  {
    if elems == [] then ""
    else if |elems| == 1 then Print(elems[0])
    else Print(elems[0]) + "," + PrintElems(elems[1..])
  }

  function PrintField(f: Field): string
    requires Writable(f.value)
  {
    Quote(f.key) + ":" + Print(f.value)
  }

  function PrintFields(fields: seq<Field>): string
    requires forall i :: 0 <= i < |fields| ==> Writable(fields[i].value)
  {
    if fields == [] then ""
    else if |fields| == 1 then PrintField(fields[0])
    else PrintField(fields[0]) + "," + PrintFields(fields[1..])
  }

  lemma {:induction false} ElemsSnoc(elems: seq<Json>, e: Json)
    requires elems != [] && Writable(e) && forall i :: 0 <= i < |elems| ==> Writable(elems[i])
    ensures PrintElems(elems + [e]) == PrintElems(elems) + "," + Print(e)
  {
    if |elems| > 1 { ElemsSnoc(elems[1..], e); }
    assert (elems + [e])[1..] == elems[1..] + [e] && (elems + [e])[0] == elems[0];
  }

  lemma {:induction false} FieldsSnoc(fields: seq<Field>, f: Field)
    requires fields != [] && Writable(f.value) && forall i :: 0 <= i < |fields| ==> Writable(fields[i].value)
    ensures PrintFields(fields + [f]) == PrintFields(fields) + "," + PrintField(f)
  {
    if |fields| > 1 { FieldsSnoc(fields[1..], f); }
    assert (fields + [f])[1..] == fields[1..] + [f] && (fields + [f])[0] == fields[0];
  }

  /** A list is written in brackets, each further element after a comma. */
  lemma ListText(elems: seq<Json>, e: Json) returns (inner: string)
    requires Writable(Arr(elems)) && Writable(e)
    ensures Writable(Arr(elems + [e])) && (elems == [] ==> inner == "") && Print(Arr(elems)) == "[" + inner + "]"
    ensures Print(Arr(elems + [e])) == "[" + (if elems == [] then Print(e) else inner + "," + Print(e)) + "]"
  {
    inner := PrintElems(elems);
    if elems == [] { assert elems + [e] == [e]; } else { ElemsSnoc(elems, e); }
  }

  /** An object is written in braces, each further field after a comma, with a colon between its key and
      its value; nothing else separates anything. */
  lemma ObjectText(fields: seq<Field>, f: Field) returns (inner: string)
    requires Writable(Obj(fields)) && Writable(f.value)
    ensures Writable(Obj(fields + [f])) && (fields == [] ==> inner == "") && Print(Obj(fields)) == "{" + inner + "}"
    ensures var last := Print(Str(f.key)) + ":" + Print(f.value);
      Print(Obj(fields + [f])) == "{" + (if fields == [] then last else inner + "," + last) + "}"
  {
    inner := PrintFields(fields);
    assert PrintField(f) == Print(Str(f.key)) + ":" + Print(f.value);
    assert Print(Obj(fields + [f])) == "{" + PrintFields(fields + [f]) + "}";
    if fields == [] { assert fields + [f] == [f]; } else { FieldsSnoc(fields, f); }
  }

  /** The characters that are escaped, and how; and a number in decimal. */
  lemma EscapedText()
    ensures EscapeChar('\"') == "\\\"" && EscapeChar('\\') == "\\\\" && EscapeChar('\n') == "\\n"
    ensures EscapeChar('\r') == "\\r" && EscapeChar('\t') == "\\t"
    ensures EscapeChar('\U{0C}') == "\\f" && EscapeChar('\U{08}') == "\\b" && EscapeChar('\U{1F}') == "\\u001f"
    ensures forall c :: c >= ' ' && c != '\"' && c != '\\' ==> EscapeChar(c) == [c]
    ensures PrintInt(-1203) == "-1203"
  {}

  // ---- reading ----

  datatype Read<+T> = Got(value: T, rest: string) | Bad {
    predicate IsFailure() { Bad? }
    function PropagateFailure<U>(): Read<U> requires Bad? { Bad }
    function Extract(): (T, string) requires Got? { (value, rest) }
  }

  function SkipSpace(s: string): (t: string)
    ensures |t| <= |s|
  {
    if s != "" && (s[0] == ' ' || s[0] == '\t' || s[0] == '\n' || s[0] == '\r') then SkipSpace(s[1..]) else s
  }

  function ReadUnsigned(repr: Repr, sign: string, s: string): (r: Read<Json>)
    ensures r.Got? ==> |r.rest| < |s|
  {
    var n := Scan(s);
    if n.whole == "" then Bad
    else
      var rest := s[|n.Text()|..];
      if n.tail != "" then Got(Float(repr(sign + n.Text())), rest)
      else Got(Int(if sign == "" then NumberOf(n.whole) else 0 - NumberOf(n.whole)), rest)
  }

  function ReadNumber(repr: Repr, s: string): (r: Read<Json>)
    ensures r.Got? ==> |r.rest| < |s|
  {
    ReadUnsigned(repr, if s != "" && s[0] == '-' then "-" else "", Unsigned(s))
  }

  function HexValue(c: char): Option<nat> {
    if '0' <= c <= '9' then Some(c as int - '0' as int)
    else if 'a' <= c <= 'f' then Some(c as int - 'a' as int + 10)
    else if 'A' <= c <= 'F' then Some(c as int - 'A' as int + 10)
    else None
  }

  /** Four hexadecimal digits at the start of s. */
  function Hex4(s: string): (n: Option<nat>)
    ensures n.Some? ==> |s| >= 4 && n.value < 0x10000
  {
    if |s| < 4 then None
    else
      match (HexValue(s[0]), HexValue(s[1]), HexValue(s[2]), HexValue(s[3]))
      case (Some(a), Some(b), Some(c), Some(d)) =>
        if a < 16 && b < 16 && c < 16 && d < 16 then Some(4096 * a + 256 * b + 16 * c + d) else None
      case _ => None
  }

  /** The code point an escape stands for, and the text after it; s starts after the backslash. */
  function ReadEscape(s: string): (r: Read<Code>)
    ensures r.Got? ==> |r.rest| < |s|
  {
    if s == "" then Bad
    else if s[0] == '\"' || s[0] == '\\' || s[0] == '/' then Got(s[0] as int, s[1..])
    else if s[0] == 'b' then Got(0x08, s[1..])
    else if s[0] == 'f' then Got(0x0C, s[1..])
    else if s[0] == 'n' then Got(0x0A, s[1..])
    else if s[0] == 'r' then Got(0x0D, s[1..])
    else if s[0] == 't' then Got(0x09, s[1..])
    else if s[0] == 'u' then ReadUnicode(s[1..])
    else Bad
  }

  /** A high surrogate followed by the escape of a low one is read together with it, any other
      surrogate stands alone. */
  function ReadUnicode(s: string): (r: Read<Code>)
    ensures r.Got? ==> |r.rest| < |s|
  {
    match Hex4(s)
    case None => Bad
    case Some(n) =>
      if 0xD800 <= n < 0xDC00 && "\\u" <= s[4..] then
        match Hex4(s[6..])
        case None => Bad
        case Some(m) =>
          if 0xDC00 <= m < 0xE000 then Got(0x10000 + (n - 0xD800) * 1024 + (m - 0xDC00), s[10..]) else Got(n, s[4..])
      else Got(n, s[4..])
  }

  /** The rest of a string after its opening quote. */
  function ReadString(s: string): (r: Read<seq<Code>>)
    ensures r.Got? ==> |r.rest| < |s|
    decreases |s|
  {
    if s == "" || s[0] < ' ' then Bad
    else if s[0] == '\"' then Got([], s[1..])
    else if s[0] == '\\' then
      var (c, rest) :- ReadEscape(s[1..]);
      var (tail, end) :- ReadString(rest);
      Got([c] + tail, end)
    else
      var (tail, end) :- ReadString(s[1..]);
      Got([s[0] as int] + tail, end)
  }

  datatype Member = Member(key: seq<Code>, value: Json)

  function PlainFields(pairs: seq<Member>): seq<Field> {
    if pairs == [] then []
    else
      (if AllScalar(pairs[0].key) then [Field(Chars(pairs[0].key), pairs[0].value)] else [])
      + PlainFields(pairs[1..])
  }

  function OddFields(pairs: seq<Member>): seq<OddField> {
    if pairs == [] then []
    else
      (if AllScalar(pairs[0].key) then [] else [OddField(pairs[0].key, pairs[0].value)]) + OddFields(pairs[1..])
  }

  function ObjectOf(pairs: seq<Member>): Json {
    var fields, others := Dict(PlainFields(pairs)), OddFields(pairs);
    if others == [] then Obj(fields) else Odd(fields, others)
  }

  /** A value that is neither a string nor made of others. */
  function ReadPlain(repr: Repr, s: string): (r: Read<Json>)
    ensures r.Got? ==> |r.rest| < |s|
  {
    if "null" <= s then Got(Null, s[4..])
    else if "true" <= s then Got(Bool(true), s[4..])
    else if "false" <= s then Got(Bool(false), s[5..])
    else if "NaN" <= s then Got(Float("NaN"), s[3..])
    else if "Infinity" <= s then Got(Float("Infinity"), s[8..])
    else if "-Infinity" <= s then Got(Float("-Infinity"), s[9..])
    else ReadNumber(repr, s)
  }

  function ReadValue(repr: Repr, s: string): (r: Read<Json>)
    ensures r.Got? ==> |r.rest| < |s|
    decreases |s|, 0
  {
    if s == "" then Bad
    else if s[0] == '\"' then
      var (text, rest) :- ReadString(s[1..]);
      Got(OfCodes(text), rest)
    else if s[0] == '[' then
      var t := SkipSpace(s[1..]);
      if t != "" && t[0] == ']' then Got(Arr([]), t[1..])
      else
        var (elems, rest) :- ReadElems(repr, t);
        Got(Arr(elems), rest)
    else if s[0] == '{' then
      var t := SkipSpace(s[1..]);
      if t != "" && t[0] == '}' then Got(Obj([]), t[1..])
      else
        var (pairs, rest) :- ReadMembers(repr, t);
        Got(ObjectOf(pairs), rest)
    else ReadPlain(repr, s)
  }

  /** One or more elements and the closing bracket. */
  function ReadElems(repr: Repr, s: string): (r: Read<seq<Json>>)
    ensures r.Got? ==> |r.rest| < |s|
    decreases |s|, 1
  {
    var (first, after) :- ReadValue(repr, s);
    var t := SkipSpace(after);
    if t == "" then Bad
    else if t[0] == ']' then Got([first], t[1..])
    else if t[0] == ',' then
      var (others, rest) :- ReadElems(repr, SkipSpace(t[1..]));
      Got([first] + others, rest)
    else Bad
  }

  function ReadMember(repr: Repr, s: string): (r: Read<Member>)
    ensures r.Got? ==> |r.rest| < |s|
    decreases |s|, 1
  {
    if s == "" || s[0] != '\"' then Bad
    else
      var (key, after) :- ReadString(s[1..]);
      var t := SkipSpace(after);
      if t == "" || t[0] != ':' then Bad
      else
        var (value, rest) :- ReadValue(repr, SkipSpace(t[1..]));
        Got(Member(key, value), rest)
  }

  /** One or more members and the closing brace. */
  function ReadMembers(repr: Repr, s: string): (r: Read<seq<Member>>)
    ensures r.Got? ==> |r.rest| < |s|
    decreases |s|, 2
  {
    var (first, after) :- ReadMember(repr, s);
    var t := SkipSpace(after);
    if t == "" then Bad
    else if t[0] == '}' then Got([first], t[1..])
    else if t[0] == ',' then
      var (others, rest) :- ReadMembers(repr, SkipSpace(t[1..]));
      Got([first] + others, rest)
    else Bad
  }

  datatype Loaded = Value(json: Json) | Unreadable

  function Loads(repr: Repr, s: string): Loaded {
    match ReadValue(repr, SkipSpace(s))
    case Bad => Unreadable
    case Got(j, rest) => if SkipSpace(rest) == "" then Value(j) else Unreadable
  }

  // ---- what is written is read back ----

  lemma Regroup3(a: string, sep: string, b: string, c: string)
    ensures (a + sep + b) + c == a + (sep + (b + c))
  {}

  lemma Regroup2(a: string, b: string, c: string)
    ensures (a + b) + c == a + (b + c)
  {}

  lemma Enclosed(open: char, body: string, close: string, rest: string)
    ensures var s := ([open] + body + close) + rest;
      s != "" && s[0] == open && s[1..] == body + (close + rest)
  {}

  lemma Prepended(c: char, rest: string)
    ensures ([c] + rest)[0] == c && ([c] + rest)[1..] == rest
  {}

  /** Text after which a number, and any value, has ended. */
  ghost predicate Ended(rest: string) {
    rest == "" || rest[0] == ',' || rest[0] == ']' || rest[0] == '}'
  }

  lemma {:induction false} DigitsAreDigits(n: nat)
    ensures forall i :: 0 <= i < |Digits(n)| ==> IsDigit(Digits(n)[i])
    ensures NumberOf(Digits(n)) == n
    ensures Digits(n)[0] == '0' ==> n == 0
  {
    if n >= 10 {
      DigitsAreDigits(n / 10);
      var d := Digits(n);
      assert d[..|d| - 1] == Digits(n / 10);
    } else {
      assert Digits(n)[..0] == "";
    }
  }

  lemma ReadScanned(repr: Repr, sign: string, n: Number, rest: string)
    requires Ended(rest) && Scan(n.Text()) == n && n.whole != ""
    ensures forall i :: 0 <= i < |n.whole| ==> IsDigit(n.whole[i])
    ensures ReadUnsigned(repr, sign, n.Text() + rest) ==
      Got(if n.tail != "" then Float(repr(sign + n.Text()))
          else Int(if sign == "" then NumberOf(n.whole) else 0 - NumberOf(n.whole)), rest)
  {
    ScanAgain(n.Text(), rest);
    DropFront(n.Text(), rest);
  }

  lemma ScanDigits(digits: string)
    requires digits != "" && (digits[0] == '0' ==> |digits| == 1)
    requires forall i :: 0 <= i < |digits| ==> IsDigit(digits[i])
    ensures Scan(digits) == Number(digits, "") && Number(digits, "").Text() == digits
  {
    DigitsAgain(digits, "");
    assert digits + "" == digits;
    assert digits[|digits|..] == "";
  }

  lemma DigitsStart(n: nat)
    ensures Digits(n)[0] == '0' ==> |Digits(n)| == 1
  {
    DigitsAreDigits(n);
  }

  lemma SignedRest(digits: string, rest: string)
    requires digits != "" && IsDigit(digits[0])
    ensures Unsigned(("-" + digits) + rest) == digits + rest && Unsigned(digits + rest) == digits + rest
    ensures (("-" + digits) + rest)[0] == '-' && (digits + rest)[0] == digits[0]
  {}

  lemma ReadPrintedNat(repr: Repr, sign: string, m: nat, rest: string)
    requires Ended(rest)
    ensures ReadUnsigned(repr, sign, Digits(m) + rest) == Got(Int(if sign == "" then m else 0 - m), rest)
  {
    DigitsAreDigits(m);
    DigitsStart(m);
    ScanDigits(Digits(m));
    ReadScanned(repr, sign, Number(Digits(m), ""), rest);
  }

  lemma ReadSigned(repr: Repr, digits: string, rest: string)
    requires digits != "" && IsDigit(digits[0])
    ensures ReadNumber(repr, ("-" + digits) + rest) == ReadUnsigned(repr, "-", digits + rest)
    ensures ReadNumber(repr, digits + rest) == ReadUnsigned(repr, "", digits + rest)
  {
    SignedRest(digits, rest);
  }

  lemma ReadPrintedInt(repr: Repr, n: int, rest: string)
    requires Ended(rest)
    ensures ReadNumber(repr, PrintInt(n) + rest) == Got(Int(n), rest)
  {
    var m: nat := if n < 0 then -n else n;
    DigitsAreDigits(m);
    ReadPrintedNat(repr, if n < 0 then "-" else "", m, rest);
    ReadSigned(repr, Digits(m), rest);
  }

  lemma LiteralParts(t: string)
    requires FloatLiteral(t)
    ensures var u := Unsigned(t); u != "" && IsDigit(u[0])
    ensures t == if t[0] == '-' then "-" + Unsigned(t) else Unsigned(t)
  {
    var n := Scan(Unsigned(t));
    assert Unsigned(t)[0] == n.whole[0];
  }

  lemma ReadFloatLiteral(repr: Repr, t: string, rest: string)
    requires Ended(rest) && repr(t) == t && FloatLiteral(t)
    ensures ReadNumber(repr, t + rest) == Got(Float(t), rest)
  {
    LiteralParts(t);
    SignedRest(Unsigned(t), rest);
    ReadScanned(repr, if t[0] == '-' then "-" else "", Scan(Unsigned(t)), rest);
    assert "" + t == t;
  }

  /** A number with a fraction begins with a digit, or a sign and a digit. */
  lemma LiteralHead(t: string)
    requires FloatLiteral(t)
    ensures t != "" && (IsDigit(t[0]) || (t[0] == '-' && |t| > 1 && IsDigit(t[1])))
  {
    LiteralParts(t);
  }

  lemma FloatHead(repr: Repr, t: string)
    requires repr(t) == t
    ensures FloatText(t)
    ensures t != "" && (t[0] == '-' || t[0] == 'N' || t[0] == 'I' || IsDigit(t[0]))
  {
    assert Settled(repr, t);
    if FloatLiteral(t) { LiteralHead(t); }
  }

  lemma ReadPrintedFloat(repr: Repr, t: string, rest: string)
    requires Ended(rest) && repr(t) == t
    ensures ReadValue(repr, t + rest) == Got(Float(t), rest)
  {
    FloatHead(repr, t);
    PlainHead(repr, t + rest);
    if FloatLiteral(t) {
      LiteralHead(t);
      ReadFloatLiteral(repr, t, rest);
      NumberHead(repr, t + rest);
    } else {
      ReadConstant(repr, t, rest);
    }
  }

  lemma ReadConstant(repr: Repr, t: string, rest: string)
    requires t == "NaN" || t == "Infinity" || t == "-Infinity"
    ensures ReadPlain(repr, t + rest) == Got(Float(t), rest)
  {
    var s := t + rest;
    DropFront(t, rest);
    assert s[0] == t[0];
    NotPrefix("null", s);
    NotPrefix("true", s);
    NotPrefix("false", s);
    if t[0] != 'N' { NotPrefix("NaN", s); }
    if t[0] != 'I' { NotPrefix("Infinity", s); }
  }

  lemma ReadShortEscape(x: char, tail: string)
    ensures ReadEscape([x] + tail) ==
      if x == '\"' || x == '\\' || x == '/' then Got(x as int, tail)
      else if x == 'b' then Got(0x08, tail)
      else if x == 'f' then Got(0x0C, tail)
      else if x == 'n' then Got(0x0A, tail)
      else if x == 'r' then Got(0x0D, tail)
      else if x == 't' then Got(0x09, tail)
      else if x == 'u' then ReadUnicode(tail)
      else Bad
  {
    Prepended(x, tail);
  }

  lemma ReadEscapedChar(c: char, tail: string)
    ensures var e := EscapeChar(c) + tail;
      && e != "" && e[0] >= ' ' && e[0] != '\"'
      && if e[0] == '\\' then ReadEscape(e[1..]) == Got(c as int, tail) else e[0] == c && e[1..] == tail
  {
    var e := EscapeChar(c) + tail;
    if c == '\"' || c == '\\' || c == '\n' || c == '\r' || c == '\t' || c == '\U{0C}' || c == '\U{08}' {
      var x := EscapeChar(c)[1];
      assert e == ['\\'] + ([x] + tail);
      assert e[1..] == [x] + tail;
      ReadShortEscape(x, tail);
    } else if c < ' ' {
      var hex := ['0', '0', Hex(c as int / 16), Hex(c as int % 16)];
      assert e == ['\\', 'u'] + hex + tail;
      assert e[1..] == ['u'] + (hex + tail);
      ReadShortEscape('u', hex + tail);
      ReadControl(c, tail);
    } else {
      assert e == [c] + tail;
      Prepended(c, tail);
    }
  }

  lemma ReadControl(c: char, tail: string)
    requires c < ' '
    ensures ReadUnicode(['0', '0', Hex(c as int / 16), Hex(c as int % 16)] + tail) == Got(c as int, tail)
  {
    var s := ['0', '0', Hex(c as int / 16), Hex(c as int % 16)] + tail;
    HexValueOfHex(c as int / 16);
    HexValueOfHex(c as int % 16);
    assert s[4..] == tail;
  }

  lemma HexValueOfHex(d: nat)
    requires d < 16
    ensures HexValue(Hex(d)) == Some(d)
  {}

  lemma ReadOneChar(text: string, c: Code, tail: string, s: seq<Code>, rest: string)
    requires text != "" && text[0] >= ' ' && text[0] != '\"'
    requires if text[0] == '\\' then ReadEscape(text[1..]) == Got(c, tail)
             else text[0] as int == c && text[1..] == tail
    requires ReadString(tail) == Got(s, rest)
    ensures ReadString(text) == Got([c] + s, rest)
  {}

  lemma {:induction false} ReadEscaped(s: string, rest: string)
    ensures ReadString(Escape(s) + ("\"" + rest)) == Got(Codes(s), rest)
    decreases |s|
  {
    var end := "\"" + rest;
    if s == "" {
      assert Escape(s) + end == end;
      Prepended('\"', rest);
    } else {
      var tail := Escape(s[1..]) + end;
      Regroup2(EscapeChar(s[0]), Escape(s[1..]), end);
      ReadEscaped(s[1..], rest);
      ReadEscapedChar(s[0], tail);
      ReadOneChar(EscapeChar(s[0]) + tail, s[0] as int, tail, Codes(s[1..]), rest);
      assert Codes(s) == [s[0] as int] + Codes(s[1..]);
    }
  }

  lemma ReadQuoted(s: string, rest: string)
    ensures Quote(s) + rest != "" && (Quote(s) + rest)[0] == '\"'
    ensures ReadString((Quote(s) + rest)[1..]) == Got(Codes(s), rest)
  {
    ReadEscaped(s, rest);
    Enclosed('\"', Escape(s), "\"", rest);
  }

  /** No value begins with space or with a closing bracket. */
  lemma PrintedHead(repr: Repr, j: Json)
    requires Canonical(repr, j)
    ensures Print(j) != "" && var c := Print(j)[0];
      c != ' ' && c != '\t' && c != '\n' && c != '\r' && c != ']' && c != '}' && c != ','
  {
    match j
    case Int(n) => DigitsAreDigits(if n < 0 then -n else n);
    case Float(t) => FloatHead(repr, t);
    case _ =>
  }

  lemma SkipNothing(s: string)
    requires s == "" || (s[0] != ' ' && s[0] != '\t' && s[0] != '\n' && s[0] != '\r')
    ensures SkipSpace(s) == s
  {}

  // One step of the reader at a time.

  lemma PlainHead(repr: Repr, s: string)
    requires s != "" && s[0] != '\"' && s[0] != '[' && s[0] != '{'
    ensures ReadValue(repr, s) == ReadPlain(repr, s)
  {}

  lemma NumberHead(repr: Repr, s: string)
    requires s != "" && (IsDigit(s[0]) || (s[0] == '-' && |s| > 1 && IsDigit(s[1])))
    ensures ReadPlain(repr, s) == ReadNumber(repr, s)
  {
    NotPrefix("null", s);
    NotPrefix("true", s);
    NotPrefix("false", s);
    NotPrefix("NaN", s);
    NotPrefix("Infinity", s);
    NotPrefixAt("-Infinity", s, if IsDigit(s[0]) then 0 else 1);
  }

  lemma NotPrefixAt(p: string, s: string, i: nat)
    requires i < |p| && i < |s| && p[i] != s[i]
    ensures !(p <= s)
  {}

  lemma NotPrefix(p: string, s: string)
    requires p != "" && s != "" && p[0] != s[0]
    ensures !(p <= s)
  {}

  lemma ReadArray(repr: Repr, s: string, t: string, elems: seq<Json>, rest: string)
    requires s != "" && s[0] == '[' && t == SkipSpace(s[1..]) && t != "" && t[0] != ']'
    requires ReadElems(repr, t) == Got(elems, rest)
    ensures ReadValue(repr, s) == Got(Arr(elems), rest)
  {}

  /** Fields as the reader meets them. */
  function Members(fields: seq<Field>): (pairs: seq<Member>)
    ensures |pairs| == |fields|
  {
    seq(|fields|, i requires 0 <= i < |fields| => Member(Codes(fields[i].key), fields[i].value))
  }

  lemma {:induction false} MembersArePlain(fields: seq<Field>)
    ensures PlainFields(Members(fields)) == fields && OddFields(Members(fields)) == []
  {
    if fields != [] {
      MembersArePlain(fields[1..]);
      assert Members(fields)[1..] == Members(fields[1..]);
      CharsOfCodes(fields[0].key);
    }
  }

  lemma ReadObject(repr: Repr, s: string, t: string, fields: seq<Field>, rest: string)
    requires s != "" && s[0] == '{' && t == SkipSpace(s[1..]) && t != "" && t[0] != '}'
    requires ReadMembers(repr, t) == Got(Members(fields), rest) && Sorted(fields)
    ensures ReadValue(repr, s) == Got(Obj(fields), rest)
  {
    MembersArePlain(fields);
    DictOfSorted(fields);
  }

  lemma ReadEmptyArray(repr: Repr, rest: string)
    ensures ReadValue(repr, Print(Arr([])) + rest) == Got(Arr([]), rest)
  {
    assert Print(Arr([])) == "[]";
    assert ("[]" + rest)[1..] == "]" + rest && ("]" + rest)[1..] == rest;
    SkipNothing("]" + rest);
  }

  lemma ReadEmptyObject(repr: Repr, rest: string)
    ensures ReadValue(repr, Print(Obj([])) + rest) == Got(Obj([]), rest)
  {
    assert Print(Obj([])) == "{}";
    assert ("{}" + rest)[1..] == "}" + rest && ("}" + rest)[1..] == rest;
    SkipNothing("}" + rest);
  }

  lemma ReadLastElem(repr: Repr, s: string, v: Json, rest: string)
    requires ReadValue(repr, s) == Got(v, "]" + rest)
    ensures ReadElems(repr, s) == Got([v], rest)
  {
    SkipNothing("]" + rest);
    assert ("]" + rest)[1..] == rest;
  }

  lemma ReadMoreElems(repr: Repr, s: string, v: Json, more: string, vs: seq<Json>, rest: string)
    requires ReadValue(repr, s) == Got(v, "," + more)
    requires SkipSpace(more) == more && ReadElems(repr, more) == Got(vs, rest)
    ensures ReadElems(repr, s) == Got([v] + vs, rest)
  {
    SkipNothing("," + more);
    assert ("," + more)[1..] == more;
  }

  lemma ReadLastMember(repr: Repr, s: string, f: Member, rest: string)
    requires ReadMember(repr, s) == Got(f, "}" + rest)
    ensures ReadMembers(repr, s) == Got([f], rest)
  {
    SkipNothing("}" + rest);
    assert ("}" + rest)[1..] == rest;
  }

  lemma ReadMoreMembers(repr: Repr, s: string, f: Member, more: string, fs: seq<Member>, rest: string)
    requires ReadMember(repr, s) == Got(f, "," + more)
    requires SkipSpace(more) == more && ReadMembers(repr, more) == Got(fs, rest)
    ensures ReadMembers(repr, s) == Got([f] + fs, rest)
  {
    SkipNothing("," + more);
    assert ("," + more)[1..] == more;
  }

  lemma ReadOneMember(repr: Repr, s: string, key: seq<Code>, text: string, v: Json, rest: string)
    requires s != "" && s[0] == '\"' && ReadString(s[1..]) == Got(key, ":" + text)
    requires SkipSpace(text) == text && ReadValue(repr, text) == Got(v, rest)
    ensures ReadMember(repr, s) == Got(Member(key, v), rest)
  {
    SkipNothing(":" + text);
    assert (":" + text)[1..] == text;
  }

  lemma ReadWord(repr: Repr, rest: string)
    ensures ReadValue(repr, "null" + rest) == Got(Null, rest)
    ensures ReadValue(repr, "true" + rest) == Got(Bool(true), rest)
    ensures ReadValue(repr, "false" + rest) == Got(Bool(false), rest)
  {
    assert ("null" + rest)[4..] == rest && ("true" + rest)[4..] == rest && ("false" + rest)[5..] == rest;
    assert ("true" + rest)[0] == 't' && ("false" + rest)[0] == 'f';
    assert "null"[0] == 'n' && "true"[0] == 't';
  }

  /** A written value, whatever ends it, is read back with exactly that ending left. */
  lemma {:induction false} ReadPrinted(repr: Repr, j: Json, rest: string)
    requires Canonical(repr, j) && Ended(rest)
    ensures ReadValue(repr, Print(j) + rest) == Got(j, rest)
    decreases j, 0
  {
    match j
    case Null => ReadWord(repr, rest);
    case Bool(b) => ReadWord(repr, rest);
    case Int(n) =>
      ReadPrintedInt(repr, n, rest);
      DigitsAreDigits(if n < 0 then -n else n);
      NumberHead(repr, PrintInt(n) + rest);
      PlainHead(repr, PrintInt(n) + rest);
    case Float(t) => ReadPrintedFloat(repr, t, rest);
    case Str(text) =>
      ReadQuoted(text, rest);
      CharsOfCodes(text);
    case Arr(elems) =>
      if elems == [] {
        ReadEmptyArray(repr, rest);
      } else {
        ReadPrintedElems(repr, elems, rest);
        ReadPrintedArray(repr, elems, rest);
      }
    case Obj(fields) =>
      if fields == [] {
        ReadEmptyObject(repr, rest);
      } else {
        ReadPrintedFields(repr, fields, rest);
        ReadPrintedObject(repr, fields, rest);
      }
  }

  lemma ReadPrintedArray(repr: Repr, elems: seq<Json>, rest: string)
    requires elems != [] && Canonical(repr, Arr(elems))
    requires ReadElems(repr, PrintElems(elems) + ("]" + rest)) == Got(elems, rest)
    ensures ReadValue(repr, Print(Arr(elems)) + rest) == Got(Arr(elems), rest)
  {
    var s, t := Print(Arr(elems)) + rest, PrintElems(elems) + ("]" + rest);
    Enclosed('[', PrintElems(elems), "]", rest);
    PrintedElemsHead(repr, elems);
    SkipNothing(t);
    ReadArray(repr, s, t, elems, rest);
  }

  lemma ReadPrintedObject(repr: Repr, fields: seq<Field>, rest: string)
    requires fields != [] && Canonical(repr, Obj(fields))
    requires ReadMembers(repr, PrintFields(fields) + ("}" + rest)) == Got(Members(fields), rest)
    ensures ReadValue(repr, Print(Obj(fields)) + rest) == Got(Obj(fields), rest)
  {
    var s, t := Print(Obj(fields)) + rest, PrintFields(fields) + ("}" + rest);
    Enclosed('{', PrintFields(fields), "}", rest);
    PrintedFieldsHead(fields);
    SkipNothing(t);
    ReadObject(repr, s, t, fields, rest);
  }

  lemma PrintedElemsHead(repr: Repr, elems: seq<Json>)
    requires elems != [] && Canonical(repr, Arr(elems))
    ensures PrintElems(elems) != ""
    ensures var c := PrintElems(elems)[0]; c != ' ' && c != '\t' && c != '\n' && c != '\r' && c != ']'
  {
    PrintedHead(repr, elems[0]);
  }

  lemma PrintedFieldsHead(fields: seq<Field>)
    requires fields != [] && Writable(Obj(fields))
    ensures PrintFields(fields) != "" && PrintFields(fields)[0] == '\"'
  {
    assert PrintField(fields[0])[0] == '\"';
  }

  lemma {:induction false} ReadPrintedElems(repr: Repr, elems: seq<Json>, rest: string)
    requires elems != [] && Canonical(repr, Arr(elems))
    ensures ReadElems(repr, PrintElems(elems) + ("]" + rest)) == Got(elems, rest)
    decreases elems, 1
  {
    var first, others := elems[0], elems[1..];
    assert elems == [first] + others;
    if others == [] {
      ReadPrinted(repr, first, "]" + rest);
      ReadLastElem(repr, Print(first) + ("]" + rest), first, rest);
      assert PrintElems(elems) == Print(first) && elems == [first];
    } else {
      var more := PrintElems(others) + ("]" + rest);
      ReadPrinted(repr, first, "," + more);
      ReadPrintedElems(repr, others, rest);
      PrintedElemsHead(repr, others);
      SkipNothing(more);
      ReadMoreElems(repr, Print(first) + ("," + more), first, more, others, rest);
      Regroup3(Print(first), ",", PrintElems(others), "]" + rest);
    }
  }

  lemma {:induction false} ReadPrintedField(repr: Repr, f: Field, rest: string)
    requires Canonical(repr, f.value) && Ended(rest)
    ensures ReadMember(repr, PrintField(f) + rest) == Got(Member(Codes(f.key), f.value), rest)
    decreases f, 1
  {
    var text := Print(f.value) + rest;
    ReadQuoted(f.key, ":" + text);
    ReadPrinted(repr, f.value, rest);
    PrintedHead(repr, f.value);
    SkipNothing(text);
    ReadOneMember(repr, Quote(f.key) + (":" + text), Codes(f.key), text, f.value, rest);
    Regroup3(Quote(f.key), ":", Print(f.value), rest);
  }

  lemma {:induction false} ReadPrintedFields(repr: Repr, fields: seq<Field>, rest: string)
    requires fields != [] && Canonical(repr, Obj(fields))
    ensures ReadMembers(repr, PrintFields(fields) + ("}" + rest)) == Got(Members(fields), rest)
    decreases fields, 2
  {
    var first, others := fields[0], fields[1..];
    var f := Member(Codes(first.key), first.value);
    assert fields == [first] + others && Members(fields) == [f] + Members(others);
    if others == [] {
      ReadPrintedField(repr, first, "}" + rest);
      ReadLastMember(repr, PrintField(first) + ("}" + rest), f, rest);
      assert PrintFields(fields) == PrintField(first) && Members(fields) == [f];
    } else {
      var more := PrintFields(others) + ("}" + rest);
      ReadPrintedField(repr, first, "," + more);
      ReadPrintedFields(repr, others, rest);
      PrintedFieldsHead(others);
      SkipNothing(more);
      ReadMoreMembers(repr, PrintField(first) + ("," + more), f, more, Members(others), rest);
      Regroup3(PrintField(first), ",", PrintFields(others), "}" + rest);
    }
  }

  /** Reading what was written gives the value back. */
  lemma LoadsOfPrint(repr: Repr, j: Json)
    requires Canonical(repr, j)
    ensures Loads(repr, Print(j)) == Value(j)
  {
    ReadPrinted(repr, j, "");
    PrintedHead(repr, j);
    SkipNothing(Print(j));
    assert Print(j) + "" == Print(j);
  }

  // ---- a lone surrogate in a text ----

  const LONE: string := "\\ud800\""

  lemma ReadLone(rest: string)
    ensures ReadString(LONE + rest) == Got([0xD800], rest)
  {
    var s := "ud800\"" + rest;
    assert LONE + rest == "\\" + s;
    assert (LONE + rest)[1..] == s;
    ReadLoneEscape(rest);
    assert ("\"" + rest)[1..] == rest;
    assert ReadString("\"" + rest) == Got([], rest);
    assert [0xD800] + [] == [0xD800];
  }

  lemma ReadLoneEscape(rest: string)
    ensures ReadEscape("ud800\"" + rest) == Got(0xD800, "\"" + rest)
  {
    var s := "d800\"" + rest;
    assert ("ud800\"" + rest)[1..] == s;
    assert s[4..] == "\"" + rest;
    assert Hex4(s) == Some(0xD800);
    assert s[4] == '\"' && "\\u"[0] == '\\';
  }

  /** Members written before others are read before them. */
  lemma {:induction false} ReadPrintedFront(repr: Repr, front: seq<Field>, more: string, pairs: seq<Member>,
                                           rest: string)
    requires Canonical(repr, Obj(front)) && front != []
    requires SkipSpace(more) == more && ReadMembers(repr, more) == Got(pairs, rest)
    ensures ReadMembers(repr, PrintFields(front) + ("," + more)) == Got(Members(front) + pairs, rest)
  {
    var first, others := front[0], front[1..];
    if others == [] {
      ReadNextField(repr, first, more, pairs, rest);
      assert Members(front) == [MemberOf(first)];
    } else {
      var next := PrintFields(others) + ("," + more);
      ReadPrintedFront(repr, others, more, pairs, rest);
      FrontHead(others, more);
      ReadNextField(repr, first, next, Members(others) + pairs, rest);
      PrintedMore(first, others, more);
      MembersMore(front, pairs);
    }
  }

  lemma FrontHead(fields: seq<Field>, more: string)
    requires fields != [] && Writable(Obj(fields))
    ensures SkipSpace(PrintFields(fields) + ("," + more)) == PrintFields(fields) + ("," + more)
  {
    PrintedFieldsHead(fields);
    SkipNothing(PrintFields(fields) + ("," + more));
  }

  lemma PrintedMore(first: Field, others: seq<Field>, more: string)
    requires others != [] && Writable(first.value) && Writable(Obj(others))
    ensures Writable(Obj([first] + others))
    ensures PrintFields([first] + others) + ("," + more)
      == PrintField(first) + ("," + (PrintFields(others) + ("," + more)))
  {
    assert ([first] + others)[1..] == others;
    Regroup3(PrintField(first), ",", PrintFields(others), "," + more);
  }

  lemma MembersMore(front: seq<Field>, pairs: seq<Member>)
    requires front != []
    ensures front == [front[0]] + front[1..]
    ensures [MemberOf(front[0])] + (Members(front[1..]) + pairs) == Members(front) + pairs
  {}

  function MemberOf(f: Field): Member { Member(Codes(f.key), f.value) }

  lemma ReadNextField(repr: Repr, f: Field, more: string, pairs: seq<Member>, rest: string)
    requires Canonical(repr, f.value) && SkipSpace(more) == more && ReadMembers(repr, more) == Got(pairs, rest)
    ensures ReadMembers(repr, PrintField(f) + ("," + more)) == Got([MemberOf(f)] + pairs, rest)
  {
    ReadPrintedField(repr, f, "," + more);
    ReadMoreMembers(repr, PrintField(f) + ("," + more), MemberOf(f), more, pairs, rest);
  }

  lemma ReadLoneMember(repr: Repr, key: string, rest: string)
    ensures ReadMember(repr, Quote(key) + (":" + ("\"" + (LONE + rest))))
      == Got(Member(Codes(key), Lone([0xD800])), rest)
  {
    var text := "\"" + (LONE + rest);
    ReadQuoted(key, ":" + text);
    ReadLone(rest);
    Prepended('\"', LONE + rest);
    SkipNothing(text);
    assert !AllScalar([0xD800]) by { assert !Scalar([0xD800][0]); }
    ReadOneMember(repr, Quote(key) + (":" + text), Codes(key), text, Lone([0xD800]), rest);
  }

  /** The text from the odd member on. */
  function LoneTail(key: string, back: seq<Field>): string
    requires Writable(Obj(back))
  {
    Quote(key) + (":" + ("\"" + (LONE + ("," + (PrintFields(back) + "}")))))
  }

  /** The text of an object in which the value of one key is a lone surrogate. */
  function LoneText(front: seq<Field>, key: string, back: seq<Field>): string
    requires Writable(Obj(front)) && Writable(Obj(back))
  {
    "{" + (PrintFields(front) + ("," + LoneTail(key, back)))
  }

  lemma ReadLoneTail(repr: Repr, key: string, back: seq<Field>)
    requires back != [] && Canonical(repr, Obj(back))
    ensures LoneTail(key, back) != "" && LoneTail(key, back)[0] == '\"'
    ensures ReadMembers(repr, LoneTail(key, back)) == Got([Member(Codes(key), Lone([0xD800]))] + Members(back), "")
  {
    var next := PrintFields(back) + "}";
    ReadPrintedFields(repr, back, "");
    assert "}" + "" == "}";
    ReadLoneMember(repr, key, "," + next);
    PrintedFieldsHead(back);
    SkipNothing(next);
    ReadMoreMembers(repr, LoneTail(key, back), Member(Codes(key), Lone([0xD800])), next, Members(back), "");
  }

  lemma LoadsObject(repr: Repr, t: string, fields: seq<Field>)
    requires t != "" && t[0] == '\"' && ReadMembers(repr, t) == Got(Members(fields), "") && Sorted(fields)
    ensures Loads(repr, "{" + t) == Value(Obj(fields))
  {
    SkipNothing(t);
    Prepended('{', t);
    ReadObject(repr, "{" + t, t, fields, "");
    SkipNothing("{" + t);
  }

  lemma MembersAround(front: seq<Field>, odd: Field, back: seq<Field>)
    ensures Members(front) + ([MemberOf(odd)] + Members(back)) == Members(front + [odd] + back)
  {}

  lemma ReadLoneObject(repr: Repr, front: seq<Field>, odd: Field, back: seq<Field>, fields: seq<Field>)
    requires front != [] && back != [] && Canonical(repr, Obj(front)) && Canonical(repr, Obj(back))
    requires odd.value == Lone([0xD800]) && fields == front + [odd] + back && Sorted(fields)
    ensures Loads(repr, LoneText(front, odd.key, back)) == Value(Obj(fields))
  {
    var more := LoneTail(odd.key, back);
    ReadLoneTail(repr, odd.key, back);
    SkipNothing(more);
    ReadPrintedFront(repr, front, more, [MemberOf(odd)] + Members(back), "");
    PrintedFieldsHead(front);
    MembersAround(front, odd, back);
    LoadsObject(repr, PrintFields(front) + ("," + more), fields);
  }

  /** Any written object, the value of one key in its middle replaced by a lone surrogate. */
  lemma ReadLoneAt(repr: Repr, fields: seq<Field>, i: nat)
    requires Canonical(repr, Obj(fields)) && 0 < i < |fields| - 1
    ensures Writable(Obj(fields[..i])) && Writable(Obj(fields[i + 1..]))
    ensures Loads(repr, LoneText(fields[..i], fields[i].key, fields[i + 1..]))
      == Value(Obj(fields[i := Field(fields[i].key, Lone([0xD800]))]))
  {
    var odd := Field(fields[i].key, Lone([0xD800]));
    assert fields[i := odd] == fields[..i] + [odd] + fields[i + 1..];
    assert Sorted(fields[i := odd]);
    ReadLoneObject(repr, fields[..i], odd, fields[i + 1..], fields[i := odd]);
  }

  // ---- what is read is in order ----

  lemma {:induction false} PutSorts(fields: seq<Field>, key: string, value: Json)
    requires Sorted(fields)
    ensures Sorted(Put(fields, key, value))
    ensures forall f :: f in Put(fields, key, value) ==> f == Field(key, value) || f in fields
  {
    if fields != [] && key != fields[0].key {
      if Less(key, fields[0].key) {
        forall i | 1 <= i < |fields| ensures Less(key, fields[i].key) {
          LessTransitive(key, fields[0].key, fields[i].key);
        }
      } else {
        LessTotal(key, fields[0].key);
        PutSorts(fields[1..], key, value);
        var rest := Put(fields[1..], key, value);
        forall i | 0 <= i < |rest| ensures Less(fields[0].key, rest[i].key) { assert rest[i] in rest; }
      }
    }
  }

  lemma PutKeeps(repr: Repr, fields: seq<Field>, key: string, value: Json)
    requires Ordered(repr, Obj(fields)) && Ordered(repr, value)
    ensures Ordered(repr, Obj(Put(fields, key, value)))
  {
    var out := Put(fields, key, value);
    PutSorts(fields, key, value);
    forall i | 0 <= i < |out| ensures Ordered(repr, out[i].value) { assert out[i] in out; }
  }

  lemma {:induction false} DictKeeps(repr: Repr, pairs: seq<Field>)
    requires forall i :: 0 <= i < |pairs| ==> Ordered(repr, pairs[i].value)
    ensures Ordered(repr, Obj(Dict(pairs)))
    decreases |pairs|
  {
    if pairs != [] {
      var last := pairs[|pairs| - 1];
      DictKeeps(repr, pairs[..|pairs| - 1]);
      PutKeeps(repr, Dict(pairs[..|pairs| - 1]), last.key, last.value);
    }
  }

  ghost predicate InOrder(repr: Repr, pairs: seq<Member>) {
    forall i :: 0 <= i < |pairs| ==> Ordered(repr, pairs[i].value)
  }

  lemma {:induction false} SplitKeeps(repr: Repr, pairs: seq<Member>)
    requires InOrder(repr, pairs)
    ensures forall i :: 0 <= i < |PlainFields(pairs)| ==> Ordered(repr, PlainFields(pairs)[i].value)
    ensures forall i :: 0 <= i < |OddFields(pairs)| ==> Ordered(repr, OddFields(pairs)[i].value)
  {
    if pairs != [] { SplitKeeps(repr, pairs[1..]); }
  }

  lemma ObjectIsOrdered(repr: Repr, pairs: seq<Member>)
    requires InOrder(repr, pairs)
    ensures Ordered(repr, ObjectOf(pairs))
  {
    SplitKeeps(repr, pairs);
    DictKeeps(repr, PlainFields(pairs));
  }

  lemma NumberIsOrdered(repr: Repr, s: string)
    ensures ReadNumber(repr, s).Got? ==> Ordered(repr, ReadNumber(repr, s).value)
  {
    var sign := if s != "" && s[0] == '-' then "-" else "";
    assert Settled(repr, sign + Scan(Unsigned(s)).Text());
  }

  lemma ConstantsAreOrdered(repr: Repr)
    ensures Ordered(repr, Float("NaN")) && Ordered(repr, Float("Infinity")) && Ordered(repr, Float("-Infinity"))
  {}

  lemma ScalarIsOrdered(repr: Repr, s: string)
    ensures ReadPlain(repr, s).Got? ==> Ordered(repr, ReadPlain(repr, s).value)
  {
    NumberIsOrdered(repr, s);
    ConstantsAreOrdered(repr);
  }

  lemma {:induction false} ReadIsOrdered(repr: Repr, s: string)
    ensures ReadValue(repr, s).Got? ==> Ordered(repr, ReadValue(repr, s).value)
    decreases |s|, 0
  {
    if s != "" && s[0] == '[' {
      ElemsAreOrdered(repr, SkipSpace(s[1..]));
    } else if s != "" && s[0] == '{' {
      var t := SkipSpace(s[1..]);
      MembersAreOrdered(repr, t);
      if ReadMembers(repr, t).Got? { ObjectIsOrdered(repr, ReadMembers(repr, t).value); }
    } else if s != "" {
      ScalarIsOrdered(repr, s);
    }
  }

  lemma {:induction false} ElemsAreOrdered(repr: Repr, s: string)
    ensures ReadElems(repr, s).Got? ==> Ordered(repr, Arr(ReadElems(repr, s).value))
    decreases |s|, 1
  {
    ReadIsOrdered(repr, s);
    if ReadValue(repr, s).Got? {
      var t := SkipSpace(ReadValue(repr, s).rest);
      if t != "" && t[0] == ',' { ElemsAreOrdered(repr, SkipSpace(t[1..])); }
    }
  }

  lemma {:induction false} MemberIsOrdered(repr: Repr, s: string)
    ensures ReadMember(repr, s).Got? ==> Ordered(repr, ReadMember(repr, s).value.value)
    decreases |s|, 1
  {
    if s != "" && s[0] == '\"' && ReadString(s[1..]).Got? {
      var t := SkipSpace(ReadString(s[1..]).rest);
      if t != "" { ReadIsOrdered(repr, SkipSpace(t[1..])); }
    }
  }

  lemma {:induction false} MembersAreOrdered(repr: Repr, s: string)
    ensures ReadMembers(repr, s).Got? ==> InOrder(repr, ReadMembers(repr, s).value)
    decreases |s|, 2
  {
    MemberIsOrdered(repr, s);
    if ReadMember(repr, s).Got? {
      var t := SkipSpace(ReadMember(repr, s).rest);
      if t != "" && t[0] == ',' { MembersAreOrdered(repr, SkipSpace(t[1..])); }
    }
  }

  lemma LoadsIsOrdered(repr: Repr, s: string)
    ensures Loads(repr, s).Value? ==> Ordered(repr, Loads(repr, s).json)
  {
    ReadIsOrdered(repr, SkipSpace(s));
  }

  // ---- what is written holds no C0 control ----

  ghost predicate Clean(s: string) { forall i :: 0 <= i < |s| ==> s[i] >= ' ' }

  lemma {:induction false} EscapeIsClean(s: string)
    ensures Clean(Escape(s))
  {
    if s != "" { EscapeIsClean(s[1..]); }
  }

  lemma QuoteIsClean(s: string)
    ensures Clean(Quote(s))
  {
    EscapeIsClean(s);
  }

  lemma MarkedIsClean(s: string)
    ensures Clean(Marked(s))
  {}

  lemma TailIsClean(s: string)
    ensures Clean(TailPart(s))
  {
    MarkedIsClean(s);
    MarkedIsClean(s[|Marked(s)|..]);
  }

  lemma NumberIsClean(s: string)
    ensures Clean(Scan(s).Text())
  {
    TailIsClean(s[|WholePart(s)|..]);
  }

  lemma LiteralIsClean(t: string)
    requires FloatLiteral(t)
    ensures Clean(t)
  {
    LiteralParts(t);
    NumberIsClean(Unsigned(t));
  }

  lemma ConstantIsClean(t: string)
    requires t == "NaN" || t == "Infinity" || t == "-Infinity"
    ensures Clean(t)
  {}

  lemma FloatIsClean(repr: Repr, t: string)
    requires repr(t) == t
    ensures Clean(t)
  {
    FloatHead(repr, t);
    if FloatLiteral(t) { LiteralIsClean(t); } else { ConstantIsClean(t); }
  }

  lemma EnclosedIsClean(open: char, body: string, close: char)
    requires open >= ' ' && Clean(body) && close >= ' '
    ensures Clean([open] + body + [close])
  {}

  lemma JoinedIsClean(a: string, sep: char, b: string)
    requires Clean(a) && sep >= ' ' && Clean(b)
    ensures Clean(a + [sep] + b)
  {}

  /** No character below 0x20 is ever written, whatever the strings hold. */
  lemma {:induction false} PrintIsClean(repr: Repr, j: Json)
    requires Canonical(repr, j)
    ensures Clean(Print(j))
    decreases j, 2
  {
    match j
    case Int(n) => DigitsAreDigits(if n < 0 then -n else n);
    case Float(t) => FloatIsClean(repr, t);
    case Str(s) => QuoteIsClean(s);
    case Arr(elems) =>
      ElemsAreClean(repr, elems);
      EnclosedIsClean('[', PrintElems(elems), ']');
    case Obj(fields) =>
      FieldsAreClean(repr, fields);
      EnclosedIsClean('{', PrintFields(fields), '}');
    case _ =>
  }

  lemma {:induction false} ElemsAreClean(repr: Repr, elems: seq<Json>)
    requires Canonical(repr, Arr(elems))
    ensures Clean(PrintElems(elems))
    decreases elems, 1
  {
    if elems != [] {
      PrintIsClean(repr, elems[0]);
      if |elems| > 1 {
        ElemsAreClean(repr, elems[1..]);
        JoinedIsClean(Print(elems[0]), ',', PrintElems(elems[1..]));
      }
    }
  }

  lemma {:induction false} FieldsAreClean(repr: Repr, fields: seq<Field>)
    requires Canonical(repr, Obj(fields))
    ensures Clean(PrintFields(fields))
    decreases fields, 1
  {
    if fields != [] {
      QuoteIsClean(fields[0].key);
      PrintIsClean(repr, fields[0].value);
      JoinedIsClean(Quote(fields[0].key), ':', Print(fields[0].value));
      if |fields| > 1 {
        FieldsAreClean(repr, fields[1..]);
        JoinedIsClean(PrintField(fields[0]), ',', PrintFields(fields[1..]));
      }
    }
  }
}
