/** The descriptor payload: its canonical JSON bytes and their reader. */
module Payload {
  import opened Prelude
  import opened Json
  import opened Weights
  import opened Text
  import Utf8

  type Bytes = Utf8.Bytes

  const V1: string := "mthydra.descriptor.v1"
  const V2: string := "mthydra.descriptor.v2"
  const V3: string := "mthydra.descriptor.v3"

  const KNOWN_FINGERPRINTS: set<string> :=
    {"chrome", "firefox", "safari", "ios", "android", "edge", "360", "qq", "random", "randomized"}

  predicate Accepted(schema: string) { schema == V1 || schema == V2 || schema == V3 }

  datatype Exit = Exit(fingerprint: string, endpoint: string, weight: int,
                       coverSni: Option<string>, realityPubkey: Option<string>)

  /** A value whose texts can all be encoded. */
  type Link = j: Json | Writable(j) witness Null

  /** The two link fields are kept as the JSON value read, which the reader does not convert. */
  datatype Payload = Payload(generation: int, signingKeyGen: int, issuedAt: string, validUntil: string,
                             exits: seq<Exit>, previousHash: Link, nextPubkey: Link, schema: string,
                             fingerprints: Option<seq<Weighted>>, desync: Option<string>)

  // ---- writing ----

  function OrNull(s: Option<string>): (j: Link) {
    match s case None => Null case Some(t) => Str(t)
  }

  function ExitTree(e: Exit, schema: string): Json {
    if schema == V1 then
      Obj([Field("endpoint", Str(e.endpoint)), Field("fingerprint", Str(e.fingerprint)),
        Field("weight", Int(e.weight))])
    else
      Obj([Field("cover_sni", OrNull(e.coverSni)), Field("endpoint", Str(e.endpoint)),
           Field("fingerprint", Str(e.fingerprint)), Field("reality_pubkey", OrNull(e.realityPubkey)),
           Field("weight", Int(e.weight))])
  }

  function ExitTrees(exits: seq<Exit>, schema: string): seq<Json> {
    seq(|exits|, i requires 0 <= i < |exits| => ExitTree(exits[i], schema))
  }

  function WeightedTree(w: Weighted): Json {
    Obj([Field("fp", Str(w.fp)), Field("weight", Int(w.weight))])
  }

  function WeightedTrees(ws: seq<Weighted>): seq<Json> {
    seq(|ws|, i requires 0 <= i < |ws| => WeightedTree(ws[i]))
  }

  /** The fields that are written only for some payloads. */
  function DesyncFields(p: Payload): seq<Field> {
    if p.schema == V3 && p.desync.Some? && p.desync.value != "" then [Field("desync_strategy", Str(p.desync.value))]
      else []
  }

  function FingerprintFields(p: Payload): seq<Field> {
    if p.schema == V3 && p.fingerprints.Some? && p.fingerprints.value != []
    then [Field("tls_fingerprints", Arr(WeightedTrees(Sort(p.fingerprints.value))))] else []
  }

  function TailFields(p: Payload): seq<Field> {
    [Field("signing_key_gen", Int(p.signingKeyGen))]
      + (FingerprintFields(p) + [Field("valid_until", Str(p.validUntil))])
  }

  function LinkFields(p: Payload): seq<Field> {
    [Field("next_signing_pubkey", p.nextPubkey), Field("previous_generation_hash", p.previousHash),
     Field("schema", Str(p.schema))] + TailFields(p)
  }

  function HeadFields(p: Payload): seq<Field> {
    [Field("eu_exit_set", Arr(ExitTrees(p.exits, p.schema))), Field("generation", Int(p.generation)),
     Field("issued_at", Str(p.issuedAt))] + LinkFields(p)
  }

  /** The dictionary written, its keys in order. */
  function Tree(p: Payload): (j: Json)
    ensures Writable(j)
  {
    TreeWritable(p);
    Obj(DesyncFields(p) + HeadFields(p))
  }

  predicate AllWritable(fields: seq<Field>) { forall i :: 0 <= i < |fields| ==> Writable(fields[i].value) }

  lemma TreesWritable(p: Payload)
    ensures Writable(Arr(ExitTrees(p.exits, p.schema))) && AllWritable(FingerprintFields(p))
  {
    forall i | 0 <= i < |p.exits| ensures Writable(ExitTree(p.exits[i], p.schema)) {}
    if FingerprintFields(p) != [] {
      var ws := Sort(p.fingerprints.value);
      forall i | 0 <= i < |ws| ensures Writable(WeightedTree(ws[i])) {}
      assert Writable(Arr(WeightedTrees(ws)));
    }
  }

  lemma TreeWritable(p: Payload)
    ensures AllWritable(DesyncFields(p) + HeadFields(p))
  {
    TreesWritable(p);
    assert AllWritable(TailFields(p));
    assert AllWritable(LinkFields(p));
    assert AllWritable(HeadFields(p));
  }

  datatype Written = Bytes_(bytes: Bytes) | UnknownSchema

  function CanonicalText(p: Payload): string { Print(Tree(p)) }

  function CanonicalBytes(p: Payload): Written {
    if !Accepted(p.schema) then UnknownSchema else Bytes_(Utf8.Encode(CanonicalText(p)))
  }

  // ---- reading ----

  /** What Python's str() and int() make of a JSON value that is not already of that type, and how
      it writes numbers with a fraction. No text that str() makes holds a lone surrogate. */
  datatype Coercion = Coercion(toStr: Json -> string, toInt: Json -> Option<int>, repr: Repr)

  /** Unwritable is not raised by the reader: it stands for a payload that was read but holds a text
      with a lone surrogate, so that writing it raises UnicodeEncodeError. */
  datatype Raised = ValueError | KeyError | TypeError | AttributeError | OverflowError | Unwritable

  datatype Result<+T> = Ok(value: T) | Err(raised: Raised) {
    predicate IsFailure() { Err? }
    function PropagateFailure<U>(): Result<U> requires Err? { Err(raised) }
    function Extract(): T requires Ok? { value }
  }

  /** A text with a lone surrogate is left out here; HoldsLone tells that there was one. */
  function StrOf(co: Coercion, j: Json): string {
    match j case Str(s) => s case Lone(_) => "" case _ => co.toStr(j)
  }

  predicate Infinite(j: Json) { j == Float("Infinity") || j == Float("-Infinity") }

  function IntOf(co: Coercion, j: Json): Result<int> {
    match j
    case Int(n) => Ok(n)
    case _ =>
      if Infinite(j) then Err(OverflowError)
      else match co.toInt(j) case Some(n) => Ok(n) case None => Err(ValueError)
  }

  function Require(fields: seq<Field>, key: string): Result<Json> {
    match Get(fields, key) case Some(j) => Ok(j) case None => Err(KeyError)
  }

  function OptionalStr(co: Coercion, j: Option<Json>): Option<string> {
    if j.None? || j.value.Null? then None else Some(StrOf(co, j.value))
  }

  const KNOWN: set<string> := {"schema", "generation", "signing_key_gen", "issued_at", "valid_until", "eu_exit_set",
    "previous_generation_hash", "next_signing_pubkey", "tls_fingerprints", "desync_strategy"}

  const KNOWN_EXIT_V1: set<string> := {"fingerprint", "endpoint", "weight"}
  const KNOWN_EXIT_V2: set<string> := KNOWN_EXIT_V1 + {"cover_sni", "reality_pubkey"}

  predicate OnlyKnown(fields: seq<Field>, known: set<string>) {
    forall i :: 0 <= i < |fields| ==> fields[i].key in known
  }

  function ReadExit(co: Coercion, schema: string, entry: Json): Result<Exit> {
    match entry
    case Obj(fields) =>
      if !OnlyKnown(fields, if schema == V1 then KNOWN_EXIT_V1 else KNOWN_EXIT_V2) then Err(ValueError)
      else
        var coverSni := if schema == V1 then None else OptionalStr(co, Get(fields, "cover_sni"));
        var realityPubkey := if schema == V1 then None else OptionalStr(co, Get(fields, "reality_pubkey"));
        var fingerprint :- Require(fields, "fingerprint");
        var endpoint :- Require(fields, "endpoint");
        var rawWeight :- Require(fields, "weight");
        var weight :- IntOf(co, rawWeight);
        Ok(Exit(StrOf(co, fingerprint), StrOf(co, endpoint), weight, coverSni, realityPubkey))
    case Odd(_, _) => Err(ValueError)
    case _ => Err(AttributeError)
  }

  function ReadExits(co: Coercion, schema: string, entries: seq<Json>): Result<seq<Exit>> {
    if entries == [] then Ok([])
    else
      var first :- ReadExit(co, schema, entries[0]);
      var others :- ReadExits(co, schema, entries[1..]);
      Ok([first] + others)
  }

  /** What a list read so far and the reading of the rest come to. */
  ghost function After<T>(front: seq<T>, r: Result<seq<T>>): Result<seq<T>> {
    match r case Ok(rest) => Ok(front + rest) case Err(e) => Err(e)
  }

  lemma AfterSnoc<T>(front: seq<T>, e: T, r: Result<seq<T>>)
    ensures After([], r) == r && After(front + [e], r) == After(front, After([e], r))
  {
    if r.Ok? {
      assert [] + r.value == r.value;
      assert front + [e] + r.value == front + ([e] + r.value);
    }
  }

  /** The entries read one by one, the exits collected so far in `exits`. */
  method CollectExits(co: Coercion, schema: string, entries: seq<Json>) returns (r: Result<seq<Exit>>)
    ensures r == ReadExits(co, schema, entries)
  {
    var exits: seq<Exit> := [];
    ghost var goal := ReadExits(co, schema, entries);
    assert entries[0..] == entries;
    if goal.Ok? { assert [] + goal.value == goal.value; }
    for k := 0 to |entries|
      invariant goal == After(exits, ReadExits(co, schema, entries[k..]))
    {
      assert entries[k..][1..] == entries[k + 1..];
      var e := ReadExit(co, schema, entries[k]);
      if e.Err? { return Err(e.raised); }
      AfterSnoc(exits, e.value, ReadExits(co, schema, entries[k + 1..]));
      exits := exits + [e.value];
    }
    assert exits + [] == exits;
    return Ok(exits);
  }

  function KeysOf(fields: seq<Field>): seq<Json> {
    seq(|fields|, i requires 0 <= i < |fields| => Str(fields[i].key))
  }

  /** What iterating over the value of "eu_exit_set" yields. */
  function Entries(j: Option<Json>): Result<seq<Json>> {
    if j.None? then Ok([])
    else match j.value
      case Arr(elems) => Ok(elems)
      case Str(s) => Ok(seq(|s|, i requires 0 <= i < |s| => Str([s[i]])))
      case Lone(codes) => Ok(seq(|codes|, i requires 0 <= i < |codes| => OfCodes([codes[i]])))
      case Obj(fields) => Ok(KeysOf(fields))
      case Odd(fields, others) =>
        Ok(KeysOf(fields) + seq(|others|, i requires 0 <= i < |others| => Lone(others[i].key)))
      case _ => Err(TypeError)
  }

  function ReadWeighted(co: Coercion, item: Json): Result<Weighted> {
    if !item.IsDict() then Err(TypeError)
    else
      var fp :- Require(item.fields, "fp");
      var rawWeight :- Require(item.fields, "weight");
      var weight :- IntOf(co, rawWeight);
      Ok(Weighted(StrOf(co, fp), weight))
  }

  function ReadWeightedList(co: Coercion, items: seq<Json>): Result<seq<Weighted>> {
    if items == [] then Ok([])
    else
      var first :- ReadWeighted(co, items[0]);
      var others :- ReadWeightedList(co, items[1..]);
      Ok([first] + others)
  }

  predicate Falsy(j: Json) {
    || j == Null || j == Bool(false) || j == Int(0) || j == Float("0.0") || j == Float("-0.0")
    || j == Str("") || j == Arr([]) || j == Obj([])
  }

  function ReadFingerprints(co: Coercion, raw: Option<Json>): Result<Option<seq<Weighted>>> {
    if raw.None? || Falsy(raw.value) then Ok(None)
    else match raw.value
      case Arr(items) =>
        var ws :- ReadWeightedList(co, items);
        Ok(Some(ws))
      case _ => Err(TypeError)
  }

  function ReadSchema(j: Option<Json>): Result<string> {
    if j.None? then Err(ValueError)
    else match j.value
      case Str(s) => if Accepted(s) then Ok(s) else Err(ValueError)
      case Arr(_) => Err(TypeError)
      case Obj(_) => Err(TypeError)
      case Odd(_, _) => Err(TypeError)
      case _ => Err(ValueError)
  }

  function ReadFields(co: Coercion, fields: seq<Field>): Result<Payload> {
    if !OnlyKnown(fields, KNOWN) then Err(ValueError)
    else
      var schema :- ReadSchema(Get(fields, "schema"));
      if Get(fields, "tls_fingerprints").Some? && schema != V3 then Err(ValueError)
      else if Get(fields, "desync_strategy").Some? && schema != V3 then Err(ValueError)
      else
        var entries :- Entries(Get(fields, "eu_exit_set"));
        var exits :- ReadExits(co, schema, entries);
        var fingerprints :- ReadFingerprints(co, Get(fields, "tls_fingerprints"));
        var desync := OptionalStr(co, Get(fields, "desync_strategy"));
        ReadRest(co, fields, schema, exits, fingerprints, desync)
  }

  predicate LoneAt(fields: seq<Field>, key: string) { Get(fields, key).Some? && Get(fields, key).value.Lone? }

  predicate LoneInside(fields: seq<Field>, key: string) {
    Get(fields, key).Some? && !Writable(Get(fields, key).value)
  }

  predicate LoneExit(entry: Json) {
    entry.Obj? && (LoneAt(entry.fields, "fingerprint") || LoneAt(entry.fields, "endpoint")
                   || LoneAt(entry.fields, "cover_sni") || LoneAt(entry.fields, "reality_pubkey"))
  }

  predicate LoneWeighted(item: Json) { item.IsDict() && LoneAt(item.fields, "fp") }

  function ListAt(fields: seq<Field>, key: string): seq<Json> {
    match Get(fields, key) case Some(Arr(elems)) => elems case _ => []
  }

  /** Something that becomes part of the payload holds a lone surrogate. */
  predicate HoldsLone(fields: seq<Field>) {
    || LoneAt(fields, "issued_at") || LoneAt(fields, "valid_until") || LoneAt(fields, "desync_strategy")
    || LoneInside(fields, "previous_generation_hash") || LoneInside(fields, "next_signing_pubkey")
    || (exists e :: e in ListAt(fields, "eu_exit_set") && LoneExit(e))
    || (exists w :: w in ListAt(fields, "tls_fingerprints") && LoneWeighted(w))
  }

  function OrNullJson(j: Option<Json>): Json {
    match j case None => Null case Some(v) => v
  }

  function ReadRest(co: Coercion, fields: seq<Field>, schema: string, exits: seq<Exit>,
                    fingerprints: Option<seq<Weighted>>, desync: Option<string>): Result<Payload> {
    var rawGeneration :- Require(fields, "generation");
    var generation :- IntOf(co, rawGeneration);
    var rawKeyGen :- Require(fields, "signing_key_gen");
    var keyGen :- IntOf(co, rawKeyGen);
    var issuedAt :- Require(fields, "issued_at");
    var validUntil :- Require(fields, "valid_until");
    if HoldsLone(fields) then Err(Unwritable)
    else
      Ok(Payload(generation, keyGen, StrOf(co, issuedAt), StrOf(co, validUntil), exits,
                 OrNullJson(Get(fields, "previous_generation_hash")),
                 OrNullJson(Get(fields, "next_signing_pubkey")), schema, fingerprints, desync))
  }

  function ReadJson(co: Coercion, j: Json): Result<Payload> {
    match j
    case Obj(fields) => ReadFields(co, fields)
    case Odd(_, _) => Err(ValueError)
    case _ => Err(AttributeError)
  }

  function FromCanonicalBytes(co: Coercion, blob: Bytes): Result<Payload> {
    match Utf8.Decode(blob)
    case None => Err(ValueError)
    case Some(text) =>
      match Loads(co.repr, text)
      case Unreadable => Err(ValueError)
      case Value(j) => ReadJson(co, j)
  }

  // ---- the failures that are not a ValueError, KeyError or TypeError ----

  /** The first result that is a failure is this one. */
  ghost predicate FirstFails<T>(rs: seq<Result<T>>, e: Raised) {
    exists k :: 0 <= k < |rs| && rs[k] == Err(e) && AllOk(rs[..k])
  }

  ghost predicate AllOk<T>(rs: seq<Result<T>>) { forall i :: 0 <= i < |rs| ==> rs[i].Ok? }

  lemma FirstFailsCons<T>(r: Result<T>, rs: seq<Result<T>>, e: Raised)
    ensures FirstFails([r] + rs, e) <==> r == Err(e) || (r.Ok? && FirstFails(rs, e))
  {
    var all := [r] + rs;
    if FirstFails(all, e) {
      var k :| 0 <= k < |all| && all[k] == Err(e) && AllOk(all[..k]);
      if k > 0 {
        assert all[..k][0] == r && rs[..k - 1] == all[..k][1..];
        assert rs[k - 1] == Err(e);
      }
    }
    if r == Err(e) { assert all[0] == Err(e) && all[..0] == []; }
    if r.Ok? && FirstFails(rs, e) {
      var k :| 0 <= k < |rs| && rs[k] == Err(e) && AllOk(rs[..k]);
      assert all[k + 1] == Err(e) && all[..k + 1] == [r] + rs[..k];
    }
  }

  function ExitResults(co: Coercion, schema: string, entries: seq<Json>): (rs: seq<Result<Exit>>)
    ensures |rs| == |entries|
  {
    seq(|entries|, i requires 0 <= i < |entries| => ReadExit(co, schema, entries[i]))
  }

  lemma {:induction false} ExitsFail(co: Coercion, schema: string, entries: seq<Json>, e: Raised)
    ensures ReadExits(co, schema, entries) == Err(e) <==> FirstFails(ExitResults(co, schema, entries), e)
  {
    if entries != [] {
      ExitsFail(co, schema, entries[1..], e);
      var rs := ExitResults(co, schema, entries[1..]);
      FirstFailsCons(ReadExit(co, schema, entries[0]), rs, e);
      assert ExitResults(co, schema, entries) == [ReadExit(co, schema, entries[0])] + rs;
    }
  }

  function WeightedResults(co: Coercion, items: seq<Json>): (rs: seq<Result<Weighted>>)
    ensures |rs| == |items|
  {
    seq(|items|, i requires 0 <= i < |items| => ReadWeighted(co, items[i]))
  }

  lemma {:induction false} WeightedFail(co: Coercion, items: seq<Json>, e: Raised)
    ensures ReadWeightedList(co, items) == Err(e) <==> FirstFails(WeightedResults(co, items), e)
  {
    if items != [] {
      WeightedFail(co, items[1..], e);
      var rs := WeightedResults(co, items[1..]);
      FirstFailsCons(ReadWeighted(co, items[0]), rs, e);
      assert WeightedResults(co, items) == [ReadWeighted(co, items[0])] + rs;
    }
  }

  /** The first entry that cannot be read is no dictionary. */
  ghost predicate MeetsNonObject(co: Coercion, schema: string, entries: seq<Json>) {
    exists k :: 0 <= k < |entries| && !entries[k].IsDict() && AllOk(ExitResults(co, schema, entries)[..k])
  }

  /** An exit that has all its fields, and no others, with an infinite weight. */
  predicate InfiniteExit(schema: string, entry: Json) {
    && entry.Obj?
    && OnlyKnown(entry.fields, if schema == V1 then KNOWN_EXIT_V1 else KNOWN_EXIT_V2)
    && Get(entry.fields, "fingerprint").Some? && Get(entry.fields, "endpoint").Some?
    && Get(entry.fields, "weight").Some? && Infinite(Get(entry.fields, "weight").value)
  }

  /** The first entry that cannot be read has an infinite weight. */
  ghost predicate MeetsInfiniteExit(co: Coercion, schema: string, entries: seq<Json>) {
    exists k :: 0 <= k < |entries| && InfiniteExit(schema, entries[k]) && AllOk(ExitResults(co, schema, entries)[..k])
  }

  lemma ExitFails(co: Coercion, schema: string, entry: Json)
    ensures ReadExit(co, schema, entry) == Err(AttributeError) <==> !entry.IsDict()
    ensures ReadExit(co, schema, entry) == Err(OverflowError) <==> InfiniteExit(schema, entry)
    ensures ReadExit(co, schema, entry) != Err(Unwritable)
  {}

  lemma ExitsRaise(co: Coercion, schema: string, entries: seq<Json>)
    ensures ReadExits(co, schema, entries) == Err(AttributeError) <==> MeetsNonObject(co, schema, entries)
    ensures ReadExits(co, schema, entries) == Err(OverflowError) <==> MeetsInfiniteExit(co, schema, entries)
    ensures ReadExits(co, schema, entries) != Err(Unwritable)
  {
    ExitsFail(co, schema, entries, AttributeError);
    ExitsFail(co, schema, entries, OverflowError);
    ExitsFail(co, schema, entries, Unwritable);
    forall k | 0 <= k < |entries|
      ensures ReadExit(co, schema, entries[k]) == Err(AttributeError) <==> !entries[k].IsDict()
      ensures ReadExit(co, schema, entries[k]) == Err(OverflowError) <==> InfiniteExit(schema, entries[k])
      ensures ReadExit(co, schema, entries[k]) != Err(Unwritable)
    {
      ExitFails(co, schema, entries[k]);
    }
  }

  /** A listed fingerprint with an infinite weight. */
  predicate InfiniteWeighted(item: Json) {
    item.IsDict() && Get(item.fields, "fp").Some?
    && Get(item.fields, "weight").Some? && Infinite(Get(item.fields, "weight").value)
  }

  /** The first item that cannot be read has an infinite weight. */
  ghost predicate MeetsInfiniteWeighted(co: Coercion, items: seq<Json>) {
    exists k :: 0 <= k < |items| && InfiniteWeighted(items[k]) && AllOk(WeightedResults(co, items)[..k])
  }

  lemma ItemFails(co: Coercion, item: Json)
    ensures ReadWeighted(co, item) == Err(OverflowError) <==> InfiniteWeighted(item)
    ensures ReadWeighted(co, item) !in {Err(AttributeError), Err(Unwritable)}
  {}

  lemma FingerprintsRaise(co: Coercion, items: seq<Json>)
    ensures ReadWeightedList(co, items) == Err(OverflowError) <==> MeetsInfiniteWeighted(co, items)
    ensures ReadWeightedList(co, items) !in {Err(AttributeError), Err(Unwritable)}
  {
    WeightedFail(co, items, AttributeError);
    WeightedFail(co, items, OverflowError);
    WeightedFail(co, items, Unwritable);
    forall k | 0 <= k < |items|
      ensures ReadWeighted(co, items[k]) == Err(OverflowError) <==> InfiniteWeighted(items[k])
      ensures ReadWeighted(co, items[k]) !in {Err(AttributeError), Err(Unwritable)}
    {
      ItemFails(co, items[k]);
    }
  }

  /** Known keys, an accepted schema, no field of a later one, and an exit set that can be walked. */
  predicate Shaped(fields: seq<Field>) {
    && OnlyKnown(fields, KNOWN)
    && ReadSchema(Get(fields, "schema")).Ok?
    && (ReadSchema(Get(fields, "schema")).value == V3
        || (Get(fields, "tls_fingerprints").None? && Get(fields, "desync_strategy").None?))
    && Entries(Get(fields, "eu_exit_set")).Ok?
  }

  function ExitsOf(co: Coercion, fields: seq<Field>): Result<seq<Exit>>
    requires Shaped(fields)
  {
    ReadExits(co, ReadSchema(Get(fields, "schema")).value, Entries(Get(fields, "eu_exit_set")).value)
  }

  /** The walk meets an entry that is no dictionary. */
  ghost predicate BadExitSet(co: Coercion, fields: seq<Field>) {
    Shaped(fields)
    && MeetsNonObject(co, ReadSchema(Get(fields, "schema")).value, Entries(Get(fields, "eu_exit_set")).value)
  }

  predicate InfiniteAt(fields: seq<Field>, key: string) { Get(fields, key).Some? && Infinite(Get(fields, key).value) }

  predicate IntAt(co: Coercion, fields: seq<Field>, key: string) {
    Get(fields, key).Some? && IntOf(co, Get(fields, key).value).Ok?
  }

  /** All exits and fingerprints can be read. */
  predicate ListsRead(co: Coercion, fields: seq<Field>) {
    Shaped(fields) && ExitsOf(co, fields).Ok? && ReadFingerprints(co, Get(fields, "tls_fingerprints")).Ok?
  }

  /** The first fault, in the order of reading, is an infinite number where a whole one belongs: the
      weight of an exit or of a fingerprint, the generation, or that of the key. */
  ghost predicate MeetsInfinity(co: Coercion, fields: seq<Field>) {
    Shaped(fields)
    && var schema, entries := ReadSchema(Get(fields, "schema")).value, Entries(Get(fields, "eu_exit_set")).value;
       || MeetsInfiniteExit(co, schema, entries)
       || (ExitsOf(co, fields).Ok? && MeetsInfiniteWeighted(co, ListAt(fields, "tls_fingerprints")))
       || (ListsRead(co, fields)
           && (InfiniteAt(fields, "generation")
               || (IntAt(co, fields, "generation") && InfiniteAt(fields, "signing_key_gen"))))
  }

  /** Nothing that the reader asks for is missing or of the wrong kind. */
  predicate ReadsAll(co: Coercion, fields: seq<Field>) {
    && ListsRead(co, fields)
    && IntAt(co, fields, "generation") && IntAt(co, fields, "signing_key_gen")
    && Get(fields, "issued_at").Some? && Get(fields, "valid_until").Some?
  }

  lemma RestRaises(co: Coercion, fields: seq<Field>, schema: string, exits: seq<Exit>,
                   fingerprints: Option<seq<Weighted>>, desync: Option<string>)
    ensures var r := ReadRest(co, fields, schema, exits, fingerprints, desync);
      && r != Err(AttributeError)
      && (r == Err(OverflowError) <==>
            InfiniteAt(fields, "generation")
            || (IntAt(co, fields, "generation") && InfiniteAt(fields, "signing_key_gen")))
      && (r == Err(Unwritable) <==>
            && IntAt(co, fields, "generation") && IntAt(co, fields, "signing_key_gen")
            && Get(fields, "issued_at").Some? && Get(fields, "valid_until").Some? && HoldsLone(fields))
  {}

  lemma ListRaises(co: Coercion, fields: seq<Field>)
    ensures var r := ReadFingerprints(co, Get(fields, "tls_fingerprints"));
      && (r == Err(OverflowError) <==> MeetsInfiniteWeighted(co, ListAt(fields, "tls_fingerprints")))
      && r !in {Err(AttributeError), Err(Unwritable)}
  {
    FingerprintsRaise(co, ListAt(fields, "tls_fingerprints"));
  }

  lemma FieldsRaise(co: Coercion, fields: seq<Field>)
    ensures ReadFields(co, fields) == Err(AttributeError) <==> BadExitSet(co, fields)
    ensures ReadFields(co, fields) == Err(OverflowError) <==> MeetsInfinity(co, fields)
    ensures ReadFields(co, fields) == Err(Unwritable) <==> ReadsAll(co, fields) && HoldsLone(fields)
  {
    if Shaped(fields) {
      var schema := ReadSchema(Get(fields, "schema")).value;
      ExitsRaise(co, schema, Entries(Get(fields, "eu_exit_set")).value);
      ListRaises(co, fields);
      var fingerprints := ReadFingerprints(co, Get(fields, "tls_fingerprints"));
      if ExitsOf(co, fields).Ok? && fingerprints.Ok? {
        RestRaises(co, fields, schema, ExitsOf(co, fields).value, fingerprints.value,
                   OptionalStr(co, Get(fields, "desync_strategy")));
      }
    }
  }

  lemma ReadsAllOfRead(co: Coercion, fields: seq<Field>)
    requires ReadFields(co, fields).Ok?
    ensures ReadsAll(co, fields)
  {}

  // ---- which objects are read ----

  /** A value of which a whole number can be made. */
  ghost predicate WholeNumber(co: Coercion, j: Option<Json>) {
    j.Some? && (j.value.Int? || (j.value != Float("Infinity") && j.value != Float("-Infinity")
                                 && co.toInt(j.value).Some?))
  }

  /** An object with the fields of an exit, of which the first schema has three, and no others. */
  ghost predicate ReadableExit(co: Coercion, entry: Json, first: bool) {
    && entry.Obj?
    && (forall f :: f in entry.fields ==>
          || f.key in {"fingerprint", "endpoint", "weight"}
          || (!first && f.key in {"cover_sni", "reality_pubkey"}))
    && Get(entry.fields, "fingerprint").Some? && Get(entry.fields, "endpoint").Some?
    && WholeNumber(co, Get(entry.fields, "weight"))
  }

  ghost predicate ReadableWeighted(co: Coercion, item: Json) {
    item.IsDict() && Get(item.fields, "fp").Some? && WholeNumber(co, Get(item.fields, "weight"))
  }

  lemma OnlyKnownMeans(fields: seq<Field>, known: set<string>)
    ensures OnlyKnown(fields, known) <==> forall f :: f in fields ==> f.key in known
  {
    if forall f :: f in fields ==> f.key in known {
      forall i | 0 <= i < |fields| ensures fields[i].key in known { assert fields[i] in fields; }
    }
  }

  lemma ExitReads(co: Coercion, schema: string, entry: Json)
    ensures ReadExit(co, schema, entry).Ok? <==> ReadableExit(co, entry, schema == V1)
  {
    if entry.Obj? { OnlyKnownMeans(entry.fields, if schema == V1 then KNOWN_EXIT_V1 else KNOWN_EXIT_V2); }
  }

  lemma {:induction false} ExitsRead(co: Coercion, schema: string, entries: seq<Json>)
    ensures ReadExits(co, schema, entries).Ok? <==>
      forall i :: 0 <= i < |entries| ==> ReadableExit(co, entries[i], schema == V1)
  {
    if entries != [] {
      ExitReads(co, schema, entries[0]);
      ExitsRead(co, schema, entries[1..]);
      forall i | 1 <= i < |entries| ensures entries[i] == entries[1..][i - 1] {}
    }
  }

  lemma {:induction false} WeightedListReads(co: Coercion, items: seq<Json>)
    ensures ReadWeightedList(co, items).Ok? <==> forall i :: 0 <= i < |items| ==> ReadableWeighted(co, items[i])
  {
    if items != [] {
      WeightedListReads(co, items[1..]);
      forall i | 1 <= i < |items| ensures items[i] == items[1..][i - 1] {}
    }
  }

  /** What stands for the exits: nothing, a list of them, or another collection that is empty. */
  ghost predicate ReadableExits(co: Coercion, j: Option<Json>, first: bool) {
    || j.None? || j.value in {Str(""), Obj([]), Odd([], []), Lone([])}
    || (j.value.Arr? && forall i :: 0 <= i < |j.value.elems| ==> ReadableExit(co, j.value.elems[i], first))
  }

  lemma ExitSetReads(co: Coercion, schema: string, j: Option<Json>)
    ensures Entries(j).Ok? && ReadExits(co, schema, Entries(j).value).Ok? <==> ReadableExits(co, j, schema == V1)
  {
    if Entries(j).Ok? { ExitsRead(co, schema, Entries(j).value); }
  }

  /** What stands for the fingerprints: nothing, something false, or a list of pairs. */
  ghost predicate ReadableFingerprints(co: Coercion, j: Option<Json>) {
    || j.None?
    || j.value in {Null, Bool(false), Int(0), Float("0.0"), Float("-0.0"), Str(""), Arr([]), Obj([])}
    || (j.value.Arr? && forall i :: 0 <= i < |j.value.elems| ==> ReadableWeighted(co, j.value.elems[i]))
  }

  lemma FingerprintsRead(co: Coercion, j: Option<Json>)
    ensures ReadFingerprints(co, j).Ok? <==> ReadableFingerprints(co, j)
  {
    if j.Some? && j.value.Arr? { WeightedListReads(co, j.value.elems); }
  }

  lemma SchemaReads(j: Option<Json>)
    ensures ReadSchema(j).Ok? <==> j in {Some(Str("mthydra.descriptor.v1")), Some(Str("mthydra.descriptor.v2")),
                                         Some(Str("mthydra.descriptor.v3"))}
    ensures ReadSchema(j).Ok? ==> j == Some(Str(ReadSchema(j).value))
    ensures V1 == "mthydra.descriptor.v1" && V3 == "mthydra.descriptor.v3"
  {}

  lemma RestReads(co: Coercion, fields: seq<Field>, schema: string, exits: seq<Exit>,
                  fingerprints: Option<seq<Weighted>>, desync: Option<string>)
    ensures ReadRest(co, fields, schema, exits, fingerprints, desync).Ok? <==>
      && WholeNumber(co, Get(fields, "generation")) && WholeNumber(co, Get(fields, "signing_key_gen"))
      && Get(fields, "issued_at").Some? && Get(fields, "valid_until").Some? && !HoldsLone(fields)
  {}

  /** No text under this key, or one without a lone surrogate. */
  ghost predicate WholeText(fields: seq<Field>, key: string) {
    Get(fields, key).Some? ==> !Get(fields, key).value.Lone?
  }

  ghost predicate WholeExit(e: Json) {
    e.Obj? ==> WholeText(e.fields, "fingerprint") && WholeText(e.fields, "endpoint")
               && WholeText(e.fields, "cover_sni") && WholeText(e.fields, "reality_pubkey")
  }

  ghost predicate WholePair(w: Json) { w.IsDict() ==> WholeText(w.fields, "fp") }

  /** Every text that is kept can be encoded: the times, the strategy, the links and whatever they hold,
      those of the exits and the names of the fingerprints. */
  ghost predicate TextsWhole(fields: seq<Field>) {
    && WholeText(fields, "issued_at") && WholeText(fields, "valid_until") && WholeText(fields, "desync_strategy")
    && (Get(fields, "previous_generation_hash").Some? ==> Writable(Get(fields, "previous_generation_hash").value))
    && (Get(fields, "next_signing_pubkey").Some? ==> Writable(Get(fields, "next_signing_pubkey").value))
    && (Get(fields, "eu_exit_set").Some? ==>
          match Get(fields, "eu_exit_set").value
          case Arr(elems) => forall e :: e in elems ==> WholeExit(e)
          case _ => true)
    && (Get(fields, "tls_fingerprints").Some? ==>
          match Get(fields, "tls_fingerprints").value
          case Arr(elems) => forall w :: w in elems ==> WholePair(w)
          case _ => true)
  }

  lemma HoldsLoneExactly(fields: seq<Field>)
    ensures HoldsLone(fields) <==> !TextsWhole(fields)
  {
    forall e ensures WholeExit(e) <==> !LoneExit(e) {}
    forall w ensures WholePair(w) <==> !LoneWeighted(w) {}
  }

  /** The parts of an object, each of them readable. */
  ghost predicate PartsRead(co: Coercion, fields: seq<Field>, first: bool) {
    && ReadableExits(co, Get(fields, "eu_exit_set"), first)
    && ReadableFingerprints(co, Get(fields, "tls_fingerprints"))
    && WholeNumber(co, Get(fields, "generation")) && WholeNumber(co, Get(fields, "signing_key_gen"))
    && Get(fields, "issued_at").Some? && Get(fields, "valid_until").Some? && TextsWhole(fields)
  }

  lemma PartsReadExactly(co: Coercion, fields: seq<Field>, schema: string)
    requires ReadSchema(Get(fields, "schema")) == Ok(schema) && OnlyKnown(fields, KNOWN)
    requires schema == V3 || (Get(fields, "tls_fingerprints").None? && Get(fields, "desync_strategy").None?)
    ensures ReadFields(co, fields).Ok? <==> PartsRead(co, fields, schema == V1)
  {
    ExitSetReads(co, schema, Get(fields, "eu_exit_set"));
    FingerprintsRead(co, Get(fields, "tls_fingerprints"));
    HoldsLoneExactly(fields);
    var entries := Entries(Get(fields, "eu_exit_set"));
    if entries.Ok? {
      var exits := ReadExits(co, schema, entries.value);
      var fps := ReadFingerprints(co, Get(fields, "tls_fingerprints"));
      if exits.Ok? && fps.Ok? {
        RestReads(co, fields, schema, exits.value, fps.value, OptionalStr(co, Get(fields, "desync_strategy")));
      }
    }
  }

  /** Which objects are read as a payload: no other keys than these ten, one of the three schemas, the
      optional keys with the third only, exits and fingerprints that can be read, two whole numbers, two
      times, and no lone surrogate in what is kept. */
  lemma ReadsExactly(co: Coercion, fields: seq<Field>)
    ensures var schema := Get(fields, "schema");
      ReadFields(co, fields).Ok? <==>
        && (forall f :: f in fields ==>
              f.key in {"schema", "generation", "signing_key_gen", "issued_at", "valid_until", "eu_exit_set",
                        "previous_generation_hash", "next_signing_pubkey", "tls_fingerprints", "desync_strategy"})
        && (schema == Some(Str("mthydra.descriptor.v3"))
            || (schema in {Some(Str("mthydra.descriptor.v1")), Some(Str("mthydra.descriptor.v2"))}
                && Get(fields, "tls_fingerprints").None? && Get(fields, "desync_strategy").None?))
        && PartsRead(co, fields, schema == Some(Str("mthydra.descriptor.v1")))
  {
    var ok, parts := ReadsWhen(co, fields);
    KeysMeans(fields);
    SchemaMeans(fields, ok, parts);
  }

  lemma KeysMeans(fields: seq<Field>)
    ensures OnlyKnown(fields, KNOWN) <==> forall f :: f in fields ==>
      f.key in {"schema", "generation", "signing_key_gen", "issued_at", "valid_until", "eu_exit_set",
                "previous_generation_hash", "next_signing_pubkey", "tls_fingerprints", "desync_strategy"}
  {
    OnlyKnownMeans(fields, KNOWN);
  }

  lemma ReadsWhen(co: Coercion, fields: seq<Field>) returns (ok: bool, parts: bool -> bool)
    ensures ok == ReadFields(co, fields).Ok? && forall first :: parts(first) == PartsRead(co, fields, first)
    ensures var schema := ReadSchema(Get(fields, "schema"));
      ok <==> OnlyKnown(fields, KNOWN) && schema.Ok? && parts(schema.value == V1)
              && (schema.value == V3
                  || (Get(fields, "tls_fingerprints").None? && Get(fields, "desync_strategy").None?))
  {
    ok, parts := ReadFields(co, fields).Ok?, (first: bool) => PartsRead(co, fields, first);
    var schema := ReadSchema(Get(fields, "schema"));
    if schema.Ok? && OnlyKnown(fields, KNOWN)
       && (schema.value == V3 || (Get(fields, "tls_fingerprints").None? && Get(fields, "desync_strategy").None?)) {
      PartsReadExactly(co, fields, schema.value);
    }
  }

  lemma SchemaMeans(fields: seq<Field>, ok: bool, parts: bool -> bool)
    requires var schema := ReadSchema(Get(fields, "schema"));
      ok <==> OnlyKnown(fields, KNOWN) && schema.Ok? && parts(schema.value == V1)
              && (schema.value == V3
                  || (Get(fields, "tls_fingerprints").None? && Get(fields, "desync_strategy").None?))
    ensures var schema := Get(fields, "schema");
      ok <==>
        && OnlyKnown(fields, KNOWN) && parts(schema == Some(Str("mthydra.descriptor.v1")))
        && (schema == Some(Str("mthydra.descriptor.v3"))
            || (schema in {Some(Str("mthydra.descriptor.v1")), Some(Str("mthydra.descriptor.v2"))}
                && Get(fields, "tls_fingerprints").None? && Get(fields, "desync_strategy").None?))
  {
    SchemaReads(Get(fields, "schema"));
  }

  // ---- the normal form ----

  function NormalExit(e: Exit, schema: string): Exit {
    if schema == V1 then e.(coverSni := None, realityPubkey := None) else e
  }

  function NormalExits(exits: seq<Exit>, schema: string): seq<Exit> {
    seq(|exits|, i requires 0 <= i < |exits| => NormalExit(exits[i], schema))
  }

  /** What a payload becomes when written and read: fingerprints sorted, an empty list or an empty
      strategy absent, the fields of later schemas dropped. */
  function Normal(p: Payload): Payload {
    p.(exits := NormalExits(p.exits, p.schema),
       fingerprints := if p.schema == V3 && p.fingerprints.Some? && p.fingerprints.value != []
                       then Some(Sort(p.fingerprints.value)) else None,
       desync := if p.schema == V3 && p.desync.Some? && p.desync.value != "" then p.desync else None)
  }

  /** Nothing is promised of a link except that its objects list their fields in order and that its
      numbers are as Python writes them. */
  ghost predicate WellTyped(repr: Repr, p: Payload) {
    Accepted(p.schema) && Ordered(repr, p.previousHash) && Ordered(repr, p.nextPubkey)
  }

  /** Both links are texts or absent, as the signer makes them. */
  predicate PlainLinks(p: Payload) {
    (p.previousHash.Null? || p.previousHash.Str?) && (p.nextPubkey.Null? || p.nextPubkey.Str?)
  }

  // ---- the reader inverts the writer ----

  lemma SortedCons(f: Field, rest: seq<Field>)
    requires Sorted(rest) && (rest != [] ==> Less(f.key, rest[0].key))
    ensures Sorted([f] + rest)
  {
    forall j | 1 <= j < |rest| ensures Less(f.key, rest[j].key) { LessTransitive(f.key, rest[0].key, rest[j].key); }
  }

  lemma {:induction false} GetAt(fields: seq<Field>, i: nat)
    requires Sorted(fields) && i < |fields|
    ensures Get(fields, fields[i].key) == Some(fields[i].value)
  {
    if i > 0 {
      LessAsymmetric(fields[0].key, fields[i].key);
      GetAt(fields[1..], i - 1);
    }
  }

  lemma {:induction false} GetAbsent(fields: seq<Field>, key: string)
    requires forall i :: 0 <= i < |fields| ==> fields[i].key != key
    ensures Get(fields, key) == None
  {
    if fields != [] { GetAbsent(fields[1..], key); }
  }

  /** A key that none of two fields has. */
  lemma GetAbsentHere(fields: seq<Field>, key: string)
    requires |fields| == 2 && fields[0].key != key && fields[1].key != key
    ensures Get(fields, key) == None
  {
    GetAbsent(fields, key);
  }

  lemma ExitShape(repr: Repr, e: Exit, schema: string)
    ensures Canonical(repr, ExitTree(e, schema))
  {
    var w := [Field("weight", Int(e.weight))];
    if schema == V1 {
      SortedCons(Field("fingerprint", Str(e.fingerprint)), w);
      var f := [Field("fingerprint", Str(e.fingerprint))] + w;
      SortedCons(Field("endpoint", Str(e.endpoint)), f);
      assert ExitTree(e, schema).fields == [Field("endpoint", Str(e.endpoint))] + f;
    } else {
      var r := [Field("reality_pubkey", OrNull(e.realityPubkey))] + w;
      var f := [Field("fingerprint", Str(e.fingerprint))] + r;
      var p := [Field("endpoint", Str(e.endpoint))] + f;
      SortedCons(Field("reality_pubkey", OrNull(e.realityPubkey)), w);
      SortedCons(Field("fingerprint", Str(e.fingerprint)), r);
      SortedCons(Field("endpoint", Str(e.endpoint)), f);
      SortedCons(Field("cover_sni", OrNull(e.coverSni)), p);
      assert ExitTree(e, schema).fields == [Field("cover_sni", OrNull(e.coverSni))] + p;
    }
  }

  lemma ExitKeysKnown(e: Exit, schema: string)
    ensures OnlyKnown(ExitTree(e, schema).fields, if schema == V1 then KNOWN_EXIT_V1 else KNOWN_EXIT_V2)
  {}

  lemma ExitFieldsFound(repr: Repr, e: Exit, schema: string)
    ensures var fields := ExitTree(e, schema).fields;
      && Get(fields, "endpoint") == Some(Str(e.endpoint))
      && Get(fields, "fingerprint") == Some(Str(e.fingerprint))
      && Get(fields, "weight") == Some(Int(e.weight))
      && (schema != V1 ==> Get(fields, "cover_sni") == Some(OrNull(e.coverSni))
                           && Get(fields, "reality_pubkey") == Some(OrNull(e.realityPubkey)))
  {
    var fields := ExitTree(e, schema).fields;
    ExitShape(repr, e, schema);
    GetAt(fields, 0);
    GetAt(fields, 1);
    GetAt(fields, 2);
    if schema != V1 {
      GetAt(fields, 3);
      GetAt(fields, 4);
    }
  }

  lemma ExitRoundTrip(co: Coercion, e: Exit, schema: string)
    ensures ReadExit(co, schema, ExitTree(e, schema)) == Ok(NormalExit(e, schema))
  {
    var tree := ExitTree(e, schema);
    assert tree.Obj?;
    ExitKeysKnown(e, schema);
    ExitFieldsFound(co.repr, e, schema);
    OptionalOfOrNull(co, e.coverSni);
    OptionalOfOrNull(co, e.realityPubkey);
  }

  lemma OptionalOfOrNull(co: Coercion, s: Option<string>)
    ensures OptionalStr(co, Some(OrNull(s))) == s
  {}

  lemma ExitsCons(exits: seq<Exit>, schema: string)
    requires exits != []
    ensures ExitTrees(exits, schema) == [ExitTree(exits[0], schema)] + ExitTrees(exits[1..], schema)
    ensures NormalExits(exits, schema) == [NormalExit(exits[0], schema)] + NormalExits(exits[1..], schema)
  {}

  lemma ReadExitsCons(co: Coercion, schema: string, first: Json, others: seq<Json>)
    ensures ReadExit(co, schema, first).Ok? && ReadExits(co, schema, others).Ok? ==>
      ReadExits(co, schema, [first] + others)
      == Ok([ReadExit(co, schema, first).value] + ReadExits(co, schema, others).value)
  {
    assert ([first] + others)[1..] == others;
  }

  lemma {:induction false} ExitsRoundTrip(co: Coercion, exits: seq<Exit>, schema: string)
    ensures ReadExits(co, schema, ExitTrees(exits, schema)) == Ok(NormalExits(exits, schema))
  {
    if exits != [] {
      ExitRoundTrip(co, exits[0], schema);
      ExitsRoundTrip(co, exits[1..], schema);
      ExitsCons(exits, schema);
      ReadExitsCons(co, schema, ExitTree(exits[0], schema), ExitTrees(exits[1..], schema));
    } else {
      assert ExitTrees(exits, schema) == [] && NormalExits(exits, schema) == [];
    }
  }

  lemma WeightedRoundTrip(co: Coercion, w: Weighted)
    ensures Canonical(co.repr, WeightedTree(w)) && ReadWeighted(co, WeightedTree(w)) == Ok(w)
  {
    var fields := WeightedTree(w).fields;
    SortedCons(Field("fp", Str(w.fp)), [Field("weight", Int(w.weight))]);
    assert fields == [Field("fp", Str(w.fp))] + [Field("weight", Int(w.weight))];
    GetAt(fields, 0);
    GetAt(fields, 1);
  }

  lemma {:induction false} WeightedListRoundTrip(co: Coercion, ws: seq<Weighted>)
    ensures ReadWeightedList(co, WeightedTrees(ws)) == Ok(ws)
  {
    if ws != [] {
      WeightedRoundTrip(co, ws[0]);
      WeightedListRoundTrip(co, ws[1..]);
      assert WeightedTrees(ws)[1..] == WeightedTrees(ws[1..]);
      assert ws == [ws[0]] + ws[1..];
    }
  }

  lemma SortedThree(a: Field, b: Field, c: Field, rest: seq<Field>)
    requires Sorted(rest) && rest != [] && Less(a.key, b.key) && Less(b.key, c.key) && Less(c.key, rest[0].key)
    ensures Sorted([a, b, c] + rest)
  {
    SortedCons(c, rest);
    SortedCons(b, [c] + rest);
    SortedCons(a, [b] + ([c] + rest));
    assert [a, b, c] + rest == [a] + ([b] + ([c] + rest));
  }

  lemma TailSorted(p: Payload)
    ensures Sorted(TailFields(p))
  {
    var last := [Field("valid_until", Str(p.validUntil))];
    var rest := FingerprintFields(p) + last;
    if FingerprintFields(p) == [] {
      assert rest == last;
    } else {
      SortedCons(FingerprintFields(p)[0], last);
      assert FingerprintFields(p) == [FingerprintFields(p)[0]];
    }
    SortedCons(Field("signing_key_gen", Int(p.signingKeyGen)), rest);
  }

  lemma LinksSorted(p: Payload)
    ensures Sorted(LinkFields(p))
  {
    TailSorted(p);
    SortedThree(Field("next_signing_pubkey", p.nextPubkey), Field("previous_generation_hash", p.previousHash),
                Field("schema", Str(p.schema)), TailFields(p));
  }

  lemma HeadSorted(p: Payload)
    ensures Sorted(HeadFields(p))
  {
    LinksSorted(p);
    SortedThree(Field("eu_exit_set", Arr(ExitTrees(p.exits, p.schema))), Field("generation", Int(p.generation)),
                Field("issued_at", Str(p.issuedAt)), LinkFields(p));
  }

  lemma TreeSorted(p: Payload)
    ensures Sorted(Tree(p).fields)
  {
    HeadSorted(p);
    if DesyncFields(p) == [] {
      assert Tree(p).fields == HeadFields(p);
    } else {
      SortedCons(DesyncFields(p)[0], HeadFields(p));
      assert Tree(p).fields == [DesyncFields(p)[0]] + HeadFields(p);
    }
  }

  lemma TreeCanonical(repr: Repr, p: Payload)
    requires WellTyped(repr, p)
    ensures Canonical(repr, Tree(p))
  {
    TreeSorted(p);
    forall i | 0 <= i < |p.exits| ensures Canonical(repr, ExitTree(p.exits[i], p.schema)) {
      ExitShape(repr, p.exits[i], p.schema);
    }
    assert Canonical(repr, Arr(ExitTrees(p.exits, p.schema)));
    if FingerprintFields(p) != [] {
      var ws := Sort(p.fingerprints.value);
      forall i | 0 <= i < |ws| ensures Canonical(repr, WeightedTree(ws[i])) { WeightedShape(repr, ws[i]); }
      assert Canonical(repr, Arr(WeightedTrees(ws)));
    }
    AllCanonical(repr, p);
  }

  lemma WeightedShape(repr: Repr, w: Weighted)
    ensures Canonical(repr, WeightedTree(w))
  {
    SortedCons(Field("fp", Str(w.fp)), [Field("weight", Int(w.weight))]);
    assert WeightedTree(w).fields == [Field("fp", Str(w.fp))] + [Field("weight", Int(w.weight))];
  }

  lemma AllCanonical(repr: Repr, p: Payload)
    requires WellTyped(repr, p) && Canonical(repr, Arr(ExitTrees(p.exits, p.schema)))
    requires FingerprintFields(p) != [] ==> Canonical(repr, FingerprintFields(p)[0].value)
    ensures forall i :: 0 <= i < |Tree(p).fields| ==> Canonical(repr, Tree(p).fields[i].value)
  {
    var tail := TailFields(p);
    assert forall i :: 0 <= i < |tail| ==> Canonical(repr, tail[i].value);
    var links := LinkFields(p);
    assert forall i :: 0 <= i < |links| ==> Canonical(repr, links[i].value);
    var head := HeadFields(p);
    assert forall i :: 0 <= i < |head| ==> Canonical(repr, head[i].value);
  }

  // ---- looking the fields up again ----

  lemma GetFound(fields: seq<Field>, i: nat, f: Field)
    requires Sorted(fields) && i < |fields| && fields[i] == f
    ensures Get(fields, f.key) == Some(f.value)
  {
    GetAt(fields, i);
  }

  lemma HeadFound(p: Payload)
    ensures var fields := Tree(p).fields;
      && Get(fields, "eu_exit_set") == Some(Arr(ExitTrees(p.exits, p.schema)))
      && Get(fields, "generation") == Some(Int(p.generation))
      && Get(fields, "issued_at") == Some(Str(p.issuedAt))
  {
    var fields, d := Tree(p).fields, |DesyncFields(p)|;
    TreeSorted(p);
    GetFound(fields, d, Field("eu_exit_set", Arr(ExitTrees(p.exits, p.schema))));
    GetFound(fields, d + 1, Field("generation", Int(p.generation)));
    GetFound(fields, d + 2, Field("issued_at", Str(p.issuedAt)));
  }

  lemma LinksFound(p: Payload)
    ensures var fields := Tree(p).fields;
      && Get(fields, "next_signing_pubkey") == Some(p.nextPubkey)
      && Get(fields, "previous_generation_hash") == Some(p.previousHash)
      && Get(fields, "schema") == Some(Str(p.schema))
  {
    var fields, d := Tree(p).fields, |DesyncFields(p)|;
    TreeSorted(p);
    GetFound(fields, d + 3, Field("next_signing_pubkey", p.nextPubkey));
    GetFound(fields, d + 4, Field("previous_generation_hash", p.previousHash));
    GetFound(fields, d + 5, Field("schema", Str(p.schema)));
  }

  lemma TailFound(p: Payload)
    ensures var fields := Tree(p).fields;
      && Get(fields, "signing_key_gen") == Some(Int(p.signingKeyGen))
      && Get(fields, "valid_until") == Some(Str(p.validUntil))
  {
    var fields, d := Tree(p).fields, |DesyncFields(p)|;
    TreeSorted(p);
    GetFound(fields, d + 6, Field("signing_key_gen", Int(p.signingKeyGen)));
    GetFound(fields, |fields| - 1, Field("valid_until", Str(p.validUntil)));
  }

  /** Every key of the dictionary, with the two optional ones only when written. */
  lemma TreeKeys(p: Payload)
    ensures OnlyKnown(Tree(p).fields, KNOWN)
    ensures DesyncFields(p) == [] ==> forall i :: 0 <= i < |Tree(p).fields| ==>
      Tree(p).fields[i].key != "desync_strategy"
    ensures FingerprintFields(p) == [] ==> forall i :: 0 <= i < |Tree(p).fields| ==>
      Tree(p).fields[i].key != "tls_fingerprints"
  {
    var tail, links, head := TailFields(p), LinkFields(p), HeadFields(p);
    assert forall i :: 0 <= i < |tail| ==> tail[i].key in KNOWN && tail[i].key != "desync_strategy";
    assert forall i :: 0 <= i < |links| ==> links[i].key in KNOWN && links[i].key != "desync_strategy";
    assert forall i :: 0 <= i < |head| ==> head[i].key in KNOWN && head[i].key != "desync_strategy";
  }

  lemma OptionalFound(p: Payload)
    ensures var fields := Tree(p).fields;
      && Get(fields, "desync_strategy") == (if DesyncFields(p) == [] then None else Some(Str(p.desync.value)))
      && Get(fields, "tls_fingerprints") ==
           (if FingerprintFields(p) == [] then None else Some(Arr(WeightedTrees(Sort(p.fingerprints.value)))))
  {
    var fields := Tree(p).fields;
    TreeSorted(p);
    TreeKeys(p);
    if DesyncFields(p) == [] { GetAbsent(fields, "desync_strategy"); } else { GetFound(fields, 0, DesyncFields(p)[0]); }
    if FingerprintFields(p) == [] {
      GetAbsent(fields, "tls_fingerprints");
    } else {
      GetFound(fields, |fields| - 2, FingerprintFields(p)[0]);
    }
  }

  /** Fields that hold what a payload needs are read as its normal form. */
  lemma ReadFound(co: Coercion, fields: seq<Field>, p: Payload)
    requires Accepted(p.schema) && OnlyKnown(fields, KNOWN)
    requires Get(fields, "eu_exit_set") == Some(Arr(ExitTrees(p.exits, p.schema)))
    requires Get(fields, "generation") == Some(Int(p.generation)) && Get(fields, "issued_at") == Some(Str(p.issuedAt))
    requires Get(fields, "next_signing_pubkey") == Some(p.nextPubkey)
    requires Get(fields, "previous_generation_hash") == Some(p.previousHash)
    requires Get(fields, "schema") == Some(Str(p.schema))
    requires Get(fields, "signing_key_gen") == Some(Int(p.signingKeyGen))
    requires Get(fields, "valid_until") == Some(Str(p.validUntil))
    requires Get(fields, "desync_strategy") == match Normal(p).desync case Some(t) => Some(Str(t)) case None => None
    requires Get(fields, "tls_fingerprints").Some? ==> p.schema == V3
    requires ReadExits(co, p.schema, ExitTrees(p.exits, p.schema)) == Ok(NormalExits(p.exits, p.schema))
    requires ReadFingerprints(co, Get(fields, "tls_fingerprints")) == Ok(Normal(p).fingerprints)
    requires !HoldsLone(fields)
    ensures ReadFields(co, fields) == Ok(Normal(p))
  {
    RestFound(co, fields, p);
  }

  lemma RestFound(co: Coercion, fields: seq<Field>, p: Payload)
    requires Get(fields, "generation") == Some(Int(p.generation)) && Get(fields, "issued_at") == Some(Str(p.issuedAt))
    requires Get(fields, "next_signing_pubkey") == Some(p.nextPubkey)
    requires Get(fields, "previous_generation_hash") == Some(p.previousHash)
    requires Get(fields, "signing_key_gen") == Some(Int(p.signingKeyGen))
    requires Get(fields, "valid_until") == Some(Str(p.validUntil))
    requires !HoldsLone(fields)
    ensures ReadRest(co, fields, p.schema, NormalExits(p.exits, p.schema), Normal(p).fingerprints, Normal(p).desync)
      == Ok(Normal(p))
  {}

  lemma ExitHoldsNone(e: Exit, schema: string)
    ensures !LoneExit(ExitTree(e, schema))
  {
    ExitValues(e, schema);
    GetValue(ExitTree(e, schema).fields, "fingerprint");
    GetValue(ExitTree(e, schema).fields, "endpoint");
    GetValue(ExitTree(e, schema).fields, "cover_sni");
    GetValue(ExitTree(e, schema).fields, "reality_pubkey");
  }

  lemma ExitValues(e: Exit, schema: string)
    ensures forall f :: f in ExitTree(e, schema).fields ==> !f.value.Lone?
  {}

  lemma {:induction false} GetValue(fields: seq<Field>, key: string)
    ensures Get(fields, key).Some? ==> Field(key, Get(fields, key).value) in fields
  {
    if fields != [] { GetValue(fields[1..], key); }
  }

  lemma TreeHoldsNone(p: Payload)
    ensures !HoldsLone(Tree(p).fields)
  {
    HeadFound(p);
    LinksFound(p);
    TailFound(p);
    OptionalFound(p);
    var exits := ExitTrees(p.exits, p.schema);
    forall e | e in exits ensures !LoneExit(e) {
      var i :| 0 <= i < |exits| && exits[i] == e;
      ExitHoldsNone(p.exits[i], p.schema);
    }
    forall w | w in ListAt(Tree(p).fields, "tls_fingerprints") ensures !LoneWeighted(w) {
      var ws := Sort(p.fingerprints.value);
      var i :| 0 <= i < |ws| && WeightedTrees(ws)[i] == w;
      GetValue(w.fields, "fp");
    }
  }

  /** Reading the dictionary written for a payload gives its normal form. */
  lemma TreeRoundTrip(co: Coercion, p: Payload)
    requires Accepted(p.schema)
    ensures ReadJson(co, Tree(p)) == Ok(Normal(p))
  {
    TreeKeys(p);
    HeadFound(p);
    LinksFound(p);
    TailFound(p);
    OptionalFound(p);
    ExitsRoundTrip(co, p.exits, p.schema);
    FingerprintsRoundTrip(co, p);
    TreeHoldsNone(p);
    ReadFound(co, Tree(p).fields, p);
  }

  lemma FingerprintsRoundTrip(co: Coercion, p: Payload)
    ensures ReadFingerprints(co, if FingerprintFields(p) == [] then None else Some(FingerprintFields(p)[0].value))
            == Ok(Normal(p).fingerprints)
  {
    if FingerprintFields(p) != [] {
      var ws := Sort(p.fingerprints.value);
      SortOfSorted(p.fingerprints.value);
      WeightedListRoundTrip(co, ws);
      assert |WeightedTrees(ws)| > 0;
    }
  }

  /** Parsing the canonical bytes of a well-typed payload gives its normal form. */
  lemma RoundTrip(co: Coercion, p: Payload)
    requires WellTyped(co.repr, p)
    ensures CanonicalBytes(p).Bytes_? && FromCanonicalBytes(co, CanonicalBytes(p).bytes) == Ok(Normal(p))
  {
    Utf8.DecodeEncode(CanonicalText(p));
    TreeCanonical(co.repr, p);
    LoadsOfPrint(co.repr, Tree(p));
    TreeRoundTrip(co, p);
  }

  // ---- what is written and read back ----

  /** Which keys the dictionary has. */
  lemma KeysWritten(p: Payload, key: string)
    ensures Get(Tree(p).fields, key).Some? <==>
      || key in ["eu_exit_set", "generation", "issued_at", "next_signing_pubkey", "previous_generation_hash", "schema",
                 "signing_key_gen", "valid_until"]
      || (key == "desync_strategy" && p.schema == V3 && p.desync.Some? && p.desync.value != "")
      || (key == "tls_fingerprints" && p.schema == V3 && p.fingerprints.Some? && p.fingerprints.value != [])
  {
    HeadFound(p);
    LinksFound(p);
    TailFound(p);
    OptionalFound(p);
    TreeKeys(p);
    if key !in KNOWN { GetAbsent(Tree(p).fields, key); }
  }

  /** What the dictionary holds besides the two lists. */
  lemma TreeHolds(p: Payload)
    ensures var fields := Tree(p).fields;
      && Get(fields, "generation") == Some(Int(p.generation))
      && Get(fields, "signing_key_gen") == Some(Int(p.signingKeyGen))
      && Get(fields, "issued_at") == Some(Str(p.issuedAt)) && Get(fields, "valid_until") == Some(Str(p.validUntil))
      && Get(fields, "previous_generation_hash") == Some(p.previousHash)
      && Get(fields, "next_signing_pubkey") == Some(p.nextPubkey) && Get(fields, "schema") == Some(Str(p.schema))
      && Get(fields, "desync_strategy") ==
           if p.schema == V3 && p.desync.Some? && p.desync.value != "" then Some(Str(p.desync.value)) else None
  {
    HeadFound(p);
    LinksFound(p);
    TailFound(p);
    OptionalFound(p);
  }

  /** An exit as it is written; the first schema has only three of its fields. */
  ghost predicate ExitWritten(tree: Json, e: Exit, schema: string) {
    && tree.Obj? && |tree.fields| == (if schema == V1 then 3 else 5)
    && Get(tree.fields, "endpoint") == Some(Str(e.endpoint))
    && Get(tree.fields, "fingerprint") == Some(Str(e.fingerprint)) && Get(tree.fields, "weight") == Some(Int(e.weight))
    && (schema != V1 ==>
          && Get(tree.fields, "cover_sni") == Some(match e.coverSni case None => Null case Some(s) => Str(s))
          && Get(tree.fields, "reality_pubkey") == Some(match e.realityPubkey case None => Null case Some(s) => Str(s)))
  }

  /** The exits, in the order of the payload. */
  lemma ExitsWritten(repr: Repr, p: Payload)
    ensures var exits := Get(Tree(p).fields, "eu_exit_set");
      && exits.Some? && exits.value.Arr? && |exits.value.elems| == |p.exits|
      && forall i :: 0 <= i < |p.exits| ==> ExitWritten(exits.value.elems[i], p.exits[i], p.schema)
  {
    HeadFound(p);
    var trees := ExitTrees(p.exits, p.schema);
    forall i | 0 <= i < |p.exits| ensures ExitWritten(trees[i], p.exits[i], p.schema) {
      ExitFieldsFound(repr, p.exits[i], p.schema);
    }
  }

  /** The fingerprints are written for the third schema only, if there are any: each pair of the
      payload once, by name and then by weight. */
  lemma FingerprintsWritten(p: Payload) returns (ws: seq<Weighted>)
    ensures var found := Get(Tree(p).fields, "tls_fingerprints");
      && (found.Some? <==> p.schema == V3 && p.fingerprints.Some? && p.fingerprints.value != [])
      && (found.Some? ==>
            && found.value.Arr? && |found.value.elems| == |ws| && multiset(ws) == multiset(p.fingerprints.value)
            && forall i :: 0 <= i < |ws| ==>
                 found.value.elems[i] == Obj([Field("fp", Str(ws[i].fp)), Field("weight", Int(ws[i].weight))]))
    ensures forall i, j :: 0 <= i < j < |ws| ==>
      Less(ws[i].fp, ws[j].fp) || (ws[i].fp == ws[j].fp && ws[i].weight <= ws[j].weight)
  {
    OptionalFound(p);
    ws := [];
    if FingerprintFields(p) != [] {
      ws := Sort(p.fingerprints.value);
      SortedExactly(p.fingerprints.value, ws);
    }
  }

  /** What is read back from the canonical bytes, field by field. */
  lemma ReadBackHolds(co: Coercion, p: Payload) returns (q: Payload)
    requires WellTyped(co.repr, p)
    ensures CanonicalBytes(p).Bytes_? && FromCanonicalBytes(co, CanonicalBytes(p).bytes) == Ok(q)
    ensures q.generation == p.generation && q.signingKeyGen == p.signingKeyGen && q.schema == p.schema
    ensures q.issuedAt == p.issuedAt && q.validUntil == p.validUntil
    ensures q.previousHash == p.previousHash && q.nextPubkey == p.nextPubkey
    ensures |q.exits| == |p.exits| && forall i :: 0 <= i < |p.exits| ==>
      q.exits[i] == if p.schema == V1 then p.exits[i].(coverSni := None, realityPubkey := None) else p.exits[i]
    ensures q.desync == if p.schema == V3 && p.desync != Some("") then p.desync else None
    ensures q.fingerprints.Some? <==> p.schema == V3 && p.fingerprints.Some? && p.fingerprints.value != []
    ensures q.fingerprints.Some? ==>
      multiset(q.fingerprints.value) == multiset(p.fingerprints.value) && ByName(q.fingerprints.value)
  {
    RoundTrip(co, p);
    q := Normal(p);
    if q.fingerprints.Some? { SortedExactly(p.fingerprints.value, q.fingerprints.value); }
  }

  /** The normal form is written exactly like the payload. */
  lemma NormalSameTree(p: Payload)
    ensures Tree(Normal(p)) == Tree(p)
  {
    var q := Normal(p);
    assert ExitTrees(q.exits, q.schema) == ExitTrees(p.exits, p.schema);
    if FingerprintFields(p) != [] { SortOfSorted(p.fingerprints.value); }
  }

  /** Two well-typed payloads have the same canonical bytes exactly when they have the same
      normal form. */
  lemma SameBytesIffSameNormal(co: Coercion, p: Payload, q: Payload)
    requires WellTyped(co.repr, p) && WellTyped(co.repr, q)
    ensures CanonicalBytes(p) == CanonicalBytes(q) <==> Normal(p) == Normal(q)
  {
    RoundTrip(co, p);
    RoundTrip(co, q);
    NormalSameTree(p);
    NormalSameTree(q);
  }

  // ---- one text replaced by a lone surrogate ----

  lemma {:induction false} GetReplaced(fields: seq<Field>, i: nat, value: Json, key: string)
    requires Sorted(fields) && i < |fields|
    ensures Get(fields[i := Field(fields[i].key, value)], key) ==
      if key == fields[i].key then Some(value) else Get(fields, key)
  {
    var out := fields[i := Field(fields[i].key, value)];
    if i > 0 {
      assert out[1..] == fields[1..][i - 1 := Field(fields[i].key, value)];
      GetReplaced(fields[1..], i - 1, value, key);
      LessAsymmetric(fields[0].key, fields[i].key);
    } else {
      assert out[1..] == fields[1..];
    }
  }

  /** The place of "issued_at" in the dictionary. */
  function IssuedPlace(p: Payload): (i: nat)
    ensures 2 <= i < |Tree(p).fields| - 1 && Tree(p).fields[i] == Field("issued_at", Str(p.issuedAt))
  {
    |DesyncFields(p)| + 2
  }

  /** The canonical text of a payload, its time of issue replaced by a lone surrogate. */
  function LoneIssued(p: Payload): string {
    var fields, i := Tree(p).fields, IssuedPlace(p);
    LoneText(fields[..i], "issued_at", fields[i + 1..])
  }

  lemma LoneIssuedLoads(repr: Repr, p: Payload)
    requires WellTyped(repr, p)
    ensures var fields := Tree(p).fields[IssuedPlace(p) := Field("issued_at", Lone([0xD800]))];
      Loads(repr, LoneIssued(p)) == Value(Obj(fields))
  {
    TreeCanonical(repr, p);
    ReadLoneAt(repr, Tree(p).fields, IssuedPlace(p));
  }

  lemma LoneIssuedReads(co: Coercion, p: Payload)
    requires WellTyped(co.repr, p)
    ensures var fields := Tree(p).fields[IssuedPlace(p) := Field("issued_at", Lone([0xD800]))];
      Loads(co.repr, LoneIssued(p)) == Value(Obj(fields)) && ReadsAll(co, fields) && HoldsLone(fields)
  {
    LoneIssuedLoads(co.repr, p);
    TreeRoundTrip(co, p);
    TreeSorted(p);
    ReadsAllOfRead(co, Tree(p).fields);
    IssuedReplaced(co, Tree(p).fields, IssuedPlace(p), Lone([0xD800]));
  }

  lemma IssuedReplaced(co: Coercion, fields: seq<Field>, i: nat, value: Json)
    requires Sorted(fields) && i < |fields| && fields[i].key == "issued_at" && ReadsAll(co, fields)
    ensures ReadsAll(co, fields[i := Field("issued_at", value)])
    ensures value.Lone? ==> HoldsLone(fields[i := Field("issued_at", value)])
  {
    var out := fields[i := Field("issued_at", value)];
    forall key ensures Get(out, key) == if key == "issued_at" then Some(value) else Get(fields, key) {
      GetReplaced(fields, i, value, key);
    }
    assert OnlyKnown(out, KNOWN);
  }
}
