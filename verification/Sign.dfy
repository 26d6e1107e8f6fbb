/** The signer: it extends the stored descriptor history under the active signing key. */
module Sign {
  import opened Prelude
  import opened Json
  import opened Weights
  import opened Verify
  import P = Payload
  import Utf8

  datatype SigningKey = SigningKey(generation: int, priv: Bytes, pub: Bytes, retiredAt: Option<int>)

  /** A row of the history; rows are in order of generation. */
  datatype Row = Row(generation: int, text: string, signedAt: string, validUntil: string,
                     keyGeneration: int, signature: Bytes)

  datatype Db = Db(keys: seq<SigningKey>, history: seq<Row>)

  datatype Error = UnknownFingerprint | NoActiveKey | Placeholder | BadKeyLength | KeyExists

  datatype Result = Ok(db: Db) | Failed(error: Error)

  /** "PRIV-DESC-" */
  const PLACEHOLDER: Bytes := [80, 82, 73, 86, 45, 68, 69, 83, 67, 45]

  /** The key of greatest generation among those not retired. */
  function ActiveKey(keys: seq<SigningKey>): (k: Option<SigningKey>)
    ensures k.Some? ==> k.value in keys && k.value.retiredAt.None?
  {
    if keys == [] then None
    else
      var rest := ActiveKey(keys[1..]);
      if keys[0].retiredAt.Some? then rest
      else if rest.Some? && rest.value.generation >= keys[0].generation then rest
      else Some(keys[0])
  }

  function NextGeneration(history: seq<Row>): int {
    if history == [] then 1 else history[|history| - 1].generation + 1
  }

  function BlobOf(r: Row): Bytes { Utf8.Encode(r.text) }

  /** What one signing takes from its caller and from the tables it only reads. */
  datatype Input = Input(now: string, validUntil: string, nextPubkey: Option<string>,
                         fingerprints: Option<seq<Weighted>>, exits: seq<P.Exit>, desync: Option<string>)

  function NewPayload(c: Crypto, db: Db, key: SigningKey, input: Input): P.Payload {
    var n := |db.history|;
    P.Payload(NextGeneration(db.history), key.generation, input.now, input.validUntil, input.exits,
              if n == 0 then Null else Str(c.hash(BlobOf(db.history[n - 1]))),
              P.OrNull(input.nextPubkey), P.V3, input.fingerprints, input.desync)
  }

  predicate FingerprintsKnown(fps: Option<seq<Weighted>>) {
    fps.Some? ==> forall i :: 0 <= i < |fps.value| ==> fps.value[i].fp in P.KNOWN_FINGERPRINTS
  }

  function NewRow(c: Crypto, db: Db, key: SigningKey, input: Input): Row {
    var p := NewPayload(c, db, key, input);
    Row(p.generation, P.CanonicalText(p), input.now, input.validUntil, key.generation,
        c.sign(key.priv, Utf8.Encode(P.CanonicalText(p))))
  }

  function SignNew(c: Crypto, db: Db, input: Input): Result {
    if !FingerprintsKnown(input.fingerprints) then Failed(UnknownFingerprint)
    else
      var key := ActiveKey(db.keys);
      if key.None? then Failed(NoActiveKey)
      else if PLACEHOLDER <= key.value.priv then Failed(Placeholder)
      else if |key.value.priv| != 32 then Failed(BadKeyLength)
      else Ok(db.(history := db.history + [NewRow(c, db, key.value, input)]))
  }

  predicate HasGeneration(keys: seq<SigningKey>, generation: int) {
    exists i :: 0 <= i < |keys| && keys[i].generation == generation
  }

  function Retire(keys: seq<SigningKey>, generation: int, at: int): (out: seq<SigningKey>)
    ensures |out| == |keys|
  {
    seq(|keys|, i requires 0 <= i < |keys| =>
      if keys[i].generation == generation && keys[i].retiredAt.None? then keys[i].(retiredAt := Some(at)) else keys[i])
  }

  /** The key tables after a rotation: the active key outgoing, its successor inserted. */
  function RotateKeys(c: Crypto, db: Db, newPriv: Bytes, outgoingAt: int): Result {
    var key := ActiveKey(db.keys);
    if key.None? then Failed(NoActiveKey)
    else
      var cur := key.value.generation;
      if HasGeneration(db.keys, cur + 1) then Failed(KeyExists)
      else Ok(db.(keys := Retire(db.keys, cur, outgoingAt) + [SigningKey(cur + 1, newPriv, c.pubOf(newPriv), None)]))
  }

  /** A rotation commits the keys first and then signs; a failed signing leaves the new key. */
  function Rotate(c: Crypto, db: Db, newPriv: Bytes, outgoingAt: int, input: Input): Db {
    match RotateKeys(c, db, newPriv, outgoingAt)
    case Failed(_) => db
    case Ok(db1) => match SignNew(c, db1, input) case Ok(db2) => db2 case Failed(_) => db1
  }

  class Signer {
    var keys: seq<SigningKey>
    var history: seq<Row>

    function Contents(): Db reads this { Db(keys, history) }

    method SignNewDescriptor(c: Crypto, input: Input) returns (error: Option<Error>)
      modifies this
      ensures match SignNew(c, old(Contents()), input)
        case Ok(db) => error == None && Contents() == db
        case Failed(e) => error == Some(e) && Contents() == old(Contents())
    {
      if input.fingerprints.Some? {
        var fps := input.fingerprints.value;
        for i := 0 to |fps|
          invariant forall k :: 0 <= k < i ==> fps[k].fp in P.KNOWN_FINGERPRINTS
        {
          if fps[i].fp !in P.KNOWN_FINGERPRINTS { return Some(UnknownFingerprint); }
        }
      }
      var active := ActiveKey(keys);
      if active.None? { return Some(NoActiveKey); }
      var key := active.value;
      if PLACEHOLDER <= key.priv { return Some(Placeholder); }
      if |key.priv| != 32 { return Some(BadKeyLength); }
      var prior: P.Link := Null;
      if history != [] { prior := Str(c.hash(BlobOf(history[|history| - 1]))); }
      var p := P.Payload(NextGeneration(history), key.generation, input.now, input.validUntil, input.exits,
                         prior, P.OrNull(input.nextPubkey), P.V3, input.fingerprints, input.desync);
      var text := P.CanonicalText(p);
      var sig := c.sign(key.priv, Utf8.Encode(text));
      history := history + [Row(p.generation, text, input.now, input.validUntil, key.generation, sig)];
      return None;
    }
  }

  // ---- runs ----

  datatype Op = SignOp(input: Input) | RotateOp(newPriv: Bytes, outgoingAt: int, input: Input)

  function Apply(c: Crypto, db: Db, op: Op): Db {
    match op
    case SignOp(input) => (match SignNew(c, db, input) case Ok(db') => db' case Failed(_) => db)
    case RotateOp(newPriv, at, input) => if |newPriv| == 32 then Rotate(c, db, newPriv, at, input) else db
  }

  function ApplyAll(c: Crypto, db: Db, ops: seq<Op>): Db
    decreases |ops|
  {
    if ops == [] then db else ApplyAll(c, Apply(c, db, ops[0]), ops[1..])
  }

  /** Keys a controller starts from: one generation each, every real private key with its public
      key. */
  ghost predicate KeysValid(c: Crypto, keys: seq<SigningKey>) {
    && (forall i, j :: 0 <= i < j < |keys| ==> keys[i].generation != keys[j].generation)
    && (forall i :: 0 <= i < |keys| && |keys[i].priv| == 32 ==> keys[i].pub == c.pubOf(keys[i].priv))
  }

  /** The row was signed by the key of that generation of the table, whose public half is pub. */
  ghost predicate SignedBy(c: Crypto, keys: seq<SigningKey>, r: Row, pub: Bytes) {
    exists k :: 0 <= k < |keys| && SignedByKey(c, keys[k], r, pub)
  }

  ghost predicate SignedByKey(c: Crypto, key: SigningKey, r: Row, pub: Bytes) {
    key.generation == r.keyGeneration && key.pub == pub && |key.priv| == 32
    && pub == c.pubOf(key.priv) && r.signature == c.sign(key.priv, BlobOf(r))
  }

  /** Row i is the canonical text of a payload of generation i + 1 that links to row i - 1. */
  ghost predicate RowOf(c: Crypto, history: seq<Row>, i: nat, p: P.Payload)
    requires i < |history|
  {
    var r := history[i];
    && P.PlainLinks(p) && p.schema == P.V3 && FingerprintsKnown(p.fingerprints) && r.text == P.CanonicalText(p)
    && p == P.Normal(p)
    && p.generation == i + 1 == r.generation && p.signingKeyGen == r.keyGeneration && p.validUntil == r.validUntil
    && p.previousHash == if i == 0 then Null else Str(c.hash(BlobOf(history[i - 1])))
  }

  ghost predicate Formed(c: Crypto, history: seq<Row>, i: nat)
    requires i < |history|
  {
    exists p :: RowOf(c, history, i, p)
  }

  ghost predicate Attested(c: Crypto, keys: seq<SigningKey>, r: Row) {
    exists pub :: SignedBy(c, keys, r, pub)
  }

  ghost predicate HistoryValid(c: Crypto, db: Db) {
    && (forall i :: 0 <= i < |db.history| ==> Formed(c, db.history, i))
    && (forall i :: 0 <= i < |db.history| ==> Attested(c, db.keys, db.history[i]))
  }

  ghost predicate Inv(c: Crypto, db: Db) { KeysValid(c, db.keys) && HistoryValid(c, db) }

  /** Retiring keys and adding new ones leaves every signed row attested. */
  lemma AttestedKept(c: Crypto, keys: seq<SigningKey>, keys': seq<SigningKey>, r: Row)
    requires Attested(c, keys, r) && |keys'| >= |keys|
    requires forall k :: 0 <= k < |keys| ==>
      keys'[k].generation == keys[k].generation && keys'[k].priv == keys[k].priv && keys'[k].pub == keys[k].pub
    ensures Attested(c, keys', r)
  {
    var pub :| SignedBy(c, keys, r, pub);
    var k :| 0 <= k < |keys| && SignedByKey(c, keys[k], r, pub);
    assert SignedByKey(c, keys'[k], r, pub);
    assert SignedBy(c, keys', r, pub);
  }

  lemma RotateKeysKeeps(c: Crypto, db: Db, newPriv: Bytes, at: int)
    requires Inv(c, db) && |newPriv| == 32 && RotateKeys(c, db, newPriv, at).Ok?
    ensures Inv(c, RotateKeys(c, db, newPriv, at).db)
  {
    var db' := RotateKeys(c, db, newPriv, at).db;
    var cur := ActiveKey(db.keys).value.generation;
    forall i | 0 <= i < |db.keys| ensures db.keys[i].generation != cur + 1 {}
    forall i | 0 <= i < |db.history| ensures Attested(c, db'.keys, db'.history[i]) {
      AttestedKept(c, db.keys, db'.keys, db.history[i]);
    }
  }

  lemma HistoryExtends(c: Crypto, db: Db, r: Row)
    requires Inv(c, db) && Formed(c, db.history + [r], |db.history|) && Attested(c, db.keys, r)
    ensures Inv(c, db.(history := db.history + [r]))
  {
    var h := db.history + [r];
    forall i | 0 <= i < |h| ensures Formed(c, h, i) {
      if i < |db.history| { FormedKept(c, db.history, r, i); }
    }
  }

  lemma SignKeeps(c: Crypto, db: Db, input: Input)
    requires Inv(c, db) && SignNew(c, db, input).Ok?
    ensures Inv(c, SignNew(c, db, input).db)
  {
    var key := ActiveKey(db.keys).value;
    NewRowValid(c, db, key, input);
    HistoryExtends(c, db, NewRow(c, db, key, input));
  }

  lemma FormedKept(c: Crypto, history: seq<Row>, r: Row, i: nat)
    requires i < |history| && Formed(c, history, i)
    ensures Formed(c, history + [r], i)
  {
    var p :| RowOf(c, history, i, p);
    assert RowOf(c, history + [r], i, p);
  }

  lemma NewRowValid(c: Crypto, db: Db, key: SigningKey, input: Input)
    requires Inv(c, db) && key in db.keys && |key.priv| == 32 && FingerprintsKnown(input.fingerprints)
    ensures var h := db.history + [NewRow(c, db, key, input)];
      Formed(c, h, |db.history|) && Attested(c, db.keys, h[|db.history|])
  {
    NewRowFormed(c, db, key, input);
    var r := NewRow(c, db, key, input);
    var k :| 0 <= k < |db.keys| && db.keys[k] == key;
    assert SignedByKey(c, db.keys[k], r, key.pub);
    assert SignedBy(c, db.keys, r, key.pub);
  }

  lemma NewPayloadNormal(c: Crypto, db: Db, key: SigningKey, input: Input)
    requires FingerprintsKnown(input.fingerprints)
    ensures var p := NewPayload(c, db, key, input);
      var q := P.Normal(p);
      && P.PlainLinks(q) && FingerprintsKnown(q.fingerprints) && P.CanonicalText(p) == P.CanonicalText(q)
      && q == P.Normal(q)
  {
    var p := NewPayload(c, db, key, input);
    P.NormalSameTree(p);
    NormalIsNormal(p);
    NormalKnown(p);
  }

  lemma NewRowFormed(c: Crypto, db: Db, key: SigningKey, input: Input)
    requires Inv(c, db) && FingerprintsKnown(input.fingerprints)
    ensures Formed(c, db.history + [NewRow(c, db, key, input)], |db.history|)
  {
    var p := NewPayload(c, db, key, input);
    NewPayloadNormal(c, db, key, input);
    if db.history != [] {
      assert Formed(c, db.history, |db.history| - 1);
    }
    assert RowOf(c, db.history + [NewRow(c, db, key, input)], |db.history|, P.Normal(p));
  }

  lemma NormalKnown(p: P.Payload)
    requires FingerprintsKnown(p.fingerprints)
    ensures FingerprintsKnown(P.Normal(p).fingerprints)
  {
    if P.Normal(p).fingerprints.Some? {
      var ws, sorted := p.fingerprints.value, Sort(p.fingerprints.value);
      SortSorts(ws);
      forall i | 0 <= i < |sorted| ensures sorted[i].fp in P.KNOWN_FINGERPRINTS { assert sorted[i] in multiset(ws); }
    }
  }

  lemma NormalIsNormal(p: P.Payload)
    ensures P.Normal(P.Normal(p)) == P.Normal(p)
  {
    var q := P.Normal(p);
    assert P.NormalExits(q.exits, q.schema) == q.exits;
    if q.fingerprints.Some? { SortOfSorted(p.fingerprints.value); }
  }

  lemma {:induction false} RunKeeps(c: Crypto, db: Db, ops: seq<Op>)
    requires Inv(c, db)
    ensures Inv(c, ApplyAll(c, db, ops))
    decreases |ops|
  {
    if ops != [] {
      ApplyKeeps(c, db, ops[0]);
      RunKeeps(c, Apply(c, db, ops[0]), ops[1..]);
    }
  }

  lemma ApplyKeeps(c: Crypto, db: Db, op: Op)
    requires Inv(c, db)
    ensures Inv(c, Apply(c, db, op))
  {
    match op
    case SignOp(input) => if SignNew(c, db, input).Ok? { SignKeeps(c, db, input); }
    case RotateOp(newPriv, at, input) =>
      if |newPriv| == 32 && RotateKeys(c, db, newPriv, at).Ok? {
        var db1 := RotateKeys(c, db, newPriv, at).db;
        RotateKeysKeeps(c, db, newPriv, at);
        if SignNew(c, db1, input).Ok? { SignKeeps(c, db1, input); }
      }
  }

  // ---- what a signed row says ----

  /** A payload that says what the signing was given: the exits as they are, the fingerprints by name
      and then by weight, an empty list or an empty strategy left out. */
  ghost predicate HoldsInput(q: P.Payload, input: Input) {
    && q.exits == input.exits && q.issuedAt == input.now && q.validUntil == input.validUntil
    && q.schema == "mthydra.descriptor.v3"
    && q.nextPubkey == (match input.nextPubkey case None => Null case Some(k) => Str(k))
    && q.desync == (if input.desync == Some("") then None else input.desync)
    && (q.fingerprints.Some? <==> input.fingerprints.Some? && input.fingerprints.value != [])
    && (q.fingerprints.Some? ==>
          multiset(q.fingerprints.value) == multiset(input.fingerprints.value) && ByName(q.fingerprints.value))
  }

  lemma NewRowHolds(c: Crypto, co: P.Coercion, db: Db, key: SigningKey, input: Input) returns (q: P.Payload)
    ensures P.FromCanonicalBytes(co, Utf8.Encode(NewRow(c, db, key, input).text)) == P.Ok(q)
    ensures HoldsInput(q, input) && q.signingKeyGen == key.generation && q.generation == NextGeneration(db.history)
    ensures var h := db.history;
      q.previousHash == if h == [] then Null else Str(c.hash(Utf8.Encode(h[|h| - 1].text)))
  {
    var p := NewPayload(c, db, key, input);
    q := P.ReadBackHolds(co, p);
    assert q.exits == input.exits;
  }

  /** A signing that succeeds changes nothing but the history, and adds one row to that. Its blob reads
      as a payload of the next generation that holds what the signing was given, names the newest
      active key and links to the row before; the row is signed with that key. */
  lemma SignedHoldsInput(c: Crypto, co: P.Coercion, db: Db, input: Input) returns (q: P.Payload)
    requires SignNew(c, db, input).Ok?
    ensures var h, after := db.history, SignNew(c, db, input).db;
      && after.keys == db.keys && |after.history| == |h| + 1 && after.history[..|h|] == h
      && var r := after.history[|h|];
        && P.FromCanonicalBytes(co, Utf8.Encode(r.text)) == P.Ok(q) && HoldsInput(q, input)
        && q.generation == r.generation == (if h == [] then 1 else h[|h| - 1].generation + 1)
        && q.previousHash == (if h == [] then Null else Str(c.hash(Utf8.Encode(h[|h| - 1].text))))
        && r.signedAt == input.now && r.validUntil == input.validUntil && r.keyGeneration == q.signingKeyGen
        && exists key :: key in db.keys && key.retiredAt.None? && |key.priv| == 32
             && key.generation == q.signingKeyGen && r.signature == c.sign(key.priv, Utf8.Encode(r.text))
             && forall i :: 0 <= i < |db.keys| && db.keys[i].retiredAt.None? ==> db.keys[i].generation <= key.generation
  {
    var key := ActiveKey(db.keys).value;
    ActiveKeyIsNewest(db.keys);
    q := NewRowHolds(c, co, db, key, input);
    var h' := SignNew(c, db, input).db.history;
    assert h' == db.history + [NewRow(c, db, key, input)];
  }

  lemma {:induction false} AsciiEncodes(s: string)
    requires forall i :: 0 <= i < |s| ==> s[i] as int < 0x80
    ensures |Utf8.Encode(s)| == |s| && forall i :: 0 <= i < |s| ==> Utf8.Encode(s)[i] == s[i] as int
  {
    if s != [] { AsciiEncodes(s[1..]); }
  }

  lemma PlaceholderText(s: string)
    requires s == "PRIV-DESC-"
    ensures Utf8.Encode(s) == PLACEHOLDER
  {
    AsciiEncodes(s);
  }

  /** The ten names of fingerprints. */
  ghost predicate Known(fp: string) {
    fp in {"chrome", "firefox", "safari", "ios", "android", "edge", "360", "qq", "random", "randomized"}
  }

  lemma KnownExactly(fps: Option<seq<Weighted>>)
    ensures FingerprintsKnown(fps) <==> !(fps.Some? && exists w :: w in fps.value && !Known(w.fp))
  {
    if !FingerprintsKnown(fps) {
      var i :| 0 <= i < |fps.value| && fps.value[i].fp !in P.KNOWN_FINGERPRINTS;
      assert fps.value[i] in fps.value;
    }
  }

  /** What a signing answers: the fingerprints are checked before the keys, and the newest active key
      must be a real one, of 32 bytes. */
  lemma SignAnswers(c: Crypto, db: Db, input: Input, k: int, placeholder: string)
    requires placeholder == "PRIV-DESC-"
    requires -1 <= k < |db.keys| && (k >= 0 ==> db.keys[k].retiredAt.None?)
    requires forall i :: 0 <= i < |db.keys| && i != k && db.keys[i].retiredAt.None? ==>
      k >= 0 && db.keys[i].generation < db.keys[k].generation
    ensures var fps, answer := input.fingerprints, SignNew(c, db, input);
      if fps.Some? && exists w :: w in fps.value && !Known(w.fp) then answer == Failed(UnknownFingerprint)
      else if k < 0 then answer == Failed(NoActiveKey)
      else if Utf8.Encode(placeholder) <= db.keys[k].priv then answer == Failed(Placeholder)
      else if |db.keys[k].priv| != 32 then answer == Failed(BadKeyLength)
      else answer.Ok?
  {
    KnownExactly(input.fingerprints);
    ActiveKeyIsNewest(db.keys);
    PlaceholderText(placeholder);
    if k >= 0 { assert ActiveKey(db.keys).value == db.keys[k]; }
  }

  /** An operation adds at most one row, and what it adds holds its input. */
  lemma AppliedHolds(c: Crypto, co: P.Coercion, db: Db, op: Op) returns (q: P.Payload)
    ensures var h, after := db.history, Apply(c, db, op).history;
      && h <= after && |after| <= |h| + 1
      && (|after| > |h| ==>
            P.FromCanonicalBytes(co, Utf8.Encode(after[|h|].text)) == P.Ok(q) && HoldsInput(q, op.input))
  {
    var db1 := if op.RotateOp? && RotateKeys(c, db, op.newPriv, op.outgoingAt).Ok?
               then RotateKeys(c, db, op.newPriv, op.outgoingAt).db else db;
    if SignNew(c, db1, op.input).Ok? {
      q := SignedHoldsInput(c, co, db1, op.input);
    } else {
      q := *;
    }
  }

  lemma {:induction false} HistoryGrows(c: Crypto, db: Db, ops: seq<Op>, co: P.Coercion)
    ensures db.history <= ApplyAll(c, db, ops).history
    decreases |ops|
  {
    if ops != [] {
      var q := AppliedHolds(c, co, db, ops[0]);
      HistoryGrows(c, Apply(c, db, ops[0]), ops[1..], co);
    }
  }

  lemma {:induction false} ApplyConcat(c: Crypto, db: Db, first: seq<Op>, second: seq<Op>)
    ensures ApplyAll(c, db, first + second) == ApplyAll(c, ApplyAll(c, db, first), second)
    decreases |first|
  {
    if first == [] {
      assert first + second == second;
    } else {
      assert (first + second)[1..] == first[1..] + second && (first + second)[0] == first[0];
      ApplyConcat(c, Apply(c, db, first[0]), first[1..], second);
    }
  }

  /** The row an operation added stays in the history of every longer run, where it was. */
  lemma RowStays(c: Crypto, co: P.Coercion, db: Db, before: seq<Op>, op: Op, later: seq<Op>) returns (q: P.Payload)
    requires |Apply(c, ApplyAll(c, db, before), op).history| > |ApplyAll(c, db, before).history|
    ensures var i, h := |ApplyAll(c, db, before).history|, ApplyAll(c, db, before + [op] + later).history;
      && i < |h| && P.FromCanonicalBytes(co, Utf8.Encode(h[i].text)) == P.Ok(q) && HoldsInput(q, op.input)
  {
    var db1 := ApplyAll(c, db, before);
    q := AppliedHolds(c, co, db1, op);
    HistoryGrows(c, Apply(c, db1, op), later, co);
    ApplyConcat(c, db, before, [op] + later);
    assert before + [op] + later == before + ([op] + later) && ([op] + later)[1..] == later;
  }

  // ---- which key is active ----

  /** The active key is the newest of those not retired. */
  lemma {:induction false} ActiveKeyIsNewest(keys: seq<SigningKey>)
    ensures ActiveKey(keys) == None <==> forall i :: 0 <= i < |keys| ==> keys[i].retiredAt.Some?
    ensures ActiveKey(keys).Some? ==>
      forall i :: 0 <= i < |keys| && keys[i].retiredAt.None? ==> keys[i].generation <= ActiveKey(keys).value.generation
  {
    if keys != [] { ActiveKeyIsNewest(keys[1..]); }
  }

  /** A rotation replaces the active key by a new one, one generation on: the outgoing key is retired at
      the given time, every other key stays as it is, and the keys are kept whether or not the signing
      that follows succeeds. It is refused without an active key, or if the next generation exists. */
  lemma RotationActivates(c: Crypto, db: Db, newPriv: Bytes, at: int, input: Input)
    requires KeysValid(c, db.keys)
    ensures var active, tx, n := ActiveKey(db.keys), RotateKeys(c, db, newPriv, at), |db.keys|;
      if active.None? then tx == Failed(NoActiveKey)
      else if exists i :: 0 <= i < n && db.keys[i].generation == active.value.generation + 1
        then tx == Failed(KeyExists)
      else
        && tx.Ok? && tx.db.history == db.history && |tx.db.keys| == n + 1
        && (forall i :: 0 <= i < n ==>
              tx.db.keys[i] == if db.keys[i] == active.value then db.keys[i].(retiredAt := Some(at)) else db.keys[i])
        && tx.db.keys[n] == SigningKey(active.value.generation + 1, newPriv, c.pubOf(newPriv), None)
        && ActiveKey(tx.db.keys) == Some(tx.db.keys[n])
        && Rotate(c, db, newPriv, at, input).keys == tx.db.keys
    ensures RotateKeys(c, db, newPriv, at).Failed? ==> Rotate(c, db, newPriv, at, input) == db
  {
    if RotateKeys(c, db, newPriv, at).Ok? { RotatedKeys(c, db, newPriv, at); }
  }

  lemma RotatedKeys(c: Crypto, db: Db, newPriv: Bytes, at: int)
    requires KeysValid(c, db.keys) && RotateKeys(c, db, newPriv, at).Ok?
    ensures var before, keys, n := ActiveKey(db.keys).value, RotateKeys(c, db, newPriv, at).db.keys, |db.keys|;
      && |keys| == n + 1 && ActiveKey(keys) == Some(keys[n])
      && (forall i :: 0 <= i < n ==>
            keys[i] == if db.keys[i] == before then db.keys[i].(retiredAt := Some(at)) else db.keys[i])
  {
    var before, keys := ActiveKey(db.keys).value, RotateKeys(c, db, newPriv, at).db.keys;
    var n := |db.keys|;
    ActiveKeyIsNewest(db.keys);
    ActiveKeyIsNewest(keys);
    assert keys[n].retiredAt.None? && keys[n].generation == before.generation + 1;
    var k :| 0 <= k < n && db.keys[k] == before;
    forall i | 0 <= i < n
      ensures keys[i] == if db.keys[i] == before then db.keys[i].(retiredAt := Some(at)) else db.keys[i]
      ensures keys[i].retiredAt.None? ==> keys[i].generation < before.generation + 1
    {
      if i != k { assert db.keys[i].generation != before.generation; }
    }
  }
}
