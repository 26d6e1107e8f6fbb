/** Ed25519 and SHA-256 as given functions, and the descriptor verifier over them. */
module Verify {
  import opened Prelude
  import opened Json
  import opened Text
  import P = Payload
  import Utf8

  type Bytes = Utf8.Bytes

  datatype Crypto = Crypto(pubOf: Bytes -> Bytes, sign: (Bytes, Bytes) -> Bytes,
                           check: (Bytes, Bytes, Bytes) -> bool, hash: Bytes -> string)

  /** Signatures by a private key check under its public key; hashes do not collide. */
  ghost predicate Sound(c: Crypto) {
    && (forall priv: Bytes, msg: Bytes :: |priv| == 32 ==>
          |c.pubOf(priv)| == 32 && |c.sign(priv, msg)| == 64 && c.check(c.pubOf(priv), msg, c.sign(priv, msg)))
    && (forall a: Bytes, b: Bytes :: c.hash(a) == c.hash(b) ==> a == b)
  }

  predicate EdVerify(c: Crypto, pub: Bytes, msg: Bytes, sig: Bytes) {
    |pub| == 32 && |sig| == 64 && c.check(pub, msg, sig)
  }

  datatype TrustedKey = TrustedKey(generation: int, pubkey: Bytes)

  /** The key map of the source: a later entry of the same generation replaces an earlier one. */
  function KeyFor(trusted: seq<TrustedKey>, generation: int): Option<Bytes>
    decreases |trusted|
  {
    if trusted == [] then None
    else
      var last := trusted[|trusted| - 1];
      if last.generation == generation then Some(last.pubkey)
      else KeyFor(trusted[..|trusted| - 1], generation)
  }

  /** The environment of the verifier: conversions, cryptography, the reader of timestamps, which
      gives seconds, or none where reading one or comparing it with the time raises, and whether so
      many hours can be added to one without leaving the calendar. */
  datatype Env = Env(co: P.Coercion, crypto: Crypto, time: string -> Option<int>, reaches: (string, int) -> bool)

  /** The end of the grace period, in seconds; none where computing it raises. */
  function Deadline(env: Env, validUntil: string, graceHours: int): Option<int> {
    match env.time(validUntil)
    case None => None
    case Some(t) => if env.reaches(validUntil, graceHours) then Some(t + graceHours * 3600) else None
  }

  datatype Reason =
    | Unparsed | NotCanonical | UnknownKey | BadSignature | Expired
    | GenesisLinked | LinkMissing | ChainBroken | NoPrior

  /** Escaped stands for an exception that is not a VerifyError. */
  datatype Verdict = Accepted(payload: P.Payload) | Refused(why: Reason) | Escaped

  function ChainCheck(p: P.Payload, prior: Option<string>): Option<Reason> {
    if p.generation == 1 then
      if p.previousHash != Null then Some(GenesisLinked) else None
    else if p.previousHash == Null then Some(LinkMissing)
    else if prior.None? then Some(NoPrior)
    else if p.previousHash != Str(prior.value) then Some(ChainBroken)
    else None
  }

  /** The checks that follow the parsing, in their order. */
  function Judge(env: Env, p: P.Payload, blob: Bytes, sig: Bytes, trusted: seq<TrustedKey>, now: int,
                 prior: Option<string>, graceHours: int): Verdict {
    if P.CanonicalBytes(p) != P.Bytes_(blob) then Refused(NotCanonical)
    else
      match KeyFor(trusted, p.signingKeyGen)
      case None => Refused(UnknownKey)
      case Some(pub) =>
        if !EdVerify(env.crypto, pub, blob, sig) then Refused(BadSignature)
        else
          match Deadline(env, p.validUntil, graceHours)
          case None => Escaped
          case Some(deadline) =>
            if now > deadline then Refused(Expired)
            else match ChainCheck(p, prior)
              case Some(why) => Refused(why)
              case None => Accepted(p)
  }

  function VerifyDescriptor(env: Env, blob: Bytes, sig: Bytes, trusted: seq<TrustedKey>, now: int,
                            prior: Option<string>, graceHours: int): Verdict {
    match P.FromCanonicalBytes(env.co, blob)
    case Ok(p) => Judge(env, p, blob, sig, trusted, now, prior, graceHours)
    case Err(e) => if e == P.ValueError || e == P.KeyError || e == P.TypeError then Refused(Unparsed) else Escaped
  }

  datatype Signed = Signed(blob: Bytes, sig: Bytes)

  datatype ChainVerdict = AllAccepted(payloads: seq<P.Payload>) | StoppedAt(index: nat, verdict: Verdict)

  /** The verdict on element k: its prior is the hash of the blob before it. */
  function VerdictAt(env: Env, ds: seq<Signed>, trusted: seq<TrustedKey>, now: int, k: nat): Verdict
    requires k < |ds|
  {
    VerifyDescriptor(env, ds[k].blob, ds[k].sig, trusted, now,
                     if k == 0 then None else Some(env.crypto.hash(ds[k - 1].blob)), 24)
  }

  /** The payloads are those of the first elements, all accepted. */
  ghost predicate AcceptedFirst(env: Env, ds: seq<Signed>, trusted: seq<TrustedKey>, now: int,
      payloads: seq<P.Payload>) {
    |payloads| <= |ds| && forall k :: 0 <= k < |payloads| ==>
      VerdictAt(env, ds, trusted, now, k) == Accepted(payloads[k])
  }

  lemma AcceptedOneMore(env: Env, ds: seq<Signed>, trusted: seq<TrustedKey>, now: int, payloads: seq<P.Payload>,
      p: P.Payload)
    requires AcceptedFirst(env, ds, trusted, now, payloads) && |payloads| < |ds|
    requires VerdictAt(env, ds, trusted, now, |payloads|) == Accepted(p)
    ensures AcceptedFirst(env, ds, trusted, now, payloads + [p])
  {
    var all := payloads + [p];
    forall k | 0 <= k < |all| ensures VerdictAt(env, ds, trusted, now, k) == Accepted(all[k]) {
      if k < |payloads| { assert all[k] == payloads[k]; }
    }
  }

  method VerifyChain(env: Env, ds: seq<Signed>, trusted: seq<TrustedKey>, now: int) returns (r: ChainVerdict)
    ensures r.AllAccepted? ==> |r.payloads| == |ds| && AcceptedFirst(env, ds, trusted, now, r.payloads)
    ensures r.StoppedAt? ==> r.index < |ds| && !r.verdict.Accepted?
                             && r.verdict == VerdictAt(env, ds, trusted, now, r.index)
    ensures r.StoppedAt? ==> exists ps :: |ps| == r.index && AcceptedFirst(env, ds, trusted, now, ps)
  {
    var results: seq<P.Payload> := [];
    var prior: Option<string> := None;
    for k := 0 to |ds|
      invariant prior == if k == 0 then None else Some(env.crypto.hash(ds[k - 1].blob))
      invariant |results| == k && AcceptedFirst(env, ds, trusted, now, results)
    {
      var v := VerifyDescriptor(env, ds[k].blob, ds[k].sig, trusted, now, prior, 24);
      assert v == VerdictAt(env, ds, trusted, now, k);
      if !v.Accepted? { return StoppedAt(k, v); }
      AcceptedOneMore(env, ds, trusted, now, results, v.payload);
      results := results + [v.payload];
      prior := Some(env.crypto.hash(ds[k].blob));
    }
    return AllAccepted(results);
  }

  ghost predicate ChainAccepted(env: Env, ds: seq<Signed>, trusted: seq<TrustedKey>, now: int) {
    forall k :: 0 <= k < |ds| ==> VerdictAt(env, ds, trusted, now, k).Accepted?
  }

  // ---- what acceptance means ----

  lemma {:induction false} GetIsOrdered(repr: Repr, fields: seq<Field>, key: string)
    requires forall i :: 0 <= i < |fields| ==> Ordered(repr, fields[i].value)
    ensures Get(fields, key).Some? ==> Ordered(repr, Get(fields, key).value)
  {
    if fields != [] { GetIsOrdered(repr, fields[1..], key); }
  }

  lemma ReadIsWellTyped(co: P.Coercion, fields: seq<Field>)
    requires Ordered(co.repr, Obj(fields)) && P.ReadFields(co, fields).Ok?
    ensures P.WellTyped(co.repr, P.ReadFields(co, fields).value)
  {
    GetIsOrdered(co.repr, fields, "previous_generation_hash");
    GetIsOrdered(co.repr, fields, "next_signing_pubkey");
  }

  lemma ParsedIsWellTyped(co: P.Coercion, blob: Bytes)
    requires P.FromCanonicalBytes(co, blob).Ok?
    ensures P.WellTyped(co.repr, P.FromCanonicalBytes(co, blob).value)
  {
    var text := Utf8.Decode(blob).value;
    LoadsIsOrdered(co.repr, text);
    ReadIsWellTyped(co, Loads(co.repr, text).json.fields);
  }

  /** An accepted blob is the canonical form of the payload returned, whatever str() and int()
      make of other types: no conversion took place. */
  lemma AcceptedIsNormal(env: Env, blob: Bytes, sig: Bytes, trusted: seq<TrustedKey>, now: int,
                         prior: Option<string>, graceHours: int, co: P.Coercion)
    requires VerifyDescriptor(env, blob, sig, trusted, now, prior, graceHours).Accepted? && co.repr == env.co.repr
    ensures var p := VerifyDescriptor(env, blob, sig, trusted, now, prior, graceHours).payload;
      && P.WellTyped(co.repr, p) && P.CanonicalBytes(p) == P.Bytes_(blob)
      && p == P.Normal(p)
      && P.FromCanonicalBytes(co, blob) == P.Ok(p)
  {
    var p := VerifyDescriptor(env, blob, sig, trusted, now, prior, graceHours).payload;
    ParsedIsWellTyped(env.co, blob);
    P.RoundTrip(env.co, p);
    P.RoundTrip(co, p);
  }

  /** The key found is that of the last entry of its generation. */
  lemma {:induction false} KeyForMeans(trusted: seq<TrustedKey>, generation: int, k: nat)
    requires k < |trusted| && trusted[k].generation == generation
    requires forall j :: k < j < |trusted| ==> trusted[j].generation != generation
    ensures KeyFor(trusted, generation) == Some(trusted[k].pubkey)
    decreases |trusted|
  {
    if k < |trusted| - 1 { KeyForMeans(trusted[..|trusted| - 1], generation, k); }
  }

  lemma {:induction false} KeyForFinds(trusted: seq<TrustedKey>, generation: int)
    ensures KeyFor(trusted, generation).Some? <==> exists k :: 0 <= k < |trusted| && trusted[k].generation == generation
    ensures KeyFor(trusted, generation).Some? ==> exists k :: LastOf(trusted, generation, k)
    decreases |trusted|
  {
    if trusted != [] {
      var n, front := |trusted| - 1, trusted[..|trusted| - 1];
      if trusted[n].generation == generation {
        assert LastOf(trusted, generation, n);
      } else {
        KeyForFinds(front, generation);
        if k :| LastOf(front, generation, k) { assert LastOf(trusted, generation, k); }
      }
    }
  }

  /** Entry k is the last of this generation. */
  ghost predicate LastOf(trusted: seq<TrustedKey>, generation: int, k: int) {
    0 <= k < |trusted| && trusted[k].generation == generation
    && forall j :: k < j < |trusted| ==> trusted[j].generation != generation
  }

  lemma BytesVerdict(env: Env, p: P.Payload, sig: Bytes, trusted: seq<TrustedKey>, now: int, prior: Option<string>,
                     graceHours: int)
    requires P.WellTyped(env.co.repr, p)
    ensures P.CanonicalBytes(p).Bytes_?
    ensures VerifyDescriptor(env, P.CanonicalBytes(p).bytes, sig, trusted, now, prior, graceHours)
      == Judge(env, P.Normal(p), P.CanonicalBytes(p).bytes, sig, trusted, now, prior, graceHours)
    ensures P.CanonicalBytes(P.Normal(p)) == P.CanonicalBytes(p)
  {
    P.RoundTrip(env.co, p);
    P.NormalSameTree(p);
  }

  /** The verdict on the canonical bytes of any payload, check by check: the key is that of the last
      trusted entry of its generation, the validity ends so many hours after the time written, the
      first generation has no link and every other one links to the prior hash. */
  lemma VerdictExactly(env: Env, p: P.Payload, sig: Bytes, trusted: seq<TrustedKey>, k: int, now: int,
                       prior: Option<string>, graceHours: int)
    requires P.WellTyped(env.co.repr, p)
    requires -1 <= k < |trusted| && (k >= 0 ==> trusted[k].generation == p.signingKeyGen)
    requires forall j :: k < j < |trusted| ==> trusted[j].generation != p.signingKeyGen
    ensures var blob := P.CanonicalBytes(p).bytes;
      VerifyDescriptor(env, blob, sig, trusted, now, prior, graceHours) ==
      if k < 0 then Refused(UnknownKey)
      else if |trusted[k].pubkey| != 32 || |sig| != 64 || !env.crypto.check(trusted[k].pubkey, blob, sig)
        then Refused(BadSignature)
      else if env.time(p.validUntil).None? || !env.reaches(p.validUntil, graceHours) then Escaped
      else if now > env.time(p.validUntil).value + graceHours * 3600 then Refused(Expired)
      else if p.generation == 1 && p.previousHash != Null then Refused(GenesisLinked)
      else if p.generation != 1 && p.previousHash == Null then Refused(LinkMissing)
      else if p.generation != 1 && prior == None then Refused(NoPrior)
      else if p.generation != 1 && p.previousHash != Str(prior.value) then Refused(ChainBroken)
      else Accepted(P.Normal(p))
  {
    BytesVerdict(env, p, sig, trusted, now, prior, graceHours);
    KeyForFinds(trusted, p.signingKeyGen);
    if k >= 0 { KeyForMeans(trusted, p.signingKeyGen, k); }
  }

  lemma JudgeAccepts(env: Env, p: P.Payload, blob: Bytes, sig: Bytes, trusted: seq<TrustedKey>, now: int,
                     prior: Option<string>, graceHours: int)
    requires P.CanonicalBytes(p) == P.Bytes_(blob)
    ensures var v, key := Judge(env, p, blob, sig, trusted, now, prior, graceHours), KeyFor(trusted, p.signingKeyGen);
      && (v.Accepted? ==> v.payload == p)
      && (v.Accepted? <==>
            && key.Some? && EdVerify(env.crypto, key.value, blob, sig)
            && env.time(p.validUntil).Some? && env.reaches(p.validUntil, graceHours)
            && now <= env.time(p.validUntil).value + graceHours * 3600
            && if p.generation == 1 then p.previousHash == Null
               else prior.Some? && p.previousHash == Str(prior.value))
  {}

  lemma AcceptsByKey(env: Env, p: P.Payload, sig: Bytes, trusted: seq<TrustedKey>, now: int,
                     prior: Option<string>, graceHours: int)
    requires P.WellTyped(env.co.repr, p)
    ensures var blob, key := P.CanonicalBytes(p).bytes, KeyFor(trusted, p.signingKeyGen);
      && VerifyDescriptor(env, blob, sig, trusted, now, prior, graceHours).Accepted? <==>
           && key.Some? && EdVerify(env.crypto, key.value, blob, sig)
           && env.time(p.validUntil).Some? && env.reaches(p.validUntil, graceHours)
           && now <= env.time(p.validUntil).value + graceHours * 3600
           && if p.generation == 1 then p.previousHash == Null
              else prior.Some? && p.previousHash == Str(prior.value)
    ensures var v := VerifyDescriptor(env, P.CanonicalBytes(p).bytes, sig, trusted, now, prior, graceHours);
      v.Accepted? ==> v.payload == P.Normal(p)
  {
    BytesVerdict(env, p, sig, trusted, now, prior, graceHours);
    JudgeAccepts(env, P.Normal(p), P.CanonicalBytes(p).bytes, sig, trusted, now, prior, graceHours);
  }

  lemma SignedExactly(c: Crypto, trusted: seq<TrustedKey>, generation: int, blob: Bytes, sig: Bytes)
    ensures KeyFor(trusted, generation).Some? && EdVerify(c, KeyFor(trusted, generation).value, blob, sig) <==>
      exists k :: 0 <= k < |trusted| && trusted[k].generation == generation
        && (forall j :: k < j < |trusted| ==> trusted[j].generation != generation)
        && |trusted[k].pubkey| == 32 && |sig| == 64 && c.check(trusted[k].pubkey, blob, sig)
  {
    KeyForFinds(trusted, generation);
    forall k | LastOf(trusted, generation, k) ensures KeyFor(trusted, generation) == Some(trusted[k].pubkey) {
      KeyForMeans(trusted, generation, k);
    }
    if KeyFor(trusted, generation).Some? {
      var k :| LastOf(trusted, generation, k);
      assert trusted[k].generation == generation;
    }
  }

  /** Exactly when the canonical bytes of a payload are accepted: signed under the last trusted key of
      the generation named, not later than so many hours after the time its validity ends, and
      rightly linked. */
  lemma AcceptsExactly(env: Env, p: P.Payload, sig: Bytes, trusted: seq<TrustedKey>, now: int,
                       prior: Option<string>, graceHours: int)
    requires P.WellTyped(env.co.repr, p)
    ensures var blob := P.CanonicalBytes(p).bytes;
      && VerifyDescriptor(env, blob, sig, trusted, now, prior, graceHours).Accepted? <==>
           && (exists k :: 0 <= k < |trusted| && trusted[k].generation == p.signingKeyGen
                 && (forall j :: k < j < |trusted| ==> trusted[j].generation != p.signingKeyGen)
                 && |trusted[k].pubkey| == 32 && |sig| == 64 && env.crypto.check(trusted[k].pubkey, blob, sig))
           && env.time(p.validUntil).Some? && env.reaches(p.validUntil, graceHours)
           && now <= env.time(p.validUntil).value + graceHours * 3600
           && if p.generation == 1 then p.previousHash == Null
              else prior.Some? && p.previousHash == Str(prior.value)
    ensures var v := VerifyDescriptor(env, P.CanonicalBytes(p).bytes, sig, trusted, now, prior, graceHours);
      v.Accepted? ==> v.payload == P.Normal(p)
  {
    AcceptsByKey(env, p, sig, trusted, now, prior, graceHours);
    SignedExactly(env.crypto, trusted, p.signingKeyGen, P.CanonicalBytes(p).bytes, sig);
  }

  // ---- when the documented VerifyError is not what the caller gets ----

  function TextOf(co: P.Coercion, blob: Bytes): Option<Json> {
    match Utf8.Decode(blob)
    case None => None
    case Some(text) => match Loads(co.repr, text) case Value(j) => Some(j) case Unreadable => None
  }

  /** The blob is the canonical form of a payload with a trusted key and its signature, for which
      the end of the grace period cannot be computed. */
  ghost predicate SignedWithoutTime(env: Env, blob: Bytes, sig: Bytes, trusted: seq<TrustedKey>, graceHours: int) {
    var r := P.FromCanonicalBytes(env.co, blob);
    r.Ok? && WithoutTime(env, r.value, blob, sig, trusted, graceHours)
  }

  ghost predicate WithoutTime(env: Env, p: P.Payload, blob: Bytes, sig: Bytes, trusted: seq<TrustedKey>,
                              graceHours: int) {
    && P.CanonicalBytes(p) == P.Bytes_(blob)
    && KeyFor(trusted, p.signingKeyGen).Some?
    && EdVerify(env.crypto, KeyFor(trusted, p.signingKeyGen).value, blob, sig)
    && (env.time(p.validUntil).None? || !env.reaches(p.validUntil, graceHours))
  }

  lemma ParseRaises(co: P.Coercion, blob: Bytes)
    ensures var r, t := P.FromCanonicalBytes(co, blob), TextOf(co, blob);
      && (r == P.Err(P.AttributeError) <==>
            t.Some? && (!t.value.IsDict() || (t.value.Obj? && P.BadExitSet(co, t.value.fields))))
      && (r == P.Err(P.OverflowError) <==> t.Some? && t.value.Obj? && P.MeetsInfinity(co, t.value.fields))
      && (r == P.Err(P.Unwritable) <==>
            t.Some? && t.value.Obj? && P.ReadsAll(co, t.value.fields) && P.HoldsLone(t.value.fields))
  {
    var t := TextOf(co, blob);
    if t.Some? && t.value.Obj? { P.FieldsRaise(co, t.value.fields); }
  }

  /** Exactly when another exception than VerifyError leaves the verifier, for a text within
      Python's limits on nesting and on the digits of a number: it is JSON but no dictionary; its
      exit set holds, before any other fault, an entry that is no dictionary; its first fault is an
      infinite number where a whole one belongs; all of it can be read but a text kept holds a lone
      surrogate; or all is well signed but the end of the grace period cannot be computed. */
  lemma EscapesExactly(env: Env, blob: Bytes, sig: Bytes, trusted: seq<TrustedKey>, now: int,
                       prior: Option<string>, graceHours: int)
    ensures VerifyDescriptor(env, blob, sig, trusted, now, prior, graceHours) == Escaped <==>
      var t := TextOf(env.co, blob);
      || (t.Some? && !t.value.IsDict())
      || (t.Some? && t.value.Obj? && P.BadExitSet(env.co, t.value.fields))
      || (t.Some? && t.value.Obj? && P.MeetsInfinity(env.co, t.value.fields))
      || (t.Some? && t.value.Obj? && P.ReadsAll(env.co, t.value.fields) && P.HoldsLone(t.value.fields))
      || SignedWithoutTime(env, blob, sig, trusted, graceHours)
  {
    ParseRaises(env.co, blob);
    EscapeCases(env, blob, sig, trusted, now, prior, graceHours);
  }

  lemma EscapeCases(env: Env, blob: Bytes, sig: Bytes, trusted: seq<TrustedKey>, now: int,
                    prior: Option<string>, graceHours: int)
    ensures VerifyDescriptor(env, blob, sig, trusted, now, prior, graceHours) == Escaped <==>
      var r := P.FromCanonicalBytes(env.co, blob);
      || r == P.Err(P.AttributeError) || r == P.Err(P.OverflowError) || r == P.Err(P.Unwritable)
      || SignedWithoutTime(env, blob, sig, trusted, graceHours)
  {
    var r := P.FromCanonicalBytes(env.co, blob);
    if r.Ok? { JudgeEscapes(env, r.value, blob, sig, trusted, now, prior, graceHours); }
  }

  lemma JudgeEscapes(env: Env, p: P.Payload, blob: Bytes, sig: Bytes, trusted: seq<TrustedKey>, now: int,
                     prior: Option<string>, graceHours: int)
    ensures Judge(env, p, blob, sig, trusted, now, prior, graceHours) == Escaped <==>
      WithoutTime(env, p, blob, sig, trusted, graceHours)
  {}

  lemma TextOfPrinted(co: P.Coercion, j: Json)
    requires Canonical(co.repr, j)
    ensures TextOf(co, Utf8.Encode(Print(j))) == Some(j)
  {
    Utf8.DecodeEncode(Print(j));
    LoadsOfPrint(co.repr, j);
  }

  /** The first class: any JSON that is no object. */
  lemma NonObjectEscapes(env: Env, j: Json, sig: Bytes, trusted: seq<TrustedKey>, now: int, prior: Option<string>,
      graceHours: int)
    requires Canonical(env.co.repr, j) && !j.Obj?
    ensures VerifyDescriptor(env, Utf8.Encode(Print(j)), sig, trusted, now, prior, graceHours) == Escaped
  {
    TextOfPrinted(env.co, j);
    EscapesExactly(env, Utf8.Encode(Print(j)), sig, trusted, now, prior, graceHours);
  }

  /** An object of two fields, the smaller key first. */
  lemma TwoFields(repr: Repr, a: Field, b: Field)
    requires Less(a.key, b.key) && Canonical(repr, a.value) && Canonical(repr, b.value)
    ensures Canonical(repr, Obj([a, b]))
    ensures Get([a, b], a.key) == Some(a.value) && Get([a, b], b.key) == Some(b.value)
  {
    P.SortedCons(a, [b]);
    assert [a] + [b] == [a, b];
    P.GetAt([a, b], 0);
    P.GetAt([a, b], 1);
  }

  /** The second class: the smallest such object. */
  lemma NullExitEscapes(env: Env, sig: Bytes, trusted: seq<TrustedKey>, now: int, prior: Option<string>,
      graceHours: int)
    ensures var j := Obj([Field("eu_exit_set", Arr([Null])), Field("schema", Str(P.V3))]);
      VerifyDescriptor(env, Utf8.Encode(Print(j)), sig, trusted, now, prior, graceHours) == Escaped
  {
    var fields := [Field("eu_exit_set", Arr([Null])), Field("schema", Str(P.V3))];
    NullExitIsBad(env.co, fields);
    TextOfPrinted(env.co, Obj(fields));
    EscapesExactly(env, Utf8.Encode(Print(Obj(fields))), sig, trusted, now, prior, graceHours);
  }

  lemma NullExitIsBad(co: P.Coercion, fields: seq<Field>)
    requires fields == [Field("eu_exit_set", Arr([Null])), Field("schema", Str(P.V3))]
    ensures Canonical(co.repr, Obj(fields)) && P.BadExitSet(co, fields)
  {
    TwoFields(co.repr, fields[0], fields[1]);
    P.GetAbsentHere(fields, "tls_fingerprints");
    P.GetAbsentHere(fields, "desync_strategy");
    var entries := [Null];
    assert P.Entries(Get(fields, "eu_exit_set")) == P.Ok(entries);
    assert !entries[0].IsDict() && P.AllOk(P.ExitResults(co, P.V3, entries)[..0]);
  }

  /** The third class: the smallest such object. */
  lemma InfiniteGenerationEscapes(env: Env, sig: Bytes, trusted: seq<TrustedKey>, now: int, prior: Option<string>,
      graceHours: int)
    ensures var j := Obj([Field("generation", Float("Infinity")), Field("schema", Str(P.V3))]);
      VerifyDescriptor(env, Utf8.Encode(Print(j)), sig, trusted, now, prior, graceHours) == Escaped
  {
    var fields := [Field("generation", Float("Infinity")), Field("schema", Str(P.V3))];
    InfiniteGenerationIsMet(env.co, fields);
    TextOfPrinted(env.co, Obj(fields));
    EscapesExactly(env, Utf8.Encode(Print(Obj(fields))), sig, trusted, now, prior, graceHours);
  }

  lemma InfiniteGenerationIsMet(co: P.Coercion, fields: seq<Field>)
    requires fields == [Field("generation", Float("Infinity")), Field("schema", Str(P.V3))]
    ensures Canonical(co.repr, Obj(fields)) && P.MeetsInfinity(co, fields)
  {
    TwoFields(co.repr, fields[0], fields[1]);
    P.GetAbsentHere(fields, "eu_exit_set");
    P.GetAbsentHere(fields, "tls_fingerprints");
    P.GetAbsentHere(fields, "desync_strategy");
  }

  /** The fourth class: the canonical text of any well-typed payload, its time of issue replaced by a
      lone surrogate. */
  lemma LoneIssuedEscapes(env: Env, p: P.Payload, sig: Bytes, trusted: seq<TrustedKey>, now: int,
                          prior: Option<string>, graceHours: int)
    requires P.WellTyped(env.co.repr, p)
    ensures VerifyDescriptor(env, Utf8.Encode(P.LoneIssued(p)), sig, trusted, now, prior, graceHours) == Escaped
  {
    P.LoneIssuedReads(env.co, p);
    Utf8.DecodeEncode(P.LoneIssued(p));
    EscapesExactly(env, Utf8.Encode(P.LoneIssued(p)), sig, trusted, now, prior, graceHours);
  }

  /** The last class: any well-typed payload, signed under a trusted key, whose grace period has no
      end that can be computed. */
  lemma NoTimeEscapes(env: Env, p: P.Payload, sig: Bytes, trusted: seq<TrustedKey>, now: int,
                      prior: Option<string>, graceHours: int)
    requires P.WellTyped(env.co.repr, p)
    requires env.time(p.validUntil).None? || !env.reaches(p.validUntil, graceHours)
    requires KeyFor(trusted, p.signingKeyGen).Some?
    requires EdVerify(env.crypto, KeyFor(trusted, p.signingKeyGen).value, P.CanonicalBytes(p).bytes, sig)
    ensures VerifyDescriptor(env, P.CanonicalBytes(p).bytes, sig, trusted, now, prior, graceHours) == Escaped
  {
    P.RoundTrip(env.co, p);
    P.NormalSameTree(p);
    EscapesExactly(env, P.CanonicalBytes(p).bytes, sig, trusted, now, prior, graceHours);
  }

  lemma AcceptedParses(env: Env, ds: seq<Signed>, trusted: seq<TrustedKey>, now: int, k: nat)
    requires ChainAccepted(env, ds, trusted, now) && k < |ds|
    ensures VerdictAt(env, ds, trusted, now, k).Accepted?
    ensures P.FromCanonicalBytes(env.co, ds[k].blob) == P.Ok(VerdictAt(env, ds, trusted, now, k).payload)
  {
    assert VerdictAt(env, ds, trusted, now, k).Accepted?;
  }

  /** An accepted chain starts at a generation-1 descriptor; every later element either is one
      too, without a back link, or links to the hash of the blob just before it. */
  lemma ChainShape(env: Env, ds: seq<Signed>, trusted: seq<TrustedKey>, now: int, k: nat)
    requires ChainAccepted(env, ds, trusted, now) && k < |ds|
    ensures VerdictAt(env, ds, trusted, now, k).Accepted?
    ensures var p := VerdictAt(env, ds, trusted, now, k).payload;
      if k > 0 && p.generation != 1 then p.previousHash == Str(env.crypto.hash(ds[k - 1].blob))
      else p.generation == 1 && p.previousHash == Null
  {
    assert VerdictAt(env, ds, trusted, now, k).Accepted?;
  }
}
