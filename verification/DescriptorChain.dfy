/** Signer and verifier together: what is signed is accepted, and what is accepted as a chain
    was signed as one. */
module DescriptorChain {
  import opened Prelude
  import opened Json
  import opened Verify
  import opened Sign
  import P = Payload
  import Utf8

  /** The public key of a generation of the key table. */
  ghost predicate KeyOf(keys: seq<SigningKey>, generation: int, pub: Bytes) {
    exists k :: 0 <= k < |keys| && keys[k].generation == generation && keys[k].pub == pub
  }

  function PriorOf(c: Crypto, history: seq<Row>, i: nat): Option<string>
    requires i < |history|
  {
    if i == 0 then None else Some(c.hash(BlobOf(history[i - 1])))
  }

  lemma ReachableIsValid(c: Crypto, keys: seq<SigningKey>, ops: seq<Op>)
    requires KeysValid(c, keys)
    ensures Inv(c, ApplyAll(c, Db(keys, []), ops))
  {
    RunKeeps(c, Db(keys, []), ops);
  }

  lemma KeyIsSigner(c: Crypto, db: Db, i: nat, pub: Bytes)
    requires Inv(c, db) && i < |db.history| && KeyOf(db.keys, db.history[i].keyGeneration, pub)
    ensures SignedBy(c, db.keys, db.history[i], pub)
  {
    assert Attested(c, db.keys, db.history[i]);
    var pub' :| SignedBy(c, db.keys, db.history[i], pub');
  }

  lemma RowVerifies(env: Env, db: Db, i: nat, trusted: seq<TrustedKey>, now: int, graceHours: int)
    requires Sound(env.crypto) && Inv(env.crypto, db) && i < |db.history|
    requires var r := db.history[i];
      KeyFor(trusted, r.keyGeneration).Some? && KeyOf(db.keys, r.keyGeneration, KeyFor(trusted, r.keyGeneration).value)
    ensures var r := db.history[i];
      var v := VerifyDescriptor(env, BlobOf(r), r.signature, trusted, now, PriorOf(env.crypto, db.history, i),
        graceHours);
      && (v.Accepted? <==> env.time(r.validUntil).Some? && env.reaches(r.validUntil, graceHours)
                           && now <= env.time(r.validUntil).value + graceHours * 3600)
      && (v.Accepted? ==> v.payload.generation == i + 1 && v.payload.signingKeyGen == r.keyGeneration)
  {
    var r, c := db.history[i], env.crypto;
    var pub := KeyFor(trusted, r.keyGeneration).value;
    KeyIsSigner(c, db, i, pub);
    assert Formed(c, db.history, i);
    var p :| RowOf(c, db.history, i, p);
    AcceptsByKey(env, p, r.signature, trusted, now, PriorOf(c, db.history, i), graceHours);
    assert P.CanonicalBytes(p) == P.Bytes_(BlobOf(r));
  }

  /** Over every run of signing and rotation from an empty history: each stored descriptor, given
      its predecessor's hash and its signing key, is accepted exactly until so many hours after the
      time its validity ends, which it must be possible to compute. */
  lemma EverySignedDescriptorVerifies(env: Env, keys: seq<SigningKey>, ops: seq<Op>, i: nat,
                                      trusted: seq<TrustedKey>, now: int, graceHours: int)
    requires Sound(env.crypto) && KeysValid(env.crypto, keys)
    requires var db := ApplyAll(env.crypto, Db(keys, []), ops);
      i < |db.history| && var r := db.history[i];
      KeyFor(trusted, r.keyGeneration).Some? && KeyOf(db.keys, r.keyGeneration, KeyFor(trusted, r.keyGeneration).value)
    ensures var history := ApplyAll(env.crypto, Db(keys, []), ops).history;
      var r := history[i];
      var prior := if i == 0 then None else Some(env.crypto.hash(Utf8.Encode(history[i - 1].text)));
      var v := VerifyDescriptor(env, Utf8.Encode(r.text), r.signature, trusted, now, prior, graceHours);
      && (v.Accepted? <==> env.time(r.validUntil).Some? && env.reaches(r.validUntil, graceHours)
                           && now <= env.time(r.validUntil).value + graceHours * 3600)
      && (v.Accepted? ==> v.payload.generation == i + 1 && v.payload.signingKeyGen == r.keyGeneration)
  {
    ReachableIsValid(env.crypto, keys, ops);
    RowVerifies(env, ApplyAll(env.crypto, Db(keys, []), ops), i, trusted, now, graceHours);
  }

  function Published(history: seq<Row>): seq<Signed> {
    seq(|history|, i requires 0 <= i < |history| => Signed(BlobOf(history[i]), history[i].signature))
  }

  /** The verdict on element k of the published history is the one on its row. */
  lemma PublishedVerdict(env: Env, history: seq<Row>, i: nat, trusted: seq<TrustedKey>, now: int)
    requires i < |history|
    ensures VerdictAt(env, Published(history), trusted, now, i)
      == VerifyDescriptor(env, BlobOf(history[i]), history[i].signature, trusted, now,
        PriorOf(env.crypto, history, i), 24)
  {
    assert Published(history)[i] == Signed(BlobOf(history[i]), history[i].signature);
    if i > 0 { assert Published(history)[i - 1].blob == BlobOf(history[i - 1]); }
  }

  lemma PublishedVerifies(env: Env, db: Db, i: nat, trusted: seq<TrustedKey>, now: int)
    requires Sound(env.crypto) && Inv(env.crypto, db) && i < |db.history|
    requires var r := db.history[i];
      KeyFor(trusted, r.keyGeneration).Some? && KeyOf(db.keys, r.keyGeneration, KeyFor(trusted, r.keyGeneration).value)
    ensures VerdictAt(env, Published(db.history), trusted, now, i).Accepted? <==>
      var until := db.history[i].validUntil;
      env.time(until).Some? && env.reaches(until, 24) && now <= env.time(until).value + 24 * 3600
  {
    PublishedVerdict(env, db.history, i, trusted, now);
    RowVerifies(env, db, i, trusted, now, 24);
  }

  /** The whole history, in order, is accepted as a chain exactly while for none of its rows more than
      a day has passed since the end of the validity. */
  lemma HistoryIsAccepted(env: Env, db: Db, trusted: seq<TrustedKey>, now: int)
    requires Sound(env.crypto) && Inv(env.crypto, db)
    requires forall i :: 0 <= i < |db.history| ==> var r := db.history[i];
      KeyFor(trusted, r.keyGeneration).Some? && KeyOf(db.keys, r.keyGeneration, KeyFor(trusted, r.keyGeneration).value)
    ensures ChainAccepted(env, Published(db.history), trusted, now) <==>
      forall i :: 0 <= i < |db.history| ==>
        var until := db.history[i].validUntil;
        env.time(until).Some? && env.reaches(until, 24) && now <= env.time(until).value + 86400
  {
    forall k | 0 <= k < |db.history|
      ensures VerdictAt(env, Published(db.history), trusted, now, k).Accepted? <==>
        var until := db.history[k].validUntil;
        env.time(until).Some? && env.reaches(until, 24) && now <= env.time(until).value + 86400
    {
      PublishedVerifies(env, db, k, trusted, now);
    }
  }

  /** A blob of the history parses to the payload its row was written from. */
  lemma BlobParses(env: Env, db: Db, i: nat)
    requires Inv(env.crypto, db) && i < |db.history|
    ensures P.FromCanonicalBytes(env.co, BlobOf(db.history[i])).Ok?
    ensures RowOf(env.crypto, db.history, i, P.FromCanonicalBytes(env.co, BlobOf(db.history[i])).value)
  {
    assert Formed(env.crypto, db.history, i);
    var p :| RowOf(env.crypto, db.history, i, p);
    P.RoundTrip(env.co, p);
  }

  lemma BlobsDistinct(env: Env, db: Db, i: nat, j: nat)
    requires Inv(env.crypto, db) && i < |db.history| && j < |db.history|
    requires BlobOf(db.history[i]) == BlobOf(db.history[j])
    ensures i == j
  {
    BlobParses(env, db, i);
    BlobParses(env, db, j);
  }

  ghost predicate FromHistory(ds: seq<Signed>, history: seq<Row>, at: seq<nat>) {
    |at| == |ds| && forall k :: 0 <= k < |ds| ==> at[k] < |history| && ds[k].blob == BlobOf(history[at[k]])
  }

  lemma FirstHasNoLink(env: Env, db: Db, i: nat)
    requires Inv(env.crypto, db) && i < |db.history|
    requires P.FromCanonicalBytes(env.co, BlobOf(db.history[i])).Ok?
    ensures var p := P.FromCanonicalBytes(env.co, BlobOf(db.history[i])).value;
      && (p.generation == 1 <==> i == 0)
      && (i > 0 ==> p.previousHash == Str(env.crypto.hash(BlobOf(db.history[i - 1]))))
  {
    BlobParses(env, db, i);
  }

  lemma LinkHash(env: Env, db: Db, ds: seq<Signed>, trusted: seq<TrustedKey>, now: int, k: nat, i: nat)
    requires Inv(env.crypto, db) && i < |db.history| && ChainAccepted(env, ds, trusted, now)
    requires k < |ds| && ds[k].blob == BlobOf(db.history[i])
    ensures i == 0 || (k > 0 && env.crypto.hash(ds[k - 1].blob) == env.crypto.hash(BlobOf(db.history[i - 1])))
  {
    AcceptedParses(env, ds, trusted, now, k);
    ChainShape(env, ds, trusted, now, k);
    FirstHasNoLink(env, db, i);
  }

  /** An element that is not the first descriptor follows its predecessor in the history. */
  lemma LinkStep(env: Env, db: Db, ds: seq<Signed>, at: seq<nat>, trusted: seq<TrustedKey>, now: int, k: nat)
    requires Sound(env.crypto) && Inv(env.crypto, db) && FromHistory(ds, db.history, at)
    requires ChainAccepted(env, ds, trusted, now) && k < |ds|
    ensures Continues(at, k)
  {
    LinkHash(env, db, ds, trusted, now, k, at[k]);
    if at[k] > 0 {
      assert ds[k - 1].blob == BlobOf(db.history[at[k - 1]]);
      SameHashSameRow(env, db, at[k - 1], at[k] - 1);
    }
  }

  lemma SameHashSameRow(env: Env, db: Db, i: nat, j: nat)
    requires Sound(env.crypto) && Inv(env.crypto, db) && i < |db.history| && j < |db.history|
    requires env.crypto.hash(BlobOf(db.history[i])) == env.crypto.hash(BlobOf(db.history[j]))
    ensures i == j
  {
    BlobsDistinct(env, db, i, j);
  }

  /** A sequence put together from pieces, each a nonempty prefix of the history. */
  ghost predicate ConcatenatedPrefixes(ds: seq<Signed>, history: seq<Row>)
    decreases |ds|
  {
    ds == [] ||
    exists n :: 1 <= n <= |ds| && n <= |history| && IsPrefix(ds[..n], history) && ConcatenatedPrefixes(ds[n..], history)
  }

  ghost predicate IsPrefix(piece: seq<Signed>, history: seq<Row>) {
    |piece| <= |history| && forall k :: 0 <= k < |piece| ==> piece[k].blob == BlobOf(history[k])
  }

  /** Element k is the first of the history, or the one after its predecessor. */
  predicate Continues(at: seq<nat>, k: nat)
    requires k < |at|
  {
    at[k] == 0 || (k > 0 && at[k] == at[k - 1] + 1)
  }

  lemma {:induction false} StepsMakePrefixes(ds: seq<Signed>, history: seq<Row>, at: seq<nat>)
    requires FromHistory(ds, history, at)
    requires forall k :: 0 <= k < |at| ==> Continues(at, k)
    ensures ConcatenatedPrefixes(ds, history)
    decreases |ds|
  {
    if ds != [] {
      var n := 1;
      assert Continues(at, 0);
      while n < |at| && at[n] != 0
        invariant 1 <= n <= |at|
        invariant forall k :: 0 <= k < n ==> at[k] == k
      {
        assert Continues(at, n);
        n := n + 1;
      }
      assert n <= |history| by { assert at[n - 1] == n - 1; }
      assert IsPrefix(ds[..n], history) by {
        forall k | 0 <= k < n ensures ds[..n][k].blob == BlobOf(history[k]) { assert at[k] == k; }
      }
      forall k | 0 <= k < |at| - n ensures Continues(at[n..], k) {
        assert Continues(at, n + k);
      }
      StepsMakePrefixes(ds[n..], history, at[n..]);
    }
  }

  /** If all blobs come from one signing history, what the chain verifier accepts is a
      concatenation of prefixes of that history. */
  lemma AcceptedChainIsPrefixes(env: Env, keys: seq<SigningKey>, ops: seq<Op>, ds: seq<Signed>, at: seq<nat>,
                                trusted: seq<TrustedKey>, now: int)
    requires Sound(env.crypto) && KeysValid(env.crypto, keys)
    requires FromHistory(ds, ApplyAll(env.crypto, Db(keys, []), ops).history, at)
    requires ChainAccepted(env, ds, trusted, now)
    ensures ConcatenatedPrefixes(ds, ApplyAll(env.crypto, Db(keys, []), ops).history)
  {
    var db := ApplyAll(env.crypto, Db(keys, []), ops);
    ReachableIsValid(env.crypto, keys, ops);
    forall k | 0 <= k < |at| ensures Continues(at, k) {
      LinkStep(env, db, ds, at, trusted, now, k);
    }
    StepsMakePrefixes(ds, db.history, at);
  }
}
