/** From the signer to the agent: a published descriptor is installed by every agent that trusts
    its key, and is usable there. */
module Publish {
  import opened Prelude
  import opened Sign
  import opened Weights
  import Json
  import V = Verify
  import P = Payload
  import Pick = FingerprintPick
  import Refresh
  import Render
  import Utf8
  import Wire

  type Bytes = Utf8.Bytes

  /** The agent's JSON library reads the UTF-8 form of a text that starts as an object like the
      reader of this model. */
  ghost predicate ReadsObjects(repr: Json.Repr, loads: Bytes -> Refresh.Loaded) {
    forall t: string :: t != "" && t[0] == '{' && Json.Loads(repr, t).Value? ==>
      loads(Utf8.Encode(t)) == Refresh.Value(Json.Loads(repr, t).json)
  }

  ghost predicate AllKeys(anchors: seq<Bytes>) { forall k :: 0 <= k < |anchors| ==> |anchors[k]| == 32 }

  /** The anchors include the public key the row was signed with. */
  ghost predicate Anchored(c: V.Crypto, keys: seq<SigningKey>, r: Row, anchors: seq<Bytes>) {
    exists k :: 0 <= k < |anchors| && SignedBy(c, keys, r, anchors[k])
  }

  lemma {:induction false} FoundByAnchor(env: Refresh.Env, k: nat, m: nat, payload: Bytes, sig: Bytes)
    requires k <= m < |env.anchors| && AllKeys(env.anchors) && env.check(env.anchors[m], payload, sig)
    ensures Refresh.TrustFrom(env, k, payload, sig) == Refresh.Trusted
    decreases m - k
  {
    if k < m && !env.check(env.anchors[k], payload, sig) { FoundByAnchor(env, k + 1, m, payload, sig); }
  }

  lemma SignatureTrusted(c: V.Crypto, keys: seq<SigningKey>, r: Row, env: Refresh.Env)
    requires V.Sound(c) && env.check == c.check && AllKeys(env.anchors) && Anchored(c, keys, r, env.anchors)
    ensures |r.signature| == 64 && Refresh.TrustFrom(env, 0, BlobOf(r), r.signature) == Refresh.Trusted
  {
    var m :| 0 <= m < |env.anchors| && SignedBy(c, keys, r, env.anchors[m]);
    var i :| 0 <= i < |keys| && SignedByKey(c, keys[i], r, env.anchors[m]);
    FoundByAnchor(env, 0, m, BlobOf(r), r.signature);
  }

  lemma RowReads(c: V.Crypto, db: Db, i: nat, repr: Json.Repr, env: Refresh.Env) returns (p: P.Payload)
    requires Inv(c, db) && i < |db.history| && ReadsObjects(repr, env.loads)
    ensures RowOf(c, db.history, i, p) && env.loads(BlobOf(db.history[i])) == Refresh.Value(P.Tree(p))
  {
    assert Formed(c, db.history, i);
    p :| RowOf(c, db.history, i, p);
    P.TreeCanonical(repr, p);
    Json.LoadsOfPrint(repr, P.Tree(p));
    assert P.CanonicalText(p)[0] == '{';
  }

  lemma TreesArePicked(co: P.Coercion, ws: seq<Weighted>, digest: nat)
    requires ws != []
    ensures Pick.PickFingerprint(co, Some(Json.Arr(P.WeightedTrees(ws))), digest) == Pick.PickOf(ws, digest)
  {
    P.WeightedListRoundTrip(co, ws);
    assert |P.WeightedTrees(ws)| > 0;
  }

  lemma SortedIsPicked(ws: seq<Weighted>, digest: nat)
    ensures Pick.PickOf(Sort(ws), digest) == Pick.PickOf(ws, digest) && |Sort(ws)| == |ws|
  {
    SortSorts(ws);
    SortOfSorted(ws);
    Pick.PickOfIgnoresOrder(Sort(ws), ws, digest);
  }

  /** The agent's choice is the one for the list in the payload, or the default without one. */
  lemma TreePick(co: P.Coercion, p: P.Payload, digest: nat)
    requires p.schema == P.V3
    ensures Pick.PickFingerprint(co, Json.Get(P.Tree(p).fields, "tls_fingerprints"), digest) ==
      if p.fingerprints.Some? && p.fingerprints.value != [] then Pick.PickOf(p.fingerprints.value, digest)
      else Pick.Picked("chrome")
  {
    P.OptionalFound(p);
    if P.FingerprintFields(p) != [] {
      SortedIsPicked(p.fingerprints.value, digest);
      TreesArePicked(co, Sort(p.fingerprints.value), digest);
    }
  }

  lemma KnownIsPicked(ws: seq<Weighted>, digest: nat)
    requires Pick.AllKnown(ws)
    ensures Pick.PickOf(ws, digest).Picked?
  {
    Pick.SortKeepsTotals(ws, "");
    if Pick.Total(ws) > 0 { Pick.FallbackUnreachable(Sort(ws), digest % Pick.Total(ws)); }
  }

  lemma TreeIsPicked(co: P.Coercion, p: P.Payload, digest: nat)
    requires FingerprintsKnown(p.fingerprints) && p.schema == P.V3
    ensures Pick.PickFingerprint(co, Json.Get(P.Tree(p).fields, "tls_fingerprints"), digest).Picked?
  {
    TreePick(co, p, digest);
    if p.fingerprints.Some? { KnownIsPicked(p.fingerprints.value, digest); }
  }

  /** An agent that holds the key of row i among 32-byte anchors and reads JSON as modelled. */
  ghost predicate Trusts(c: V.Crypto, db: Db, i: nat, repr: Json.Repr, env: Refresh.Env) {
    && i < |db.history| && env.check == c.check && AllKeys(env.anchors) && ReadsObjects(repr, env.loads)
    && Anchored(c, db.keys, db.history[i], env.anchors)
  }

  lemma RowAccepted(c: V.Crypto, db: Db, i: nat, env: Refresh.Env, co: P.Coercion) returns (p: P.Payload)
    requires V.Sound(c) && Inv(c, db) && Trusts(c, db, i, co.repr, env)
    ensures RowOf(c, db.history, i, p)
    ensures var sent := Wire.EncodeBlob(BlobOf(db.history[i]), db.history[i].signature);
      && (sent.Blob? <==> |BlobOf(db.history[i])| <= 65535)
      && (sent.Blob? ==> Refresh.VerifyBlob(env, sent.bytes) == Refresh.Valid(P.Tree(p)))
      && P.FromCanonicalBytes(co, BlobOf(db.history[i])) == P.Ok(p)
  {
    p := RowReads(c, db, i, co.repr, env);
    SignatureTrusted(c, db.keys, db.history[i], env);
    FrameVerifies(env, BlobOf(db.history[i]), db.history[i].signature, P.Tree(p));
    P.RoundTrip(co, p);
  }

  /** A descriptor of any signing history that fits the frame verifies on an agent that holds its
      key among 32-byte anchors; what the agent reads is the payload signed, and its choice of a
      fingerprint succeeds for every box. */
  lemma AgentAccepts(c: V.Crypto, keys: seq<SigningKey>, ops: seq<Op>, i: nat, env: Refresh.Env,
                     co: P.Coercion, digest: nat) returns (p: P.Payload)
    requires V.Sound(c) && KeysValid(c, keys) && Trusts(c, ApplyAll(c, Db(keys, []), ops), i, co.repr, env)
    ensures var r := ApplyAll(c, Db(keys, []), ops).history[i];
      var sent := Wire.EncodeBlob(BlobOf(r), r.signature);
      && (sent.Blob? <==> |BlobOf(r)| <= 65535)
      && (sent.Blob? ==> Refresh.VerifyBlob(env, sent.bytes) == Refresh.Valid(P.Tree(p)))
      && P.FromCanonicalBytes(co, BlobOf(r)) == P.Ok(p) && p.generation == i + 1
    ensures Pick.PickFingerprint(co, Json.Get(P.Tree(p).fields, "tls_fingerprints"), digest).Picked?
  {
    RunKeeps(c, Db(keys, []), ops);
    p := RowAccepted(c, ApplyAll(c, Db(keys, []), ops), i, env, co);
    TreeIsPicked(co, p, digest);
  }

  /** What an agent reads is what the operator gave: the row that any signing or rotation of any run
      added, however many followed, verifies on an agent that trusts its key as a payload that holds
      the input of that operation; and the agent's choice of a fingerprint is the one for the list
      given, whatever its order. */
  lemma AgentReadsInput(c: V.Crypto, keys: seq<SigningKey>, before: seq<Op>, op: Op, later: seq<Op>,
                        env: Refresh.Env, co: P.Coercion, digest: nat) returns (p: P.Payload)
    requires V.Sound(c) && KeysValid(c, keys)
    requires var db := ApplyAll(c, Db(keys, []), before);
      && |Apply(c, db, op).history| > |db.history|
      && Trusts(c, ApplyAll(c, Db(keys, []), before + [op] + later), |db.history|, co.repr, env)
    ensures var i := |ApplyAll(c, Db(keys, []), before).history|;
      var r := ApplyAll(c, Db(keys, []), before + [op] + later).history[i];
      var sent := Wire.EncodeBlob(Utf8.Encode(r.text), r.signature);
      && (sent.Blob? <==> |Utf8.Encode(r.text)| <= 65535)
      && (sent.Blob? ==> Refresh.VerifyBlob(env, sent.bytes) == Refresh.Valid(P.Tree(p)))
      && p.generation == i + 1 && HoldsInput(p, op.input)
    ensures Pick.PickFingerprint(co, Json.Get(P.Tree(p).fields, "tls_fingerprints"), digest) ==
      match op.input.fingerprints
      case None => Pick.Picked("chrome")
      case Some(ws) => if ws == [] then Pick.Picked("chrome") else Pick.PickOf(ws, digest)
  {
    var db, all := ApplyAll(c, Db(keys, []), before), ApplyAll(c, Db(keys, []), before + [op] + later);
    RunKeeps(c, Db(keys, []), before + [op] + later);
    var q := RowStays(c, co, Db(keys, []), before, op, later);
    p := RowAccepted(c, all, |db.history|, env, co);
    assert p == q;
    TreePick(co, p, digest);
    if p.fingerprints.Some? { Pick.PickOfIgnoresOrder(p.fingerprints.value, op.input.fingerprints.value, digest); }
  }

  lemma FrameVerifies(env: Refresh.Env, payload: Bytes, sig: Bytes, j: Json.Json)
    requires |sig| == 64 && Refresh.TrustFrom(env, 0, payload, sig) == Refresh.Trusted
    requires env.loads(payload) == Refresh.Value(j)
    ensures Wire.EncodeBlob(payload, sig).Blob? <==> |payload| <= 65535
    ensures Wire.EncodeBlob(payload, sig).Blob? ==>
      Refresh.VerifyBlob(env, Wire.EncodeBlob(payload, sig).bytes) == Refresh.Valid(j)
  {
    if |payload| <= 65535 { Wire.SplitExactly(Wire.EncodeBlob(payload, sig).bytes, payload, sig); }
  }

  lemma VerifiedInstalls(env: Refresh.Env, s: Refresh.State, blob: Bytes, token: Option<string>, calls: Refresh.Calls)
    requires Refresh.VerifyBlob(env, blob).Valid? && env.hash(blob) != s.hash
    ensures Refresh.Step(env, s, Refresh.Event(Refresh.Fetched(blob, token), calls))
      == (Refresh.State(blob, env.hash(blob), token, 0),
          Refresh.QUIET.(rewritten := Some(blob), raised := calls.rewriteRaises(blob)))
  {}

  /** So a refresh tick that fetches it, holding anything else, installs it and clears the failures,
      and then calls the rewrite, which may raise. */
  lemma AgentInstalls(c: V.Crypto, keys: seq<SigningKey>, ops: seq<Op>, i: nat, env: Refresh.Env,
                      co: P.Coercion, s: Refresh.State, token: Option<string>, calls: Refresh.Calls)
    requires V.Sound(c) && KeysValid(c, keys) && Trusts(c, ApplyAll(c, Db(keys, []), ops), i, co.repr, env)
    ensures var r := ApplyAll(c, Db(keys, []), ops).history[i];
      var sent := Wire.EncodeBlob(BlobOf(r), r.signature);
      sent.Blob? && env.hash(sent.bytes) != s.hash ==>
        Refresh.Step(env, s, Refresh.Event(Refresh.Fetched(sent.bytes, token), calls))
        == (Refresh.State(sent.bytes, env.hash(sent.bytes), token, 0),
            Refresh.QUIET.(rewritten := Some(sent.bytes), raised := calls.rewriteRaises(sent.bytes)))
  {
    RunKeeps(c, Db(keys, []), ops);
    var db := ApplyAll(c, Db(keys, []), ops);
    var p := RowAccepted(c, db, i, env, co);
    var sent := Wire.EncodeBlob(BlobOf(db.history[i]), db.history[i].signature);
    if sent.Blob? && env.hash(sent.bytes) != s.hash { VerifiedInstalls(env, s, sent.bytes, token, calls); }
  }

  // ---- whether the agent can use what was signed ----

  lemma ExitUsableExactly(co: P.Coercion, e: P.Exit)
    ensures Render.ExitUsable(co, P.ExitTree(e, P.V3)) <==> Render.EndpointUsable(co, e.endpoint)
  {
    P.ExitFieldsFound(co.repr, e, P.V3);
  }

  /** Rendering a payload made by the signer succeeds exactly when it has exits and each of their
      endpoints ends in a colon and a number; without exits it is refused. */
  lemma SignedRendersExactly(co: P.Coercion, p: P.Payload, digest: nat)
    requires FingerprintsKnown(p.fingerprints) && p == P.Normal(p) && p.schema == P.V3
    ensures Render.RenderConfig(co, P.Tree(p), digest) ==
      if p.exits == [] then Render.ConfigError
      else if forall k :: 0 <= k < |p.exits| ==> Render.EndsInPort(co, p.exits[k].endpoint) then Render.Rendered
      else Render.Raised
  {
    TreeIsPicked(co, p, digest);
    P.HeadFound(p);
    var trees := P.ExitTrees(p.exits, P.V3);
    assert p.exits == [] ==> trees == [];
    forall k | 0 <= k < |trees|
      ensures Render.ExitUsable(co, trees[k]) <==> Render.EndsInPort(co, p.exits[k].endpoint)
    {
      ExitUsableExactly(co, p.exits[k]);
      Render.EndpointExactly(co, p.exits[k].endpoint);
    }
  }

  /** The agent's rewrite raises exactly when it cannot render, its files and commands working. */
  ghost predicate RewritesByRendering(env: Refresh.Env, co: P.Coercion, digest: nat, raises: Bytes -> bool) {
    forall blob :: Refresh.Verified(env, blob) ==>
      (raises(blob) <==> !Render.RenderConfig(co, Refresh.VerifyBlob(env, blob).json, digest).Rendered?)
  }

  /** Without exits or with an endpoint without a port a payload is not rendered. */
  ghost predicate Unrendered(co: P.Coercion, p: P.Payload) {
    p.exits == [] || exists k :: 0 <= k < |p.exits| && !Render.EndsInPort(co, p.exits[k].endpoint)
  }

  lemma RewriteRaisesExactly(co: P.Coercion, p: P.Payload, env: Refresh.Env, blob: Bytes, digest: nat,
                             raises: Bytes -> bool)
    requires FingerprintsKnown(p.fingerprints) && p == P.Normal(p) && p.schema == P.V3
    requires Refresh.VerifyBlob(env, blob) == Refresh.Valid(P.Tree(p)) && RewritesByRendering(env, co, digest, raises)
    ensures raises(blob) <==> Unrendered(co, p)
  {
    assert Refresh.Verified(env, blob);
    SignedRendersExactly(co, p, digest);
  }

  /** The tick that installs a signed descriptor raises exactly when it has no exits or an endpoint
      without a port: nothing checks that before signing. */
  lemma InstallRaisesExactly(c: V.Crypto, keys: seq<SigningKey>, ops: seq<Op>, i: nat, env: Refresh.Env,
                             co: P.Coercion, digest: nat, s: Refresh.State, calls: Refresh.Calls)
    returns (p: P.Payload)
    requires V.Sound(c) && KeysValid(c, keys) && Trusts(c, ApplyAll(c, Db(keys, []), ops), i, co.repr, env)
    requires RewritesByRendering(env, co, digest, calls.rewriteRaises)
    ensures var r := ApplyAll(c, Db(keys, []), ops).history[i];
      var sent := Wire.EncodeBlob(BlobOf(r), r.signature);
      && P.FromCanonicalBytes(co, BlobOf(r)) == P.Ok(p)
      && (sent.Blob? && env.hash(sent.bytes) != s.hash ==>
            (Refresh.Step(env, s, Refresh.Event(Refresh.Fetched(sent.bytes, None), calls)).1.raised <==>
               Unrendered(co, p)))
  {
    RunKeeps(c, Db(keys, []), ops);
    var db := ApplyAll(c, Db(keys, []), ops);
    p := RowAccepted(c, db, i, env, co);
    var sent := Wire.EncodeBlob(BlobOf(db.history[i]), db.history[i].signature);
    if sent.Blob? && env.hash(sent.bytes) != s.hash {
      VerifiedInstalls(env, s, sent.bytes, None, calls);
      RewriteRaisesExactly(co, p, env, sent.bytes, digest, calls.rewriteRaises);
    }
  }
}
