/** The descriptor refresh loop of the RU agent. */
module Refresh {
  import opened Prelude
  import Json
  import Utf8
  import Wire

  type Bytes = Utf8.Bytes

  const MAX_FAILURES := 24

  /** What json.loads makes of bytes: a value, a syntax error, or an error of the text codec. */
  datatype Loaded = Value(json: Json.Json) | NotJson | NotText

  datatype Env = Env(anchors: seq<Bytes>, check: (Bytes, Bytes, Bytes) -> bool, loads: Bytes -> Loaded,
                     hash: Bytes -> string)

  /** Escaped stands for an exception that is not a RefreshError. */
  datatype Verdict = Valid(json: Json.Json) | Rejected | Escaped

  datatype Trust = Trusted | Untrusted | BadAnchor

  /** The anchors tried in order from index k; one that is not a key ends the search. */
  function TrustFrom(env: Env, k: nat, payload: Bytes, sig: Bytes): Trust
    requires k <= |env.anchors|
    decreases |env.anchors| - k
  {
    if k == |env.anchors| then Untrusted
    else if |env.anchors[k]| != 32 then BadAnchor
    else if env.check(env.anchors[k], payload, sig) then Trusted
    else TrustFrom(env, k + 1, payload, sig)
  }

  function VerifyBlob(env: Env, blob: Bytes): Verdict {
    match Wire.Split(blob)
    case None => Rejected
    case Some((payload, sig)) =>
      match TrustFrom(env, 0, payload, sig)
      case BadAnchor => Escaped
      case Untrusted => Rejected
      case Trusted =>
        match env.loads(payload)
        case Value(j) => Valid(j)
        case NotJson => Rejected
        case NotText => Escaped
  }

  datatype Fetch = Failed | NotModified(token: Option<string>) | Fetched(blob: Bytes, token: Option<string>)

  datatype State = State(blob: Bytes, hash: string, lastModified: Option<string>, failures: nat)

  /** Which of the caller's functions would raise in a tick: the one that rewrites the
      configuration, and the one that terminates the box. */
  datatype Calls = Calls(rewriteRaises: Bytes -> bool, terminateRaises: bool)

  datatype Event = Event(fetch: Fetch, calls: Calls)

  /** What a tick did besides changing its state: whether it failed, which of the two functions it
      called, and whether an exception left it. */
  datatype Report = Report(failed: bool, terminated: bool, rewritten: Option<Bytes>, raised: bool)

  const QUIET := Report(false, false, None, false)

  function Init(env: Env, blob: Bytes): State { State(blob, env.hash(blob), None, 0) }

  function Fail(s: State, c: Calls): (State, Report) {
    var last := s.failures + 1 >= MAX_FAILURES;
    (s.(failures := s.failures + 1), Report(true, last, None, last && c.terminateRaises))
  }

  function Step(env: Env, s: State, e: Event): (State, Report) {
    match e.fetch
    case Failed => Fail(s, e.calls)
    case NotModified(token) => (s.(failures := 0, lastModified := if token.Some? then token else s.lastModified), QUIET)
    case Fetched(blob, token) =>
      if env.hash(blob) == s.hash then (s.(failures := 0, lastModified := token), QUIET)
      else
        match VerifyBlob(env, blob)
        case Rejected => Fail(s, e.calls)
        case Escaped => (s, QUIET.(raised := true))
        case Valid(_) =>
          (State(blob, env.hash(blob), token, 0),
           QUIET.(rewritten := Some(blob), raised := e.calls.rewriteRaises(blob)))
  }

  class RefreshLoop {
    var currentBlob: Bytes
    var currentHash: string
    var lastModified: Option<string>
    var failureCount: nat
    const env: Env

    function Contents(): State reads this { State(currentBlob, currentHash, lastModified, failureCount) }

    constructor (env: Env, initial: Bytes)
      ensures this.env == env && Contents() == State(initial, env.hash(initial), None, 0)
    {
      this.env := env;
      currentBlob := initial;
      currentHash := env.hash(initial);
      lastModified := None;
      failureCount := 0;
    }

    method Verify(blob: Bytes) returns (v: Verdict)
      ensures v == VerifyBlob(env, blob)
    {
      if |blob| < 66 { return Rejected; }
      var n := Wire.Word(blob[0], blob[1]);
      if |blob| != 2 + n + 64 { return Rejected; }
      var payload, sig := blob[2..2 + n], blob[2 + n..];
      var verified, k := false, 0;
      while k < |env.anchors| && !verified
        invariant 0 <= k <= |env.anchors|
        invariant TrustFrom(env, 0, payload, sig) == if verified then Trusted else TrustFrom(env, k, payload, sig)
      {
        if |env.anchors[k]| != 32 { return Escaped; }
        if env.check(env.anchors[k], payload, sig) { verified := true; }
        k := k + 1;
      }
      if !verified { return Rejected; }
      match env.loads(payload) {
        case Value(j) => return Valid(j);
        case NotJson => return Rejected;
        case NotText => return Escaped;
      }
    }

    method CountFailure(c: Calls) returns (r: Report)
      modifies `failureCount
      ensures (Contents(), r) == Fail(old(Contents()), c)
    {
      failureCount := failureCount + 1;
      r := QUIET.(failed := true);
      if failureCount >= MAX_FAILURES {
        r := r.(terminated := true);
        if c.terminateRaises { return r.(raised := true); }
      }
    }

    method Tick(e: Event) returns (r: Report)
      modifies this
      ensures (Contents(), r) == Step(env, old(Contents()), e)
    {
      r := QUIET;
      match e.fetch {
        case Failed =>
          r := CountFailure(e.calls);
        case NotModified(token) =>
          failureCount := 0;
          if token.Some? { lastModified := token; }
        case Fetched(blob, token) =>
          var newHash := env.hash(blob);
          if newHash == currentHash {
            failureCount := 0;
            lastModified := token;
            return;
          }
          var v := Verify(blob);
          if v.Escaped? { return r.(raised := true); }
          if v.Rejected? {
            r := CountFailure(e.calls);
            return;
          }
          currentBlob := blob;
          currentHash := newHash;
          lastModified := token;
          failureCount := 0;
          r := r.(rewritten := Some(blob));
          if e.calls.rewriteRaises(blob) { return r.(raised := true); }
      }
    }
  }

  // ---- runs ----

  /** The state after the run, and the report of each tick. */
  function Run(env: Env, s: State, es: seq<Event>): (State, seq<Report>)
    decreases |es|
  {
    if es == [] then (s, [])
    else
      var n := |es| - 1;
      var (s', rs) := Run(env, s, es[..n]);
      var (s'', r) := Step(env, s', es[n]);
      (s'', rs + [r])
  }

  /** The length of the streak of failing ticks that ends the run; a tick that raised while
      verifying neither extends nor ends it. */
  function Streak(rs: seq<Report>): nat
    decreases |rs|
  {
    if rs == [] then 0
    else
      var n := |rs| - 1;
      if rs[n].failed then 1 + Streak(rs[..n])
      else if rs[n].raised && rs[n].rewritten.None? then Streak(rs[..n])
      else 0
  }

  /** The blob of the last call to rewrite, or the one started from. */
  function LastWritten(initial: Bytes, rs: seq<Report>): Bytes
    decreases |rs|
  {
    if rs == [] then initial
    else
      var n := |rs| - 1;
      if rs[n].rewritten.Some? then rs[n].rewritten.value else LastWritten(initial, rs[..n])
  }

  predicate Verified(env: Env, blob: Bytes) { VerifyBlob(env, blob).Valid? }

  /** A report after those before it: termination is requested exactly when a failing tick ends a
      streak long enough, and what is rewritten is verified and was not held. */
  ghost predicate Explained(env: Env, initial: Bytes, before: seq<Report>, r: Report) {
    && (r.terminated <==> r.failed && 1 + Streak(before) >= 24)
    && (r.rewritten.Some? ==> Verified(env, r.rewritten.value) && r.rewritten.value != LastWritten(initial, before))
  }

  ghost predicate Held(env: Env, initial: Bytes, s: State, rs: seq<Report>) {
    && s.blob == LastWritten(initial, rs) && (s.blob == initial || Verified(env, s.blob))
    && s.hash == env.hash(s.blob)
    && s.failures == Streak(rs)
  }

  /** What every run keeps: the reports explain the state. */
  ghost predicate Inv(env: Env, initial: Bytes, s: State, rs: seq<Report>) {
    Held(env, initial, s, rs) && forall k :: 0 <= k < |rs| ==> Explained(env, initial, rs[..k], rs[k])
  }

  lemma StepExplained(env: Env, initial: Bytes, s: State, rs: seq<Report>, e: Event)
    requires Held(env, initial, s, rs)
    ensures Explained(env, initial, rs, Step(env, s, e).1)
  {}

  lemma StepHeld(env: Env, initial: Bytes, s: State, rs: seq<Report>, e: Event)
    requires Held(env, initial, s, rs)
    ensures Held(env, initial, Step(env, s, e).0, rs + [Step(env, s, e).1])
  {
    assert (rs + [Step(env, s, e).1])[..|rs|] == rs;
  }

  lemma StepKeeps(env: Env, initial: Bytes, s: State, rs: seq<Report>, e: Event)
    requires Inv(env, initial, s, rs)
    ensures Inv(env, initial, Step(env, s, e).0, rs + [Step(env, s, e).1])
  {
    StepHeld(env, initial, s, rs, e);
    StepExplained(env, initial, s, rs, e);
    var rs' := rs + [Step(env, s, e).1];
    forall k | 0 <= k < |rs'| ensures Explained(env, initial, rs'[..k], rs'[k]) {
      assert rs'[..k] == rs[..k];
      if k == |rs| { assert rs[..k] == rs; }
    }
  }

  /** Over every run, whatever the called functions do: the held blob is the initial one or one
      verified under an anchor, the held hash is its hash, the counter is the length of the failing
      streak, termination is called exactly on failing ticks that end a streak of at least 24, and
      a rewrite is called with a verified blob other than the one held. */
  lemma {:induction false} RunKeeps(env: Env, initial: Bytes, es: seq<Event>)
    ensures var (s, rs) := Run(env, Init(env, initial), es); |rs| == |es| && Inv(env, initial, s, rs)
    decreases |es|
  {
    if es != [] {
      var n := |es| - 1;
      RunKeeps(env, initial, es[..n]);
      var (s, rs) := Run(env, Init(env, initial), es[..n]);
      StepKeeps(env, initial, s, rs, es[n]);
    }
  }

  ghost predicate NoCollisions(env: Env) {
    forall a: Bytes, b: Bytes :: env.hash(a) == env.hash(b) ==> a == b
  }

  /** Conversely, when hashes do not collide, every verified blob other than the held one is
      installed and a rewrite called with it, and nothing else is. */
  lemma {:induction false} RewritesExactly(env: Env, initial: Bytes, es: seq<Event>, e: Event)
    requires NoCollisions(env)
    ensures var (s, rs) := Run(env, Init(env, initial), es);
      var (s', r) := Step(env, s, e);
      && (r.rewritten.Some? <==> e.fetch.Fetched? && e.fetch.blob != s.blob && Verified(env, e.fetch.blob))
      && (r.rewritten.Some? <==> s'.blob != s.blob)
      && (r.rewritten.Some? ==> r.rewritten == Some(e.fetch.blob) && s'.blob == e.fetch.blob && s'.failures == 0)
  {
    RunKeeps(env, initial, es);
  }

  // ---- the configuration in force ----

  /** The blob of the last rewrite that completed, or the one started from. */
  function LastApplied(initial: Bytes, rs: seq<Report>): Bytes
    decreases |rs|
  {
    if rs == [] then initial
    else
      var n := |rs| - 1;
      if rs[n].rewritten.Some? && !rs[n].raised then rs[n].rewritten.value else LastApplied(initial, rs[..n])
  }

  /** The last call to rewrite raised. */
  predicate Behind(rs: seq<Report>)
    decreases |rs|
  {
    rs != [] && var n := |rs| - 1; if rs[n].rewritten.Some? then rs[n].raised else Behind(rs[..n])
  }

  lemma {:induction false} AppliedUnlessBehind(initial: Bytes, rs: seq<Report>)
    requires !Behind(rs)
    ensures LastApplied(initial, rs) == LastWritten(initial, rs)
    decreases |rs|
  {
    if rs != [] && rs[|rs| - 1].rewritten.None? { AppliedUnlessBehind(initial, rs[..|rs| - 1]); }
  }

  /** In every run the configuration in force is that of the held blob, unless the last call to
      rewrite raised. */
  lemma {:induction false} InForceUnlessBehind(env: Env, initial: Bytes, es: seq<Event>)
    ensures var (s, rs) := Run(env, Init(env, initial), es); !Behind(rs) ==> s.blob == LastApplied(initial, rs)
  {
    RunKeeps(env, initial, es);
    var (s, rs) := Run(env, Init(env, initial), es);
    if !Behind(rs) { AppliedUnlessBehind(initial, rs); }
  }

  /** A rewrite that raised is not tried again: what ends it is exactly a tick that fetches yet
      another verified blob and completes its rewrite. Fetching the held blob counts as success. */
  lemma {:induction false} FailedRewriteNotRetried(env: Env, initial: Bytes, es: seq<Event>, e: Event)
    requires NoCollisions(env) && Behind(Run(env, Init(env, initial), es).1)
    ensures var (s, rs) := Run(env, Init(env, initial), es);
      var (s', r) := Step(env, s, e);
      && (!Behind(rs + [r]) <==>
            e.fetch.Fetched? && e.fetch.blob != s.blob && Verified(env, e.fetch.blob)
            && !e.calls.rewriteRaises(e.fetch.blob))
      && (e.fetch.Fetched? && e.fetch.blob == s.blob ==> r == QUIET && s'.blob == s.blob && s'.failures == 0)
  {
    RunKeeps(env, initial, es);
    var (s, rs) := Run(env, Init(env, initial), es);
    var r := Step(env, s, e).1;
    assert (rs + [r])[..|rs|] == rs;
  }

  /** What a tick does and leaves: it fails when nothing could be fetched or a new blob was rejected,
      and changes only the counter then; one that calls rewrite has replaced everything before, even
      if the call raises; one that raises while verifying changes nothing; any other clears the
      counter and remembers the token of the server. */
  lemma TickLeaves(env: Env, s: State, e: Event)
    ensures var (s', r) := Step(env, s, e);
      && (r.failed <==> e.fetch.Failed? || (e.fetch.Fetched? && env.hash(e.fetch.blob) != s.hash
                                            && VerifyBlob(env, e.fetch.blob).Rejected?))
      && (r.terminated <==> r.failed && s.failures + 1 >= 24)
      && if r.failed then s' == s.(failures := s.failures + 1)
         else if r.rewritten.Some? then
           e.fetch.Fetched? && s' == State(e.fetch.blob, env.hash(e.fetch.blob), e.fetch.token, 0)
         else if r.raised then s' == s
         else !e.fetch.Failed? && s' == s.(failures := 0,
                lastModified := if e.fetch.NotModified? && e.fetch.token.None? then s.lastModified else e.fetch.token)
  {}

  // ---- when a tick raises ----

  /** Anchor k is reached: all before it are keys under which the blob does not verify. */
  ghost predicate Reached(env: Env, k: int, payload: Bytes, sig: Bytes)
    requires k <= |env.anchors|
  {
    forall i :: 0 <= i < k ==> |env.anchors[i]| == 32 && !env.check(env.anchors[i], payload, sig)
  }

  lemma {:induction false} TrustMeans(env: Env, k: nat, payload: Bytes, sig: Bytes)
    requires k <= |env.anchors| && Reached(env, k, payload, sig)
    ensures TrustFrom(env, k, payload, sig).BadAnchor? <==>
              exists m :: k <= m < |env.anchors| && |env.anchors[m]| != 32 && Reached(env, m, payload, sig)
    ensures TrustFrom(env, k, payload, sig).Trusted? <==>
              exists m :: k <= m < |env.anchors| && |env.anchors[m]| == 32 && env.check(env.anchors[m], payload, sig)
                          && Reached(env, m, payload, sig)
    decreases |env.anchors| - k
  {
    if k < |env.anchors| {
      if |env.anchors[k]| == 32 && !env.check(env.anchors[k], payload, sig) {
        assert Reached(env, k + 1, payload, sig);
        TrustMeans(env, k + 1, payload, sig);
      } else {
        assert Reached(env, k, payload, sig);
      }
    }
  }

  ghost predicate MeetsBadAnchor(env: Env, payload: Bytes, sig: Bytes) {
    exists m :: 0 <= m < |env.anchors| && |env.anchors[m]| != 32 && Reached(env, m, payload, sig)
  }

  ghost predicate SignedUnderAnchor(env: Env, payload: Bytes, sig: Bytes) {
    exists m :: 0 <= m < |env.anchors| && |env.anchors[m]| == 32 && env.check(env.anchors[m], payload, sig)
                && Reached(env, m, payload, sig)
  }

  /** Verifying the blob raises: it is well framed, and either meets an anchor that is not 32
      bytes long before one that verifies it, or is signed but holds bytes that are no text. */
  ghost predicate VerifyRaises(env: Env, blob: Bytes) {
    Wire.Split(blob).Some?
    && var (payload, sig) := Wire.Split(blob).value;
       MeetsBadAnchor(env, payload, sig) || (SignedUnderAnchor(env, payload, sig) && env.loads(payload).NotText?)
  }

  lemma VerifyRaisesExactly(env: Env, blob: Bytes)
    ensures VerifyBlob(env, blob).Escaped? <==> VerifyRaises(env, blob)
  {
    if Wire.Split(blob).Some? {
      var (payload, sig) := Wire.Split(blob).value;
      TrustMeans(env, 0, payload, sig);
    }
  }

  /** Which blobs are verified, and as what: those framed as a payload and a signature that checks
      under an anchor with only 32-byte anchors before it, the payload being JSON text. */
  lemma VerifiedExactly(env: Env, blob: Bytes, j: Json.Json)
    ensures VerifyBlob(env, blob) == Valid(j) <==>
      && |blob| >= 66 && |blob| == 66 + blob[0] as int * 256 + blob[1] as int
      && var payload, sig := blob[2..|blob| - 64], blob[|blob| - 64..];
        && (exists m :: 0 <= m < |env.anchors| && env.check(env.anchors[m], payload, sig)
                        && forall i :: 0 <= i <= m ==> |env.anchors[i]| == 32)
        && env.loads(payload) == Value(j)
  {
    if |blob| >= 66 && |blob| == 66 + blob[0] as int * 256 + blob[1] as int {
      var payload, sig := blob[2..|blob| - 64], blob[|blob| - 64..];
      assert Wire.Split(blob) == Some((payload, sig));
      TrustMeans(env, 0, payload, sig);
      if m :| 0 <= m < |env.anchors| && env.check(env.anchors[m], payload, sig)
              && forall i :: 0 <= i <= m ==> |env.anchors[i]| == 32 { FirstTrusted(env, payload, sig, m); }
    } else {
      assert Wire.Split(blob) == None;
    }
  }

  lemma {:induction false} FirstTrusted(env: Env, payload: Bytes, sig: Bytes, m: nat)
    requires m < |env.anchors| && env.check(env.anchors[m], payload, sig)
    requires forall i :: 0 <= i <= m ==> |env.anchors[i]| == 32
    ensures SignedUnderAnchor(env, payload, sig)
  {
    if i :| 0 <= i < m && env.check(env.anchors[i], payload, sig) { FirstTrusted(env, payload, sig, i); }
  }

  /** The comment on tick() promises that it never raises. It raises exactly when verifying a new
      blob does, when a new verified blob makes the rewrite raise, or when a failing tick reaches a
      streak of 24 and the termination raises. */
  lemma RaisesExactly(env: Env, s: State, e: Event)
    ensures Step(env, s, e).1.raised <==>
      var isNew := e.fetch.Fetched? && env.hash(e.fetch.blob) != s.hash;
      || (isNew && VerifyRaises(env, e.fetch.blob))
      || (isNew && Verified(env, e.fetch.blob) && e.calls.rewriteRaises(e.fetch.blob))
      || ((e.fetch.Failed? || (isNew && VerifyBlob(env, e.fetch.blob).Rejected?))
          && s.failures + 1 >= 24 && e.calls.terminateRaises)
  {
    if e.fetch.Fetched? { VerifyRaisesExactly(env, e.fetch.blob); }
  }

  /** With a first anchor of the wrong length every new, well-framed blob makes the tick raise. */
  lemma TickCanRaise(env: Env, s: State, blob: Bytes, payload: Bytes, sig: Bytes, calls: Calls)
    requires |env.anchors| > 0 && |env.anchors[0]| != 32
    requires Wire.EncodeBlob(payload, sig) == Wire.Blob(blob) && env.hash(blob) != s.hash
    ensures Step(env, s, Event(Fetched(blob, None), calls)) == (s, QUIET.(raised := true))
  {
    Wire.SplitExactly(blob, payload, sig);
  }

  /** A termination that exits the process, as the agent's does, makes every tick raise that ends
      a failing streak of 24. */
  lemma TerminatingTickRaises(env: Env, s: State, calls: Calls)
    requires s.failures + 1 >= 24 && calls.terminateRaises
    ensures Step(env, s, Event(Failed, calls))
      == (s.(failures := s.failures + 1), Report(true, true, None, true))
  {}
}
