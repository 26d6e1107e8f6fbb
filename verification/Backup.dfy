/** The backup protocol and its crash recovery: a log table, an object store that survives
    every crash, and a process that may stop between any two of its steps. */
module Backup {
  import opened Prelude

  type Bytes = seq<int>
  type Hash = Bytes -> string

  /** A row of the log, keyed by its generation. */
  datatype Row = Row(createdAt: int, size: nat, sha: string,
                     pushedAt: Option<int>, indexedAt: Option<int>, trigger: string)

  type Log = map<nat, Row>

  datatype Index = Index(highestGen: nat, sha: string, size: nat, ts: int)

  /** What outlives a crash: the log table, the stored blobs and index.json. */
  datatype State = State(log: Log, blobs: map<nat, Bytes>, index: Option<Index>)

  // ---- log table ----

  /** The greatest generation of the log; 0 if it is empty. */
  ghost function MaxGeneration(log: Log): (m: nat)
    ensures forall g :: g in log ==> g <= m
    ensures m == 0 || m in log
    decreases |log|
  {
    if log == map[] then 0
    else
      var g :| g in log;
      var m := MaxGeneration(log - {g});
      assert forall k :: k in log ==> k == g || k in log - {g};
      if m < g then g else m
  }

  function Started(log: Log, g: nat, trigger: string, now: int): Log {
    log[g := Row(now, 0, "", None, None, trigger)]
  }

  function Pushed(log: Log, g: nat, sha: string, size: nat, at: int): Log {
    if g in log then log[g := log[g].(sha := sha, size := size, pushedAt := Some(at))] else log
  }

  function Indexed(log: Log, g: nat, at: int): Log {
    if g in log then log[g := log[g].(indexedAt := Some(at))] else log
  }

  predicate Pending(log: Log, g: nat) {
    g in log && log[g].pushedAt.Some? && log[g].indexedAt.None?
  }

  /** `rows` names every pending generation once, in any order. */
  ghost predicate Lists(log: Log, rows: seq<nat>) {
    && (forall k :: 0 <= k < |rows| ==> Pending(log, rows[k]))
    && (forall g :: g in log && Pending(log, g) ==> g in rows)
    && (forall i, j :: 0 <= i < j < |rows| ==> rows[i] != rows[j])
  }

  predicate Covers(index: Option<Index>, g: nat) {
    index.Some? && index.value.highestGen >= g
  }

  // ---- the protocol as steps ----

  /** Where the process stands; a crash forgets it. */
  datatype Proc =
    | Idle
    | Opened(g: nat)
    | Uploaded(g: nat, blob: Bytes)
    | Marked(g: nat, blob: Bytes)
    | Announced(g: nat)
    | Recovering(todo: seq<nat>, resolved: nat)
    | Restored(g: nat, rest: seq<nat>, resolved: nat)

  datatype Event =
    | Start(trigger: string, now: int)
    | Upload(blob: Bytes)
    | MarkPushed(at: int)
    | PutIndex(ts: int)
    | MarkIndexed(at: int)
    | BeginRecovery(rows: seq<nat>)
    | RecoverRow(now: int)
    | StampRow(now: int)
    | EndRecovery
    | Crash

  datatype Sys = Sys(st: State, proc: Proc)

  /** Whether the process is at the point where the event can happen. */
  ghost predicate Enabled(s: Sys, e: Event) {
    match e
    case Start(_, _) => s.proc.Idle?
    case Upload(_) => s.proc.Opened?
    case MarkPushed(_) => s.proc.Uploaded?
    case PutIndex(_) => s.proc.Marked?
    case MarkIndexed(_) => s.proc.Announced?
    case BeginRecovery(rows) => s.proc.Idle? && Lists(s.st.log, rows)
    case RecoverRow(_) => s.proc.Recovering? && s.proc.todo != [] && s.proc.todo[0] in s.st.log
    case StampRow(_) => s.proc.Restored?
    case EndRecovery => s.proc.Recovering? && s.proc.todo == []
    case Crash => true
  }

  ghost function Step(h: Hash, s: Sys, e: Event): Sys
    requires Enabled(s, e)
  {
    var st, p := s.st, s.proc;
    match e
    case Start(trigger, now) =>
      var g := MaxGeneration(st.log) + 1;
      Sys(st.(log := Started(st.log, g, trigger, now)), Opened(g))
    case Upload(blob) => Sys(st.(blobs := st.blobs[p.g := blob]), Uploaded(p.g, blob))
    case MarkPushed(at) =>
      Sys(st.(log := Pushed(st.log, p.g, h(p.blob), |p.blob|, at)), Marked(p.g, p.blob))
    case PutIndex(ts) =>
      Sys(st.(index := Some(Index(p.g, h(p.blob), |p.blob|, ts))), Announced(p.g))
    case MarkIndexed(at) => Sys(st.(log := Indexed(st.log, p.g, at)), Idle)
    case BeginRecovery(rows) => Sys(st, Recovering(rows, 0))
    case RecoverRow(now) =>
      var g, rest := p.todo[0], p.todo[1..];
      if g !in st.blobs then Sys(st, Recovering(rest, p.resolved))
      else if Covers(st.index, g) then Sys(st, Restored(g, rest, p.resolved))
      else Sys(Reannounced(st, g, now), Restored(g, rest, p.resolved))
    case StampRow(now) =>
      Sys(st.(log := Indexed(st.log, p.g, now)), Recovering(p.rest, p.resolved + 1))
    case EndRecovery => Sys(st, Idle)
    case Crash => Sys(st, Idle)
  }

  /** index.json rewritten from the log row of generation g. */
  function Reannounced(st: State, g: nat, now: int): State
    requires g in st.log
  {
    st.(index := Some(Index(g, st.log[g].sha, st.log[g].size, now)))
  }

  ghost predicate CanRun(h: Hash, s: Sys, es: seq<Event>)
    decreases |es|
  {
    es == [] || (Enabled(s, es[0]) && CanRun(h, Step(h, s, es[0]), es[1..]))
  }

  ghost function Run(h: Hash, s: Sys, es: seq<Event>): Sys
    requires CanRun(h, s, es)
    decreases |es|
  {
    if es == [] then s else Run(h, Step(h, s, es[0]), es[1..])
  }

  const EMPTY := Sys(State(map[], map[], None), Idle)

  // ---- the invariant ----

  /** The row carries the hash and size of the blob stored for its generation. */
  ghost predicate Backed(h: Hash, st: State, g: nat) {
    g in st.log && g in st.blobs && st.log[g].sha == h(st.blobs[g]) && st.log[g].size == |st.blobs[g]|
  }

  ghost predicate PushedRow(log: Log, g: nat) {
    g in log && log[g].pushedAt.Some?
  }

  ghost predicate Durable(h: Hash, st: State) {
    && (forall g :: g in st.blobs ==> g in st.log)
    && (forall g :: PushedRow(st.log, g) ==> Backed(h, st, g))
    && (forall g :: g in st.log && st.log[g].indexedAt.Some? ==> PushedRow(st.log, g) && Covers(st.index, g))
    && (st.index.Some? ==>
          var i := st.index.value;
          PushedRow(st.log, i.highestGen) && st.log[i.highestGen].sha == i.sha && st.log[i.highestGen].size == i.size)
  }

  ghost predicate Newest(log: Log, g: nat) {
    g in log && forall k :: k in log ==> k <= g
  }

  ghost predicate Inv(h: Hash, s: Sys) {
    && Durable(h, s.st)
    && match s.proc
       case Idle => true
       case Opened(g) => Newest(s.st.log, g) && g !in s.st.blobs && !PushedRow(s.st.log, g)
       case Uploaded(g, blob) => Newest(s.st.log, g) && g in s.st.blobs && s.st.blobs[g] == blob
         && !PushedRow(s.st.log, g)
       case Marked(g, blob) => Newest(s.st.log, g) && PushedRow(s.st.log, g) && g in s.st.blobs && s.st.blobs[g] == blob
       case Announced(g) => PushedRow(s.st.log, g) && Covers(s.st.index, g)
       case Recovering(todo, _) => forall k :: 0 <= k < |todo| ==> PushedRow(s.st.log, todo[k])
       case Restored(g, rest, _) =>
         && PushedRow(s.st.log, g) && Covers(s.st.index, g)
         && forall k :: 0 <= k < |rest| ==> PushedRow(s.st.log, rest[k])
  }

  /** The highest announced generation does not fall. */
  ghost predicate NotLower(a: Option<Index>, b: Option<Index>) {
    a.Some? ==> b.Some? && a.value.highestGen <= b.value.highestGen
  }

  lemma UploadKeeps(h: Hash, s: Sys, e: Event)
    requires Inv(h, s) && Enabled(s, e) && e.Upload?
    ensures Inv(h, Step(h, s, e)) && NotLower(s.st.index, Step(h, s, e).st.index)
  {}

  lemma StartKeeps(h: Hash, s: Sys, e: Event)
    requires Inv(h, s) && Enabled(s, e) && e.Start?
    ensures Inv(h, Step(h, s, e)) && NotLower(s.st.index, Step(h, s, e).st.index)
  {
    var log, log' := s.st.log, Step(h, s, e).st.log;
    assert forall k :: PushedRow(log', k) <==> PushedRow(log, k);
  }

  lemma MarkPushedKeeps(h: Hash, s: Sys, e: Event)
    requires Inv(h, s) && Enabled(s, e) && (e.MarkPushed?)
    ensures Inv(h, Step(h, s, e)) && NotLower(s.st.index, Step(h, s, e).st.index)
  {
    var log, log' := s.st.log, Step(h, s, e).st.log;
    assert forall k :: PushedRow(log', k) ==> k == s.proc.g || PushedRow(log, k);
    assert forall k :: PushedRow(log, k) ==> PushedRow(log', k);
  }

  lemma PutIndexKeeps(h: Hash, s: Sys, e: Event)
    requires Inv(h, s) && Enabled(s, e) && (e.PutIndex?)
    ensures Inv(h, Step(h, s, e)) && NotLower(s.st.index, Step(h, s, e).st.index)
  {}

  lemma MarkIndexedKeeps(h: Hash, s: Sys, e: Event)
    requires Inv(h, s) && Enabled(s, e) && (e.MarkIndexed? || e.StampRow?)
    ensures Inv(h, Step(h, s, e)) && NotLower(s.st.index, Step(h, s, e).st.index)
  {
    var log, log' := s.st.log, Step(h, s, e).st.log;
    assert forall k :: PushedRow(log', k) <==> PushedRow(log, k);
  }

  lemma RecoverRowKeeps(h: Hash, s: Sys, e: Event)
    requires Inv(h, s) && Enabled(s, e) && (e.RecoverRow?)
    ensures Inv(h, Step(h, s, e)) && NotLower(s.st.index, Step(h, s, e).st.index)
  {}

  lemma QuietStepKeeps(h: Hash, s: Sys, e: Event)
    requires Inv(h, s) && Enabled(s, e) && (e.BeginRecovery? || e.EndRecovery? || e.Crash?)
    ensures Inv(h, Step(h, s, e)) && NotLower(s.st.index, Step(h, s, e).st.index)
  {}

  /** Every step, crashes included, keeps the invariant and never lowers the index. */
  lemma StepKeeps(h: Hash, s: Sys, e: Event)
    requires Inv(h, s) && Enabled(s, e)
    ensures Inv(h, Step(h, s, e)) && NotLower(s.st.index, Step(h, s, e).st.index)
  {
    match e
    case Start(_, _) => StartKeeps(h, s, e);
    case Upload(_) => UploadKeeps(h, s, e);
    case MarkPushed(_) => MarkPushedKeeps(h, s, e);
    case PutIndex(_) => PutIndexKeeps(h, s, e);
    case MarkIndexed(_) => MarkIndexedKeeps(h, s, e);
    case StampRow(_) => MarkIndexedKeeps(h, s, e);
    case RecoverRow(_) => RecoverRowKeeps(h, s, e);
    case _ => QuietStepKeeps(h, s, e);
  }

  lemma {:induction false} RunKeeps(h: Hash, s: Sys, es: seq<Event>)
    requires Inv(h, s) && CanRun(h, s, es)
    ensures Inv(h, Run(h, s, es)) && NotLower(s.st.index, Run(h, s, es).st.index)
    decreases |es|
  {
    if es != [] {
      StepKeeps(h, s, es[0]);
      RunKeeps(h, Step(h, s, es[0]), es[1..]);
    }
  }

  /** In every state a run of backups, recoveries and crashes reaches: a pushed row's blob is
      stored under the recorded hash and size, and the index names such a row. */
  lemma ReachableIsDurable(h: Hash, es: seq<Event>, more: seq<Event>)
    requires CanRun(h, EMPTY, es) && CanRun(h, Run(h, EMPTY, es), more)
    ensures var a, b := Run(h, EMPTY, es), Run(h, Run(h, EMPTY, es), more);
      && (forall g :: PushedRow(a.st.log, g) ==> Backed(h, a.st, g))
      && (a.st.index.Some? ==>
            var i := a.st.index.value;
            PushedRow(a.st.log, i.highestGen) && i.sha == h(a.st.blobs[i.highestGen])
            && i.sha == a.st.log[i.highestGen].sha)
      && NotLower(a.st.index, b.st.index)
  {
    RunKeeps(h, EMPTY, es);
    RunKeeps(h, Run(h, EMPTY, es), more);
  }

  // ---- a whole recovery ----

  datatype Recovery = Recovery(st: State, resolved: nat)

  /** One pending row: skipped if its blob is missing, otherwise announced if need be, and stamped. */
  function RecoverOne(st: State, g: nat, now: int): State
    requires g in st.log
  {
    if g !in st.blobs then st
    else
      var st1 := if Covers(st.index, g) then st else Reannounced(st, g, now);
      st1.(log := Indexed(st1.log, g, now))
  }

  /** The loop over the pending rows, from row to row. */
  function Recover(st: State, rows: seq<nat>, n: nat, now: int): Recovery
    requires forall k :: 0 <= k < |rows| ==> rows[k] in st.log
    decreases |rows|
  {
    if rows == [] then Recovery(st, n)
    else if rows[0] !in st.blobs then Recover(st, rows[1..], n, now)
    else Recover(RecoverOne(st, rows[0], now), rows[1..], n + 1, now)
  }

  function Resolvable(st: State): set<nat> {
    set g | g in st.log && Pending(st.log, g) && g in st.blobs
  }

  function StoredOf(rows: seq<nat>, blobs: map<nat, Bytes>): set<nat> {
    set g | g in rows && g in blobs
  }

  /** The index after restoring the generations `fixed`: the old one if it is at least as high
      as all of them, otherwise the row of the highest of them. */
  ghost predicate IndexRaised(before: Option<Index>, after: Option<Index>, fixed: set<nat>, log: Log, now: int) {
    && NotLower(before, after)
    && (forall g :: g in fixed ==> Covers(after, g))
    && (after != before ==>
          && after.Some?
          && var g := after.value.highestGen;
             && g in fixed && g in log && !Covers(before, g)
             && after.value == Index(g, log[g].sha, log[g].size, now))
  }

  ghost predicate Stamped(a: Log, b: Log, fixed: set<nat>, now: int) {
    && a.Keys == b.Keys
    && forall g :: g in a ==> b[g] == if g in fixed then a[g].(indexedAt := Some(now)) else a[g]
  }

  lemma {:induction false} RecoverEffect(st: State, rows: seq<nat>, n: nat, now: int)
    requires forall k :: 0 <= k < |rows| ==> rows[k] in st.log
    requires forall i, j :: 0 <= i < j < |rows| ==> rows[i] != rows[j]
    ensures var r, fixed := Recover(st, rows, n, now), StoredOf(rows, st.blobs);
      && r.st.blobs == st.blobs
      && r.resolved == n + |fixed|
      && Stamped(st.log, r.st.log, fixed, now)
      && IndexRaised(st.index, r.st.index, fixed, st.log, now)
    decreases |rows|
  {
    if rows == [] {
      assert StoredOf(rows, st.blobs) == {};
    } else {
      var g, rest := rows[0], rows[1..];
      var st1 := RecoverOne(st, g, now);
      var n1 := if g in st.blobs then n + 1 else n;
      RecoverEffect(st1, rest, n1, now);
      StoredOfCons(rows, st.blobs);
      var fixed, r := StoredOf(rest, st.blobs), Recover(st1, rest, n1, now);
      if g in st.blobs { EffectsCompose(st, g, now, fixed, r.st); }
    }
  }

  lemma StoredOfCons(rows: seq<nat>, blobs: map<nat, Bytes>)
    requires rows != [] && forall i, j :: 0 <= i < j < |rows| ==> rows[i] != rows[j]
    ensures rows[0] !in StoredOf(rows[1..], blobs)
    ensures StoredOf(rows, blobs) ==
            StoredOf(rows[1..], blobs) + (if rows[0] in blobs then {rows[0]} else {})
  {
    assert forall k :: k in rows <==> k == rows[0] || k in rows[1..];
  }

  lemma EffectsCompose(st: State, g: nat, now: int, fixed: set<nat>, end: State)
    requires g in st.log && g in st.blobs && g !in fixed
    requires var st1 := RecoverOne(st, g, now);
      Stamped(st1.log, end.log, fixed, now) && IndexRaised(st1.index, end.index, fixed, st1.log, now)
    ensures Stamped(st.log, end.log, fixed + {g}, now)
    ensures IndexRaised(st.index, end.index, fixed + {g}, st.log, now)
  {}

  lemma RecoveryDone(st: State, rows: seq<nat>, now: int)
    requires Lists(st.log, rows)
    ensures var r := Recover(st, rows, 0, now);
      && r.st.blobs == st.blobs
      && r.resolved == |Resolvable(st)|
      && Stamped(st.log, r.st.log, Resolvable(st), now)
      && IndexRaised(st.index, r.st.index, Resolvable(st), st.log, now)
      && Resolvable(r.st) == {}
  {
    RecoverEffect(st, rows, 0, now);
    assert StoredOf(rows, st.blobs) == Resolvable(st);
  }

  /** A completed recovery, whatever order the pending rows come in: exactly the rows pushed but not
      indexed whose blobs are stored are stamped and counted; the index is rewritten from the row of
      the highest of them, g, unless it is at least as high already. */
  lemma RecoveryCompletes(st: State, rows: seq<nat>, now: int, g: nat)
    requires forall k :: k in rows <==> k in st.log && st.log[k].pushedAt.Some? && st.log[k].indexedAt.None?
    requires forall i, j :: 0 <= i < j < |rows| ==> rows[i] != rows[j]
    ensures var r := Recover(st, rows, 0, now);
      var fixed := set k | k in st.log && st.log[k].pushedAt.Some? && st.log[k].indexedAt.None? && k in st.blobs;
      && r.st.blobs == st.blobs && r.resolved == |fixed| && r.st.log.Keys == st.log.Keys
      && (forall k :: k in st.log ==>
            r.st.log[k] == if k in fixed then st.log[k].(indexedAt := Some(now)) else st.log[k])
      && (fixed == {} ==> r.st.index == st.index)
      && (g in fixed && (forall k :: k in fixed ==> k <= g) ==>
            r.st.index == if st.index.Some? && st.index.value.highestGen >= g then st.index
                          else Some(Index(g, st.log[g].sha, st.log[g].size, now)))
  {
    assert Lists(st.log, rows);
    RecoveryDone(st, rows, now);
    assert Resolvable(st)
      == set k | k in st.log && st.log[k].pushedAt.Some? && st.log[k].indexedAt.None? && k in st.blobs;
  }

  /** Recovering again at once finds nothing to do. */
  lemma SecondRecoveryIsIdle(st: State, rows: seq<nat>, now: int, rows2: seq<nat>, later: int)
    requires Lists(st.log, rows) && Lists(Recover(st, rows, 0, now).st.log, rows2)
    ensures Recover(Recover(st, rows, 0, now).st, rows2, 0, later) == Recovery(Recover(st, rows, 0, now).st, 0)
  {
    var st1 := Recover(st, rows, 0, now).st;
    RecoveryDone(st, rows, now);
    RecoverEffect(st1, rows2, 0, later);
    assert StoredOf(rows2, st1.blobs) == Resolvable(st1);
    assert Recover(st1, rows2, 0, later).st.log == st1.log;
  }

  /** The order in which the pending rows come does not matter. */
  lemma RecoveryOrderIrrelevant(st: State, rows: seq<nat>, rows2: seq<nat>, now: int)
    requires Lists(st.log, rows) && Lists(st.log, rows2)
    ensures Recover(st, rows, 0, now) == Recover(st, rows2, 0, now)
  {
    RecoveryDone(st, rows, now);
    RecoveryDone(st, rows2, now);
    assert Recover(st, rows, 0, now).st.log == Recover(st, rows2, 0, now).st.log;
  }

  // ---- completed operations are runs ----

  lemma {:induction false} RunAppend(h: Hash, s: Sys, a: seq<Event>, b: seq<Event>)
    requires CanRun(h, s, a) && CanRun(h, Run(h, s, a), b)
    ensures CanRun(h, s, a + b) && Run(h, s, a + b) == Run(h, Run(h, s, a), b)
    decreases |a|
  {
    if a == [] {
      assert a + b == b;
    } else {
      assert (a + b)[1..] == a[1..] + b;
      RunAppend(h, Step(h, s, a[0]), a[1..], b);
    }
  }

  /** The events of the loop over the pending rows. */
  ghost function RecoveryEvents(st: State, rows: seq<nat>, now: int): seq<Event>
    requires forall k :: 0 <= k < |rows| ==> rows[k] in st.log
    decreases |rows|
  {
    if rows == [] then [EndRecovery]
    else
      [RecoverRow(now)] + (if rows[0] in st.blobs then [StampRow(now)] else []) +
      RecoveryEvents(RecoverOne(st, rows[0], now), rows[1..], now)
  }

  lemma {:induction false} RecoveryIsRun(h: Hash, st: State, rows: seq<nat>, n: nat, now: int)
    requires forall k :: 0 <= k < |rows| ==> rows[k] in st.log
    ensures var s, es := Sys(st, Recovering(rows, n)), RecoveryEvents(st, rows, now);
      CanRun(h, s, es) && Run(h, s, es) == Sys(Recover(st, rows, n, now).st, Idle)
    decreases |rows|
  {
    var s, es := Sys(st, Recovering(rows, n)), RecoveryEvents(st, rows, now);
    if rows == [] {
      assert es[1..] == [];
      assert Run(h, s, es) == Step(h, s, EndRecovery);
    } else {
      var st1 := RecoverOne(st, rows[0], now);
      var n1 := if rows[0] in st.blobs then n + 1 else n;
      var tail := RecoveryEvents(st1, rows[1..], now);
      RecoveryIsRun(h, st1, rows[1..], n1, now);
      var s1 := Step(h, s, RecoverRow(now));
      if rows[0] in st.blobs {
        assert es[1..] == [StampRow(now)] + tail;
        assert es[1..][1..] == tail;
        assert Step(h, s1, StampRow(now)) == Sys(st1, Recovering(rows[1..], n1));
      } else {
        assert es[1..] == tail;
      }
    }
  }

  lemma RunNext(h: Hash, s: Sys, es: seq<Event>, k: nat)
    requires k < |es| && CanRun(h, s, es[..k]) && Enabled(Run(h, s, es[..k]), es[k])
    ensures CanRun(h, s, es[..k + 1]) && Run(h, s, es[..k + 1]) == Step(h, Run(h, s, es[..k]), es[k])
  {
    assert es[..k + 1] == es[..k] + [es[k]];
    RunAppend(h, s, es[..k], [es[k]]);
  }

  // ---- the failure streak ----

  /** Unpushed rows met going down from generation n until the first pushed one. */
  function Streak(log: Log, n: nat): nat {
    var below := if n == 0 then 0 else Streak(log, n - 1);
    if n !in log then below
    else if log[n].pushedAt.Some? then 0
    else 1 + below
  }

  /** The generations up to n that are newer than every pushed one up to n. */
  ghost function Unpushed(log: Log, n: nat): set<nat> {
    set g | g in log && g <= n && forall k :: g <= k <= n && k in log ==> log[k].pushedAt.None?
  }

  lemma {:induction false} StreakCounts(log: Log, n: nat)
    ensures Streak(log, n) == |Unpushed(log, n)|
  {
    if n > 0 { StreakCounts(log, n - 1); }
    UnpushedBelow(log, n);
  }

  lemma UnpushedBelow(log: Log, n: nat)
    ensures var below := if n == 0 then {} else Unpushed(log, n - 1);
      && n !in below
      && Unpushed(log, n) == (if n !in log then below else if log[n].pushedAt.Some? then {} else below + {n})
  {
    if n in log && log[n].pushedAt.None? {
      assert forall g :: g in Unpushed(log, n) && g != n ==> n > 0 && g in Unpushed(log, n - 1);
    }
  }

  lemma MaxIs(log: Log, m: nat)
    requires (forall g :: g in log ==> g <= m) && (m == 0 || m in log)
    ensures m == MaxGeneration(log)
  {}

  // ---- the controller ----

  datatype Mode = Production | DryRun | Offline

  datatype Outcome = Done(g: nat) | Refused | Raised

  /** The operations of one backup, with the clock readings they take. */
  function BackupEvents(trigger: string, blob: Bytes, clock: seq<int>): (es: seq<Event>)
    requires |clock| == 4
    ensures |es| == 5
  {
    [Start(trigger, clock[0]), Upload(blob), MarkPushed(clock[1]), PutIndex(clock[2]), MarkIndexed(clock[3])]
  }

  /** The system after the first k operations of a backup. */
  ghost function AfterSteps(h: Hash, st: State, trigger: string, blob: Bytes, clock: seq<int>, k: nat): Sys
    requires |clock| == 4 && k <= 5
  {
    var g := MaxGeneration(st.log) + 1;
    var log1 := Started(st.log, g, trigger, clock[0]);
    var log3 := Pushed(log1, g, h(blob), |blob|, clock[1]);
    var log := if k == 0 then st.log else if k <= 2 then log1 else if k <= 4 then log3 else Indexed(log3, g, clock[3]);
    Sys(State(log,
              if k >= 2 then st.blobs[g := blob] else st.blobs,
              if k >= 4 then Some(Index(g, h(blob), |blob|, clock[2])) else st.index),
        match k case 1 => Opened(g) case 2 => Uploaded(g, blob)
        case 3 => Marked(g, blob) case 4 => Announced(g) case _ => Idle)
  }

  lemma {:induction false} BackupIsRun(h: Hash, st: State, trigger: string, blob: Bytes, clock: seq<int>, k: nat)
    requires |clock| == 4 && k <= 5
    ensures var s, es := Sys(st, Idle), BackupEvents(trigger, blob, clock)[..k];
      CanRun(h, s, es) && Run(h, s, es) == AfterSteps(h, st, trigger, blob, clock, k)
  {
    if k > 0 {
      BackupIsRun(h, st, trigger, blob, clock, k - 1);
      RunNext(h, Sys(st, Idle), BackupEvents(trigger, blob, clock), k - 1);
    }
  }

  /** What the first k operations of a backup leave: one new row, of the generation after the greatest,
      with the size and hash of the blob from the push on; the blob under that generation; an index
      that names it. */
  lemma BackupLeaves(h: Hash, st: State, trigger: string, blob: Bytes, clock: seq<int>, k: nat)
    requires |clock| == 4 && k <= 5
    ensures var s, all := Sys(st, Idle),
        [Start(trigger, clock[0]), Upload(blob), MarkPushed(clock[1]), PutIndex(clock[2]), MarkIndexed(clock[3])];
      && CanRun(h, s, all[..k])
      && var after, g := Run(h, s, all[..k]).st, MaxGeneration(st.log) + 1;
        && after.log == (
             if k == 0 then st.log
             else if k <= 2 then st.log[g := Row(clock[0], 0, "", None, None, trigger)]
             else st.log[g := Row(clock[0], |blob|, h(blob), Some(clock[1]), if k == 5 then Some(clock[3]) else None,
                                  trigger)])
        && after.blobs == (if k >= 2 then st.blobs[g := blob] else st.blobs)
        && after.index == if k >= 4 then Some(Index(g, h(blob), |blob|, clock[2])) else st.index
  {
    BackupIsRun(h, st, trigger, blob, clock, k);
  }

  /** Once the row is marked pushed there is no failure streak. */
  lemma NewestPushed(h: Hash, st: State, trigger: string, blob: Bytes, clock: seq<int>, k: nat)
    requires |clock| == 4 && 3 <= k <= 5
    ensures var log := AfterSteps(h, st, trigger, blob, clock, k).st.log; Streak(log, MaxGeneration(log)) == 0
  {
    var log, g := AfterSteps(h, st, trigger, blob, clock, k).st.log, MaxGeneration(st.log) + 1;
    assert log.Keys == st.log.Keys + {g};
    MaxIs(log, g);
  }

  // ---- the alarm and failures in a row ----

  /** The length of the scan's streak on a log. */
  ghost function FailureStreak(log: Log): nat { Streak(log, MaxGeneration(log)) }

  lemma {:induction false} StreakIsLocal(a: Log, b: Log, n: nat)
    requires forall g :: g <= n ==> (g in a <==> g in b) && (g in a ==> a[g] == b[g])
    ensures Streak(a, n) == Streak(b, n)
  {
    if n > 0 { StreakIsLocal(a, b, n - 1); }
  }

  /** What the first k operations of a backup do to the streak: none leaves it, a row started but not
      pushed adds one, a pushed row clears it. */
  lemma StreakAfterSteps(h: Hash, st: State, trigger: string, blob: Bytes, clock: seq<int>, k: nat)
    requires |clock| == 4 && k <= 5
    ensures FailureStreak(AfterSteps(h, st, trigger, blob, clock, k).st.log) ==
      if k == 0 then FailureStreak(st.log) else if k <= 2 then FailureStreak(st.log) + 1 else 0
  {
    if k >= 3 {
      NewestPushed(h, st, trigger, blob, clock, k);
    } else if k >= 1 {
      var log, g := AfterSteps(h, st, trigger, blob, clock, k).st.log, MaxGeneration(st.log) + 1;
      assert log.Keys == st.log.Keys + {g};
      MaxIs(log, g);
      StreakIsLocal(log, st.log, g - 1);
    }
  }

  /** One call of do_backup outside offline mode: its inputs, and how many operations succeed. */
  datatype Call = Call(trigger: string, blob: Bytes, clock: seq<int>, steps: nat)

  ghost predicate Calls(cs: seq<Call>) { forall i :: 0 <= i < |cs| ==> |cs[i].clock| == 4 && cs[i].steps <= 5 }

  ghost function AfterCalls(h: Hash, st: State, cs: seq<Call>): State
    requires Calls(cs)
    decreases |cs|
  {
    if cs == [] then st
    else
      var c := cs[|cs| - 1];
      AfterSteps(h, AfterCalls(h, st, cs[..|cs| - 1]), c.trigger, c.blob, c.clock, c.steps).st
  }

  /** The call stopped after its row was started and before it was marked pushed. */
  predicate Lost(c: Call) { 1 <= c.steps <= 2 }

  /** The lost calls since the last one that got as far as the push, added to a streak from before
      if there was none. */
  function LostSincePush(cs: seq<Call>, before: nat): nat
    decreases |cs|
  {
    if cs == [] then before
    else
      var n := |cs| - 1;
      if cs[n].steps >= 3 then 0 else LostSincePush(cs[..n], before) + if Lost(cs[n]) then 1 else 0
  }

  /** After any calls, completed or not, the streak counts the lost ones since the last push. */
  lemma {:induction false} StreakAfterCalls(h: Hash, st: State, cs: seq<Call>)
    requires Calls(cs)
    ensures FailureStreak(AfterCalls(h, st, cs).log) == LostSincePush(cs, FailureStreak(st.log))
    decreases |cs|
  {
    if cs != [] {
      var n := |cs| - 1;
      StreakAfterCalls(h, st, cs[..n]);
      StreakAfterSteps(h, AfterCalls(h, st, cs[..n]), cs[n].trigger, cs[n].blob, cs[n].clock, cs[n].steps);
    }
  }

  /** The alarm is raised by the last of these calls, as DoBackup decides it. */
  ghost predicate Alarms(h: Hash, st: State, cs: seq<Call>)
    requires Calls(cs) && cs != []
  {
    cs[|cs| - 1].steps < 5 && FailureStreak(AfterCalls(h, st, cs).log) >= 3
  }

  /** The last of any calls raises the alarm exactly when it failed and at least three were lost
      since the last push, those before the first call included. */
  lemma AlarmsExactly(h: Hash, st: State, cs: seq<Call>)
    requires Calls(cs) && cs != []
    ensures Alarms(h, st, cs) <==> cs[|cs| - 1].steps < 5 && LostSincePush(cs, FailureStreak(st.log)) >= 3
  {
    StreakAfterCalls(h, st, cs);
  }

  /** Of three failures in a row after a success, the third raises the alarm exactly when each of
      them stopped between the start of its row and the push. */
  lemma ThirdFailureAlarms(h: Hash, st: State, a: Call, b: Call, c: Call)
    requires Calls([a, b, c]) && FailureStreak(st.log) == 0 && a.steps < 5 && b.steps < 5 && c.steps < 5
    ensures Alarms(h, st, [a, b, c]) <==> 1 <= a.steps <= 2 && 1 <= b.steps <= 2 && 1 <= c.steps <= 2
  {
    var cs := [a, b, c];
    AlarmsExactly(h, st, cs);
    LastOf(cs[..2], c, 0);
    LastOf(cs[..1], b, 0);
    LastOf([], a, 0);
    assert cs == cs[..2] + [c] && cs[..2] == cs[..1] + [b] && cs[..1] == [] + [a];
  }

  lemma LastOf(front: seq<Call>, c: Call, before: nat)
    ensures LostSincePush(front + [c], before) ==
      if c.steps >= 3 then 0 else LostSincePush(front, before) + if Lost(c) then 1 else 0
  {
    assert (front + [c])[..|front|] == front;
  }

  // ---- recovery of reachable states ----

  /** A recovery keeps the invariant of the stored state. */
  lemma RecoverKeepsDurable(h: Hash, st: State, rows: seq<nat>, now: int)
    requires Durable(h, st) && Lists(st.log, rows)
    ensures Durable(h, Recover(st, rows, 0, now).st)
  {
    var s := Sys(st, Recovering(rows, 0));
    RecoveryIsRun(h, st, rows, 0, now);
    assert Inv(h, s);
    RunKeeps(h, s, RecoveryEvents(st, rows, now));
  }

  /** From every reachable state with the process idle, a completed recovery leaves no pending row at
      all, and an index that covers every pushed generation. */
  lemma RecoveryOfReachable(h: Hash, es: seq<Event>, rows: seq<nat>, now: int)
    requires CanRun(h, EMPTY, es) && Run(h, EMPTY, es).proc.Idle?
    requires Lists(Run(h, EMPTY, es).st.log, rows)
    ensures var st := Recover(Run(h, EMPTY, es).st, rows, 0, now).st;
      && Durable(h, st)
      && (forall g :: g in st.log && st.log[g].pushedAt.Some? ==>
            st.log[g].indexedAt.Some? && st.index.Some? && st.index.value.highestGen >= g)
  {
    RunKeeps(h, EMPTY, es);
    var before := Run(h, EMPTY, es).st;
    var st := Recover(before, rows, 0, now).st;
    RecoverKeepsDurable(h, before, rows, now);
    RecoveryDone(before, rows, now);
    forall g | g in st.log && st.log[g].pushedAt.Some? ensures st.log[g].indexedAt.Some? {
      assert g !in Resolvable(st);
      assert PushedRow(st.log, g) && Backed(h, st, g);
    }
  }

  class Controller {
    var log: Log
    var blobs: map<nat, Bytes>
    var index: Option<Index>
    var selfAlarms: seq<nat>

    ghost function St(): State reads this { State(log, blobs, index) }

    constructor ()
      ensures St() == EMPTY.st && selfAlarms == []
    {
      log, blobs, index, selfAlarms := map[], map[], None, [];
    }

    method MaxOfLog() returns (m: nat)
      ensures m == MaxGeneration(log)
    {
      m := 0;
      var rest := log.Keys;
      while rest != {}
        invariant rest <= log.Keys
        invariant forall g :: g in log && g !in rest ==> g <= m
        invariant m == 0 || m in log
        decreases |rest|
      {
        var g :| g in rest;
        if m < g { m := g; }
        rest := rest - {g};
      }
      MaxIs(log, m);
    }

    /** Pending rows in order of generation. */
    method ListPending() returns (rows: seq<nat>)
      ensures Lists(log, rows)
      ensures forall i, j :: 0 <= i < j < |rows| ==> rows[i] < rows[j]
    {
      var m := MaxOfLog();
      rows := [];
      for g := 0 to m + 1
        invariant forall k :: 0 <= k < |rows| ==> Pending(log, rows[k]) && rows[k] < g
        invariant forall k :: 0 <= k < g && Pending(log, k) ==> k in rows
        invariant forall i, j :: 0 <= i < j < |rows| ==> rows[i] < rows[j]
      {
        if Pending(log, g) { rows := rows + [g]; }
      }
    }

    method ReconcilePending(now: int) returns (resolved: nat)
      modifies this
      ensures blobs == old(blobs) && selfAlarms == old(selfAlarms)
      ensures exists rows :: Lists(old(log), rows) && Recovery(St(), resolved) == Recover(old(St()), rows, 0, now)
      ensures resolved == |Resolvable(old(St()))|
      ensures Stamped(old(log), log, Resolvable(old(St())), now)
      ensures IndexRaised(old(index), index, Resolvable(old(St())), old(log), now)
      ensures Resolvable(St()) == {}
    {
      var pending := ListPending();
      resolved := 0;
      ghost var st := St();
      ghost var i := 0;
      var todo := pending;
      while todo != []
        invariant forall k :: 0 <= k < |todo| ==> todo[k] in log
        invariant Recover(St(), todo, resolved, now) == Recover(st, pending, 0, now)
        invariant selfAlarms == old(selfAlarms)
        decreases |todo|
      {
        var g := todo[0];
        todo := todo[1..];
        if g !in blobs { continue; }
        if !Covers(index, g) {
          index := Some(Index(g, log[g].sha, log[g].size, now));
        }
        log := Indexed(log, g, now);
        resolved := resolved + 1;
      }
      RecoveryDone(st, pending, now);
    }

    /** The rows newer than the newest pushed one. */
    method CountConsecutiveFailures() returns (streak: nat)
      ensures streak == FailureStreak(log) == |Unpushed(log, MaxGeneration(log))|
    {
      var m := MaxOfLog();
      streak := Streak(log, m);
      StreakCounts(log, m);
    }

    /** The operations of a backup, of which the first `steps` succeed and the next one raises. */
    method DoBackupLocked(h: Hash, trigger: string, blob: Bytes, clock: seq<int>, steps: nat) returns (r: Outcome)
      requires |clock| == 4 && steps <= 5
      modifies this
      ensures St() == AfterSteps(h, old(St()), trigger, blob, clock, steps).st && selfAlarms == old(selfAlarms)
      ensures r == if steps == 5 then Done(MaxGeneration(old(log)) + 1) else Raised
    {
      if steps == 0 { return Raised; }
      var m := MaxOfLog();
      var g := m + 1;
      log := Started(log, g, trigger, clock[0]);
      if steps == 1 { return Raised; }
      blobs := blobs[g := blob];
      if steps == 2 { return Raised; }
      log := Pushed(log, g, h(blob), |blob|, clock[1]);
      if steps == 3 { return Raised; }
      index := Some(Index(g, h(blob), |blob|, clock[2]));
      if steps == 4 { return Raised; }
      log := Indexed(log, g, clock[3]);
      return Done(g);
    }

    /** One backup: its operations are a run of the step relation, and a failure raises the alarm
        when the streak it leaves is at least three. The streak counts rows that were never pushed,
        so a backup that fails at the index clears it. */
    method DoBackup(h: Hash, mode: Mode, trigger: string, blob: Bytes, clock: seq<int>, steps: nat)
      returns (r: Outcome)
      requires |clock| == 4 && steps <= 5
      modifies this
      ensures mode == Offline ==> r == Refused && St() == old(St()) && selfAlarms == old(selfAlarms)
      ensures mode != Offline ==>
        var es := BackupEvents(if mode == Production then trigger else "dryrun:" + trigger, blob, clock)[..steps];
        var s := Sys(old(St()), Idle);
        && CanRun(h, s, es) && St() == Run(h, s, es).st
        && r == (if steps == 5 then Done(MaxGeneration(old(log)) + 1) else Raised)
      ensures mode != Offline ==>
        var before := FailureStreak(old(log));
        var streak := if steps == 0 then before else if steps <= 2 then before + 1 else 0;
        && streak == FailureStreak(log)
        && selfAlarms == if steps < 5 && streak >= 3 then old(selfAlarms) + [streak] else old(selfAlarms)
    {
      if mode == Offline { return Refused; }
      var effective := if mode == Production then trigger else "dryrun:" + trigger;
      BackupIsRun(h, St(), effective, blob, clock, steps);
      StreakAfterSteps(h, St(), effective, blob, clock, steps);
      r := DoBackupLocked(h, effective, blob, clock, steps);
      if r == Raised {
        var streak := CountConsecutiveFailures();
        if streak >= 3 { selfAlarms := selfAlarms + [streak]; }
      }
    }
  }
}
