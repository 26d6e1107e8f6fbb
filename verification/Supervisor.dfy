/** The supervisor of the RU agent's child processes. Times are in seconds. */
module Supervisor {
  const WINDOW: real := 300.0
  const LIMIT := 4

  datatype Poll = NotLaunched | Alive | Exited

  /** What a sweep did about one child: nothing, a restart after a pause, or a report of failure
      with the number of recent crashes. A child after a failed one is not looked at. */
  datatype Event = Quiet | Restarted(backoff: real) | GaveUp(count: nat) | Unchecked {
    predicate Detected() { Restarted? || GaveUp? }
  }

  /** The crash times less than the window old. */
  function Prune(times: seq<real>, now: real): seq<real>
    decreases |times|
  {
    if times == [] then []
    else
      var n := |times| - 1;
      Prune(times[..n], now) + if now - times[n] < WINDOW then [times[n]] else []
  }

  function HalfPowerOfTwo(n: nat): real { if n == 0 then 0.5 else 2.0 * HalfPowerOfTwo(n - 1) }

  /** Two to the power of one less than the crashes, at most 8. */
  function Backoff(crashes: nat): real {
    if HalfPowerOfTwo(crashes) < 8.0 then HalfPowerOfTwo(crashes) else 8.0
  }

  function CheckOne(crashes: seq<real>, now: real, poll: Poll): (seq<real>, Event) {
    if !poll.Exited? then (crashes, Quiet)
    else
      var recent := Prune(crashes + [now], now);
      (recent, if |recent| >= LIMIT then GaveUp(|recent|) else Restarted(Backoff(|recent|)))
  }

  /** Some child before the k-th was reported: the sweep ended there. */
  predicate Stopped(crashes: seq<seq<real>>, now: real, polls: seq<Poll>, k: nat)
    requires |polls| == |crashes| && k <= |crashes|
  {
    k > 0 && (Stopped(crashes, now, polls, k - 1) || CheckOne(crashes[k - 1], now, polls[k - 1]).1.GaveUp?)
  }

  /** The crash list and the event of child k in a sweep. */
  function ChildAfter(crashes: seq<seq<real>>, now: real, polls: seq<Poll>, k: nat): (seq<real>, Event)
    requires |polls| == |crashes| && k < |crashes|
  {
    if Stopped(crashes, now, polls, k) then (crashes[k], Unchecked) else CheckOne(crashes[k], now, polls[k])
  }

  lemma {:induction false} StaysStopped(crashes: seq<seq<real>>, now: real, polls: seq<Poll>, j: nat, k: nat)
    requires |polls| == |crashes| && j <= k <= |crashes| && Stopped(crashes, now, polls, j)
    ensures Stopped(crashes, now, polls, k)
    decreases k
  {
    if j < k { StaysStopped(crashes, now, polls, j, k - 1); }
  }

  class Supervisor {
    var crashes: seq<seq<real>>

    constructor (children: nat)
      ensures crashes == seq(children, _ => [])
    {
      crashes := seq(children, _ => []);
    }

    /** One sweep; the clock is read once, before the first child. */
    method CheckChildrenOnce(now: real, polls: seq<Poll>) returns (events: seq<Event>)
      requires |polls| == |crashes|
      modifies this
      ensures |crashes| == |events| == |polls|
      ensures forall k :: 0 <= k < |polls| ==> (crashes[k], events[k]) == ChildAfter(old(crashes), now, polls, k)
    {
      events := [];
      ghost var start := crashes;
      for k := 0 to |polls|
        invariant |crashes| == |polls| && |events| == k && !Stopped(start, now, polls, k)
        invariant forall i :: k <= i < |polls| ==> crashes[i] == start[i]
        invariant forall i :: 0 <= i < k ==> (crashes[i], events[i]) == ChildAfter(start, now, polls, i)
      {
        if polls[k].Exited? {
          var times := Prune(crashes[k] + [now], now);
          crashes := crashes[k := times];
          if |times| >= LIMIT {
            events := events + [GaveUp(|times|)] + seq(|polls| - k - 1, _ => Unchecked);
            forall i | k < i < |polls| ensures Stopped(start, now, polls, i) {
              StaysStopped(start, now, polls, k + 1, i);
            }
            return;
          }
          events := events + [Restarted(Backoff(|times|))];
        } else {
          events := events + [Quiet];
        }
      }
    }
  }

  // ---- the crash list and the full history of one child ----

  datatype Detection = Detection(at: real, restarted: bool)

  function Times(log: seq<Detection>): seq<real> {
    seq(|log|, i requires 0 <= i < |log| => log[i].at)
  }

  /** The history after a sweep at time now that had the given event for the child. */
  function Logged(log: seq<Detection>, now: real, e: Event): seq<Detection> {
    if e.Detected() then log + [Detection(now, e.Restarted?)] else log
  }

  predicate Chronological(log: seq<Detection>, now: real) {
    (forall i, j :: 0 <= i < j < |log| ==> log[i].at <= log[j].at) && forall i :: 0 <= i < |log| ==> log[i].at <= now
  }

  /** A detection led to a restart exactly when fewer than four lie in the window it ends. */
  predicate Judged(log: seq<Detection>, k: nat)
    requires k < |log|
  {
    log[k].restarted <==> |Prune(Times(log[..k + 1]), log[k].at)| < LIMIT
  }

  /** The list kept is the full history, cut to the window that ends at the last detection. */
  ghost predicate Agrees(crashes: seq<real>, log: seq<Detection>) {
    && crashes == (if log == [] then [] else Prune(Times(log), log[|log| - 1].at))
    && forall k :: 0 <= k < |log| ==> Judged(log, k)
  }

  lemma PruneKeepsLast(times: seq<real>, now: real)
    ensures Prune(times + [now], now) == Prune(times, now) + [now]
  {
    assert (times + [now])[..|times|] == times;
  }

  lemma {:induction false} PruneTwice(times: seq<real>, earlier: real, now: real)
    requires earlier <= now
    ensures Prune(Prune(times, earlier), now) == Prune(times, now)
    decreases |times|
  {
    if times != [] {
      var n := |times| - 1;
      PruneTwice(times[..n], earlier, now);
      var kept := Prune(times[..n], earlier);
      if now - times[n] < WINDOW || earlier - times[n] < WINDOW {
        assert (kept + [times[n]])[..|kept|] == kept;
      } else {
        assert kept + [] == kept;
      }
    }
  }

  ghost function Places(n: nat, at: int -> bool): set<int> { set k | 0 <= k < n && at(k) }

  lemma PlacesStep(n: nat, at: int -> bool)
    ensures |Places(n + 1, at)| == |Places(n, at)| + if at(n) then 1 else 0
  {
    assert Places(n + 1, at) == Places(n, at) + if at(n) then {n} else {};
  }

  lemma {:induction false} CountPruned(times: seq<real>, now: real, at: int -> bool)
    requires forall i :: 0 <= i < |times| ==> (at(i) <==> now - times[i] < 300.0)
    ensures |Prune(times, now)| == |Places(|times|, at)|
    decreases |times|
  {
    if times == [] {
      assert Places(0, at) == {};
    } else {
      CountPruned(times[..|times| - 1], now, at);
      PlacesStep(|times| - 1, at);
    }
  }

  lemma {:induction false} PrunedContents(times: seq<real>, now: real, x: real)
    ensures multiset(Prune(times, now))[x] == if now - x < 300.0 then multiset(times)[x] else 0
    decreases |times|
  {
    if times != [] {
      var n := |times| - 1;
      PrunedContents(times[..n], now, x);
      assert times == times[..n] + [times[n]];
    }
  }

  /** The crash times kept are those less than 300 seconds old, each as often as it was recorded. */
  lemma RecentExactly(times: seq<real>, now: real)
    ensures |Prune(times, now)| == |set i | 0 <= i < |times| && now - times[i] < 300.0|
    ensures forall x :: multiset(Prune(times, now))[x] == if now - x < 300.0 then multiset(times)[x] else 0
  {
    var recent := set i | 0 <= i < |times| && now - times[i] < 300.0;
    CountPruned(times, now, i => i in recent);
    assert Places(|times|, i => i in recent) == recent;
    forall x ensures multiset(Prune(times, now))[x] == if now - x < 300.0 then multiset(times)[x] else 0 {
      PrunedContents(times, now, x);
    }
  }

  /** A sweep goes through the children until one is reported: exactly the children after that are not
      looked at, and only the list of a child found dead changes. */
  lemma LookedAtExactly(crashes: seq<seq<real>>, now: real, polls: seq<Poll>, k: nat)
    requires |polls| == |crashes| && k < |crashes|
    ensures var (list, e) := ChildAfter(crashes, now, polls, k);
      && (e.Unchecked? <==> exists j :: 0 <= j < k && ChildAfter(crashes, now, polls, j).1.GaveUp?)
      && (e.Quiet? <==> !e.Unchecked? && polls[k] != Exited)
      && (e.Unchecked? || e.Quiet? ==> list == crashes[k])
  {
    StoppedExactly(crashes, now, polls, k);
  }

  lemma {:induction false} StoppedExactly(crashes: seq<seq<real>>, now: real, polls: seq<Poll>, k: nat)
    requires |polls| == |crashes| && k <= |crashes|
    ensures Stopped(crashes, now, polls, k) <==>
      exists j :: 0 <= j < k && ChildAfter(crashes, now, polls, j).1.GaveUp?
  {
    if k > 0 {
      StoppedExactly(crashes, now, polls, k - 1);
      if CheckOne(crashes[k - 1], now, polls[k - 1]).1.GaveUp? && !Stopped(crashes, now, polls, k - 1) {
        assert ChildAfter(crashes, now, polls, k - 1).1.GaveUp?;
      }
    }
  }

  lemma TimesSnoc(log: seq<Detection>, d: Detection)
    ensures Times(log + [d]) == Times(log) + [d.at]
  {}

  /** After each detection the pruned list equals the whole history cut to the last window, and
      failure is reported exactly when that window holds at least four detections. */
  lemma CheckAgrees(crashes: seq<real>, log: seq<Detection>, now: real, poll: Poll)
    requires Agrees(crashes, log) && Chronological(log, now)
    ensures var (crashes', e) := CheckOne(crashes, now, poll);
      var log' := Logged(log, now, e);
      && Agrees(crashes', log') && Chronological(log', now)
      && (e.Detected() <==> poll.Exited?)
      && (e.Detected() ==> crashes' == Prune(Times(log'), now))
      && (e.GaveUp? <==> e.Detected() && |Prune(Times(log'), now)| >= LIMIT)
      && (e.Restarted? ==> 1 <= |crashes'| <= 3 && e.backoff == [1.0, 2.0, 4.0][|crashes'| - 1])
  {
    if poll.Exited? {
      var (crashes', e) := CheckOne(crashes, now, poll);
      var d := Detection(now, e.Restarted?);
      var log' := log + [d];
      TimesSnoc(log, d);
      PruneKeepsLast(crashes, now);
      PruneKeepsLast(Times(log), now);
      if log == [] {
        assert Times(log) == [];
      } else {
        PruneTwice(Times(log), log[|log| - 1].at, now);
      }
      assert crashes' == Prune(Times(log'), now);
      forall k | 0 <= k < |log'| ensures Judged(log', k) {
        if k < |log| {
          assert log'[..k + 1] == log[..k + 1];
          assert Judged(log, k);
        } else {
          assert log'[..k + 1] == log';
        }
      }
      if e.Restarted? { SmallBackoff(|crashes'|); }
    }
  }

  /** The cap of the pause is never met: at most three crashes are recent when a child restarts. */
  lemma SmallBackoff(crashes: nat)
    requires 1 <= crashes < LIMIT
    ensures Backoff(crashes) == [1.0, 2.0, 4.0][crashes - 1]
  {
    assert HalfPowerOfTwo(1) == 1.0 && HalfPowerOfTwo(2) == 2.0 && HalfPowerOfTwo(3) == 2.0 * HalfPowerOfTwo(2);
  }

  // ---- restarts in a window ----

  /** The number of detections in [from, from + window) that led to a restart. */
  function RestartsIn(log: seq<Detection>, from: real): nat
    decreases |log|
  {
    if log == [] then 0
    else
      var n := |log| - 1;
      RestartsIn(log[..n], from) + if log[n].restarted && from <= log[n].at < from + WINDOW then 1 else 0
  }

  lemma {:induction false} WindowIsRecent(log: seq<Detection>, from: real, now: real)
    requires now < from + WINDOW
    ensures RestartsIn(log, from) <= |Prune(Times(log), now)|
    decreases |log|
  {
    if log != [] {
      var n := |log| - 1;
      WindowIsRecent(log[..n], from, now);
      assert Times(log)[..n] == Times(log[..n]);
    }
  }

  /** No window of 300 seconds ever holds more than three detections that led to a restart. */
  lemma {:induction false} FewRestarts(log: seq<Detection>, from: real)
    requires forall k :: 0 <= k < |log| ==> Judged(log, k)
    ensures RestartsIn(log, from) < LIMIT
    decreases |log|
  {
    if log != [] {
      var n := |log| - 1;
      if log[n].restarted && from <= log[n].at < from + WINDOW {
        assert Judged(log, n) && log[..n + 1] == log;
        WindowIsRecent(log, from, log[n].at);
      } else {
        forall k | 0 <= k < n ensures Judged(log[..n], k) {
          assert log[..n][..k + 1] == log[..k + 1];
          assert Judged(log, k);
        }
        FewRestarts(log[..n], from);
      }
    }
  }

  // ---- whole runs of sweeps ----

  datatype Sweep = Sweep(now: real, polls: seq<Poll>)

  datatype State = State(crashes: seq<seq<real>>, logs: seq<seq<Detection>>)

  function Step(s: State, t: Sweep): State
    requires |t.polls| == |s.crashes| == |s.logs|
  {
    State(seq(|s.crashes|, k requires 0 <= k < |s.crashes| => ChildAfter(s.crashes, t.now, t.polls, k).0),
          seq(|s.logs|, k requires 0 <= k < |s.logs| =>
            Logged(s.logs[k], t.now, ChildAfter(s.crashes, t.now, t.polls, k).1)))
  }

  predicate Fits(children: nat, ts: seq<Sweep>) {
    (forall i :: 0 <= i < |ts| ==> |ts[i].polls| == children)
    && forall i, j :: 0 <= i < j < |ts| ==> ts[i].now <= ts[j].now
  }

  function Run(children: nat, ts: seq<Sweep>): (s: State)
    requires Fits(children, ts)
    ensures |s.crashes| == |s.logs| == children
    decreases |ts|
  {
    if ts == [] then State(seq(children, _ => []), seq(children, _ => []))
    else Step(Run(children, ts[..|ts| - 1]), ts[|ts| - 1])
  }

  ghost predicate Inv(s: State, now: real) {
    |s.crashes| == |s.logs|
    && forall i :: 0 <= i < |s.logs| ==> Agrees(s.crashes[i], s.logs[i]) && Chronological(s.logs[i], now)
  }

  lemma StepKeeps(s: State, before: real, t: Sweep)
    requires Inv(s, before) && before <= t.now && |t.polls| == |s.crashes|
    ensures Inv(Step(s, t), t.now)
  {
    forall k | 0 <= k < |s.logs|
      ensures Agrees(Step(s, t).crashes[k], Step(s, t).logs[k]) && Chronological(Step(s, t).logs[k], t.now)
    {
      CheckAgrees(s.crashes[k], s.logs[k], t.now, t.polls[k]);
    }
  }

  lemma LaterKeeps(s: State, now: real, later: real)
    requires Inv(s, now) && now <= later
    ensures Inv(s, later)
  {
    forall i | 0 <= i < |s.logs| ensures Chronological(s.logs[i], later) { assert Chronological(s.logs[i], now); }
  }

  /** Over every run with a clock that does not run backwards, each child's crash list agrees with
      its full history of detections. */
  lemma {:induction false} RunKeeps(children: nat, ts: seq<Sweep>, now: real)
    requires Fits(children, ts) && forall i :: 0 <= i < |ts| ==> ts[i].now <= now
    ensures Inv(Run(children, ts), now)
    decreases |ts|
  {
    if ts != [] {
      var n := |ts| - 1;
      var front, t := ts[..n], ts[n];
      assert Fits(children, front) && |t.polls| == children;
      RunKeeps(children, front, t.now);
      StepKeeps(Run(children, front), t.now, t);
      LaterKeeps(Run(children, ts), t.now, now);
    }
  }

  lemma {:induction false} CountRestarts(log: seq<Detection>, from: real)
    ensures RestartsIn(log, from) == |set i | 0 <= i < |log| && log[i].restarted && from <= log[i].at < from + 300.0|
    decreases |log|
  {
    var all := set i | 0 <= i < |log| && log[i].restarted && from <= log[i].at < from + 300.0;
    if log == [] {
      assert all == {};
    } else {
      var n := |log| - 1;
      CountRestarts(log[..n], from);
      assert all == (set i | 0 <= i < n && log[..n][i].restarted && from <= log[..n][i].at < from + 300.0)
        + if log[n].restarted && from <= log[n].at < from + 300.0 then {n} else {};
    }
  }

  /** In any run, no 300 seconds hold more than three restarts of a child. */
  lemma RunRestartsFew(children: nat, ts: seq<Sweep>, child: nat, from: real)
    requires Fits(children, ts) && child < children
    ensures var log := Run(children, ts).logs[child];
      |set i | 0 <= i < |log| && log[i].restarted && from <= log[i].at < from + 300.0| <= 3
  {
    RunKeeps(children, ts, if ts == [] then 0.0 else ts[|ts| - 1].now);
    FewRestarts(Run(children, ts).logs[child], from);
    CountRestarts(Run(children, ts).logs[child], from);
  }

  /** The earlier detections in the whole history of a child that are less than 300 seconds old. */
  ghost function RecentIn(log: seq<Detection>, now: real): set<int> {
    set i | 0 <= i < |log| && now - log[i].at < 300.0
  }

  lemma CountRecent(log: seq<Detection>, now: real)
    ensures |Prune(Times(log) + [now], now)| == |RecentIn(log, now)| + 1
  {
    PruneKeepsLast(Times(log), now);
    RecentExactly(Times(log), now);
    assert RecentIn(log, now) == set i | 0 <= i < |Times(log)| && now - Times(log)[i] < 300.0;
  }

  /** In any run, a child found dead is reported exactly when its full history has at least three more
      detections less than 300 seconds old, and is restarted otherwise, after a pause of 1, 2 or 4
      seconds for none, one or two of them. */
  lemma FailureExactly(children: nat, ts: seq<Sweep>, t: Sweep, k: nat)
    requires Fits(children, ts) && Fits(children, ts + [t]) && k < children
    requires |t.polls| == children && t.polls[k].Exited?
    requires !ChildAfter(Run(children, ts).crashes, t.now, t.polls, k).1.Unchecked?
    ensures var e := ChildAfter(Run(children, ts).crashes, t.now, t.polls, k).1;
      var earlier := |RecentIn(Run(children, ts).logs[k], t.now)|;
      e == if earlier >= 3 then GaveUp(earlier + 1)
           else Restarted(if earlier == 0 then 1.0 else if earlier == 1 then 2.0 else 4.0)
    ensures Step(Run(children, ts), t).crashes[k] == Prune(Times(Run(children, ts).logs[k]) + [t.now], t.now)
  {
    forall i | 0 <= i < |ts| ensures ts[i].now <= t.now { assert (ts + [t])[i] == ts[i] && (ts + [t])[|ts|] == t; }
    var s := Run(children, ts);
    RunKeeps(children, ts, t.now);
    CheckAgrees(s.crashes[k], s.logs[k], t.now, t.polls[k]);
    TimesSnoc(s.logs[k], Detection(t.now, CheckOne(s.crashes[k], t.now, t.polls[k]).1.Restarted?));
    CountRecent(s.logs[k], t.now);
  }
}
