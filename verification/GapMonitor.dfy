/** The generation-gap monitor of the backup bucket: alarms over whole runs of polls. */
module GapMonitor {
  import opened Prelude

  const HOUR := 3600

  /** Times are in seconds. */
  datatype State = State(lastSeen: Option<int>, firstObserved: Option<int>, lastAlarm: Option<int>)

  /** The index object read; its generation may be missing. */
  datatype Index = Index(highestGen: Option<int>)

  datatype Config = Config(thresholdHours: int, repeatHours: int) {
    function Threshold(): int { thresholdHours * HOUR }
    function Repeat(): int { repeatHours * HOUR }
  }

  function GenerationOf(index: Index): int {
    match index.highestGen case Some(g) => g case None => 0
  }

  function EvaluateGap(c: Config, s: State, index: Option<Index>, now: int): (State, bool) {
    if index.None? then (s, false)
    else
      var g := GenerationOf(index.value);
      if s.lastSeen.None? || g > s.lastSeen.value then (State(Some(g), Some(now), None), false)
      else if s.firstObserved.None? then (s.(firstObserved := Some(now)), false)
      else if now - s.firstObserved.value < c.Threshold() then (s, false)
      else if s.lastAlarm.None? || now - s.lastAlarm.value >= c.Repeat() then (s.(lastAlarm := Some(now)), true)
      else (s, false)
  }

  // ---- runs ----

  datatype Poll = Poll(index: Option<Index>, now: int)

  function After(c: Config, s: State, p: Poll): State { EvaluateGap(c, s, p.index, p.now).0 }

  function Final(c: Config, s: State, polls: seq<Poll>): State
    decreases |polls|
  {
    if polls == [] then s else Final(c, After(c, s, polls[0]), polls[1..])
  }

  /** Poll k of the run raises an alarm. */
  predicate Fires(c: Config, s: State, polls: seq<Poll>, k: nat)
    requires k < |polls|
    decreases k
  {
    if k == 0 then EvaluateGap(c, s, polls[0].index, polls[0].now).1
    else Fires(c, After(c, s, polls[0]), polls[1..], k - 1)
  }

  function Alarms(c: Config, s: State, polls: seq<Poll>): nat
    decreases |polls|
  {
    if polls == [] then 0
    else
      var alarmed := EvaluateGap(c, s, polls[0].index, polls[0].now).1;
      (if alarmed then 1 else 0) + Alarms(c, After(c, s, polls[0]), polls[1..])
  }

  /** No poll sees a generation beyond g. */
  predicate Stuck(polls: seq<Poll>, g: int) {
    forall k :: 0 <= k < |polls| && polls[k].index.Some? ==> GenerationOf(polls[k].index.value) <= g
  }

  predicate Ordered(polls: seq<Poll>) {
    forall i, j :: 0 <= i < j < |polls| ==> polls[i].now <= polls[j].now
  }

  lemma {:induction false} LastSeenMeans(c: Config, s: State, polls: seq<Poll>)
    ensures var f := Final(c, s, polls).lastSeen;
      && (s.lastSeen.Some? ==> f.Some? && f.value >= s.lastSeen.value)
      && (forall k :: 0 <= k < |polls| && polls[k].index.Some? ==>
           f.Some? && f.value >= GenerationOf(polls[k].index.value))
      && (f == s.lastSeen ||
          exists k :: 0 <= k < |polls| && polls[k].index.Some? && f == Some(GenerationOf(polls[k].index.value)))
    decreases |polls|
  {
    if polls != [] {
      LastSeenMeans(c, After(c, s, polls[0]), polls[1..]);
      var f := Final(c, s, polls).lastSeen;
      if f != s.lastSeen && f != After(c, s, polls[0]).lastSeen {
        var k :| 0 <= k < |polls| - 1 && polls[1..][k].index.Some?
          && f == Some(GenerationOf(polls[1..][k].index.value));
        assert polls[k + 1].index.Some?;
      }
      forall k | 0 <= k < |polls| && polls[k].index.Some?
        ensures f.Some? && f.value >= GenerationOf(polls[k].index.value)
      {
        if k > 0 { assert polls[1..][k - 1] == polls[k]; }
      }
    }
  }

  /** The last seen generation is the greatest of those seen, a missing one counting as 0, and the one
      started from: it never decreases. */
  lemma LastSeenIsGreatest(c: Config, s: State, polls: seq<Poll>)
    ensures var f := Final(c, s, polls).lastSeen;
      && (s.lastSeen.Some? ==> f.Some? && f.value >= s.lastSeen.value)
      && (forall k :: 0 <= k < |polls| && polls[k].index.Some? ==>
            f.Some? && f.value >= match polls[k].index.value.highestGen case Some(g) => g case None => 0)
      && (f == s.lastSeen ||
          exists k :: 0 <= k < |polls| && polls[k].index.Some?
                      && f == Some(match polls[k].index.value.highestGen case Some(g) => g case None => 0))
  {
    LastSeenMeans(c, s, polls);
  }

  // ---- one stuck episode ----

  lemma {:induction false} NotBeforeThreshold(c: Config, s: State, polls: seq<Poll>, k: nat)
    requires s.lastSeen.Some? && s.firstObserved.Some? && Stuck(polls, s.lastSeen.value)
    requires k < |polls| && Fires(c, s, polls, k)
    ensures polls[k].now >= s.firstObserved.value + c.Threshold()
    decreases k
  {
    if k > 0 { NotBeforeThreshold(c, After(c, s, polls[0]), polls[1..], k - 1); }
  }

  lemma {:induction false} NotBeforeRepeat(c: Config, s: State, polls: seq<Poll>, k: nat)
    requires s.lastSeen.Some? && s.lastAlarm.Some? && Stuck(polls, s.lastSeen.value) && Ordered(polls)
    requires c.Repeat() >= 0 && k < |polls| && Fires(c, s, polls, k)
    ensures polls[k].now >= s.lastAlarm.value + c.Repeat()
    decreases k
  {
    if k > 0 {
      NotBeforeRepeat(c, After(c, s, polls[0]), polls[1..], k - 1);
      if EvaluateGap(c, s, polls[0].index, polls[0].now).1 { NotBeforeRepeat(c, s, polls, 0); }
    }
  }

  lemma {:induction false} AlarmsSpaced(c: Config, s: State, polls: seq<Poll>, i: nat, j: nat)
    requires s.lastSeen.Some? && Stuck(polls, s.lastSeen.value) && Ordered(polls) && c.Repeat() >= 0
    requires i < j < |polls| && Fires(c, s, polls, i) && Fires(c, s, polls, j)
    ensures polls[j].now - polls[i].now >= c.Repeat()
    decreases i
  {
    var s' := After(c, s, polls[0]);
    if i == 0 {
      NotBeforeRepeat(c, s', polls[1..], j - 1);
    } else {
      AlarmsSpaced(c, s', polls[1..], i - 1, j - 1);
    }
  }

  lemma {:induction false} CountAfterAlarm(c: Config, s: State, polls: seq<Poll>, until: int)
    requires s.lastSeen.Some? && s.lastAlarm.Some? && Stuck(polls, s.lastSeen.value) && Ordered(polls)
    requires c.Repeat() >= 0 && s.lastAlarm.value <= until && forall k :: 0 <= k < |polls| ==> polls[k].now <= until
    ensures Alarms(c, s, polls) * c.Repeat() <= until - s.lastAlarm.value
    decreases |polls|
  {
    if polls != [] { CountAfterAlarm(c, After(c, s, polls[0]), polls[1..], until); }
  }

  lemma {:induction false} CountInEpisode(c: Config, s: State, polls: seq<Poll>, until: int)
    requires s.lastSeen.Some? && s.firstObserved.Some? && s.lastAlarm.None? && Stuck(polls, s.lastSeen.value)
    requires Ordered(polls) && c.Repeat() >= 0 && forall k :: 0 <= k < |polls| ==> polls[k].now <= until
    ensures var n := Alarms(c, s, polls);
      n == 0 || (n - 1) * c.Repeat() <= until - (s.firstObserved.value + c.Threshold())
    decreases |polls|
  {
    if polls != [] {
      var s' := After(c, s, polls[0]);
      if s'.lastAlarm.Some? {
        CountAfterAlarm(c, s', polls[1..], until);
      } else {
        CountInEpisode(c, s', polls[1..], until);
      }
    }
  }

  /** Poll k is covered by an alarm of the run, at k itself or less than the repeat time before. */
  ghost predicate Covered(c: Config, s: State, polls: seq<Poll>, k: nat)
    requires k < |polls|
  {
    exists i :: 0 <= i <= k && Fires(c, s, polls, i) && (i == k || polls[k].now - polls[i].now < c.Repeat())
  }

  lemma {:induction false} CoveredOrRecent(c: Config, s: State, polls: seq<Poll>, k: nat)
    requires s.lastSeen.Some? && s.firstObserved.Some? && Stuck(polls, s.lastSeen.value)
    requires k < |polls| && polls[k].index.Some? && polls[k].now >= s.firstObserved.value + c.Threshold()
    ensures Covered(c, s, polls, k) || (s.lastAlarm.Some? && polls[k].now - s.lastAlarm.value < c.Repeat())
    decreases k
  {
    if k == 0 {
      if Fires(c, s, polls, 0) { assert Covered(c, s, polls, 0); }
    } else {
      var s', rest := After(c, s, polls[0]), polls[1..];
      CoveredOrRecent(c, s', rest, k - 1);
      if Covered(c, s', rest, k - 1) {
        var i :| 0 <= i <= k - 1 && Fires(c, s', rest, i) && (i == k - 1 || rest[k - 1].now - rest[i].now < c.Repeat());
        assert Fires(c, s, polls, i + 1);
      } else if s'.lastAlarm != s.lastAlarm {
        assert Fires(c, s, polls, 0);
      }
    }
  }

  /** Started without a known beginning, the monitor first notes one: an alarm comes no earlier
      than the threshold after some earlier poll that read the index. */
  lemma {:induction false} UnknownBeginning(c: Config, s: State, polls: seq<Poll>, k: nat) returns (j: nat)
    requires s.lastSeen.Some? && s.firstObserved.None? && Stuck(polls, s.lastSeen.value)
    requires k < |polls| && Fires(c, s, polls, k)
    ensures j < k && polls[j].index.Some? && polls[k].now >= polls[j].now + c.thresholdHours * 3600
    decreases k
  {
    var s' := After(c, s, polls[0]);
    if polls[0].index.Some? {
      NotBeforeThreshold(c, s', polls[1..], k - 1);
      j := 0;
    } else {
      var i := UnknownBeginning(c, s', polls[1..], k - 1);
      j := i + 1;
    }
  }

  // ---- the episodes of a whole run ----

  lemma {:induction false} FinalOfConcat(c: Config, s: State, a: seq<Poll>, b: seq<Poll>)
    ensures Final(c, s, a + b) == Final(c, Final(c, s, a), b)
    decreases |a|
  {
    if a == [] {
      assert a + b == b;
    } else {
      FinalOfConcat(c, After(c, s, a[0]), a[1..], b);
      assert (a + b)[1..] == a[1..] + b;
    }
  }

  lemma {:induction false} FiresInConcat(c: Config, s: State, a: seq<Poll>, b: seq<Poll>, k: nat)
    requires k < |b|
    ensures Fires(c, s, a + b, |a| + k) == Fires(c, Final(c, s, a), b, k)
    decreases |a|
  {
    if a == [] {
      assert a + b == b;
    } else {
      FiresInConcat(c, After(c, s, a[0]), a[1..], b, k);
      assert (a + b)[1..] == a[1..] + b;
    }
  }

  /** Poll p sees a generation newer than all before it. */
  predicate Advances(s: State, p: Poll) {
    p.index.Some? && (s.lastSeen.None? || GenerationOf(p.index.value) > s.lastSeen.value)
  }

  lemma EpisodeStart(c: Config, s: State, before: seq<Poll>, p: Poll)
    requires Advances(Final(c, s, before), p)
    ensures Final(c, s, before + [p]) == State(Some(GenerationOf(p.index.value)), Some(p.now), None)
  {
    FinalOfConcat(c, s, before, [p]);
    assert Final(c, s, before + [p]) == After(c, Final(c, s, before), p);
  }

  /** In any run, after a poll p that advances and before the next one that does: no alarm comes
      earlier than the threshold after p. */
  lemma NoEarlyAlarm(c: Config, s: State, before: seq<Poll>, p: Poll, stuck: seq<Poll>, k: nat)
    requires Advances(Final(c, s, before), p) && Stuck(stuck, GenerationOf(p.index.value))
    requires k < |stuck| && Fires(c, s, before + [p] + stuck, |before| + 1 + k)
    ensures stuck[k].now >= p.now + c.thresholdHours * 3600
  {
    EpisodeStart(c, s, before, p);
    FiresInConcat(c, s, before + [p], stuck, k);
    NotBeforeThreshold(c, Final(c, s, before + [p]), stuck, k);
  }

  /** Two alarms of one episode are at least the repeat time apart. */
  lemma EpisodeAlarmsSpaced(c: Config, s: State, before: seq<Poll>, p: Poll, stuck: seq<Poll>, i: nat, j: nat)
    requires Advances(Final(c, s, before), p) && Stuck(stuck, GenerationOf(p.index.value))
    requires Ordered(stuck) && c.repeatHours >= 0 && i < j < |stuck|
    requires Fires(c, s, before + [p] + stuck, |before| + 1 + i) && Fires(c, s, before + [p] + stuck, |before| + 1 + j)
    ensures stuck[j].now - stuck[i].now >= c.repeatHours * 3600
  {
    EpisodeStart(c, s, before, p);
    FiresAfter(c, s, before + [p], stuck, i, |before| + 1 + i);
    FiresAfter(c, s, before + [p], stuck, j, |before| + 1 + j);
    AlarmsSpaced(c, Final(c, s, before + [p]), stuck, i, j);
  }

  lemma FiresAfter(c: Config, s: State, a: seq<Poll>, b: seq<Poll>, k: nat, m: nat)
    requires k < |b| && m == |a| + k && Fires(c, s, a + b, m)
    ensures Fires(c, Final(c, s, a), b, k)
  {
    FiresInConcat(c, s, a, b, k);
  }

  /** No poll that is due stays silent: one that reads the index past the threshold raises an
      alarm, or one less than the repeat time old was raised in this episode. */
  lemma DuePollCovered(c: Config, s: State, before: seq<Poll>, p: Poll, stuck: seq<Poll>, k: nat) returns (i: nat)
    requires Advances(Final(c, s, before), p) && Stuck(stuck, GenerationOf(p.index.value))
    requires k < |stuck| && stuck[k].index.Some? && stuck[k].now >= p.now + c.thresholdHours * 3600
    ensures i <= k && Fires(c, s, before + [p] + stuck, |before| + 1 + i)
    ensures i == k || stuck[k].now - stuck[i].now < c.repeatHours * 3600
  {
    EpisodeStart(c, s, before, p);
    var s1 := Final(c, s, before + [p]);
    CoveredOrRecent(c, s1, stuck, k);
    var m :| 0 <= m <= k && Fires(c, s1, stuck, m) && (m == k || stuck[k].now - stuck[m].now < c.Repeat());
    FiresInConcat(c, s, before + [p], stuck, m);
    i := m;
  }

  lemma Factor(x: int, r: int)
    requires r > 0 && x * r > 0
    ensures x > 0
  {}

  lemma QuotientBound(m: int, r: int, d: int)
    requires r > 0 && m * r <= d
    ensures m <= d / r
  {
    assert d < (d / r + 1) * r;
    Factor(d / r + 1 - m, r);
  }

  /** The polls of a run from the given one on that raise an alarm. */
  ghost function FiredFrom(c: Config, s: State, polls: seq<Poll>, first: nat): set<int> {
    set k | first <= k < |polls| && Fires(c, s, polls, k)
  }

  ghost function Fired(c: Config, s: State, polls: seq<Poll>): set<int> { FiredFrom(c, s, polls, 0) }

  ghost function Moved(ks: set<int>, d: int): set<int> { set k | k in ks :: k + d }

  lemma MovedMeans(ks: set<int>, d: int, x: int)
    ensures x in Moved(ks, d) <==> x - d in ks
  {
    if x - d in ks { assert (x - d) + d in Moved(ks, d); }
  }

  lemma OneOf<T>(s: set<T>) returns (x: T)
    requires s != {}
    ensures x in s
  {
    x :| x in s;
  }

  lemma {:induction false} MovedSize(ks: set<int>, d: int)
    ensures |Moved(ks, d)| == |ks|
    decreases |ks|
  {
    if ks != {} {
      var k := OneOf(ks);
      var rest := ks - {k};
      MovedSize(rest, d);
      forall x ensures x in Moved(ks, d) <==> x == k + d || x in Moved(rest, d) {
        MovedMeans(ks, d, x);
        MovedMeans(rest, d, x);
      }
      MovedMeans(rest, d, k + d);
      assert Moved(ks, d) == Moved(rest, d) + {k + d};
    } else {
      assert Moved(ks, d) == {};
    }
  }

  lemma {:induction false} AlarmsAreFires(c: Config, s: State, polls: seq<Poll>)
    ensures Alarms(c, s, polls) == |Fired(c, s, polls)|
    decreases |polls|
  {
    var all := Fired(c, s, polls);
    if polls == [] {
      assert all == {};
    } else {
      var later := Fired(c, After(c, s, polls[0]), polls[1..]);
      AlarmsAreFires(c, After(c, s, polls[0]), polls[1..]);
      MovedSize(later, 1);
      forall x ensures x in all <==> x in Moved(later, 1) || (x == 0 && Fires(c, s, polls, 0)) {
        MovedMeans(later, 1, x);
      }
      MovedMeans(later, 1, 0);
      assert all == Moved(later, 1) + if Fires(c, s, polls, 0) then {0} else {};
    }
  }

  lemma FiredAfter(c: Config, s: State, a: seq<Poll>, b: seq<Poll>)
    ensures |Fired(c, Final(c, s, a), b)| == |FiredFrom(c, s, a + b, |a|)|
  {
    var inB, inAll := Fired(c, Final(c, s, a), b), FiredFrom(c, s, a + b, |a|);
    MovedSize(inB, |a|);
    forall m ensures m in inAll <==> m in Moved(inB, |a|) {
      MovedMeans(inB, |a|, m);
      if |a| <= m < |a + b| { FiresInConcat(c, s, a, b, m - |a|); }
    }
    assert inAll == Moved(inB, |a|);
  }

  /** An episode that has lasted D seconds has raised no alarm before the threshold T, and at
      most 1 + (D - T) / R with repeat time R. */
  lemma EpisodeCount(c: Config, s: State, before: seq<Poll>, p: Poll, stuck: seq<Poll>, until: int)
    requires Advances(Final(c, s, before), p) && Stuck(stuck, GenerationOf(p.index.value))
    requires Ordered(stuck) && c.repeatHours > 0 && forall k :: 0 <= k < |stuck| ==> stuck[k].now <= until
    ensures var n := |FiredFrom(c, s, before + [p] + stuck, |before| + 1)|;
      var late := until - p.now - c.thresholdHours * 3600;
      n == 0 || (late >= 0 && n <= 1 + late / (c.repeatHours * 3600))
  {
    var s1 := Final(c, s, before + [p]);
    EpisodeStart(c, s, before, p);
    AlarmsAreFires(c, s1, stuck);
    FiredAfter(c, s, before + [p], stuck);
    EpisodeBound(c, s1, stuck, until, p.now + c.Threshold());
  }

  lemma EpisodeBound(c: Config, s: State, stuck: seq<Poll>, until: int, first: int)
    requires s.lastSeen.Some? && s.firstObserved.Some? && s.lastAlarm.None? && Stuck(stuck, s.lastSeen.value)
    requires Ordered(stuck) && c.Repeat() > 0 && forall k :: 0 <= k < |stuck| ==> stuck[k].now <= until
    requires first == s.firstObserved.value + c.Threshold()
    ensures var n := Alarms(c, s, stuck); n == 0 || (until >= first && n <= 1 + (until - first) / c.Repeat())
  {
    CountInEpisode(c, s, stuck, until);
    var n := Alarms(c, s, stuck);
    if n > 0 {
      assert (n - 1) * c.Repeat() >= 0;
      QuotientBound(n - 1, c.Repeat(), until - first);
    }
  }
}
