/** The alert sweep over the append-only alert log and the acknowledgements. */
module Alerter {
  import opened Prelude
  import opened Snapshot

  datatype Sink = Telegram | Email

  datatype Entry = Entry(at: int, sink: Sink, severity: Severity, key: string, delivered: bool)

  datatype Ack = Ack(key: string, expires: int)

  datatype Decision = Decision(severity: Severity, key: string, kind: string, target: Option<string>)

  const OVERDUE: string := "obligation_overdue"
  const STALE: string := "eu_heartbeat_stale"

  function Routing(s: Severity): seq<Sink> {
    match s case Crit => [Telegram, Email] case Warn => [Telegram] case _ => []
  }

  // ---- the decisions of a snapshot ----

  function Made(name: string, id: string): string { name + "::" + id }

  function AntiDecision(a: Anti): Decision { Decision(a.severity, a.id, a.kind.name, a.kind.target) }

  function OverdueDecision(s: Status): Decision { Decision(s.severity, Made(OVERDUE, s.id), OVERDUE, Some(s.id)) }

  function StaleDecision(v: View): Decision { Decision(v.severity, Made(STALE, v.id), STALE, Some(v.id)) }

  function AntiDecisions(s: seq<Anti>): seq<Decision> { seq(|s|, i requires 0 <= i < |s| => AntiDecision(s[i])) }

  function OverdueDecisions(s: seq<Status>): seq<Decision> {
    if s == [] then [] else (if s[0].severity == Info then [] else [OverdueDecision(s[0])]) + OverdueDecisions(s[1..])
  }

  function StaleDecisions(s: seq<View>): seq<Decision> {
    if s == [] then [] else (if s[0].severity == Info then [] else [StaleDecision(s[0])]) + StaleDecisions(s[1..])
  }

  function Decisions(s: Snapshot): seq<Decision> {
    AntiDecisions(s.antis) + OverdueDecisions(s.overdue) + StaleDecisions(s.nodes)
  }

  method BuildDecisions(s: Snapshot) returns (out: seq<Decision>)
    ensures out == Decisions(s)
  {
    out := [];
    for k := 0 to |s.antis|
      invariant out == AntiDecisions(s.antis[..k])
    {
      out := out + [AntiDecision(s.antis[k])];
    }
    assert s.antis[..|s.antis|] == s.antis && s.overdue[0..] == s.overdue && s.nodes[0..] == s.nodes;
    for k := 0 to |s.overdue|
      invariant out + OverdueDecisions(s.overdue[k..]) == AntiDecisions(s.antis) + OverdueDecisions(s.overdue)
    {
      assert s.overdue[k..][1..] == s.overdue[k + 1..];
      if s.overdue[k].severity != Info { out := out + [OverdueDecision(s.overdue[k])]; }
    }
    assert out == AntiDecisions(s.antis) + OverdueDecisions(s.overdue);
    for k := 0 to |s.nodes|
      invariant out + StaleDecisions(s.nodes[k..]) == Decisions(s)
    {
      assert s.nodes[k..][1..] == s.nodes[k + 1..];
      if s.nodes[k].severity != Info { out := out + [StaleDecision(s.nodes[k])]; }
    }
  }

  lemma {:induction false} OverdueDecided(s: seq<Status>, d: Decision)
    ensures d in OverdueDecisions(s) <==> exists o :: o in s && o.severity != Info && d == OverdueDecision(o)
  {
    if s != [] {
      OverdueDecided(s[1..], d);
      assert s == [s[0]] + s[1..];
    }
  }

  lemma {:induction false} StaleDecided(s: seq<View>, d: Decision)
    ensures d in StaleDecisions(s) <==> exists v :: v in s && v.severity != Info && d == StaleDecision(v)
  {
    if s != [] {
      StaleDecided(s[1..], d);
      assert s == [s[0]] + s[1..];
    }
  }

  /** What is decided: every anti-obligation under its own key, and every overdue clock and silent node
      that is rated higher than info under a key made of the kind and its id. */
  lemma DecidedExactly(s: Snapshot, d: Decision)
    ensures d in Decisions(s) <==>
      || (exists a :: a in s.antis && d == Decision(a.severity, a.id, a.kind.name, a.kind.target))
      || (exists o :: o in s.overdue && o.severity != Info
            && d == Decision(o.severity, "obligation_overdue::" + o.id, "obligation_overdue", Some(o.id)))
      || (exists v :: v in s.nodes && v.severity != Info
            && d == Decision(v.severity, "eu_heartbeat_stale::" + v.id, "eu_heartbeat_stale", Some(v.id)))
  {
    OverdueDecided(s.overdue, d);
    StaleDecided(s.nodes, d);
    forall id: string ensures Made(OVERDUE, id) == "obligation_overdue::" + id
                              && Made(STALE, id) == "eu_heartbeat_stale::" + id {}
    if a :| a in s.antis && d == AntiDecision(a) {
      var k :| 0 <= k < |s.antis| && s.antis[k] == a;
      assert AntiDecisions(s.antis)[k] == d;
    }
  }

  // ---- the log and the acknowledgements ----

  /** The newest entry for the key. */
  function LastForKey(log: seq<Entry>, key: string): Option<Entry>
    decreases |log|
  {
    if log == [] then None
    else
      var n := |log| - 1;
      if log[n].key == key then Some(log[n]) else LastForKey(log[..n], key)
  }

  predicate IsAcked(acks: seq<Ack>, key: string, now: int) {
    exists i :: 0 <= i < |acks| && acks[i].key == key && acks[i].expires > now
  }

  /** Dedupe windows by severity; a missing one is 0. */
  type Windows = map<Severity, int>

  function WindowOf(w: Windows, s: Severity): int { if s in w then w[s] else 0 }

  predicate IsDeduped(log: seq<Entry>, w: Windows, key: string, severity: Severity, now: int) {
    var last := LastForKey(log, key);
    last.Some? && WindowOf(w, severity) > 0 && now - last.value.at < WindowOf(w, severity)
  }

  // ---- what a sweep logs ----

  /** Whether each sink takes an alert for a key. */
  type Delivery = (Sink, string) -> bool

  function Rows(d: Decision, now: int, deliver: Delivery): seq<Entry> {
    var sinks := Routing(d.severity);
    seq(|sinks|, i requires 0 <= i < |sinks| => Entry(now, sinks[i], d.severity, d.key, deliver(sinks[i], d.key)))
  }

  /** The decision is routed, not acknowledged and not within the window of its last attempt. */
  predicate Due(log: seq<Entry>, acks: seq<Ack>, w: Windows, d: Decision, now: int) {
    Routing(d.severity) != [] && !IsAcked(acks, d.key, now) && !IsDeduped(log, w, d.key, d.severity, now)
  }

  function LogOf(log: seq<Entry>, acks: seq<Ack>, w: Windows, d: Decision, now: int, deliver: Delivery): seq<Entry> {
    if Due(log, acks, w, d, now) then Rows(d, now, deliver) else []
  }

  /** The rows of all decisions, each judged on the log before the sweep. */
  function Batch(log: seq<Entry>, acks: seq<Ack>, w: Windows, ds: seq<Decision>, now: int,
      deliver: Delivery): seq<Entry>
    decreases |ds|
  {
    if ds == [] then []
    else
      var n := |ds| - 1;
      Batch(log, acks, w, ds[..n], now, deliver) + LogOf(log, acks, w, ds[n], now, deliver)
  }

  predicate Unique<T(==)>(s: seq<T>) { forall i, j :: 0 <= i < j < |s| ==> s[i] != s[j] }

  function Keys(ds: seq<Decision>): seq<string> { seq(|ds|, i requires 0 <= i < |ds| => ds[i].key) }

  lemma {:induction false} LastOfOthers(log: seq<Entry>, more: seq<Entry>, key: string)
    requires forall i :: 0 <= i < |more| ==> more[i].key != key
    ensures LastForKey(log + more, key) == LastForKey(log, key)
    decreases |more|
  {
    if more == [] {
      assert log + more == log;
    } else {
      var n := |more| - 1;
      LastOfOthers(log, more[..n], key);
      assert (log + more)[..|log| + n] == log + more[..n];
    }
  }

  /** The rows of a batch carry the keys of its decisions. */
  lemma {:induction false} BatchKeys(log: seq<Entry>, acks: seq<Ack>, w: Windows, ds: seq<Decision>, now: int,
                                     deliver: Delivery, i: nat)
    requires i < |Batch(log, acks, w, ds, now, deliver)|
    ensures var e := Batch(log, acks, w, ds, now, deliver)[i];
      e.at == now && exists k :: 0 <= k < |ds| && ds[k].key == e.key && ds[k].severity == e.severity
                                 && Due(log, acks, w, ds[k], now)
    decreases |ds|
  {
    var n := |ds| - 1;
    var front := Batch(log, acks, w, ds[..n], now, deliver);
    if i < |front| {
      BatchKeys(log, acks, w, ds[..n], now, deliver, i);
      var k :| 0 <= k < n && ds[..n][k].key == front[i].key && ds[..n][k].severity == front[i].severity
               && Due(log, acks, w, ds[..n][k], now);
      assert ds[k] == ds[..n][k];
    } else {
      assert ds[n].key == LogOf(log, acks, w, ds[n], now, deliver)[i - |front|].key;
    }
  }

  function Delivered(es: seq<Entry>): nat
    decreases |es|
  {
    if es == [] then 0 else Delivered(es[..|es| - 1]) + if es[|es| - 1].delivered then 1 else 0
  }

  lemma {:induction false} DeliveredConcat(a: seq<Entry>, b: seq<Entry>)
    ensures Delivered(a + b) == Delivered(a) + Delivered(b)
    decreases |b|
  {
    if b == [] {
      assert a + b == a;
    } else {
      DeliveredConcat(a, b[..|b| - 1]);
      assert (a + b)[..|a + b| - 1] == a + b[..|b| - 1];
    }
  }

  /** The decisions left out because acknowledged, and those within their window. */
  function AckedOf(acks: seq<Ack>, ds: seq<Decision>, now: int): nat
    decreases |ds|
  {
    if ds == [] then 0
    else
      var n := |ds| - 1;
      AckedOf(acks, ds[..n], now) + if Routing(ds[n].severity) != [] && IsAcked(acks, ds[n].key, now) then 1 else 0
  }

  function DedupedOf(log: seq<Entry>, acks: seq<Ack>, w: Windows, ds: seq<Decision>, now: int): nat
    decreases |ds|
  {
    if ds == [] then 0
    else
      var n := |ds| - 1;
      DedupedOf(log, acks, w, ds[..n], now)
      + if Routing(ds[n].severity) != [] && !IsAcked(acks, ds[n].key, now)
           && IsDeduped(log, w, ds[n].key, ds[n].severity, now) then 1 else 0
  }

  datatype Counts = Counts(dispatched: nat, deduped: nat, acked: nat, decisions: nat)

  class Sweeper {
    var log: seq<Entry>
    var acks: seq<Ack>

    method Append(e: Entry)
      modifies `log
      ensures log == old(log) + [e]
    {
      log := log + [e];
    }

    /** An acknowledgement without evidence is refused. */
    method Acknowledge(key: string, expires: int, evidence: string) returns (ok: bool)
      modifies `acks
      ensures ok <==> evidence != ""
      ensures acks == if ok then old(acks) + [Ack(key, expires)] else old(acks)
    {
      ok := evidence != "";
      if ok { acks := acks + [Ack(key, expires)]; }
    }

    method Dispatch(d: Decision, now: int, deliver: Delivery) returns (delivered: nat)
      modifies `log
      ensures log == old(log) + Rows(d, now, deliver)
      ensures delivered == Delivered(Rows(d, now, deliver))
    {
      delivered := 0;
      var sinks := Routing(d.severity);
      for k := 0 to |sinks|
        invariant log == old(log) + Rows(d, now, deliver)[..k] && delivered == Delivered(Rows(d, now, deliver)[..k])
      {
        assert Rows(d, now, deliver)[..k + 1] == Rows(d, now, deliver)[..k] + [Rows(d, now, deliver)[k]];
        assert Rows(d, now, deliver)[..k + 1][..k] == Rows(d, now, deliver)[..k];
        var ok := deliver(sinks[k], d.key);
        Append(Entry(now, sinks[k], d.severity, d.key, ok));
        if ok { delivered := delivered + 1; }
      }
      assert Rows(d, now, deliver)[..|sinks|] == Rows(d, now, deliver);
    }

    /** One decision of a sweep that started from the log `start`. */
    method Handle(w: Windows, d: Decision, now: int, deliver: Delivery)
      returns (sent: nat, wasDeduped: bool, wasAcked: bool)
      modifies `log
      ensures log == old(log) + LogOf(old(log), acks, w, d, now, deliver)
      ensures sent == Delivered(LogOf(old(log), acks, w, d, now, deliver))
      ensures wasAcked == (Routing(d.severity) != [] && IsAcked(acks, d.key, now))
      ensures wasDeduped == (Routing(d.severity) != [] && !wasAcked && IsDeduped(old(log), w, d.key, d.severity, now))
    {
      sent, wasDeduped, wasAcked := 0, false, false;
      if Routing(d.severity) == [] { return; }
      if IsAcked(acks, d.key, now) {
        wasAcked := true;
      } else if IsDeduped(log, w, d.key, d.severity, now) {
        wasDeduped := true;
      } else {
        sent := Dispatch(d, now, deliver);
      }
    }

    /** One sweep: the rows logged are those of the decisions due on the log as it was before. */
    method RunOnce(w: Windows, cs: seq<Clock>, ns: seq<Node>, staleAfter: int, now: int, deliver: Delivery)
      returns (r: Counts)
      requires Unique(ClockIds(cs)) && Unique(NodeIds(ns))
      modifies `log
      ensures var ds := Decisions(Collect(cs, ns, now, staleAfter));
        var batch := Batch(old(log), acks, w, ds, now, deliver);
        && log == old(log) + batch
        && r == Counts(Delivered(batch), DedupedOf(old(log), acks, w, ds, now), AckedOf(acks, ds, now), |ds|)
    {
      var snap := CollectSnapshot(cs, ns, now, staleAfter);
      var ds := BuildDecisions(snap);
      KeysAreDistinct(cs, ns, now, staleAfter);
      r := HandleAll(w, ds, now, deliver);
    }

    method HandleAll(w: Windows, ds: seq<Decision>, now: int, deliver: Delivery) returns (r: Counts)
      requires Unique(Keys(ds))
      modifies `log
      ensures var batch := Batch(old(log), acks, w, ds, now, deliver);
        && log == old(log) + batch
        && r == Counts(Delivered(batch), DedupedOf(old(log), acks, w, ds, now), AckedOf(acks, ds, now), |ds|)
    {
      var dispatched, deduped, acked := 0, 0, 0;
      ghost var start := log;
      for k := 0 to |ds|
        invariant log == start + Batch(start, acks, w, ds[..k], now, deliver)
        invariant dispatched == Delivered(Batch(start, acks, w, ds[..k], now, deliver))
        invariant deduped == DedupedOf(start, acks, w, ds[..k], now) && acked == AckedOf(acks, ds[..k], now)
      {
        BatchSnoc(start, acks, w, ds, now, deliver, k);
        JudgedOnStart(start, acks, w, ds, now, deliver, k);
        var sent, wasDeduped, wasAcked := Handle(w, ds[k], now, deliver);
        dispatched := dispatched + sent;
        if wasDeduped { deduped := deduped + 1; }
        if wasAcked { acked := acked + 1; }
      }
      assert ds[..|ds|] == ds;
      r := Counts(dispatched, deduped, acked, |ds|);
    }
  }

  /** Earlier rows of the same sweep do not change the judgement on a decision. */
  lemma JudgedOnStart(log: seq<Entry>, acks: seq<Ack>, w: Windows, ds: seq<Decision>, now: int, deliver: Delivery,
      k: nat)
    requires Unique(Keys(ds)) && k < |ds|
    ensures IsDeduped(log + Batch(log, acks, w, ds[..k], now, deliver), w, ds[k].key, ds[k].severity, now)
      == IsDeduped(log, w, ds[k].key, ds[k].severity, now)
  {
    var batch := Batch(log, acks, w, ds[..k], now, deliver);
    forall i | 0 <= i < |batch| ensures batch[i].key != ds[k].key {
      BatchKeys(log, acks, w, ds[..k], now, deliver, i);
      var m :| 0 <= m < k && ds[..k][m].key == batch[i].key;
      assert Keys(ds)[m] == ds[..k][m].key && Keys(ds)[k] == ds[k].key;
    }
    LastOfOthers(log, batch, ds[k].key);
  }

  lemma BatchSnoc(log: seq<Entry>, acks: seq<Ack>, w: Windows, ds: seq<Decision>, now: int, deliver: Delivery, k: nat)
    requires Unique(Keys(ds)) && k < |ds|
    ensures ds[..k + 1][..k] == ds[..k]
    ensures var batch := Batch(log, acks, w, ds[..k], now, deliver);
      var rows := LogOf(log + batch, acks, w, ds[k], now, deliver);
      && log + Batch(log, acks, w, ds[..k + 1], now, deliver) == log + batch + rows
      && Delivered(Batch(log, acks, w, ds[..k + 1], now, deliver)) == Delivered(batch) + Delivered(rows)
  {
    JudgedOnStart(log, acks, w, ds, now, deliver, k);
    assert ds[..k + 1][..k] == ds[..k];
    var batch, rows := Batch(log, acks, w, ds[..k], now, deliver), LogOf(log, acks, w, ds[k], now, deliver);
    assert Batch(log, acks, w, ds[..k + 1], now, deliver) == batch + rows;
    assert log + (batch + rows) == (log + batch) + rows;
    DeliveredConcat(batch, rows);
  }

  // ---- the keys of one sweep are distinct ----

  /** A key made with a name that is no anti-obligation prefix. */
  lemma MadeKey(name: string, id: string)
    requires name == OVERDUE || name == STALE
    ensures Classify(Made(name, id)) == None && Partition(Made(name, id)) == Some((name, id))
  {
    PartitionExactly(Made(name, id), name, id);
    assert Made(name, id)[|name|] == ':';
    if Made(name, id) in SINGLETONS { SingletonsHaveNoColon(Made(name, id)); }
  }

  lemma {:induction false} CountUnique<T>(t: seq<T>, x: T)
    requires Unique(t)
    ensures multiset(t)[x] <= 1
    decreases |t|
  {
    if t != [] {
      var n := |t| - 1;
      CountUnique(t[..n], x);
      assert t == t[..n] + [t[n]];
      if x == t[n] { assert x !in t[..n]; }
    }
  }

  lemma CountTwice<T>(s: seq<T>, i: nat, j: nat)
    requires i < j < |s| && s[i] == s[j]
    ensures multiset(s)[s[i]] >= 2
  {
    assert s == s[..i] + [s[i]] + s[i + 1..j] + [s[j]] + s[j + 1..];
  }

  lemma UniqueSub<T>(s: seq<T>, t: seq<T>)
    requires Unique(t) && multiset(s) <= multiset(t)
    ensures Unique(s)
  {
    forall i, j | 0 <= i < j < |s| ensures s[i] != s[j] {
      if s[i] == s[j] {
        CountTwice(s, i, j);
        CountUnique(t, s[i]);
      }
    }
  }

  lemma SubOfSum<T>(a: seq<T>, b: seq<T>, c: seq<T>, t: seq<T>)
    requires multiset(a) + multiset(b) + multiset(c) == multiset(t)
    ensures multiset(a) <= multiset(t) && multiset(b) <= multiset(t)
  {}

  function MadeKeys(name: string, ids: seq<string>): seq<string> {
    seq(|ids|, i requires 0 <= i < |ids| => Made(name, ids[i]))
  }

  lemma MadeKeysUnique(name: string, ids: seq<string>)
    requires Unique(ids) && (name == OVERDUE || name == STALE)
    ensures Unique(MadeKeys(name, ids))
  {
    forall i, j | 0 <= i < j < |ids| ensures MadeKeys(name, ids)[i] != MadeKeys(name, ids)[j] {
      MadeKey(name, ids[i]);
      MadeKey(name, ids[j]);
    }
  }

  lemma SubCons<T>(x: T, s: seq<T>, t: seq<T>, keep: bool)
    requires multiset(s) <= multiset(t)
    ensures multiset((if keep then [x] else []) + s) <= multiset([x] + t)
  {}

  lemma OverdueKeysOfFirst(s: seq<Status>)
    requires s != []
    ensures Keys(OverdueDecisions(s)) ==
      (if s[0].severity != Info then [Made(OVERDUE, s[0].id)] else []) + Keys(OverdueDecisions(s[1..]))
  {}

  lemma MadeKeysOfFirst(s: seq<Status>)
    requires s != []
    ensures MadeKeys(OVERDUE, StatusIds(s)) == [Made(OVERDUE, s[0].id)] + MadeKeys(OVERDUE, StatusIds(s[1..]))
  {}

  lemma {:induction false} OverdueKeys(s: seq<Status>)
    ensures multiset(Keys(OverdueDecisions(s))) <= multiset(MadeKeys(OVERDUE, StatusIds(s)))
  {
    if s != [] {
      OverdueKeys(s[1..]);
      OverdueKeysOfFirst(s);
      MadeKeysOfFirst(s);
      SubCons(Made(OVERDUE, s[0].id), Keys(OverdueDecisions(s[1..])), MadeKeys(OVERDUE, StatusIds(s[1..])),
              s[0].severity != Info);
    } else {
      assert Keys(OverdueDecisions(s)) == [];
    }
  }

  function NodeIds(ns: seq<Node>): seq<string> { seq(|ns|, i requires 0 <= i < |ns| => ns[i].id) }

  lemma {:induction false} StaleKeys(ns: seq<Node>, now: int, staleAfter: int)
    ensures multiset(Keys(StaleDecisions(Views(ns, now, staleAfter)))) <= multiset(MadeKeys(STALE, NodeIds(ns)))
  {
    if ns != [] {
      StaleKeys(ns[1..], now, staleAfter);
      StaleKeysOfFirst(ns, now, staleAfter);
      MadeNodeKeysOfFirst(ns);
      SubCons(Made(STALE, ns[0].id), Keys(StaleDecisions(Views(ns[1..], now, staleAfter))),
              MadeKeys(STALE, NodeIds(ns[1..])),
              ns[0].role != OtherRole && ViewOf(ns[0], now, staleAfter).severity != Info);
    } else {
      assert Keys(StaleDecisions(Views(ns, now, staleAfter))) == [];
    }
  }

  lemma StaleKeysOfFirst(ns: seq<Node>, now: int, staleAfter: int)
    requires ns != []
    ensures Keys(StaleDecisions(Views(ns, now, staleAfter))) ==
      (if ns[0].role != OtherRole && ViewOf(ns[0], now, staleAfter).severity != Info
       then [Made(STALE, ns[0].id)] else [])
      + Keys(StaleDecisions(Views(ns[1..], now, staleAfter)))
  {
    StaleOfFirst(ns, now, staleAfter);
  }

  lemma MadeNodeKeysOfFirst(ns: seq<Node>)
    requires ns != []
    ensures MadeKeys(STALE, NodeIds(ns)) == [Made(STALE, ns[0].id)] + MadeKeys(STALE, NodeIds(ns[1..]))
  {}

  lemma StaleOfFirst(ns: seq<Node>, now: int, staleAfter: int)
    requires ns != []
    ensures var v, rest := ViewOf(ns[0], now, staleAfter), StaleDecisions(Views(ns[1..], now, staleAfter));
      StaleDecisions(Views(ns, now, staleAfter))
      == (if ns[0].role != OtherRole && v.severity != Info then [StaleDecision(v)] else []) + rest
  {
    var vs, tail := Views(ns, now, staleAfter), Views(ns[1..], now, staleAfter);
    if ns[0].role == OtherRole {
      assert vs == tail;
    } else {
      assert vs[1..] == tail;
    }
  }

  lemma {:induction false} AntisClassified(cs: seq<Clock>, now: int)
    ensures forall i :: 0 <= i < |Antis(cs, now)| ==> Classify(Antis(cs, now)[i].id).Some?
  {
    if cs != [] { AntisClassified(cs[1..], now); }
  }

  /** Where a key comes from: a classified row, an overdue row or a silent node. */
  function Origin(key: string): Option<string> {
    if Classify(key).Some? then None else match Partition(key) case Some((a, _)) => Some(a) case None => None
  }

  lemma OriginOfMade(name: string, ids: seq<string>, keys: seq<string>)
    requires (name == OVERDUE || name == STALE) && multiset(keys) <= multiset(MadeKeys(name, ids))
    ensures forall i :: 0 <= i < |keys| ==> Origin(keys[i]) == Some(name)
  {
    forall i | 0 <= i < |keys| ensures Origin(keys[i]) == Some(name) {
      assert keys[i] in multiset(keys);
      var k :| 0 <= k < |ids| && MadeKeys(name, ids)[k] == keys[i];
      MadeKey(name, ids[k]);
    }
  }

  lemma UniqueConcat(a: seq<string>, b: seq<string>, c: seq<string>)
    requires Unique(a) && Unique(b) && Unique(c)
    requires forall i :: 0 <= i < |a| ==> Origin(a[i]) == None
    requires forall i :: 0 <= i < |b| ==> Origin(b[i]) == Some(OVERDUE)
    requires forall i :: 0 <= i < |c| ==> Origin(c[i]) == Some(STALE)
    ensures Unique(a + b + c)
  {
    assert OVERDUE[0] != STALE[0];
    var s := a + b + c;
    forall i, j | 0 <= i < j < |s| ensures s[i] != s[j] {
      assert Origin(s[i]) == Origin(s[j]) ==> (j < |a| || (|a| <= i && j < |a| + |b|) || |a| + |b| <= i);
    }
  }

  /** All keys of one sweep are distinct. */
  lemma KeysAreDistinct(cs: seq<Clock>, ns: seq<Node>, now: int, staleAfter: int)
    requires Unique(ClockIds(cs)) && Unique(NodeIds(ns))
    ensures Unique(Keys(Decisions(Collect(cs, ns, now, staleAfter))))
  {
    var antis, overdue, views := Antis(cs, now), Overdue(cs, now), Views(ns, now, staleAfter);
    EachRowOnce(cs, now);
    SubOfSum(AntiIds(antis), StatusIds(overdue), StatusIds(Healthy(cs, now)), ClockIds(cs));
    UniqueSub(AntiIds(antis), ClockIds(cs));
    UniqueSub(StatusIds(overdue), ClockIds(cs));
    OverdueKeysUnique(overdue);
    StaleKeysUnique(ns, now, staleAfter);
    AntisClassified(cs, now);
    UniqueConcat(AntiIds(antis), Keys(OverdueDecisions(overdue)), Keys(StaleDecisions(views)));
    KeysOfDecisions(antis, overdue, views);
  }

  lemma OverdueKeysUnique(s: seq<Status>)
    requires Unique(StatusIds(s))
    ensures Unique(Keys(OverdueDecisions(s)))
    ensures forall i :: 0 <= i < |Keys(OverdueDecisions(s))| ==> Origin(Keys(OverdueDecisions(s))[i]) == Some(OVERDUE)
  {
    OverdueKeys(s);
    MadeKeysUnique(OVERDUE, StatusIds(s));
    UniqueSub(Keys(OverdueDecisions(s)), MadeKeys(OVERDUE, StatusIds(s)));
    OriginOfMade(OVERDUE, StatusIds(s), Keys(OverdueDecisions(s)));
  }

  lemma StaleKeysUnique(ns: seq<Node>, now: int, staleAfter: int)
    requires Unique(NodeIds(ns))
    ensures var keys := Keys(StaleDecisions(Views(ns, now, staleAfter)));
      Unique(keys) && forall i :: 0 <= i < |keys| ==> Origin(keys[i]) == Some(STALE)
  {
    var keys := Keys(StaleDecisions(Views(ns, now, staleAfter)));
    StaleKeys(ns, now, staleAfter);
    MadeKeysUnique(STALE, NodeIds(ns));
    UniqueSub(keys, MadeKeys(STALE, NodeIds(ns)));
    OriginOfMade(STALE, NodeIds(ns), keys);
  }

  lemma KeysOfDecisions(antis: seq<Anti>, overdue: seq<Status>, views: seq<View>)
    ensures Keys(AntiDecisions(antis) + OverdueDecisions(overdue) + StaleDecisions(views))
      == AntiIds(antis) + Keys(OverdueDecisions(overdue)) + Keys(StaleDecisions(views))
  {}

  // ---- over whole runs ----

  datatype Config = Config(windows: Windows, staleAfter: int)

  /** A sweep, an acknowledgement, or a row logged by another part of the controller. */
  datatype Event =
    | Sweep(cs: seq<Clock>, ns: seq<Node>, now: int, deliver: Delivery)
    | Acknowledged(ack: Ack)
    | Logged(entry: Entry)

  datatype State = State(log: seq<Entry>, acks: seq<Ack>)

  function BatchOf(c: Config, s: State, e: Event): seq<Entry>
    requires e.Sweep?
  {
    Batch(s.log, s.acks, c.windows, Decisions(Collect(e.cs, e.ns, e.now, c.staleAfter)), e.now, e.deliver)
  }

  function Step(c: Config, s: State, e: Event): State {
    match e
    case Sweep(_, _, _, _) => s.(log := s.log + BatchOf(c, s, e))
    case Acknowledged(ack) => s.(acks := s.acks + [ack])
    case Logged(entry) => s.(log := s.log + [entry])
  }

  function Run(c: Config, es: seq<Event>): State
    decreases |es|
  {
    if es == [] then State([], []) else Step(c, Run(c, es[..|es| - 1]), es[|es| - 1])
  }

  predicate NotAfter(e: Event, t: int) {
    match e case Sweep(_, _, now, _) => now <= t case Acknowledged(_) => true case Logged(entry) => entry.at <= t
  }

  predicate NotBefore(e: Event, t: int) {
    match e case Sweep(_, _, now, _) => t <= now case Acknowledged(_) => true case Logged(entry) => t <= entry.at
  }

  /** The clock does not run backwards: some times, one for each event, ascend with the run. */
  ghost predicate Clocked(es: seq<Event>, times: seq<int>) {
    |times| == |es| && (forall i :: 0 <= i < |es| ==> NotAfter(es[i], times[i]) && NotBefore(es[i], times[i]))
    && forall i, j :: 0 <= i < j < |times| ==> times[i] <= times[j]
  }

  predicate Ordered(log: seq<Entry>) { forall i, j :: 0 <= i < j < |log| ==> log[i].at <= log[j].at }

  predicate UpTo(log: seq<Entry>, t: int) { forall i :: 0 <= i < |log| ==> log[i].at <= t }

  lemma BatchTimes(c: Config, s: State, e: Event)
    requires e.Sweep?
    ensures forall i :: 0 <= i < |BatchOf(c, s, e)| ==> BatchOf(c, s, e)[i].at == e.now
  {
    forall i | 0 <= i < |BatchOf(c, s, e)| ensures BatchOf(c, s, e)[i].at == e.now {
      BatchKeys(s.log, s.acks, c.windows, Decisions(Collect(e.cs, e.ns, e.now, c.staleAfter)), e.now, e.deliver, i);
    }
  }

  lemma StepOrdered(c: Config, s: State, e: Event, before: int, t: int)
    requires Ordered(s.log) && UpTo(s.log, before) && before <= t && NotAfter(e, t) && NotBefore(e, t)
    ensures Ordered(Step(c, s, e).log) && UpTo(Step(c, s, e).log, t)
  {
    if e.Sweep? { BatchTimes(c, s, e); }
  }

  lemma {:induction false} RunOrdered(c: Config, es: seq<Event>, times: seq<int>, t: int)
    requires Clocked(es, times) && forall i :: 0 <= i < |times| ==> times[i] <= t
    ensures Ordered(Run(c, es).log) && UpTo(Run(c, es).log, t)
    decreases |es|
  {
    if es != [] {
      var n := |es| - 1;
      RunOrdered(c, es[..n], times[..n], times[n]);
      StepOrdered(c, Run(c, es[..n]), es[n], times[n], times[n]);
    }
  }

  lemma {:induction false} LastIsLatest(log: seq<Entry>, key: string, i: nat)
    requires Ordered(log) && i < |log| && log[i].key == key
    ensures LastForKey(log, key).Some? && LastForKey(log, key).value.at >= log[i].at
    decreases |log|
  {
    var n := |log| - 1;
    if log[n].key != key { LastIsLatest(log[..n], key, i); }
  }

  /** In any run with a clock that does not run backwards, what a sweep logs for a key comes at
      least the window of its severity after every earlier row for that key. */
  lemma DispatchesSpaced(c: Config, es: seq<Event>, times: seq<int>, e: Event, i: nat, j: nat)
    requires e.Sweep? && Clocked(es, times) && forall k :: 0 <= k < |times| ==> times[k] <= e.now
    requires j < |Run(c, es).log| && i < |BatchOf(c, Run(c, es), e)|
    requires BatchOf(c, Run(c, es), e)[i].key == Run(c, es).log[j].key
    ensures var b := BatchOf(c, Run(c, es), e)[i];
      b.severity in c.windows && c.windows[b.severity] > 0 ==>
        b.at - Run(c, es).log[j].at >= c.windows[b.severity]
  {
    var s := Run(c, es);
    RunOrdered(c, es, times, e.now);
    BatchKeys(s.log, s.acks, c.windows, Decisions(Collect(e.cs, e.ns, e.now, c.staleAfter)), e.now, e.deliver, i);
    LastIsLatest(s.log, s.log[j].key, j);
  }

  function KeyRows(es: seq<Entry>, key: string): seq<Entry>
    decreases |es|
  {
    if es == [] then []
    else
      var n := |es| - 1;
      KeyRows(es[..n], key) + if es[n].key == key then [es[n]] else []
  }

  lemma {:induction false} KeyRowsConcat(a: seq<Entry>, b: seq<Entry>, key: string)
    ensures KeyRows(a + b, key) == KeyRows(a, key) + KeyRows(b, key)
    decreases |b|
  {
    if b == [] {
      assert a + b == a;
    } else {
      var n := |b| - 1;
      KeyRowsConcat(a, b[..n], key);
      assert (a + b)[..|a| + n] == a + b[..n];
    }
  }

  lemma {:induction false} KeyRowsOfOthers(es: seq<Entry>, key: string)
    requires forall i :: 0 <= i < |es| ==> es[i].key != key
    ensures KeyRows(es, key) == []
    decreases |es|
  {
    if es != [] { KeyRowsOfOthers(es[..|es| - 1], key); }
  }

  lemma FrontAndLast<T>(s: seq<T>)
    requires s != []
    ensures s == s[..|s| - 1] + [s[|s| - 1]]
  {}

  lemma {:induction false} KeyRowsOfSame(es: seq<Entry>, key: string)
    requires forall i :: 0 <= i < |es| ==> es[i].key == key
    ensures KeyRows(es, key) == es
    decreases |es|
  {
    if es != [] {
      var n := |es| - 1;
      KeyRowsOfSame(es[..n], key);
      FrontAndLast(es);
    }
  }

  lemma {:induction false} RowsOfDecision(log: seq<Entry>, acks: seq<Ack>, w: Windows, ds: seq<Decision>, now: int,
                                          deliver: Delivery, k: nat)
    requires Unique(Keys(ds)) && k < |ds|
    ensures KeyRows(Batch(log, acks, w, ds, now, deliver), ds[k].key) == LogOf(log, acks, w, ds[k], now, deliver)
    decreases |ds|
  {
    var n := |ds| - 1;
    if k == n {
      RowsOfLast(log, acks, w, ds, now, deliver);
    } else {
      RowsOfEarlier(log, acks, w, ds, now, deliver, k);
      RowsOfDecision(log, acks, w, ds[..n], now, deliver, k);
    }
  }

  lemma RowsOfLast(log: seq<Entry>, acks: seq<Ack>, w: Windows, ds: seq<Decision>, now: int, deliver: Delivery)
    requires Unique(Keys(ds)) && ds != []
    ensures var d := ds[|ds| - 1];
      KeyRows(Batch(log, acks, w, ds, now, deliver), d.key) == LogOf(log, acks, w, d, now, deliver)
  {
    var n := |ds| - 1;
    var rows := LogOf(log, acks, w, ds[n], now, deliver);
    KeyRowsConcat(Batch(log, acks, w, ds[..n], now, deliver), rows, ds[n].key);
    KeyRowsOfSame(rows, ds[n].key);
    NotInBatch(log, acks, w, ds, now, deliver);
  }

  /** The last decision adds no row for the key of an earlier one. */
  lemma RowsOfEarlier(log: seq<Entry>, acks: seq<Ack>, w: Windows, ds: seq<Decision>, now: int, deliver: Delivery,
      k: nat)
    requires Unique(Keys(ds)) && k < |ds| - 1
    ensures Unique(Keys(ds[..|ds| - 1]))
    ensures KeyRows(Batch(log, acks, w, ds, now, deliver), ds[k].key)
      == KeyRows(Batch(log, acks, w, ds[..|ds| - 1], now, deliver), ds[k].key)
  {
    var n := |ds| - 1;
    KeysOfFront(ds, k);
    DropOthers(Batch(log, acks, w, ds[..n], now, deliver), LogOf(log, acks, w, ds[n], now, deliver), ds[k].key);
  }

  lemma KeysOfFront(ds: seq<Decision>, k: nat)
    requires Unique(Keys(ds)) && k < |ds| - 1
    ensures Unique(Keys(ds[..|ds| - 1])) && ds[k].key != ds[|ds| - 1].key
  {
    var n := |ds| - 1;
    assert Keys(ds)[n] == ds[n].key && Keys(ds)[k] == ds[k].key;
    forall i, j | 0 <= i < j < n ensures Keys(ds[..n])[i] != Keys(ds[..n])[j] { assert Keys(ds)[i] != Keys(ds)[j]; }
  }

  lemma DropOthers(front: seq<Entry>, rows: seq<Entry>, key: string)
    requires forall i :: 0 <= i < |rows| ==> rows[i].key != key
    ensures KeyRows(front + rows, key) == KeyRows(front, key)
  {
    KeyRowsConcat(front, rows, key);
    KeyRowsOfOthers(rows, key);
  }

  lemma NotInBatch(log: seq<Entry>, acks: seq<Ack>, w: Windows, ds: seq<Decision>, now: int, deliver: Delivery)
    requires Unique(Keys(ds)) && ds != []
    ensures KeyRows(Batch(log, acks, w, ds[..|ds| - 1], now, deliver), ds[|ds| - 1].key) == []
  {
    var n := |ds| - 1;
    var front := Batch(log, acks, w, ds[..n], now, deliver);
    forall i | 0 <= i < |front| ensures front[i].key != ds[n].key {
      BatchKeys(log, acks, w, ds[..n], now, deliver, i);
      var m :| 0 <= m < n && ds[..n][m].key == front[i].key;
      assert Keys(ds)[m] == front[i].key && Keys(ds)[n] == ds[n].key;
    }
    KeyRowsOfOthers(front, ds[n].key);
  }

  /** The rows a sweep logs for one of its decisions, exactly when it is not acknowledged and the last
      attempt for its key is at least the window of its severity old: for a critical one the messenger
      and then the mail, for a warning the messenger alone, and none for anything else. */
  lemma AttemptsExactly(c: Config, s: State, e: Event, k: nat)
    requires e.Sweep? && Unique(ClockIds(e.cs)) && Unique(NodeIds(e.ns))
    requires k < |Decisions(Collect(e.cs, e.ns, e.now, c.staleAfter))|
    ensures var d := Decisions(Collect(e.cs, e.ns, e.now, c.staleAfter))[k];
      var last, window := LastForKey(s.log, d.key), if d.severity in c.windows then c.windows[d.severity] else 0;
      var acked := exists i :: 0 <= i < |s.acks| && s.acks[i].key == d.key && s.acks[i].expires > e.now;
      var due := !acked && (last.None? || window <= 0 || e.now - last.value.at >= window);
      KeyRows(BatchOf(c, s, e), d.key) ==
        if due && d.severity == Crit
        then [Entry(e.now, Telegram, Crit, d.key, e.deliver(Telegram, d.key)),
              Entry(e.now, Email, Crit, d.key, e.deliver(Email, d.key))]
        else if due && d.severity == Warn
        then [Entry(e.now, Telegram, Warn, d.key, e.deliver(Telegram, d.key))]
        else []
  {
    var ds := Decisions(Collect(e.cs, e.ns, e.now, c.staleAfter));
    KeysAreDistinct(e.cs, e.ns, e.now, c.staleAfter);
    RowsOfDecision(s.log, s.acks, c.windows, ds, e.now, e.deliver, k);
    RowsOfSeverity(ds[k], e.now, e.deliver);
  }

  lemma RowsOfSeverity(d: Decision, now: int, deliver: Delivery)
    ensures Rows(d, now, deliver) == match d.severity
      case Crit => [Entry(now, Telegram, Crit, d.key, deliver(Telegram, d.key)),
                    Entry(now, Email, Crit, d.key, deliver(Email, d.key))]
      case Warn => [Entry(now, Telegram, Warn, d.key, deliver(Telegram, d.key))]
      case _ => []
  {}

  /** The decisions of a sweep that someone would be told of. */
  ghost predicate Told(d: Decision) { d.severity == Crit || d.severity == Warn }

  /** An acknowledgement of the key is still valid. */
  ghost predicate Silenced(acks: seq<Ack>, key: string, now: int) {
    exists i :: 0 <= i < |acks| && acks[i].key == key && now < acks[i].expires
  }

  ghost function SilencedOnes(acks: seq<Ack>, ds: seq<Decision>, now: int): set<int> {
    set k | 0 <= k < |ds| && Told(ds[k]) && Silenced(acks, ds[k].key, now)
  }

  ghost function RecentOnes(log: seq<Entry>, acks: seq<Ack>, w: Windows, ds: seq<Decision>, now: int): set<int> {
    set k | 0 <= k < |ds| && Told(ds[k]) && !Silenced(acks, ds[k].key, now)
            && LastForKey(log, ds[k].key).Some? && ds[k].severity in w
            && now - LastForKey(log, ds[k].key).value.at < w[ds[k].severity] && 0 < w[ds[k].severity]
  }

  ghost function Places(n: nat, at: int -> bool): set<int> { set k | 0 <= k < n && at(k) }

  lemma PlacesStep(n: nat, at: int -> bool)
    ensures |Places(n + 1, at)| == |Places(n, at)| + if at(n) then 1 else 0
  {
    assert Places(n + 1, at) == Places(n, at) + if at(n) then {n} else {};
  }

  lemma {:induction false} CountAcked(acks: seq<Ack>, ds: seq<Decision>, now: int, at: int -> bool)
    requires forall k :: 0 <= k < |ds| ==>
      (at(k) <==> Routing(ds[k].severity) != [] && IsAcked(acks, ds[k].key, now))
    ensures AckedOf(acks, ds, now) == |Places(|ds|, at)|
    decreases |ds|
  {
    if ds == [] {
      assert Places(0, at) == {};
    } else {
      CountAcked(acks, ds[..|ds| - 1], now, at);
      PlacesStep(|ds| - 1, at);
    }
  }

  lemma {:induction false} CountDeduped(log: seq<Entry>, acks: seq<Ack>, w: Windows, ds: seq<Decision>, now: int,
                                        at: int -> bool)
    requires forall k :: 0 <= k < |ds| ==>
      (at(k) <==> Routing(ds[k].severity) != [] && !IsAcked(acks, ds[k].key, now)
                  && IsDeduped(log, w, ds[k].key, ds[k].severity, now))
    ensures DedupedOf(log, acks, w, ds, now) == |Places(|ds|, at)|
    decreases |ds|
  {
    if ds == [] {
      assert Places(0, at) == {};
    } else {
      CountDeduped(log, acks, w, ds[..|ds| - 1], now, at);
      PlacesStep(|ds| - 1, at);
    }
  }

  lemma {:induction false} CountDelivered(es: seq<Entry>, at: int -> bool)
    requires forall i :: 0 <= i < |es| ==> (at(i) <==> es[i].delivered)
    ensures Delivered(es) == |Places(|es|, at)|
    decreases |es|
  {
    if es == [] {
      assert Places(0, at) == {};
    } else {
      CountDelivered(es[..|es| - 1], at);
      PlacesStep(|es| - 1, at);
    }
  }

  /** What a sweep counts: the deliveries that succeeded, the decisions with a recent attempt, and those
      acknowledged. */
  lemma CountsExactly(log: seq<Entry>, acks: seq<Ack>, w: Windows, ds: seq<Decision>, now: int, deliver: Delivery)
    ensures var batch := Batch(log, acks, w, ds, now, deliver);
      && Delivered(batch) == |set i | 0 <= i < |batch| && batch[i].delivered|
      && DedupedOf(log, acks, w, ds, now) == |RecentOnes(log, acks, w, ds, now)|
      && AckedOf(acks, ds, now) == |SilencedOnes(acks, ds, now)|
  {
    var batch := Batch(log, acks, w, ds, now, deliver);
    var silenced, recent := SilencedOnes(acks, ds, now), RecentOnes(log, acks, w, ds, now);
    var taken := set i | 0 <= i < |batch| && batch[i].delivered;
    CountAcked(acks, ds, now, k => k in silenced);
    CountDeduped(log, acks, w, ds, now, k => k in recent);
    CountDelivered(batch, k => k in taken);
    assert Places(|ds|, k => k in silenced) == silenced && Places(|ds|, k => k in recent) == recent;
    assert Places(|batch|, k => k in taken) == taken;
  }

  /** A key that is no decision of the sweep, or is acknowledged, gets no row. */
  lemma OthersGetNoRow(c: Config, s: State, e: Event, key: string)
    requires e.Sweep?
    requires IsAcked(s.acks, key, e.now) || key !in Keys(Decisions(Collect(e.cs, e.ns, e.now, c.staleAfter)))
    ensures KeyRows(BatchOf(c, s, e), key) == []
  {
    var ds, batch := Decisions(Collect(e.cs, e.ns, e.now, c.staleAfter)), BatchOf(c, s, e);
    forall i | 0 <= i < |batch| ensures batch[i].key != key {
      BatchKeys(s.log, s.acks, c.windows, ds, e.now, e.deliver, i);
      var m :| 0 <= m < |ds| && ds[m].key == batch[i].key && Due(s.log, s.acks, c.windows, ds[m], e.now);
      assert Keys(ds)[m] == batch[i].key;
    }
    KeyRowsOfOthers(batch, key);
  }

  lemma {:induction false} LastIsLastRow(log: seq<Entry>, key: string)
    ensures var rows := KeyRows(log, key);
      LastForKey(log, key) == if rows == [] then None else Some(rows[|rows| - 1])
    decreases |log|
  {
    if log != [] { LastIsLastRow(log[..|log| - 1], key); }
  }

  lemma LastAfter(log: seq<Entry>, batch: seq<Entry>, key: string)
    ensures var rows := KeyRows(batch, key);
      LastForKey(log + batch, key) == if rows == [] then LastForKey(log, key) else Some(rows[|rows| - 1])
  {
    KeyRowsConcat(log, batch, key);
    LastIsLastRow(log, key);
    LastIsLastRow(log + batch, key);
  }

  /** An acknowledgement holds for its key exactly until it expires. */
  lemma AckHolds(c: Config, s: State, ack: Ack, key: string, now: int)
    ensures IsAcked(Step(c, s, Acknowledged(ack)).acks, key, now) <==>
      IsAcked(s.acks, key, now) || (key == ack.key && now < ack.expires)
  {
    var acks := s.acks + [ack];
    assert forall i :: 0 <= i < |s.acks| ==> acks[i] == s.acks[i];
    assert acks[|s.acks|] == ack;
  }

  /** Every overdue row becomes a decision: none is rated info and skipped. */
  lemma {:induction false} OverdueAllDecided(s: seq<Status>)
    requires forall i :: 0 <= i < |s| ==> s[i].severity != Info
    ensures |OverdueDecisions(s)| == |s| && forall i :: 0 <= i < |s| ==> OverdueDecisions(s)[i] == OverdueDecision(s[i])
  {
    if s != [] { OverdueAllDecided(s[1..]); }
  }

  lemma EveryOverdueRowDecided(cs: seq<Clock>, now: int)
    ensures |OverdueDecisions(Overdue(cs, now))| == |Overdue(cs, now)|
  {
    OverdueIsRated(cs, now);
    OverdueAllDecided(Overdue(cs, now));
  }

  /** No key stays silent: after a sweep, every routed and unacknowledged decision has an attempt
      made in this sweep or less than its window ago. */
  lemma NoKeySilent(c: Config, s: State, e: Event, k: nat)
    requires e.Sweep? && Unique(ClockIds(e.cs)) && Unique(NodeIds(e.ns))
    requires k < |Decisions(Collect(e.cs, e.ns, e.now, c.staleAfter))|
    requires var d := Decisions(Collect(e.cs, e.ns, e.now, c.staleAfter))[k];
      (d.severity == Crit || d.severity == Warn)
      && forall i :: 0 <= i < |s.acks| && s.acks[i].key == d.key ==> s.acks[i].expires <= e.now
    ensures var d := Decisions(Collect(e.cs, e.ns, e.now, c.staleAfter))[k];
      var last := LastForKey(Step(c, s, e).log, d.key);
      last.Some?
      && (last.value.at == e.now || (d.severity in c.windows && e.now - last.value.at < c.windows[d.severity]))
  {
    var d, batch := Decisions(Collect(e.cs, e.ns, e.now, c.staleAfter))[k], BatchOf(c, s, e);
    AttemptsExactly(c, s, e, k);
    LastAfter(s.log, batch, d.key);
    assert Step(c, s, e).log == s.log + batch;
  }
}
