/** The snapshot the alerter works on: obligation clocks split by kind, severities, EU nodes.
    Times are in seconds. */
module Snapshot {
  import opened Prelude

  datatype Severity = Info | Warn | Crit | Heartbeat

  /** A row of the clock table; the due time may be unreadable. */
  datatype Clock = Clock(id: string, lastProven: int, nextDue: Option<int>)

  datatype Role = Active | Standby | OtherRole
  datatype Node = Node(id: string, role: Role, lastHeartbeat: Option<int>)

  const SINGLETONS: set<string> := {"cover_pool_rotation_frozen", "obs_dead_mans_switch_breach"}

  const PROBE_PREFIXES: set<string> := {
    "probe_kill_pending", "probe_evaluate_blocked", "probe_coverage_pending", "probe_vantage_rotation_pending",
    "probe_vantage_unreachable"}

  const COVER_PREFIXES: set<string> := {
    "cover_pool_rotation_pending", "cover_pool_reverify_drift_pending", "shard_overdue_pending",
    "shard_unassigned_pending", "dist_user_unregistered", "dist_user_heartbeat_breach"}

  const OTHER_PREFIXES: set<string> := {
    "image_rollback_pending", "backup_integrity_failed", "box_eu_tunnel_unseen", "tls_fingerprint_stale",
    "eu_exit_handshake_degraded"}

  const PREFIXES: set<string> := PROBE_PREFIXES + COVER_PREFIXES + OTHER_PREFIXES

  const FIXED: map<string, Severity> := map[
    "probe_kill_pending" := Crit, "probe_evaluate_blocked" := Warn, "probe_vantage_rotation_pending" := Info,
    "cover_pool_rotation_pending" := Warn, "cover_pool_rotation_frozen" := Crit, "shard_overdue_pending" := Warn,
    "shard_unassigned_pending" := Info, "obs_dead_mans_switch_breach" := Crit, "dist_user_unregistered" := Warn,
    "dist_user_heartbeat_breach" := Crit, "image_rollback_pending" := Crit, "tls_fingerprint_stale" := Warn,
    "eu_exit_handshake_degraded" := Crit]

  const DAY := 86400

  const CADENCE: map<string, int> := map[
    "probe_audit_sweep_ran" := 3600, "shard_reshuffle_sweep_ran" := 3600, "cover_pool_reverify_sweep_ran" := 3600,
    "cover_pool_rotation_sweep_ran" := 3600, "obs_alerter_sweep_ran" := 3600, "obs_heartbeat_proven" := 7200,
    "shard_reshuffle_proven" := 28 * DAY, "shard_disjointness_check_proven" := DAY, "probe_coverage_proven" := 7200,
    "probe_vantage_rotation_proven" := 28 * DAY, "cover_pool_reverify_pass_proven" := 60 * DAY,
    "cover_pool_replenishment_proven" := 90 * DAY, "backup_integrity_proven" := 7 * DAY]

  const NEVER := 1000000000

  function Max(a: int, b: int): int { if a > b then a else b }

  // ---- the kinds of obligation rows ----

  /** The text before and after the first "::". */
  function Partition(s: string): Option<(string, string)> {
    if |s| < 2 then None
    else if s[0] == ':' && s[1] == ':' then Some(("", s[2..]))
    else match Partition(s[1..]) case None => None case Some((a, b)) => Some(([s[0]] + a, b))
  }

  datatype Kind = Kind(name: string, target: Option<string>)

  function Classify(id: string): Option<Kind> {
    if id in SINGLETONS then Some(Kind(id, None))
    else match Partition(id)
      case Some((prefix, target)) => if prefix in PREFIXES then Some(Kind(prefix, Some(target))) else None
      case None => None
  }

  function SeverityOfAnti(kind: string, age: int): Severity {
    if kind == "probe_coverage_pending" then if age >= 6 * 3600 then Crit else Warn
    else if kind in FIXED then FIXED[kind] else Warn
  }

  function SeverityOfStaleness(overdue: int, cadence: int): Severity {
    if overdue <= 0 then Info else if overdue >= 2 * cadence then Crit else Warn
  }

  function SeverityOfHeartbeat(role: Role, age: int, staleAfter: int): Severity {
    if age < staleAfter then Info else if role == Active then Crit else Warn
  }

  function CadenceOf(c: Clock): int {
    if c.id in CADENCE then CADENCE[c.id]
    else match c.nextDue case Some(due) => Max(60, due - c.lastProven) case None => 3600
  }

  function OverdueSeconds(c: Clock, now: int): int {
    match c.nextDue case Some(due) => Max(0, now - due) case None => 0
  }

  // ---- the three lists ----

  datatype Anti = Anti(id: string, kind: Kind, severity: Severity)
  datatype Status = Status(id: string, overdue: int, severity: Severity)
  datatype View = View(id: string, role: Role, severity: Severity)
  datatype Snapshot = Snapshot(healthy: seq<Status>, overdue: seq<Status>, antis: seq<Anti>, nodes: seq<View>)

  function AntiOf(c: Clock, kind: Kind, now: int): Anti {
    Anti(c.id, kind, SeverityOfAnti(kind.name, Max(0, now - c.lastProven)))
  }

  function StatusOf(c: Clock, now: int): Status {
    Status(c.id, OverdueSeconds(c, now), SeverityOfStaleness(OverdueSeconds(c, now), CadenceOf(c)))
  }

  function ViewOf(n: Node, now: int, staleAfter: int): View {
    if n.role == Active && n.lastHeartbeat.None? then View(n.id, n.role, Info)
    else
      var age := match n.lastHeartbeat case Some(t) => Max(0, now - t) case None => NEVER;
      View(n.id, n.role, SeverityOfHeartbeat(n.role, age, staleAfter))
  }

  predicate IsOverdue(c: Clock, now: int) { Classify(c.id).None? && OverdueSeconds(c, now) > 0 }

  predicate IsHealthy(c: Clock, now: int) { Classify(c.id).None? && OverdueSeconds(c, now) <= 0 }

  function AntiPart(c: Clock, now: int): seq<Anti> {
    match Classify(c.id) case Some(kind) => [AntiOf(c, kind, now)] case None => []
  }

  function OverduePart(c: Clock, now: int): seq<Status> { if IsOverdue(c, now) then [StatusOf(c, now)] else [] }

  function HealthyPart(c: Clock, now: int): seq<Status> { if IsHealthy(c, now) then [StatusOf(c, now)] else [] }

  function Antis(cs: seq<Clock>, now: int): seq<Anti> {
    if cs == [] then [] else AntiPart(cs[0], now) + Antis(cs[1..], now)
  }

  function Overdue(cs: seq<Clock>, now: int): seq<Status> {
    if cs == [] then [] else OverduePart(cs[0], now) + Overdue(cs[1..], now)
  }

  function Healthy(cs: seq<Clock>, now: int): seq<Status> {
    if cs == [] then [] else HealthyPart(cs[0], now) + Healthy(cs[1..], now)
  }

  function Views(ns: seq<Node>, now: int, staleAfter: int): seq<View> {
    if ns == [] then []
    else (if ns[0].role == OtherRole then [] else [ViewOf(ns[0], now, staleAfter)]) + Views(ns[1..], now, staleAfter)
  }

  lemma Onwards<T>(front: seq<T>, item: seq<T>, rest: seq<T>)
    ensures front + (item + rest) == (front + item) + rest
    ensures item == [] ==> front + (item + rest) == front + rest
  {}

  method CollectClocks(cs: seq<Clock>, now: int) returns (healthy: seq<Status>, overdue: seq<Status>, antis: seq<Anti>)
    ensures healthy == Healthy(cs, now) && overdue == Overdue(cs, now) && antis == Antis(cs, now)
  {
    healthy, overdue, antis := [], [], [];
    assert cs[0..] == cs;
    for k := 0 to |cs|
      invariant healthy + Healthy(cs[k..], now) == Healthy(cs, now)
      invariant overdue + Overdue(cs[k..], now) == Overdue(cs, now)
      invariant antis + Antis(cs[k..], now) == Antis(cs, now)
    {
      assert cs[k..][1..] == cs[k + 1..];
      Onwards(healthy, HealthyPart(cs[k], now), Healthy(cs[k + 1..], now));
      Onwards(overdue, OverduePart(cs[k], now), Overdue(cs[k + 1..], now));
      Onwards(antis, AntiPart(cs[k], now), Antis(cs[k + 1..], now));
      var kind := Classify(cs[k].id);
      if kind.Some? {
        antis := antis + [AntiOf(cs[k], kind.value, now)];
      } else {
        var status := StatusOf(cs[k], now);
        if status.overdue > 0 { overdue := overdue + [status]; } else { healthy := healthy + [status]; }
      }
    }
  }

  method CollectNodes(ns: seq<Node>, now: int, staleAfter: int) returns (views: seq<View>)
    ensures views == Views(ns, now, staleAfter)
  {
    views := [];
    assert ns[0..] == ns;
    for k := 0 to |ns|
      invariant views + Views(ns[k..], now, staleAfter) == Views(ns, now, staleAfter)
    {
      assert ns[k..][1..] == ns[k + 1..];
      if ns[k].role != OtherRole { views := views + [ViewOf(ns[k], now, staleAfter)]; }
    }
  }

  function Collect(cs: seq<Clock>, ns: seq<Node>, now: int, staleAfter: int): Snapshot {
    Snapshot(Healthy(cs, now), Overdue(cs, now), Antis(cs, now), Views(ns, now, staleAfter))
  }

  method CollectSnapshot(cs: seq<Clock>, ns: seq<Node>, now: int, staleAfter: int) returns (s: Snapshot)
    ensures s == Collect(cs, ns, now, staleAfter)
  {
    var healthy, overdue, antis := CollectClocks(cs, now);
    var nodes := CollectNodes(ns, now, staleAfter);
    s := Snapshot(healthy, overdue, antis, nodes);
  }

  // ---- what the split means ----

  /** Partition finds the first separator: nothing before it contains one. */
  lemma {:induction false} PartitionExactly(s: string, a: string, b: string)
    requires ':' !in a
    ensures Partition(s) == Some((a, b)) <==> s == a + "::" + b
  {
    if a == [] {
      if s == a + "::" + b { assert s[2..] == b; }
      if |s| >= 2 && s[0] == ':' && s[1] == ':' { assert s == [] + "::" + s[2..]; }
    } else {
      if s != [] { PartitionExactly(s[1..], a[1..], b); }
      if s == a + "::" + b { assert s[0] == a[0] && s[1..] == a[1..] + "::" + b; }
      if s != [] && s[0] == a[0] && s[1..] == a[1..] + "::" + b { assert s == [s[0]] + s[1..] && a == [a[0]] + a[1..]; }
    }
  }

  lemma ProbePrefixesHaveNoColon(p: string)
    requires p in PROBE_PREFIXES
    ensures ':' !in p
  {}

  lemma CoverPrefixesHaveNoColon(p: string)
    requires p in COVER_PREFIXES
    ensures ':' !in p
  {}

  lemma OtherPrefixesHaveNoColon(p: string)
    requires p in OTHER_PREFIXES
    ensures ':' !in p
  {}

  lemma PrefixesHaveNoColon(p: string)
    requires p in PREFIXES
    ensures ':' !in p
  {
    if p in PROBE_PREFIXES {
      ProbePrefixesHaveNoColon(p);
    } else if p in COVER_PREFIXES {
      CoverPrefixesHaveNoColon(p);
    } else {
      OtherPrefixesHaveNoColon(p);
    }
  }

  lemma SingletonsHaveNoColon(p: string)
    requires p in SINGLETONS
    ensures ':' !in p
  {}

  lemma ClassifyMeans(id: string, prefix: string, target: string)
    ensures Classify(id) == Some(Kind(prefix, Some(target))) <==> prefix in PREFIXES && id == prefix + "::" + target
  {
    if prefix in PREFIXES {
      PrefixesHaveNoColon(prefix);
      PartitionExactly(id, prefix, target);
      if id == prefix + "::" + target {
        assert id[|prefix|] == ':';
        if id in SINGLETONS { SingletonsHaveNoColon(id); }
      }
    }
  }

  /** A row is an anti-obligation about a target exactly when its key is one of the sixteen prefixes, the
      separator and the target, and one about nothing in particular when it is one of two keys. */
  lemma ClassifyExactly(id: string, prefix: string, target: string)
    ensures Classify(id) == Some(Kind(prefix, Some(target))) <==>
      && id == prefix + "::" + target
      && prefix in {
           "probe_kill_pending", "probe_evaluate_blocked", "probe_coverage_pending", "probe_vantage_rotation_pending",
           "probe_vantage_unreachable", "cover_pool_rotation_pending", "cover_pool_reverify_drift_pending",
           "shard_overdue_pending", "shard_unassigned_pending", "dist_user_unregistered",
           "dist_user_heartbeat_breach", "image_rollback_pending", "backup_integrity_failed",
           "box_eu_tunnel_unseen", "tls_fingerprint_stale", "eu_exit_handshake_degraded"}
    ensures Classify(id) == Some(Kind(prefix, None)) <==>
      id == prefix && id in {"cover_pool_rotation_frozen", "obs_dead_mans_switch_breach"}
  {
    ClassifyMeans(id, prefix, target);
  }

  function AntiIds(s: seq<Anti>): seq<string> { seq(|s|, i requires 0 <= i < |s| => s[i].id) }
  function StatusIds(s: seq<Status>): seq<string> { seq(|s|, i requires 0 <= i < |s| => s[i].id) }
  function ClockIds(s: seq<Clock>): seq<string> { seq(|s|, i requires 0 <= i < |s| => s[i].id) }

  /** Every row of the table is in exactly one of the three lists. */
  lemma {:induction false} EachRowOnce(cs: seq<Clock>, now: int)
    ensures multiset(AntiIds(Antis(cs, now))) + multiset(StatusIds(Overdue(cs, now)))
      + multiset(StatusIds(Healthy(cs, now)))
      == multiset(ClockIds(cs))
  {
    if cs == [] {
      assert AntiIds(Antis(cs, now)) == [] && StatusIds(Overdue(cs, now)) == [] && StatusIds(Healthy(cs, now)) == [];
      assert ClockIds(cs) == [];
    } else {
      var c, rest := cs[0], cs[1..];
      EachRowOnce(rest, now);
      OnePart(c, now);
      IdsOfParts(c, rest, cs, now);
      MergeParts(c.id, ClockIds(rest), AntiIds(AntiPart(c, now)), AntiIds(Antis(rest, now)),
                 StatusIds(OverduePart(c, now)), StatusIds(Overdue(rest, now)),
                 StatusIds(HealthyPart(c, now)), StatusIds(Healthy(rest, now)));
      assert ClockIds(cs) == [c.id] + ClockIds(rest);
    }
  }

  lemma IdsOfParts(c: Clock, rest: seq<Clock>, cs: seq<Clock>, now: int)
    requires cs != [] && c == cs[0] && rest == cs[1..]
    ensures AntiIds(Antis(cs, now)) == AntiIds(AntiPart(c, now)) + AntiIds(Antis(rest, now))
    ensures StatusIds(Overdue(cs, now)) == StatusIds(OverduePart(c, now)) + StatusIds(Overdue(rest, now))
    ensures StatusIds(Healthy(cs, now)) == StatusIds(HealthyPart(c, now)) + StatusIds(Healthy(rest, now))
  {
    AntiIdsConcat(AntiPart(c, now), Antis(rest, now));
    StatusIdsConcat(OverduePart(c, now), Overdue(rest, now));
    StatusIdsConcat(HealthyPart(c, now), Healthy(rest, now));
  }

  lemma AntiIdsConcat(a: seq<Anti>, b: seq<Anti>)
    ensures AntiIds(a + b) == AntiIds(a) + AntiIds(b)
  {}

  lemma StatusIdsConcat(a: seq<Status>, b: seq<Status>)
    ensures StatusIds(a + b) == StatusIds(a) + StatusIds(b)
  {}

  lemma MergeParts<T>(x: T, xs: seq<T>, a: seq<T>, a': seq<T>, b: seq<T>, b': seq<T>, c: seq<T>, c': seq<T>)
    requires multiset(a) + multiset(b) + multiset(c) == multiset{x}
    requires multiset(a') + multiset(b') + multiset(c') == multiset(xs)
    ensures multiset(a + a') + multiset(b + b') + multiset(c + c') == multiset([x] + xs)
  {}

  lemma OnePart(c: Clock, now: int)
    ensures multiset(AntiIds(AntiPart(c, now))) + multiset(StatusIds(OverduePart(c, now)))
            + multiset(StatusIds(HealthyPart(c, now))) == multiset{c.id}
  {
    if Classify(c.id).Some? {
      assert AntiIds(AntiPart(c, now)) == [c.id] && StatusIds(OverduePart(c, now)) == []
        && StatusIds(HealthyPart(c, now)) == [];
    } else if IsOverdue(c, now) {
      assert AntiIds(AntiPart(c, now)) == [] && StatusIds(OverduePart(c, now)) == [c.id]
        && StatusIds(HealthyPart(c, now)) == [];
    } else {
      assert AntiIds(AntiPart(c, now)) == [] && StatusIds(OverduePart(c, now)) == []
        && StatusIds(HealthyPart(c, now)) == [c.id];
    }
  }

  function Rank(s: Severity): int { match s case Info => 0 case Warn => 1 case Crit => 2 case Heartbeat => 3 }

  /** Time alone never lowers a severity. */
  lemma SeverityGrows(c: Clock, n: Node, kind: Kind, now: int, later: int, staleAfter: int)
    requires now <= later
    ensures Rank(StatusOf(c, now).severity) <= Rank(StatusOf(c, later).severity)
    ensures Rank(AntiOf(c, kind, now).severity) <= Rank(AntiOf(c, kind, later).severity)
    ensures Rank(ViewOf(n, now, staleAfter).severity) <= Rank(ViewOf(n, later, staleAfter).severity)
  {}

  /** An overdue row is never rated info. */
  lemma {:induction false} OverdueIsRated(cs: seq<Clock>, now: int)
    ensures forall i :: 0 <= i < |Overdue(cs, now)| ==> Overdue(cs, now)[i].severity != Info
  {
    if cs != [] { OverdueIsRated(cs[1..], now); }
  }

  // ---- what is listed where ----

  lemma {:induction false} OverdueListed(cs: seq<Clock>, now: int, s: Status)
    ensures s in Overdue(cs, now) <==> exists c :: c in cs && IsOverdue(c, now) && s == StatusOf(c, now)
  {
    if cs != [] {
      OverdueListed(cs[1..], now, s);
      assert cs == [cs[0]] + cs[1..];
    }
  }

  lemma {:induction false} HealthyListed(cs: seq<Clock>, now: int, s: Status)
    ensures s in Healthy(cs, now) <==> exists c :: c in cs && IsHealthy(c, now) && s == StatusOf(c, now)
  {
    if cs != [] {
      HealthyListed(cs[1..], now, s);
      assert cs == [cs[0]] + cs[1..];
    }
  }

  lemma {:induction false} AntisListed(cs: seq<Clock>, now: int, a: Anti)
    ensures a in Antis(cs, now) <==>
      exists c :: c in cs && Classify(c.id).Some? && a == AntiOf(c, Classify(c.id).value, now)
  {
    if cs != [] {
      AntisListed(cs[1..], now, a);
      assert cs == [cs[0]] + cs[1..];
    }
  }

  lemma {:induction false} ViewsListed(ns: seq<Node>, now: int, staleAfter: int, v: View)
    ensures v in Views(ns, now, staleAfter) <==>
      exists n :: n in ns && n.role != OtherRole && v == ViewOf(n, now, staleAfter)
  {
    if ns != [] {
      ViewsListed(ns[1..], now, staleAfter, v);
      assert ns == [ns[0]] + ns[1..];
    }
  }

  /** Which clocks and nodes are in which list: anti-obligations by their key, other clocks by whether
      their due time has passed, nodes by their role. */
  lemma ListedExactly(cs: seq<Clock>, ns: seq<Node>, now: int, staleAfter: int, s: Status, a: Anti, v: View)
    ensures var snap := Collect(cs, ns, now, staleAfter);
      && (s in snap.overdue <==>
            exists c :: c in cs && Classify(c.id).None? && c.nextDue.Some? && now > c.nextDue.value
                        && s == StatusOf(c, now))
      && (s in snap.healthy <==>
            exists c :: c in cs && Classify(c.id).None? && (c.nextDue.None? || now <= c.nextDue.value)
                        && s == StatusOf(c, now))
      && (a in snap.antis <==>
            exists c :: c in cs && Classify(c.id).Some? && a.id == c.id && a.kind == Classify(c.id).value
                        && a.severity == AntiOf(c, a.kind, now).severity)
      && (v in snap.nodes <==> exists n :: n in ns && n.role in {Active, Standby} && v == ViewOf(n, now, staleAfter))
  {
    OverdueListed(cs, now, s);
    HealthyListed(cs, now, s);
    AntisListed(cs, now, a);
    ViewsListed(ns, now, staleAfter, v);
  }

  // ---- the severities, kind by kind ----

  /** The severity of an anti-obligation is that of its kind, but for missing coverage, which turns
      critical after six hours. */
  lemma AntiSeverity(c: Clock, kind: Kind, now: int)
    ensures AntiOf(c, kind, now).severity ==
      if kind.name == "probe_coverage_pending" then if now - c.lastProven >= 21600 then Crit else Warn
      else if kind.name in {"probe_kill_pending", "cover_pool_rotation_frozen", "obs_dead_mans_switch_breach",
                            "dist_user_heartbeat_breach", "image_rollback_pending", "eu_exit_handshake_degraded"}
        then Crit
      else if kind.name in {"probe_vantage_rotation_pending", "shard_unassigned_pending"} then Info
      else Warn
  {}

  /** An active node that was never heard of is not reported; one that fell silent is critical, a
      standby node in the same case a warning, and so is one never heard of, which counts as silent for
      a thousand million seconds. */
  lemma NodeSeverity(n: Node, now: int, staleAfter: int)
    ensures ViewOf(n, now, staleAfter).severity ==
      match n.lastHeartbeat
      case None => if n.role == Active || 1000000000 < staleAfter then Info else Warn
      case Some(t) =>
        if (if now > t then now - t else 0) < staleAfter then Info else if n.role == Active then Crit else Warn
  {}

  /** A clock is overdue by the seconds since it was due, and critical when these are at least twice
      its cadence: the known one of its kind, or else the time between its proof and its due time. */
  lemma ClockSeverity(c: Clock, now: int)
    ensures var late := if c.nextDue.Some? && now > c.nextDue.value then now - c.nextDue.value else 0;
      var cadence :=
        if c.id in {"probe_audit_sweep_ran", "shard_reshuffle_sweep_ran", "cover_pool_reverify_sweep_ran",
                    "cover_pool_rotation_sweep_ran", "obs_alerter_sweep_ran"} then 3600
        else if c.id in {"obs_heartbeat_proven", "probe_coverage_proven"} then 7200
        else if c.id == "shard_disjointness_check_proven" then 86400
        else if c.id == "backup_integrity_proven" then 604800
        else if c.id in {"shard_reshuffle_proven", "probe_vantage_rotation_proven"} then 2419200
        else if c.id == "cover_pool_reverify_pass_proven" then 5184000
        else if c.id == "cover_pool_replenishment_proven" then 7776000
        else if c.nextDue.None? then 3600
        else if c.nextDue.value - c.lastProven > 60 then c.nextDue.value - c.lastProven else 60;
      StatusOf(c, now) == Status(c.id, late, if late == 0 then Info else if late >= 2 * cadence then Crit else Warn)
  {}
}
