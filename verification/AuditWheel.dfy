/** The probe audit sweep: it brings the obligation table into agreement with the evaluator. */
module AuditWheel {
  import opened Prelude
  import opened Text
  import E = Evaluator

  const KILL: string := "probe_kill_pending::"
  const BLOCKED: string := "probe_evaluate_blocked::"
  const COVERAGE: string := "probe_coverage_pending::"
  const ROTATION: string := "probe_vantage_rotation_pending::"
  const HEARTBEAT: string := "probe_audit_sweep_ran"
  const SWEEPER: string := "probe_audit_sweep"

  datatype Details =
    | Kill(verdict: E.Verdict, offending: set<string>, evidence: seq<int>)
    | MissingProfile(image: string)
    | LastCycle(at: Option<string>)
    | Vantage(id: string)
    | Counts(kill: nat, coverage: nat, blocked: nat, rotation: nat)
    | Other(text: string)

  datatype Obligation = Obligation(lastProvenAt: string, provenBy: string, nextDueAt: string, details: Details)

  type Table = map<string, Obligation>

  function Lookup(t: Table, id: string): Option<Obligation> { if id in t then Some(t[id]) else None }

  datatype Box = Box(image: string, live: bool)
  datatype Probe = Probe(active: bool, attestedAt: Option<string>)

  /** The tables the sweep reads. */
  datatype Tables = Tables(boxes: map<string, Box>, profiles: set<string>, vantages: map<string, Probe>,
      results: seq<E.Row>) {
    function Db(): E.Db {
      E.Db(map b | b in boxes :: boxes[b].image, profiles, |set v | v in vantages && vantages[v].active|, results)
    }
  }

  /** What the sweep's queries return: the boxes and vantages, and for any box the evaluator's
      result and the time of the last cycle. */
  datatype World = World(boxes: map<string, Box>, vantages: map<string, Probe>,
                         result: string -> E.Result, lastCycle: string -> Option<string>) {
    function Live(): set<string> { set b | b in boxes && boxes[b].live }
    function Active(): set<string> { set v | v in vantages && vantages[v].active }
  }

  /** Configuration, the reader of timestamps (in seconds), and when the next sweep is due. */
  datatype Env = Env(config: E.Config, coverageWindow: int, ttlDays: int, time: string -> int,
      nextDue: string -> string)

  /** The greatest cycle time among the results of the box. */
  function MaxCycle(rows: seq<E.Row>, box: string): Option<string> {
    if rows == [] then None
    else
      var rest := MaxCycle(rows[1..], box);
      if rows[0].box != box || (rest.Some? && Less(rows[0].cycleAt, rest.value)) then rest else Some(rows[0].cycleAt)
  }

  function LastCycleAt(t: Tables, box: string): Option<string> {
    var m := MaxCycle(t.results, box);
    if m == Some("") then None else m
  }

  function Seen(env: Env, t: Tables): World {
    World(t.boxes, t.vantages, box => E.EvaluateBox(t.Db(), env.config, box), box => LastCycleAt(t, box))
  }

  // ---- what the rows should say ----

  function Fresh(now: string, details: Details): Obligation { Obligation(now, SWEEPER, now, details) }

  predicate MustKill(r: E.Result) { r.Evaluated? && (r.verdict == E.HardKill || r.verdict == E.SoftThreshold) }

  function KillRow(w: World, now: string, box: string, was: Option<Obligation>): Option<Obligation> {
    var r := w.result(box);
    if !r.Evaluated? then was
    else if MustKill(r) then Some(Fresh(now, Kill(r.verdict, r.offending, r.evidence)))
    else None
  }

  function ImageOf(w: World, box: string): string { if box in w.boxes then w.boxes[box].image else "" }

  function BlockedRow(w: World, now: string, box: string, was: Option<Obligation>): Option<Obligation> {
    var r := w.result(box);
    if !r.Evaluated? then Some(Fresh(now, MissingProfile(ImageOf(w, box))))
    else if MustKill(r) then was
    else None
  }

  predicate Uncovered(env: Env, w: World, now: string, box: string) {
    var last := w.lastCycle(box);
    last.None? || env.time(now) - env.time(last.value) > env.coverageWindow
  }

  function CoverageRow(env: Env, w: World, now: string, box: string): Option<Obligation> {
    if Uncovered(env, w, now, box) then Some(Fresh(now, LastCycle(w.lastCycle(box)))) else None
  }

  predicate Overdue(env: Env, w: World, now: string, vantage: string) {
    vantage in w.vantages && w.vantages[vantage].active && w.vantages[vantage].attestedAt.Some?
    && env.time(now) - env.time(w.vantages[vantage].attestedAt.value) > env.ttlDays * 86400
  }

  function OverdueSet(env: Env, w: World, now: string): set<string> {
    set v | v in w.vantages && Overdue(env, w, now, v)
  }

  function KillIn(w: World, boxes: set<string>): set<string> { set b | b in boxes && MustKill(w.result(b)) }

  function BlockedIn(w: World, boxes: set<string>): set<string> { set b | b in boxes && !w.result(b).Evaluated? }

  function UncoveredIn(env: Env, w: World, now: string, boxes: set<string>): set<string> {
    set b | b in boxes && Uncovered(env, w, now, b)
  }

  function HeartbeatRow(env: Env, w: World, now: string): Obligation {
    Obligation(now, SWEEPER, env.nextDue(now),
               Counts(|KillIn(w, w.Live())|, |UncoveredIn(env, w, now, w.Live())|, |BlockedIn(w, w.Live())|,
                 |OverdueSet(env, w, now)|))
  }

  // ---- keys and the LIKE operator ----

  function Lower(c: char): char { if 'A' <= c <= 'Z' then (c as int + 32) as char else c }

  /** The database's LIKE with a pattern of this prefix and a final %: an underscore stands for any
      character, and ASCII letters match in either case. */
  predicate Like(prefix: string, id: string) {
    |prefix| <= |id| && forall i :: 0 <= i < |prefix| ==> prefix[i] == '_' || Lower(prefix[i]) == Lower(id[i])
  }

  predicate StaleKill(w: World, id: string) { Like(KILL, id) && id[|KILL|..] !in w.Live() }

  predicate StaleRotation(w: World, id: string) { Like(ROTATION, id) && id[|ROTATION|..] !in w.Active() }

  /** The row of a key once the boxes in `done` have been handled. */
  function BoxRow(env: Env, w: World, now: string, done: set<string>, id: string,
      was: Option<Obligation>): Option<Obligation> {
    if KILL <= id && id[|KILL|..] in done then KillRow(w, now, id[|KILL|..], was)
    else if BLOCKED <= id && id[|BLOCKED|..] in done then BlockedRow(w, now, id[|BLOCKED|..], was)
    else if COVERAGE <= id && id[|COVERAGE|..] in done then CoverageRow(env, w, now, id[|COVERAGE|..])
    else was
  }

  /** The row of a key after the whole sweep, given the row before it. */
  function Expected(env: Env, w: World, now: string, id: string, was: Option<Obligation>): Option<Obligation> {
    if id == HEARTBEAT then Some(HeartbeatRow(env, w, now))
    else if StaleKill(w, id) || StaleRotation(w, id) then None
    else if ROTATION <= id && id[|ROTATION|..] in OverdueSet(env, w, now) then
      Some(Fresh(now, Vantage(id[|ROTATION|..])))
    else BoxRow(env, w, now, w.Live(), id, was)
  }

  lemma KeyParts(prefix: string, name: string, id: string)
    ensures id == prefix + name <==> prefix <= id && id[|prefix|..] == name
  {}

  /** The seventh character tells the kinds of keys apart. */
  lemma KindOf(id: string)
    ensures KILL <= id ==> Like(KILL, id)
    ensures ROTATION <= id ==> Like(ROTATION, id)
    ensures Like(KILL, id) ==> |id| > 6 && (id[6] == 'k' || id[6] == 'K')
    ensures Like(ROTATION, id) ==> |id| > 6 && (id[6] == 'v' || id[6] == 'V')
    ensures BLOCKED <= id ==> |id| > 6 && id[6] == 'e'
    ensures COVERAGE <= id ==> |id| > 6 && id[6] == 'c'
    ensures HEARTBEAT[6] == 'a'
  {
    assert KILL[6] == 'k' && ROTATION[6] == 'v' && BLOCKED[6] == 'e' && COVERAGE[6] == 'c';
  }

  /** The three keys of a box hold what they should and no other key has changed. */
  lemma BoxRowsSet(env: Env, w: World, now: string, box: string, t: Table, t': Table, id: string)
    requires Lookup(t', KILL + box) == KillRow(w, now, box, Lookup(t, KILL + box))
    requires Lookup(t', BLOCKED + box) == BlockedRow(w, now, box, Lookup(t, BLOCKED + box))
    requires Lookup(t', COVERAGE + box) == CoverageRow(env, w, now, box)
    requires id !in {KILL + box, BLOCKED + box, COVERAGE + box} ==> Lookup(t', id) == Lookup(t, id)
    ensures Lookup(t', id) == BoxRow(env, w, now, {box}, id, Lookup(t, id))
  {
    KindOf(id);
    KeyParts(KILL, box, id);
    KeyParts(BLOCKED, box, id);
    KeyParts(COVERAGE, box, id);
  }

  lemma KeysDiffer(box: string)
    ensures KILL + box != BLOCKED + box && KILL + box != COVERAGE + box && BLOCKED + box != COVERAGE + box
  {
    assert (KILL + box)[6] == 'k' && (BLOCKED + box)[6] == 'e' && (COVERAGE + box)[6] == 'c';
  }

  /** From table t to table t', the boxes in `done` were handled and nothing else happened. */
  ghost predicate Handled(env: Env, w: World, now: string, done: set<string>, t: Table, t': Table) {
    forall id :: Lookup(t', id) == BoxRow(env, w, now, done, id, Lookup(t, id))
  }

  lemma BoxHandled(env: Env, w: World, now: string, box: string, t: Table, t': Table)
    requires Lookup(t', KILL + box) == KillRow(w, now, box, Lookup(t, KILL + box))
    requires Lookup(t', BLOCKED + box) == BlockedRow(w, now, box, Lookup(t, BLOCKED + box))
    requires Lookup(t', COVERAGE + box) == CoverageRow(env, w, now, box)
    requires forall id :: id !in {KILL + box, BLOCKED + box, COVERAGE + box} ==> Lookup(t', id) == Lookup(t, id)
    ensures Handled(env, w, now, {box}, t, t')
  {
    forall id ensures Lookup(t', id) == BoxRow(env, w, now, {box}, id, Lookup(t, id)) {
      BoxRowsSet(env, w, now, box, t, t', id);
    }
  }

  lemma MoveOne<T>(all: set<T>, done: set<T>, todo: set<T>, x: T)
    requires done <= all && todo == all - done && x in todo
    ensures x !in done && done + {x} <= all && todo - {x} == all - (done + {x})
  {}

  lemma HandledNone(env: Env, w: World, now: string, t: Table)
    ensures Handled(env, w, now, {}, t, t)
  {}

  lemma TallyStep(env: Env, w: World, now: string, done: set<string>, box: string)
    ensures KillIn(w, done + {box}) == KillIn(w, done) + if MustKill(w.result(box)) then {box} else {}
    ensures BlockedIn(w, done + {box}) == BlockedIn(w, done) + if !w.result(box).Evaluated? then {box} else {}
    ensures UncoveredIn(env, w, now, done + {box})
      == UncoveredIn(env, w, now, done) + if Uncovered(env, w, now, box) then {box} else {}
  {}

  lemma HandledStep(env: Env, w: World, now: string, done: set<string>, box: string, t: Table, t1: Table, t2: Table)
    requires Handled(env, w, now, done, t, t1) && Handled(env, w, now, {box}, t1, t2) && box !in done
    ensures Handled(env, w, now, done + {box}, t, t2)
  {
    forall id ensures Lookup(t2, id) == BoxRow(env, w, now, done + {box}, id, Lookup(t, id)) {
      BoxRowStep(env, w, now, done, box, id, Lookup(t, id));
    }
  }

  /** One more box handled. */
  lemma BoxRowStep(env: Env, w: World, now: string, done: set<string>, box: string, id: string, was: Option<Obligation>)
    requires box !in done
    ensures BoxRow(env, w, now, {box}, id, BoxRow(env, w, now, done, id, was))
      == BoxRow(env, w, now, done + {box}, id, was)
  {
    KindOf(id);
  }

  function AfterRotation(now: string, done: set<string>, id: string, was: Option<Obligation>): Option<Obligation> {
    if ROTATION <= id && id[|ROTATION|..] in done then Some(Fresh(now, Vantage(id[|ROTATION|..]))) else was
  }

  ghost predicate Rotated(now: string, done: set<string>, t: Table, t': Table) {
    forall id :: Lookup(t', id) == AfterRotation(now, done, id, Lookup(t, id))
  }

  lemma RotatedStep(now: string, done: set<string>, v: string, t: Table, t1: Table, t2: Table)
    requires Rotated(now, done, t, t1) && t2 == t1[ROTATION + v := Fresh(now, Vantage(v))]
    ensures Rotated(now, done + {v}, t, t2)
  {
    forall id ensures Lookup(t2, id) == AfterRotation(now, done + {v}, id, Lookup(t, id)) {
      KeyParts(ROTATION, v, id);
      assert Lookup(t1, id) == AfterRotation(now, done, id, Lookup(t, id));
    }
  }

  /** The four passes one after the other give the expected row. */
  lemma PassesGiveExpected(env: Env, w: World, now: string, id: string, t: Table, t1: Table, t2: Table, t3: Table,
      t4: Table)
    requires id != HEARTBEAT
    requires Lookup(t1, id) == BoxRow(env, w, now, w.Live(), id, Lookup(t, id))
    requires Lookup(t2, id) == if StaleKill(w, id) then None else Lookup(t1, id)
    requires Lookup(t3, id) == AfterRotation(now, OverdueSet(env, w, now), id, Lookup(t2, id))
    requires Lookup(t4, id) == if StaleRotation(w, id) then None else Lookup(t3, id)
    ensures Lookup(t4, id) == Expected(env, w, now, id, Lookup(t, id))
  {
    KindOf(id);
  }

  // ---- the sweep ----

  datatype Report = Report(kill: set<string>, coverage: set<string>, blocked: set<string>, rotation: set<string>)

  class Wheel {
    var obligations: Table

    method SetObligation(id: string, row: Obligation)
      modifies this
      ensures obligations == old(obligations)[id := row]
    {
      obligations := obligations[id := row];
    }

    method Delete(id: string)
      modifies this
      ensures obligations == old(obligations) - {id}
    {
      obligations := obligations - {id};
    }

    /** The verdict on one box: its kill row or its blocked row is set, or both are deleted. */
    method SweepVerdict(env: Env, w: World, now: string, box: string) returns (kill: bool, blocked: bool)
      modifies this
      ensures Lookup(obligations, KILL + box) == KillRow(w, now, box, Lookup(old(obligations), KILL + box))
      ensures Lookup(obligations, BLOCKED + box) == BlockedRow(w, now, box, Lookup(old(obligations), BLOCKED + box))
      ensures forall id :: id !in {KILL + box, BLOCKED + box} ==>
        Lookup(obligations, id) == Lookup(old(obligations), id)
      ensures kill == MustKill(w.result(box)) && blocked == !w.result(box).Evaluated?
    {
      KeysDiffer(box);
      kill, blocked := false, false;
      var r := w.result(box);
      if !r.Evaluated? {
        SetObligation(BLOCKED + box, Fresh(now, MissingProfile(ImageOf(w, box))));
        blocked := true;
      } else if r.verdict == E.HardKill || r.verdict == E.SoftThreshold {
        SetObligation(KILL + box, Fresh(now, Kill(r.verdict, r.offending, r.evidence)));
        kill := true;
      } else {
        Delete(KILL + box);
        Delete(BLOCKED + box);
      }
    }

    method SweepCoverage(env: Env, w: World, now: string, box: string) returns (uncovered: bool)
      modifies this
      ensures Lookup(obligations, COVERAGE + box) == CoverageRow(env, w, now, box)
      ensures forall id :: id != COVERAGE + box ==> Lookup(obligations, id) == Lookup(old(obligations), id)
      ensures uncovered == Uncovered(env, w, now, box)
    {
      var last := w.lastCycle(box);
      uncovered := last.None? || env.time(now) - env.time(last.value) > env.coverageWindow;
      if uncovered {
        SetObligation(COVERAGE + box, Fresh(now, LastCycle(last)));
      } else {
        Delete(COVERAGE + box);
      }
    }

    /** One box: its kill, blocked and coverage rows. */
    method SweepBox(env: Env, w: World, now: string, box: string) returns (kill: bool, blocked: bool, uncovered: bool)
      modifies this
      ensures Handled(env, w, now, {box}, old(obligations), obligations)
      ensures kill == MustKill(w.result(box)) && blocked == !w.result(box).Evaluated?
      ensures uncovered == Uncovered(env, w, now, box)
    {
      KeysDiffer(box);
      kill, blocked := SweepVerdict(env, w, now, box);
      uncovered := SweepCoverage(env, w, now, box);
      BoxHandled(env, w, now, box, old(obligations), obligations);
    }

    /** Deletes the rows selected, one after the other. */
    method DeleteAll(ids: set<string>)
      modifies this
      ensures forall id :: Lookup(obligations, id) == if id in ids then None else Lookup(old(obligations), id)
    {
      var todo := ids;
      while todo != {}
        invariant todo <= ids
        invariant forall id ::
          Lookup(obligations, id) == if id in ids - todo then None else Lookup(old(obligations), id)
        decreases |todo|
      {
        var id :| id in todo;
        Delete(id);
        todo := todo - {id};
      }
    }

    method SweepBoxes(env: Env, w: World, now: string, live: set<string>)
      returns (kill: set<string>, blocked: set<string>, uncovered: set<string>)
      modifies this
      ensures Handled(env, w, now, live, old(obligations), obligations)
      ensures kill == KillIn(w, live) && blocked == BlockedIn(w, live) && uncovered == UncoveredIn(env, w, now, live)
    {
      var todo := live;
      ghost var done: set<string> := {};
      kill, blocked, uncovered := {}, {}, {};
      HandledNone(env, w, now, obligations);
      while todo != {}
        invariant done <= live && todo == live - done
        invariant Handled(env, w, now, done, old(obligations), obligations)
        invariant kill == KillIn(w, done) && blocked == BlockedIn(w, done)
          && uncovered == UncoveredIn(env, w, now, done)
        decreases |todo|
      {
        var box :| box in todo;
        ghost var before := obligations;
        var k, n, u := SweepBox(env, w, now, box);
        kill := kill + if k then {box} else {};
        blocked := blocked + if n then {box} else {};
        uncovered := uncovered + if u then {box} else {};
        HandledStep(env, w, now, done, box, old(obligations), before, obligations);
        TallyStep(env, w, now, done, box);
        MoveOne(live, done, todo, box);
        todo, done := todo - {box}, done + {box};
      }
      assert done == live;
    }

    method SweepVantages(now: string, overdue: set<string>)
      modifies this
      ensures Rotated(now, overdue, old(obligations), obligations)
    {
      var todo := overdue;
      ghost var done: set<string> := {};
      while todo != {}
        invariant done <= overdue && todo == overdue - done
        invariant Rotated(now, done, old(obligations), obligations)
        decreases |todo|
      {
        var v :| v in todo;
        ghost var before := obligations;
        SetObligation(ROTATION + v, Fresh(now, Vantage(v)));
        RotatedStep(now, done, v, old(obligations), before, obligations);
        MoveOne(overdue, done, todo, v);
        todo, done := todo - {v}, done + {v};
      }
    }

    method Sweep(env: Env, w: World, now: string) returns (r: Report)
      modifies this
      ensures forall id :: Lookup(obligations, id) == Expected(env, w, now, id, Lookup(old(obligations), id))
      ensures r == Report(KillIn(w, w.Live()), UncoveredIn(env, w, now, w.Live()), BlockedIn(w, w.Live()),
        OverdueSet(env, w, now))
    {
      ghost var t := obligations;
      var kill, blocked, uncovered := SweepBoxes(env, w, now, w.Live());
      ghost var t1 := obligations;
      DeleteAll(set id | id in obligations && StaleKill(w, id));
      ghost var t2 := obligations;
      var overdue := OverdueSet(env, w, now);
      SweepVantages(now, overdue);
      ghost var t3 := obligations;
      DeleteAll(set id | id in obligations && StaleRotation(w, id));
      ghost var t4 := obligations;
      SetObligation(HEARTBEAT,
        Obligation(now, SWEEPER, env.nextDue(now), Counts(|kill|, |uncovered|, |blocked|, |overdue|)));
      forall id ensures Lookup(obligations, id) == Expected(env, w, now, id, Lookup(t, id)) {
        if id != HEARTBEAT { PassesGiveExpected(env, w, now, id, t, t1, t2, t3, t4); }
      }
      r := Report(kill, uncovered, blocked, overdue);
    }

    /** One run of the wheel. Every row of the table afterwards is the expected one. */
    method RunOnce(env: Env, t: Tables, now: string) returns (r: Report)
      modifies this
      ensures forall id :: Lookup(obligations, id) == Expected(env, Seen(env, t), now, id, Lookup(old(obligations), id))
      ensures var w := Seen(env, t);
        r == Report(KillIn(w, w.Live()), UncoveredIn(env, w, now, w.Live()), BlockedIn(w, w.Live()),
          OverdueSet(env, w, now))
    {
      r := Sweep(env, Seen(env, t), now);
    }
  }

  // ---- what agreement means ----

  /** The last cycle of a box is the greatest among its results, if it has any. */
  lemma {:induction false} MaxCycleIsGreatest(rows: seq<E.Row>, box: string)
    ensures MaxCycle(rows, box) == None <==> forall i :: 0 <= i < |rows| ==> rows[i].box != box
    ensures MaxCycle(rows, box).Some? ==>
      && (exists i :: 0 <= i < |rows| && rows[i].box == box && rows[i].cycleAt == MaxCycle(rows, box).value)
      && (forall i :: 0 <= i < |rows| && rows[i].box == box ==> !Less(MaxCycle(rows, box).value, rows[i].cycleAt))
  {
    if rows != [] {
      MaxCycleIsGreatest(rows[1..], box);
      var m, rest := MaxCycle(rows, box), MaxCycle(rows[1..], box);
      if rows[0].box == box {
        LessIrreflexive(rows[0].cycleAt);
        if rest.Some? && Less(rows[0].cycleAt, rest.value) { LessAsymmetric(rows[0].cycleAt, rest.value); }
      }
      if m.Some? {
        forall i | 0 <= i < |rows| && rows[i].box == box ensures !Less(m.value, rows[i].cycleAt) {
          if i > 0 { NotBelowBoth(rows[0], rest, rows[1..][i - 1].cycleAt, m.value); }
        }
        if m == rest && rest.Some? {
          var i :| 0 <= i < |rows| - 1 && rows[1..][i].box == box && rows[1..][i].cycleAt == rest.value;
          assert rows[i + 1].cycleAt == m.value;
        }
      }
    }
  }

  lemma NotBelowBoth(row: E.Row, rest: Option<string>, t: string, m: string)
    requires rest.Some? && !Less(rest.value, t)
    requires m == rest.value || (m == row.cycleAt && !Less(row.cycleAt, rest.value))
    ensures !Less(m, t)
  {
    if Less(m, t) {
      LessTotal(rest.value, t);
      LessTotal(rest.value, m);
      if Less(t, rest.value) { LessTransitive(m, t, rest.value); }
    }
  }

  /** Live boxes: a fresh kill row with the findings on a verdict of hard kill or threshold reached, none
      on any other verdict, and the earlier one kept while the evaluator is blocked; a fresh blocked row
      when it is, the earlier one kept on a kill; a fresh coverage row exactly when the last cycle is
      missing or too old. */
  lemma LiveRows(env: Env, w: World, now: string, t: Table, t': Table, box: string)
    requires forall id :: Lookup(t', id) == Expected(env, w, now, id, Lookup(t, id))
    requires box in w.boxes && w.boxes[box].live
    ensures var r := w.result(box);
      && Lookup(t', KILL + box) == (
           if !r.Evaluated? then Lookup(t, KILL + box)
           else if r.verdict == E.HardKill || r.verdict == E.SoftThreshold
             then Some(Obligation(now, "probe_audit_sweep", now, Kill(r.verdict, r.offending, r.evidence)))
           else None)
      && Lookup(t', BLOCKED + box) == (
           if !r.Evaluated? then Some(Obligation(now, "probe_audit_sweep", now, MissingProfile(w.boxes[box].image)))
           else if r.verdict == E.HardKill || r.verdict == E.SoftThreshold then Lookup(t, BLOCKED + box)
           else None)
    ensures var last := w.lastCycle(box);
      Lookup(t', COVERAGE + box) ==
        if last.None? || env.time(now) - env.time(last.value) > env.coverageWindow
        then Some(Obligation(now, "probe_audit_sweep", now, LastCycle(last))) else None
  {
    BoxKeyRows(env, w, now, box, Lookup(t, KILL + box));
    BoxKeyRows(env, w, now, box, Lookup(t, BLOCKED + box));
    BoxKeyRows(env, w, now, box, Lookup(t, COVERAGE + box));
    assert Lookup(t', KILL + box) == Expected(env, w, now, KILL + box, Lookup(t, KILL + box));
    assert Lookup(t', BLOCKED + box) == Expected(env, w, now, BLOCKED + box, Lookup(t, BLOCKED + box));
    assert Lookup(t', COVERAGE + box) == Expected(env, w, now, COVERAGE + box, Lookup(t, COVERAGE + box));
  }

  /** The row of the sweep itself: when the next one is due, and how many boxes have a kill verdict, are
      not covered or are blocked, and how many vantages are overdue. */
  lemma HeartbeatCounts(env: Env, w: World, now: string, was: Option<Obligation>)
    ensures var kill := set b | b in w.boxes && w.boxes[b].live && w.result(b).Evaluated?
                                && w.result(b).verdict in {E.HardKill, E.SoftThreshold};
      var uncovered := set b | b in w.boxes && w.boxes[b].live && (w.lastCycle(b).None?
                                 || env.time(now) - env.time(w.lastCycle(b).value) > env.coverageWindow);
      var blocked := set b | b in w.boxes && w.boxes[b].live && !w.result(b).Evaluated?;
      var overdue := set v | v in w.vantages && w.vantages[v].active && w.vantages[v].attestedAt.Some?
                       && env.time(now) - env.time(w.vantages[v].attestedAt.value) > env.ttlDays * 86400;
      Expected(env, w, now, "probe_audit_sweep_ran", was)
        == Some(Obligation(now, "probe_audit_sweep", env.nextDue(now),
                           Counts(|kill|, |uncovered|, |blocked|, |overdue|)))
  {
    assert KillIn(w, w.Live()) == set b | b in w.boxes && w.boxes[b].live && w.result(b).Evaluated?
                                          && w.result(b).verdict in {E.HardKill, E.SoftThreshold};
    assert UncoveredIn(env, w, now, w.Live()) == set b | b in w.boxes && w.boxes[b].live && (w.lastCycle(b).None?
             || env.time(now) - env.time(w.lastCycle(b).value) > env.coverageWindow);
    assert BlockedIn(w, w.Live()) == set b | b in w.boxes && w.boxes[b].live && !w.result(b).Evaluated?;
    assert OverdueSet(env, w, now)
      == set v | v in w.vantages && w.vantages[v].active && w.vantages[v].attestedAt.Some?
                 && env.time(now) - env.time(w.vantages[v].attestedAt.value) > env.ttlDays * 86400;
  }

  /** The same in terms of the tables: blocked means that the profile of the box's image is missing, a
      kill row that the evaluator, given the images of all boxes and the number of active vantages, finds
      a hard kill or the threshold reached; an empty cycle time counts as none. */
  lemma RowsFromTables(env: Env, db: Tables, now: string, t: Table, t': Table, box: string)
    requires forall id :: Lookup(t', id) == Expected(env, Seen(env, db), now, id, Lookup(t, id))
    requires box in db.boxes && db.boxes[box].live
    ensures var read := E.Db(map b | b in db.boxes :: db.boxes[b].image, db.profiles,
                             |set v | v in db.vantages && db.vantages[v].active|, db.results);
      if db.boxes[box].image !in db.profiles
      then BLOCKED + box in t' && Lookup(t', KILL + box) == Lookup(t, KILL + box)
      else
        && E.EvaluateBox(read, env.config, box).Evaluated?
        && (KILL + box in t' <==> E.EvaluateBox(read, env.config, box).verdict in {E.HardKill, E.SoftThreshold})
    ensures var last := MaxCycle(db.results, box);
      COVERAGE + box in t' <==>
        last == None || last == Some("") || env.time(now) - env.time(last.value) > env.coverageWindow
  {
    LiveRows(env, Seen(env, db), now, t, t', box);
  }

  lemma BoxKeyRows(env: Env, w: World, now: string, box: string, was: Option<Obligation>)
    requires box in w.Live()
    ensures Expected(env, w, now, KILL + box, was) == KillRow(w, now, box, was)
    ensures Expected(env, w, now, BLOCKED + box, was) == BlockedRow(w, now, box, was)
    ensures Expected(env, w, now, COVERAGE + box, was) == CoverageRow(env, w, now, box)
  {
    KindOf(KILL + box);
    KindOf(BLOCKED + box);
    KindOf(COVERAGE + box);
    KeyParts(KILL, box, KILL + box);
    KeyParts(BLOCKED, box, BLOCKED + box);
    KeyParts(COVERAGE, box, COVERAGE + box);
  }

  /** No box that is not live has a kill row, and its other rows are left as they were. */
  lemma OtherBoxRows(env: Env, w: World, now: string, box: string, was: Option<Obligation>)
    requires box !in w.Live()
    ensures Expected(env, w, now, KILL + box, was) == None
    ensures Expected(env, w, now, BLOCKED + box, was) == was && Expected(env, w, now, COVERAGE + box, was) == was
  {
    KindOf(KILL + box);
    KindOf(BLOCKED + box);
    KindOf(COVERAGE + box);
    KeyParts(KILL, box, KILL + box);
    KeyParts(BLOCKED, box, BLOCKED + box);
    KeyParts(COVERAGE, box, COVERAGE + box);
  }

  /** Vantages: a fresh row for an active one attested longer ago than the days allowed, none when not
      active, otherwise the earlier one. */
  lemma VantageRows(env: Env, w: World, now: string, v: string, was: Option<Obligation>)
    ensures Expected(env, w, now, ROTATION + v, was) ==
      if v !in w.vantages || !w.vantages[v].active then None
      else if w.vantages[v].attestedAt.Some?
              && env.time(now) - env.time(w.vantages[v].attestedAt.value) > env.ttlDays * 86400
        then Some(Obligation(now, "probe_audit_sweep", now, Vantage(v)))
      else was
  {
    KindOf(ROTATION + v);
    KeyParts(ROTATION, v, ROTATION + v);
  }

  predicate Unrelated(id: string) {
    id != HEARTBEAT && !(KILL <= id) && !(BLOCKED <= id) && !(COVERAGE <= id) && !(ROTATION <= id)
  }

  /** The key begins like the prefix, but for the characters at its underscores and for capitals. */
  ghost predicate LooksLike(prefix: string, id: string) {
    |prefix| <= |id| && forall i :: 0 <= i < |prefix| ==>
      prefix[i] == '_' || prefix[i] == id[i] || ('A' <= id[i] <= 'Z' && prefix[i] as int == id[i] as int + 32)
  }

  lemma LikeMeans(prefix: string, id: string)
    requires forall i :: 0 <= i < |prefix| ==> !('A' <= prefix[i] <= 'Z')
    ensures Like(prefix, id) <==> LooksLike(prefix, id)
  {}

  /** Rows with other keys are untouched, except exactly those whose key looks like a kill or
      rotation key to the database and whose rest names nothing live or active: they are deleted. */
  lemma UnrelatedRows(env: Env, w: World, now: string, id: string, was: Option<Obligation>)
    requires Unrelated(id)
    ensures Expected(env, w, now, id, was) ==
      if (LooksLike(KILL, id) && !(id[|KILL|..] in w.boxes && w.boxes[id[|KILL|..]].live))
         || (LooksLike(ROTATION, id) && !(id[|ROTATION|..] in w.vantages && w.vantages[id[|ROTATION|..]].active))
      then None else was
  {
    LikeMeans(KILL, id);
    LikeMeans(ROTATION, id);
  }

  /** One such key: an underscore of the pattern matches the hyphen. */
  lemma LookAlikeIsDeleted(env: Env, w: World, now: string, row: Obligation)
    requires "x" !in w.Live()
    ensures Unrelated("probe-kill_pending::x") && Expected(env, w, now, "probe-kill_pending::x", Some(row)) == None
  {
    var id := "probe-kill_pending::x";
    assert id[5] == '-' && KILL[5] == '_' && BLOCKED[5] == '_' && COVERAGE[5] == '_' && ROTATION[5] == '_'
      && HEARTBEAT[5] == '_';
    assert id[|KILL|..] == "x";
    forall i | 0 <= i < |KILL| ensures KILL[i] == '_' || Lower(KILL[i]) == Lower(id[i]) {
      assert i != 5 ==> KILL[i] == id[i];
    }
  }

  /** A second sweep of the same world at the same time finds everything as it should be. */
  lemma SecondSweepIdle(env: Env, w: World, now: string, id: string, was: Option<Obligation>)
    ensures var row := Expected(env, w, now, id, was); Expected(env, w, now, id, row) == row
  {}
}
