/** The kill-decision evaluator over the probe results of one box. */
module Evaluator {
  import opened Sorting
  import opened Text

  datatype Status = Pass | SoftFail | HardFail {
    function Weight(): nat { match this case Pass => 0 case SoftFail => 1 case HardFail => 2 }
  }

  datatype Row = Row(id: int, box: string, vantage: string, check: string, cycleAt: string, status: Status)

  datatype Config = Config(windowM: int, thresholdN: int, minVantages: int)

  datatype Verdict = Healthy | SoftPending | SoftThreshold | HardKill {
    function Rank(): nat {
      match this case Healthy => 0 case SoftPending => 1 case SoftThreshold => 2 case HardKill => 3
    }
  }

  /** The offending checks are kept as a set; the evidence is the ids of the failing rows. */
  datatype Result =
    | Evaluated(verdict: Verdict, offending: set<string>, vantages: nat, evidence: seq<int>)
    | UnknownBox
    | NoProfile

  // ---- the window: the newest rows of the box ----

  /** a is listed no later than b: by cycle, then by id, both descending. */
  predicate Before(a: Row, b: Row) {
    Less(b.cycleAt, a.cycleAt) || (a.cycleAt == b.cycleAt && a.id >= b.id)
  }

  function Newest(rows: seq<Row>, box: string): seq<Row>
    decreases |rows|
  {
    if rows == [] then []
    else
      var n := |rows| - 1;
      if rows[n].box == box then Insert(Before, rows[n], Newest(rows[..n], box)) else Newest(rows[..n], box)
  }

  /** A negative limit is no limit. */
  function Take(s: seq<Row>, limit: int): seq<Row> {
    if 0 <= limit < |s| then s[..limit] else s
  }

  function Window(rows: seq<Row>, box: string, limit: int): seq<Row> { Take(Newest(rows, box), limit) }

  // ---- the verdict on a window ----

  function OfStatus(w: seq<Row>, status: Status): seq<Row> {
    if w == [] then [] else (if w[0].status == status then [w[0]] else []) + OfStatus(w[1..], status)
  }

  function Vantages(w: seq<Row>): set<string> { set r | r in w :: r.vantage }

  function Checks(w: seq<Row>): set<string> { set r | r in w :: r.check }

  function Ids(w: seq<Row>): seq<int> { seq(|w|, i requires 0 <= i < |w| => w[i].id) }

  function Min(a: int, b: int): int { if a < b then a else b }
  function Max(a: int, b: int): int { if a > b then a else b }

  function EffectiveMin(active: nat, configured: int): int {
    if configured <= 0 then Max(1, active / 2) else Max(1, Min(configured, Max(1, active)))
  }

  function Judge(w: seq<Row>, thresholdN: int, minVantages: int): Result {
    var hard, soft := OfStatus(w, HardFail), OfStatus(w, SoftFail);
    if w == [] then Evaluated(Healthy, {}, 0, [])
    else if hard != [] then Evaluated(HardKill, Checks(hard), |Vantages(w)|, Ids(hard))
    else if |soft| >= thresholdN then
      if |Vantages(soft)| >= minVantages then Evaluated(SoftThreshold, Checks(soft), |Vantages(soft)|, Ids(soft))
      else Evaluated(SoftPending, Checks(soft), |Vantages(soft)|, Ids(soft))
    else if soft != [] then Evaluated(SoftPending, Checks(soft), |Vantages(soft)|, Ids(soft))
    else Evaluated(Healthy, {}, |Vantages(w)|, [])
  }

  /** What the evaluator reads: the image of each box, the pinned profiles, the number of active
      vantages and the results in order of arrival. */
  datatype Db = Db(images: map<string, string>, profiles: set<string>, active: nat, results: seq<Row>)

  function EvaluateBox(db: Db, c: Config, box: string): Result {
    if box !in db.images then UnknownBox
    else if db.images[box] !in db.profiles then NoProfile
    else Judge(Window(db.results, box, c.windowM), c.thresholdN, EffectiveMin(db.active, c.minVantages))
  }

  // ---- only the M newest results count ----

  lemma BeforeTransitive(a: Row, b: Row, c: Row)
    requires Before(a, b) && Before(b, c)
    ensures Before(a, c)
  {
    if Less(b.cycleAt, a.cycleAt) && Less(c.cycleAt, b.cycleAt) { LessTransitive(c.cycleAt, b.cycleAt, a.cycleAt); }
  }

  lemma BeforeTotal(a: Row, b: Row)
    ensures Before(a, b) || Before(b, a)
  {
    LessTotal(a.cycleAt, b.cycleAt);
  }

  lemma BeforeIsOrder()
    ensures IsOrder(Before)
  {
    forall a, b ensures Before(a, b) || Before(b, a) { BeforeTotal(a, b); }
    forall a, b, c | Before(a, b) && Before(b, c) ensures Before(a, c) { BeforeTransitive(a, b, c); }
  }

  function OfBox(rows: seq<Row>, box: string): seq<Row>
    decreases |rows|
  {
    if rows == [] then []
    else
      var n := |rows| - 1;
      OfBox(rows[..n], box) + if rows[n].box == box then [rows[n]] else []
  }

  /** The list the query sorts: exactly the rows of the box, newest first. */
  lemma {:induction false} NewestSorts(rows: seq<Row>, box: string)
    ensures Ascending(Before, Newest(rows, box)) && multiset(Newest(rows, box)) == multiset(OfBox(rows, box))
    decreases |rows|
  {
    if rows != [] {
      var n := |rows| - 1;
      NewestSorts(rows[..n], box);
      if rows[n].box == box {
        BeforeIsOrder();
        InsertAscends(Before, rows[n], Newest(rows[..n], box));
        InsertContents(Before, rows[n], Newest(rows[..n], box));
      }
    }
  }

  lemma Split(all: seq<Row>, w: seq<Row>, rest: seq<Row>)
    requires Ascending(Before, all) && all == w + rest
    ensures forall i, j :: 0 <= i < j < |w| ==> Before(w[i], w[j])
    ensures forall i, j :: 0 <= i < |w| && 0 <= j < |rest| ==> Before(w[i], rest[j])
  {
    forall i, j | 0 <= i < |w| && 0 <= j < |rest| ensures Before(w[i], rest[j]) {
      assert w[i] == all[i] && rest[j] == all[|w| + j];
    }
    forall i, j | 0 <= i < j < |w| ensures Before(w[i], w[j]) { assert w[i] == all[i] && w[j] == all[j]; }
  }

  lemma WindowSize(rows: seq<Row>, box: string, limit: int) returns (rest: seq<Row>)
    ensures var w, n := Window(rows, box, limit), |OfBox(rows, box)|;
      && |w| == (if 0 <= limit < n then limit else n)
      && Newest(rows, box) == w + rest && multiset(w) + multiset(rest) == multiset(OfBox(rows, box))
  {
    NewestSorts(rows, box);
    var all, w := Newest(rows, box), Window(rows, box, limit);
    rest := all[|w|..];
    assert all == w + rest;
    assert |all| == |multiset(all)| == |multiset(OfBox(rows, box))| == |OfBox(rows, box)|;
  }

  /** The rows the query lists: the newest of the box, as many as the limit allows, those of later
      cycles first and of equal cycles those with greater ids; whatever is left out comes no earlier. */
  lemma WindowExactly(rows: seq<Row>, box: string, limit: int) returns (rest: seq<Row>)
    ensures var w, n := Window(rows, box, limit), |OfBox(rows, box)|;
      && |w| == (if 0 <= limit < n then limit else n)
      && multiset(w) + multiset(rest) == multiset(OfBox(rows, box))
      && (forall i, j :: 0 <= i < j < |w| ==>
            Less(w[j].cycleAt, w[i].cycleAt) || (w[j].cycleAt == w[i].cycleAt && w[j].id <= w[i].id))
      && (forall i, j :: 0 <= i < |w| && 0 <= j < |rest| ==>
            Less(rest[j].cycleAt, w[i].cycleAt) || (rest[j].cycleAt == w[i].cycleAt && rest[j].id <= w[i].id))
  {
    rest := WindowSize(rows, box, limit);
    NewestSorts(rows, box);
    Split(Newest(rows, box), Window(rows, box, limit), rest);
  }

  /** The rows of the box, in order of arrival. */
  lemma {:induction false} OfBoxHolds(rows: seq<Row>, box: string)
    ensures forall r :: multiset(OfBox(rows, box))[r] == if r.box == box then multiset(rows)[r] else 0
    decreases |rows|
  {
    if rows != [] {
      OfBoxHolds(rows[..|rows| - 1], box);
      assert rows == rows[..|rows| - 1] + [rows[|rows| - 1]];
    }
  }

  /** The number of rows that r sorts behind. */
  function Ahead(s: seq<Row>, r: Row): nat {
    if s == [] then 0 else (if Before(r, s[0]) then 0 else 1) + Ahead(s[1..], r)
  }

  lemma {:induction false} AheadOfInsert(x: Row, s: seq<Row>, r: Row)
    ensures Ahead(Insert(Before, x, s), r) == Ahead(s, r) + if Before(r, x) then 0 else 1
  {
    if s != [] && !Before(x, s[0]) {
      AheadOfInsert(x, s[1..], r);
      assert Insert(Before, x, s)[1..] == Insert(Before, x, s[1..]);
    } else {
      assert Insert(Before, x, s)[1..] == s;
    }
  }

  lemma {:induction false} AheadSnoc(s: seq<Row>, x: Row, r: Row)
    ensures Ahead(s + [x], r) == Ahead(s, r) + if Before(r, x) then 0 else 1
  {
    if s != [] {
      AheadSnoc(s[1..], x, r);
      assert (s + [x])[1..] == s[1..] + [x];
    }
  }

  lemma {:induction false} AheadInNewest(rows: seq<Row>, box: string, r: Row)
    ensures Ahead(Newest(rows, box), r) == Ahead(OfBox(rows, box), r)
    decreases |rows|
  {
    if rows != [] {
      var n := |rows| - 1;
      AheadInNewest(rows[..n], box, r);
      if rows[n].box == box {
        AheadOfInsert(rows[n], Newest(rows[..n], box), r);
        AheadSnoc(OfBox(rows[..n], box), rows[n], r);
      } else {
        assert OfBox(rows, box) == OfBox(rows[..n], box);
      }
    }
  }

  lemma {:induction false} NoneAhead(s: seq<Row>, r: Row)
    requires Below(Before, r, s)
    ensures Ahead(s, r) == 0
  {
    if s != [] { NoneAhead(s[1..], r); }
  }

  lemma BelowAll(s: seq<Row>, r: Row)
    requires Ascending(Before, s) && s != [] && Before(r, s[0])
    ensures Below(Before, r, s)
  {
    forall i | 0 < i < |s| ensures Before(r, s[i]) { BeforeTransitive(r, s[0], s[i]); }
  }

  /** In a sorted list the rows that r sorts behind come first. */
  lemma {:induction false} InsertBehind(s: seq<Row>, r: Row, m: nat)
    requires Ascending(Before, s) && Ahead(s, r) >= m
    ensures |s| >= m && Insert(Before, r, s)[..m] == s[..m]
  {
    if m > 0 {
      if s != [] && Before(r, s[0]) {
        BelowAll(s, r);
        NoneAhead(s, r);
      } else {
        InsertBehind(s[1..], r, m - 1);
        InsertTake(Before, r, s, m);
      }
    }
  }

  /** A result of another box, or one that sorts behind M results of this box. */
  predicate Irrelevant(rows: seq<Row>, box: string, limit: int, r: Row) {
    r.box != box || (limit >= 0 && Ahead(OfBox(rows, box), r) >= limit)
  }

  lemma OneMoreRow(rows: seq<Row>, box: string, limit: int, r: Row)
    requires Irrelevant(rows, box, limit, r)
    ensures Window(rows + [r], box, limit) == Window(rows, box, limit)
  {
    assert (rows + [r])[..|rows|] == rows;
    if r.box == box {
      NewestSorts(rows, box);
      AheadInNewest(rows, box, r);
      InsertBehind(Newest(rows, box), r, limit);
    }
  }

  /** The verdict depends only on the M newest results of the box: any number of results of other
      boxes, or that sort behind M of its own, change nothing. */
  lemma OldResultsIgnored(db: Db, c: Config, box: string, more: seq<Row>)
    requires forall k :: 0 <= k < |more| ==>
      more[k].box != box || (c.windowM >= 0 && Ahead(OfBox(db.results, box), more[k]) >= c.windowM)
    ensures EvaluateBox(db.(results := db.results + more), c, box) == EvaluateBox(db, c, box)
  {
    WindowKept(db.results, box, c.windowM, more);
  }

  lemma OneMoreAfter(rows: seq<Row>, front: seq<Row>, box: string, limit: int, r: Row)
    requires Irrelevant(rows, box, limit, r)
    ensures Window(rows + front + [r], box, limit) == Window(rows + front, box, limit)
  {
    AheadGrows(rows, front, box, r);
    OneMoreRow(rows + front, box, limit, r);
  }

  lemma {:induction false} WindowKept(rows: seq<Row>, box: string, limit: int, more: seq<Row>)
    requires forall k :: 0 <= k < |more| ==> Irrelevant(rows, box, limit, more[k])
    ensures Window(rows + more, box, limit) == Window(rows, box, limit)
    decreases |more|
  {
    if more == [] {
      assert rows + more == rows;
    } else {
      var n := |more| - 1;
      WindowKept(rows, box, limit, more[..n]);
      OneMoreAfter(rows, more[..n], box, limit, more[n]);
      FrontAndLast(rows, more);
    }
  }

  lemma OfBoxSnoc(rows: seq<Row>, box: string, r: Row)
    ensures OfBox(rows + [r], box) == OfBox(rows, box) + if r.box == box then [r] else []
  {
    assert (rows + [r])[..|rows|] == rows;
  }

  lemma AheadOneMore(rows: seq<Row>, box: string, x: Row, r: Row)
    ensures Ahead(OfBox(rows + [x], box), r) >= Ahead(OfBox(rows, box), r)
  {
    OfBoxSnoc(rows, box, x);
    if x.box == box {
      AheadSnoc(OfBox(rows, box), x, r);
    } else {
      assert OfBox(rows, box) + [] == OfBox(rows, box);
    }
  }

  lemma FrontAndLast<T>(a: seq<T>, b: seq<T>)
    requires b != []
    ensures a + b == a + b[..|b| - 1] + [b[|b| - 1]]
  {}

  lemma {:induction false} AheadGrows(rows: seq<Row>, more: seq<Row>, box: string, r: Row)
    ensures Ahead(OfBox(rows + more, box), r) >= Ahead(OfBox(rows, box), r)
    decreases |more|
  {
    if more == [] {
      assert rows + more == rows;
    } else {
      var n := |more| - 1;
      AheadGrows(rows, more[..n], box, r);
      AheadOneMore(rows + more[..n], box, more[n], r);
      FrontAndLast(rows, more);
    }
  }

  // ---- worse results never help ----

  /** The same rows, some with a worse status. */
  predicate WorseRow(a: Row, b: Row) {
    a.(status := Pass) == b.(status := Pass) && a.status.Weight() <= b.status.Weight()
  }

  ghost predicate Worse(s: seq<Row>, t: seq<Row>) {
    |s| == |t| && forall i :: 0 <= i < |s| ==> WorseRow(s[i], t[i])
  }

  lemma {:induction false} InsertWorse(x: Row, y: Row, s: seq<Row>, t: seq<Row>)
    requires Worse(s, t) && WorseRow(x, y)
    ensures Worse(Insert(Before, x, s), Insert(Before, y, t))
  {
    if s != [] {
      assert WorseRow(s[0], t[0]);
      if !Before(x, s[0]) { InsertWorse(x, y, s[1..], t[1..]); }
    }
  }

  lemma {:induction false} NewestWorse(rows: seq<Row>, worse: seq<Row>, box: string)
    requires Worse(rows, worse)
    ensures Worse(Newest(rows, box), Newest(worse, box))
    decreases |rows|
  {
    if rows != [] {
      var n := |rows| - 1;
      NewestWorse(rows[..n], worse[..n], box);
      assert WorseRow(rows[n], worse[n]);
      if rows[n].box == box { InsertWorse(rows[n], worse[n], Newest(rows[..n], box), Newest(worse[..n], box)); }
    }
  }

  lemma {:induction false} HardStays(w: seq<Row>, v: seq<Row>)
    requires Worse(w, v) && OfStatus(w, HardFail) != []
    ensures OfStatus(v, HardFail) != []
  {
    if w != [] {
      assert WorseRow(w[0], v[0]);
      if w[0].status != HardFail { HardStays(w[1..], v[1..]); }
    }
  }

  /** Without a hard failure, worsening can only add soft failures. */
  lemma {:induction false} SoftGrows(w: seq<Row>, v: seq<Row>)
    requires Worse(w, v) && OfStatus(v, HardFail) == []
    ensures |OfStatus(w, SoftFail)| <= |OfStatus(v, SoftFail)|
    ensures Vantages(OfStatus(w, SoftFail)) <= Vantages(OfStatus(v, SoftFail))
  {
    if w != [] {
      assert WorseRow(w[0], v[0]);
      SoftGrows(w[1..], v[1..]);
      VantagesOfCons(w);
      VantagesOfCons(v);
    }
  }

  lemma VantagesOfCons(w: seq<Row>)
    requires w != []
    ensures Vantages(OfStatus(w, SoftFail)) ==
      (if w[0].status == SoftFail then {w[0].vantage} else {}) + Vantages(OfStatus(w[1..], SoftFail))
  {
    var rest := OfStatus(w[1..], SoftFail);
    if w[0].status == SoftFail {
      assert OfStatus(w, SoftFail) == [w[0]] + rest;
      assert w[0] in OfStatus(w, SoftFail);
      forall r | r in rest ensures r in OfStatus(w, SoftFail) {}
    } else {
      assert OfStatus(w, SoftFail) == rest;
    }
  }

  lemma SubsetSize(a: set<string>, b: set<string>)
    requires a <= b
    ensures |a| <= |b|
  {
    assert b == a + (b - a);
  }

  lemma JudgeMonotone(w: seq<Row>, v: seq<Row>, thresholdN: int, minVantages: int)
    requires Worse(w, v)
    ensures Judge(w, thresholdN, minVantages).verdict.Rank() <= Judge(v, thresholdN, minVantages).verdict.Rank()
  {
    if OfStatus(w, HardFail) != [] {
      HardStays(w, v);
    } else if OfStatus(v, HardFail) == [] {
      SoftGrows(w, v);
      SubsetSize(Vantages(OfStatus(w, SoftFail)), Vantages(OfStatus(v, SoftFail)));
    }
  }

  /** Worsening the status of any results never lowers the verdict. */
  lemma VerdictMonotone(db: Db, c: Config, box: string, worse: seq<Row>)
    requires Worse(db.results, worse)
    ensures var r, r' := EvaluateBox(db, c, box), EvaluateBox(db.(results := worse), c, box);
      && (r.Evaluated? <==> r'.Evaluated?)
      && (r.Evaluated? ==> r.verdict.Rank() <= r'.verdict.Rank())
  {
    NewestWorse(db.results, worse, box);
    JudgeMonotone(Window(db.results, box, c.windowM), Window(worse, box, c.windowM), c.thresholdN,
                  EffectiveMin(db.active, c.minVantages));
  }

  /** The vantage minimum is met by some fleet of the size registered, and never by no vantage; without
      a configured one it is half the fleet, rounded down, but at least 1. */
  lemma MinimumIsPossible(active: nat, configured: int)
    ensures var least, fleet := EffectiveMin(active, configured), if active > 1 then active else 1;
      && 1 <= least <= fleet
      && (configured > 0 ==> least == if configured < fleet then configured else fleet)
      && (configured <= 0 && active >= 2 ==> active - 1 <= 2 * least <= active)
      && forall more: nat :: more >= active ==> least <= EffectiveMin(more, configured)
  {}

  /** A box is healthy exactly when its window is empty, or holds only passes and the threshold is
      positive; with a threshold of zero or less no probed box is. */
  lemma HealthyExactly(db: Db, c: Config, box: string)
    requires EvaluateBox(db, c, box).Evaluated?
    ensures var w := Window(db.results, box, c.windowM);
      EvaluateBox(db, c, box).verdict == Healthy <==>
        w == [] || (c.thresholdN > 0 && forall i :: 0 <= i < |w| ==> w[i].status == Pass)
    ensures var w := Window(db.results, box, c.windowM);
      EvaluateBox(db, c, box).verdict == HardKill <==> exists i :: 0 <= i < |w| && w[i].status == HardFail
  {
    var w := Window(db.results, box, c.windowM);
    NoneOfStatus(w, HardFail);
    NoneOfStatus(w, SoftFail);
    MinimumIsPossible(db.active, c.minVantages);
    if OfStatus(w, SoftFail) == [] { assert Vantages(OfStatus(w, SoftFail)) == {}; }
    forall i | 0 <= i < |w| ensures w[i].status == Pass <==> w[i].status != HardFail && w[i].status != SoftFail {}
  }

  lemma {:induction false} NoneOfStatus(w: seq<Row>, status: Status)
    ensures OfStatus(w, status) == [] <==> forall i :: 0 <= i < |w| ==> w[i].status != status
  {
    if w != [] { NoneOfStatus(w[1..], status); }
  }

  /** The positions of the window with a given status. */
  ghost function At(w: seq<Row>, status: Status): set<int> { set i | 0 <= i < |w| && w[i].status == status }

  ghost function AtFrom(w: seq<Row>, k: nat, status: Status): set<int> {
    set i | k <= i < |w| && w[i].status == status
  }

  lemma {:induction false} CountFrom(w: seq<Row>, k: nat, status: Status)
    requires k <= |w|
    ensures |OfStatus(w[k..], status)| == |AtFrom(w, k, status)|
    decreases |w| - k
  {
    if k == |w| {
      assert AtFrom(w, k, status) == {};
    } else {
      CountFrom(w, k + 1, status);
      assert w[k..][1..] == w[k + 1..];
      assert AtFrom(w, k, status) == AtFrom(w, k + 1, status) + if w[k].status == status then {k} else {};
    }
  }

  lemma CountOfStatus(w: seq<Row>, status: Status)
    ensures |OfStatus(w, status)| == |At(w, status)|
  {
    CountFrom(w, 0, status);
    assert w[0..] == w && AtFrom(w, 0, status) == At(w, status);
  }

  lemma {:induction false} StatusMembers(w: seq<Row>, status: Status)
    ensures forall r :: r in OfStatus(w, status) <==> r in w && r.status == status
  {
    if w != [] { StatusMembers(w[1..], status); }
  }

  /** When the threshold is reached: no hard failure, at least N positions of the window with a
      soft failure, and enough vantages among them. */
  lemma ThresholdExactly(db: Db, c: Config, box: string)
    requires EvaluateBox(db, c, box).Evaluated?
    ensures var w := Window(db.results, box, c.windowM);
      EvaluateBox(db, c, box).verdict == SoftThreshold <==>
        && w != [] && At(w, HardFail) == {} && |At(w, SoftFail)| >= c.thresholdN
        && |set r | r in w && r.status == SoftFail :: r.vantage| >= EffectiveMin(db.active, c.minVantages)
  {
    var w := Window(db.results, box, c.windowM);
    CountOfStatus(w, SoftFail);
    CountOfStatus(w, HardFail);
    StatusMembers(w, SoftFail);
    assert Vantages(OfStatus(w, SoftFail)) == set r | r in w && r.status == SoftFail :: r.vantage;
  }

  /** Ascending places from k on where the rows of that list stand. */
  ghost predicate Stand(w: seq<Row>, k: nat, rows: seq<Row>, at: seq<nat>) {
    && |at| == |rows| && (forall i :: 0 <= i < |at| ==> k <= at[i] < |w| && w[at[i]] == rows[i])
    && forall i, j :: 0 <= i < j < |at| ==> at[i] < at[j]
  }

  lemma StandCons(w: seq<Row>, k: nat, rows: seq<Row>, at: seq<nat>)
    requires k < |w| && Stand(w, k + 1, rows, at)
    ensures Stand(w, k, rows, at) && Stand(w, k, [w[k]] + rows, [k] + at)
  {}

  lemma OfStatusFrom(w: seq<Row>, k: nat, status: Status)
    requires k < |w|
    ensures OfStatus(w[k..], status)
      == if w[k].status == status then [w[k]] + OfStatus(w[k + 1..], status) else OfStatus(w[k + 1..], status)
  {
    assert w[k..][1..] == w[k + 1..];
  }

  lemma {:induction false} StatusPlaces(w: seq<Row>, k: nat, status: Status) returns (at: seq<nat>)
    requires k <= |w|
    ensures Stand(w, k, OfStatus(w[k..], status), at)
    decreases |w| - k
  {
    if k == |w| {
      at := [];
    } else {
      at := StatusPlaces(w, k + 1, status);
      var rest := OfStatus(w[k + 1..], status);
      OfStatusFrom(w, k, status);
      StandCons(w, k, rest, at);
      if w[k].status == status { at := [k] + at; }
    }
  }

  /** The checks named are exactly those of the failing rows of the window, the hard ones for a hard
      kill and the soft ones otherwise; the vantages counted are those of the soft failures, or of the
      whole window for a hard kill. */
  lemma FindingsExactly(db: Db, c: Config, box: string)
    requires EvaluateBox(db, c, box).Evaluated? && EvaluateBox(db, c, box).verdict != Healthy
    ensures var w, r := Window(db.results, box, c.windowM), EvaluateBox(db, c, box);
      var bad := if r.verdict == HardKill then HardFail else SoftFail;
      && (forall check :: check in r.offending <==> exists x :: x in w && x.status == bad && x.check == check)
      && r.vantages == if r.verdict == HardKill then |set x | x in w :: x.vantage|
                       else |set x | x in w && x.status == SoftFail :: x.vantage|
  {
    var w, r := Window(db.results, box, c.windowM), EvaluateBox(db, c, box);
    var bad := if r.verdict == HardKill then HardFail else SoftFail;
    StatusMembers(w, bad);
    assert r.offending == Checks(OfStatus(w, bad));
    assert Vantages(OfStatus(w, bad)) == set x | x in w && x.status == bad :: x.vantage;
  }

  /** The evidence is the ids of these rows, one for each, in the order of the window. */
  lemma EvidenceExactly(db: Db, c: Config, box: string) returns (at: seq<nat>)
    requires EvaluateBox(db, c, box).Evaluated? && EvaluateBox(db, c, box).verdict != Healthy
    ensures var w, r := Window(db.results, box, c.windowM), EvaluateBox(db, c, box);
      var bad := if r.verdict == HardKill then HardFail else SoftFail;
      && |r.evidence| == |at| == |set i | 0 <= i < |w| && w[i].status == bad|
      && (forall k :: 0 <= k < |at| ==> at[k] < |w| && w[at[k]].status == bad && r.evidence[k] == w[at[k]].id)
      && (forall j, k :: 0 <= j < k < |at| ==> at[j] < at[k])
  {
    var w, r := Window(db.results, box, c.windowM), EvaluateBox(db, c, box);
    var bad := if r.verdict == HardKill then HardFail else SoftFail;
    assert r.evidence == Ids(OfStatus(w, bad));
    at := StatusPlaces(w, 0, bad);
    CountOfStatus(w, bad);
    StatusMembers(w, bad);
    forall k | 0 <= k < |at| ensures w[at[k]].status == bad { assert OfStatus(w, bad)[k] in OfStatus(w, bad); }
    assert w[0..] == w;
    assert At(w, bad) == set i | 0 <= i < |w| && w[i].status == bad;
  }
}
