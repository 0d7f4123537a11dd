/** What one pass of the scheduler may write to the ledger, and what follows over every
    history of passes: the dispatch-rate bound, the attempt budget, the quota cool-down. */
module Schedule {
  import opened Options
  import opened Sequences
  import opened Ledger
  import opened Circuit
  import opened Select
  import opened Pipeline

  const MAX_ATTEMPTS_PER_ITEM := 3

  /** What a pass decided before its first dispatch: the clock, the last resume, the lanes that
      are not off, and each lane's candidates. */
  datatype Plan = Plan(now: int, resumedAt: int, active: seq<Lane>, items: map<string, seq<WorkItem>>)

  /** The rows written for the `index`-th candidate of a lane. */
  datatype Entry = Entry(index: nat, item: WorkItem, rows: seq<RunRecord>)

  /** `runs[i]` is what the `i`-th active lane did; a pass that stops early has fewer runs. */
  datatype Pass = Pass(plan: Plan, runs: seq<seq<Entry>>)

  ghost predicate BreakersClear(rows: seq<RunRecord>, limits: Limits, now: int, resumedAt: int) {
    && !RateTrips(rows, limits, now)
    && !QuotaTrips(rows, resumedAt)
    && Streak(rows, resumedAt) < limits.consecutiveFailuresToHalt
  }

  function ItemsOf(plan: Plan, lane: Lane): seq<WorkItem> {
    if lane.id in plan.items then plan.items[lane.id] else []
  }

  ghost predicate ShadowRows(item: WorkItem, lane: Lane, rows: seq<RunRecord>) {
    |rows| == 1 && rows[0] == Base(item, lane, rows[0].ts, Shadow)
  }

  /** One DISPATCHED row, then at most one final row, which is neither DISPATCHED nor SHADOW. */
  ghost predicate LiveRows(item: WorkItem, lane: Lane, rows: seq<RunRecord>) {
    && 1 <= |rows| <= 2
    && rows[0] == Base(item, lane, rows[0].ts, Dispatched)
    && (|rows| == 2 ==>
          && rows[1].itemId == item.id && rows[1].lane == lane.id && rows[1].ts == rows[0].ts
          && rows[1].outcome != Dispatched && rows[1].outcome != Shadow)
  }

  ghost predicate EntryRows(lane: Lane, e: Entry) {
    if lane.mode == Live then LiveRows(e.item, lane, e.rows) else ShadowRows(e.item, lane, e.rows)
  }

  ghost predicate LegalEntry(plan: Plan, lane: Lane, before: seq<RunRecord>, e: Entry) {
    && e.index < |ItemsOf(plan, lane)| && ItemsOf(plan, lane)[e.index] == e.item
    && Owner(plan.active, plan.items, e.item.id) == Some(lane.id)
    && FailedAttempts(before, e.item.id) < MAX_ATTEMPTS_PER_ITEM
    && EntryRows(lane, e)
  }

  ghost predicate LegalRun(plan: Plan, limits: Limits, lane: Lane, before: seq<RunRecord>, run: seq<Entry>) {
    && |run| <= lane.cap
    && (forall k :: 0 <= k < |run| ==> LegalEntry(plan, lane, before, run[k]))
    && (forall j, k :: 0 <= j < k < |run| ==> run[j].index < run[k].index)
    && (lane.mode == Live && run != [] ==> !InQuotaCooldown(before, lane.id, plan.now, limits))
  }

  ghost predicate LegalRuns(plan: Plan, limits: Limits, before: seq<RunRecord>, runs: seq<seq<Entry>>) {
    && |runs| <= |plan.active|
    && (forall i :: 0 <= i < |runs| ==> LegalRun(plan, limits, plan.active[i], before, runs[i]))
  }

  /** `before` is the ledger the pass read. */
  ghost predicate LegalPass(limits: Limits, before: seq<RunRecord>, p: Pass) {
    && (forall i :: 0 <= i < |p.plan.active| ==> p.plan.active[i].mode != Off)
    && (p.runs != [] ==> BreakersClear(before, limits, p.plan.now, p.plan.resumedAt))
    && LegalRuns(p.plan, limits, before, p.runs)
  }

  function RowsOfRun(run: seq<Entry>): seq<RunRecord> {
    if run == [] then [] else RowsOfRun(run[..|run| - 1]) + run[|run| - 1].rows
  }

  function RowsOfRuns(runs: seq<seq<Entry>>): seq<RunRecord> {
    if runs == [] then [] else RowsOfRuns(runs[..|runs| - 1]) + RowsOfRun(runs[|runs| - 1])
  }

  /** The ledger after a history of passes, from an empty one. */
  function LedgerAfter(history: seq<Pass>): seq<RunRecord> {
    if history == [] then []
    else LedgerAfter(history[..|history| - 1]) + RowsOfRuns(history[|history| - 1].runs)
  }

  ghost predicate LegalHistory(limits: Limits, history: seq<Pass>) {
    forall n :: 0 <= n < |history| ==> LegalPass(limits, LedgerAfter(history[..n]), history[n])
  }

  lemma LegalPrefix(limits: Limits, history: seq<Pass>)
    requires LegalHistory(limits, history) && history != []
    ensures LegalHistory(limits, history[..|history| - 1])
    ensures LegalPass(limits, LedgerAfter(history[..|history| - 1]), history[|history| - 1])
  {
    var init := history[..|history| - 1];
    forall n | 0 <= n < |init| ensures LegalPass(limits, LedgerAfter(init[..n]), init[n]) {
      assert init[..n] == history[..n];
    }
  }

  /** A legal pass over the ledger so far extends the history by itself. */
  lemma PassExtendsHistory(limits: Limits, history: seq<Pass>, p: Pass)
    requires LegalHistory(limits, history) && LegalPass(limits, LedgerAfter(history), p)
    ensures LegalHistory(limits, history + [p])
    ensures LedgerAfter(history + [p]) == LedgerAfter(history) + RowsOfRuns(p.runs)
  {
    var longer := history + [p];
    assert longer[..|history|] == history;
    forall n | 0 <= n < |longer| ensures LegalPass(limits, LedgerAfter(longer[..n]), longer[n]) {
      assert n < |history| ==> longer[..n] == history[..n];
    }
  }

  /** Right after a resume, old failures and old quota rows cannot halt the fleet again: the
      pass goes ahead exactly when the rate allows. */
  lemma ClearAfterResume(rows: seq<RunRecord>, limits: Limits, now: int, resumedAt: int)
    requires limits.consecutiveFailuresToHalt > 0
    requires forall i :: 0 <= i < |rows| ==> rows[i].ts <= resumedAt
    ensures BreakersClear(rows, limits, now, resumedAt) <==> !RateTrips(rows, limits, now)
  {
    forall e ensures |QuotaRows(rows, resumedAt, e)| == 0 {
      ResumeForgetsOldRows(rows, resumedAt, e);
    }
    ResumeForgetsOldRows(rows, resumedAt, "");
  }

  // ---- The dispatch rate over whole histories ----

  /** DISPATCHED rows stamped in a closed window. */
  function DispatchedIn(rows: seq<RunRecord>, from: int, until: int): nat {
    if rows == [] then 0
    else
      var last := rows[|rows| - 1];
      DispatchedIn(rows[..|rows| - 1], from, until) + if last.outcome == Dispatched && from <= last.ts <= until then 1 else 0
  }

  function LiveCaps(lanes: seq<Lane>): nat {
    if lanes == [] then 0
    else
      var last := lanes[|lanes| - 1];
      LiveCaps(lanes[..|lanes| - 1]) + if last.mode == Live then last.cap else 0
  }

  lemma {:induction false} DispatchedInConcat(a: seq<RunRecord>, b: seq<RunRecord>, from: int, until: int)
    ensures DispatchedIn(a + b, from, until) == DispatchedIn(a, from, until) + DispatchedIn(b, from, until)
    decreases |b|
  {
    if b == [] {
      assert a + b == a;
    } else {
      assert (a + b)[..|a + b| - 1] == a + b[..|b| - 1];
      DispatchedInConcat(a, b[..|b| - 1], from, until);
    }
  }

  lemma EntryDispatchesOnce(e: Entry, lane: Lane, from: int, until: int)
    requires EntryRows(lane, e)
    ensures DispatchedIn(e.rows, from, until) <= if lane.mode == Live then 1 else 0
  {
    var first := [e.rows[0]];
    assert first[..0] == [];
    if |e.rows| == 1 {
      assert e.rows == first;
    } else {
      var second := [e.rows[1]];
      assert e.rows == first + second && second[..0] == [];
      DispatchedInConcat(first, second, from, until);
    }
  }

  lemma {:induction false} RunWithinCap(run: seq<Entry>, lane: Lane, from: int, until: int)
    requires forall k :: 0 <= k < |run| ==> EntryRows(lane, run[k])
    ensures DispatchedIn(RowsOfRun(run), from, until) <= if lane.mode == Live then |run| else 0
  {
    if run != [] {
      var init, last := run[..|run| - 1], run[|run| - 1];
      RunWithinCap(init, lane, from, until);
      EntryDispatchesOnce(last, lane, from, until);
      DispatchedInConcat(RowsOfRun(init), last.rows, from, until);
    }
  }

  lemma {:induction false} RunsWithinCaps(plan: Plan, limits: Limits, before: seq<RunRecord>, lanes: seq<Lane>, runs: seq<seq<Entry>>, from: int, until: int)
    requires |runs| <= |lanes|
    requires forall i :: 0 <= i < |runs| ==> LegalRun(plan, limits, lanes[i], before, runs[i])
    ensures DispatchedIn(RowsOfRuns(runs), from, until) <= LiveCaps(lanes)
    decreases |lanes|
  {
    if lanes != [] {
      var n := |lanes| - 1;
      if |runs| <= n {
        RunsWithinCaps(plan, limits, before, lanes[..n], runs, from, until);
      } else {
        RunsWithinCaps(plan, limits, before, lanes[..n], runs[..n], from, until);
        RunWithinCap(runs[n], lanes[n], from, until);
        DispatchedInConcat(RowsOfRuns(runs[..n]), RowsOfRun(runs[n]), from, until);
      }
    }
  }

  lemma {:induction false} WindowWithinSince(rows: seq<RunRecord>, from: int, until: int, since: int)
    requires since <= from
    ensures DispatchedIn(rows, from, until) <= DispatchedSince(rows, since)
  {
    if rows != [] { WindowWithinSince(rows[..|rows| - 1], from, until, since); }
  }

  /** The clock does not run backwards inside a pass. */
  ghost predicate StampedAfter(rows: seq<RunRecord>, now: int) {
    forall i :: 0 <= i < |rows| ==> now <= rows[i].ts
  }

  lemma {:induction false} NothingInWindow(rows: seq<RunRecord>, now: int, from: int, until: int)
    requires StampedAfter(rows, now) && until < now
    ensures DispatchedIn(rows, from, until) == 0
  {
    if rows != [] { NothingInWindow(rows[..|rows| - 1], now, from, until); }
  }

  ghost predicate Steady(p: Pass, perPass: nat) {
    LiveCaps(p.plan.active) <= perPass && StampedAfter(RowsOfRuns(p.runs), p.plan.now)
  }

  /** A clear rate breaker bounds every window the pass can still add to. */
  lemma ClearBreakerBoundsWindow(limits: Limits, before: seq<RunRecord>, now: int, from: int)
    requires !RateTrips(before, limits, now) && now <= from + HOUR
    ensures DispatchedIn(before, from, from + HOUR) <= limits.maxDispatchesPerHour
  {
    WindowWithinSince(before, from, from + HOUR, now - HOUR);
  }

  lemma PassAddsWithinCaps(limits: Limits, before: seq<RunRecord>, p: Pass, from: int, perPass: nat)
    requires LegalPass(limits, before, p) && Steady(p, perPass)
    ensures DispatchedIn(RowsOfRuns(p.runs), from, from + HOUR) <= perPass
    ensures from + HOUR < p.plan.now ==> DispatchedIn(RowsOfRuns(p.runs), from, from + HOUR) == 0
    ensures p.runs != [] ==> !RateTrips(before, limits, p.plan.now)
  {
    RunsWithinCaps(p.plan, limits, before, p.plan.active, p.runs, from, from + HOUR);
    if from + HOUR < p.plan.now { NothingInWindow(RowsOfRuns(p.runs), p.plan.now, from, from + HOUR); }
  }

  lemma PassKeepsHourlyBound(limits: Limits, before: seq<RunRecord>, p: Pass, from: int, perPass: nat)
    requires LegalPass(limits, before, p) && Steady(p, perPass)
    requires DispatchedIn(before, from, from + HOUR) <= limits.maxDispatchesPerHour + perPass
    ensures DispatchedIn(before + RowsOfRuns(p.runs), from, from + HOUR) <= limits.maxDispatchesPerHour + perPass
  {
    DispatchedInConcat(before, RowsOfRuns(p.runs), from, from + HOUR);
    PassAddsWithinCaps(limits, before, p, from, perPass);
    if p.runs != [] && p.plan.now <= from + HOUR { ClearBreakerBoundsWindow(limits, before, p.plan.now, from); }
  }

  /** Over every history of passes, no closed one-hour window holds more DISPATCHED rows than
      the hourly limit plus what one pass may add. */
  lemma {:induction false} HourlyBound(limits: Limits, history: seq<Pass>, from: int, perPass: nat)
    requires LegalHistory(limits, history)
    requires forall n :: 0 <= n < |history| ==> Steady(history[n], perPass)
    ensures DispatchedIn(LedgerAfter(history), from, from + HOUR) <= limits.maxDispatchesPerHour + perPass
    decreases |history|
  {
    if history != [] {
      var init := history[..|history| - 1];
      LegalPrefix(limits, history);
      HourlyBound(limits, init, from, perPass);
      PassKeepsHourlyBound(limits, LedgerAfter(init), history[|history| - 1], from, perPass);
    }
  }

  // ---- The attempt budget over whole histories ----

  function Touches(run: seq<Entry>, id: string): nat {
    if run == [] then 0
    else Touches(run[..|run| - 1], id) + if run[|run| - 1].item.id == id then 1 else 0
  }

  function TouchesAll(runs: seq<seq<Entry>>, id: string): nat {
    if runs == [] then 0 else TouchesAll(runs[..|runs| - 1], id) + Touches(runs[|runs| - 1], id)
  }

  lemma EntryAddsOneFailure(before: seq<RunRecord>, e: Entry, lane: Lane, id: string)
    requires EntryRows(lane, e)
    ensures FailedAttempts(before + e.rows, id) <= FailedAttempts(before, id) + if e.item.id == id then 1 else 0
  {
    if |e.rows| == 1 {
      assert e.rows == [e.rows[0]];
      AppendChangesCountByOne(before, e.rows[0], id);
    } else {
      assert e.rows == [e.rows[0]] + [e.rows[1]];
      TwoRowsAddOneFailure(before, e.rows[0], e.rows[1], id);
    }
  }

  lemma TwoRowsAddOneFailure(before: seq<RunRecord>, first: RunRecord, second: RunRecord, id: string)
    requires first.outcome == Dispatched && first.itemId == second.itemId
    ensures FailedAttempts(before + ([first] + [second]), id) <= FailedAttempts(before, id) + if second.itemId == id then 1 else 0
  {
    AppendChangesCountByOne(before, first, id);
    AppendChangesCountByOne(before + [first], second, id);
    Associative(before, [first], [second]);
  }

  lemma RowsOfRunSnoc(before: seq<RunRecord>, run: seq<Entry>)
    requires run != []
    ensures before + RowsOfRun(run) == (before + RowsOfRun(run[..|run| - 1])) + run[|run| - 1].rows
  {
    Associative(before, RowsOfRun(run[..|run| - 1]), run[|run| - 1].rows);
  }

  lemma RowsOfRunsSnoc(before: seq<RunRecord>, runs: seq<seq<Entry>>)
    requires runs != []
    ensures before + RowsOfRuns(runs) == (before + RowsOfRuns(runs[..|runs| - 1])) + RowsOfRun(runs[|runs| - 1])
  {
    Associative(before, RowsOfRuns(runs[..|runs| - 1]), RowsOfRun(runs[|runs| - 1]));
  }

  lemma {:induction false} RunAddsFailures(before: seq<RunRecord>, run: seq<Entry>, lane: Lane, id: string)
    requires forall k :: 0 <= k < |run| ==> EntryRows(lane, run[k])
    ensures FailedAttempts(before + RowsOfRun(run), id) <= FailedAttempts(before, id) + Touches(run, id)
    decreases |run|
  {
    if run == [] {
      assert before + [] == before;
    } else {
      var init, last := run[..|run| - 1], run[|run| - 1];
      RunAddsFailures(before, init, lane, id);
      EntryAddsOneFailure(before + RowsOfRun(init), last, lane, id);
      RowsOfRunSnoc(before, run);
    }
  }

  lemma {:induction false} RunsAddFailures(limits: Limits, before: seq<RunRecord>, plan: Plan, runs: seq<seq<Entry>>, id: string)
    requires |runs| <= |plan.active|
    requires forall i :: 0 <= i < |runs| ==> LegalRun(plan, limits, plan.active[i], before, runs[i])
    ensures FailedAttempts(before + RowsOfRuns(runs), id) <= FailedAttempts(before, id) + TouchesAll(runs, id)
    decreases |runs|
  {
    if runs == [] {
      assert before + [] == before;
    } else {
      var n := |runs| - 1;
      RunsAddFailures(limits, before, plan, runs[..n], id);
      forall k | 0 <= k < |runs[n]| ensures LegalEntry(plan, plan.active[n], before, runs[n][k]) {
      }
      RunAddsFailures(before + RowsOfRuns(runs[..n]), runs[n], plan.active[n], id);
      RowsOfRunsSnoc(before, runs);
    }
  }

  /** The configuration names each lane once and each listing names each item once. */
  ghost predicate WellListed(plan: Plan) {
    DistinctLanes(plan.active) && forall lane :: lane in plan.active ==> DistinctItems(ItemsOf(plan, lane))
  }

  lemma {:induction false} NotTouched(run: seq<Entry>, id: string)
    requires forall k :: 0 <= k < |run| ==> run[k].item.id != id
    ensures Touches(run, id) == 0
  {
    if run != [] { NotTouched(run[..|run| - 1], id); }
  }

  lemma {:induction false} LaneTouchesOnce(plan: Plan, lane: Lane, before: seq<RunRecord>, run: seq<Entry>, id: string)
    requires DistinctItems(ItemsOf(plan, lane))
    requires forall k :: 0 <= k < |run| ==> LegalEntry(plan, lane, before, run[k])
    requires forall j, k :: 0 <= j < k < |run| ==> run[j].index < run[k].index
    ensures Touches(run, id) <= 1
    ensures Touches(run, id) == 1 ==>
              Owner(plan.active, plan.items, id) == Some(lane.id) && FailedAttempts(before, id) < MAX_ATTEMPTS_PER_ITEM
  {
    if run != [] {
      var n := |run| - 1;
      LaneTouchesOnce(plan, lane, before, run[..n], id);
      assert LegalEntry(plan, lane, before, run[n]);
      if run[n].item.id == id {
        forall k | 0 <= k < n ensures run[k].item.id != id {
          assert LegalEntry(plan, lane, before, run[k]) && run[k].index < run[n].index;
        }
        NotTouched(run[..n], id);
      }
    }
  }

  /** In one pass each item is dispatched or shadowed at most once, only by the lane that owns
      it, and only with attempts left. */
  lemma {:induction false} EachItemOncePerPass(limits: Limits, before: seq<RunRecord>, plan: Plan, runs: seq<seq<Entry>>, id: string)
    requires WellListed(plan) && |runs| <= |plan.active|
    requires forall i :: 0 <= i < |runs| ==> LegalRun(plan, limits, plan.active[i], before, runs[i])
    ensures TouchesAll(runs, id) <= 1
    ensures TouchesAll(runs, id) == 1 ==>
              && FailedAttempts(before, id) < MAX_ATTEMPTS_PER_ITEM
              && exists i :: 0 <= i < |runs| && Owner(plan.active, plan.items, id) == Some(plan.active[i].id)
    decreases |runs|
  {
    if runs != [] {
      var n := |runs| - 1;
      EachItemOncePerPass(limits, before, plan, runs[..n], id);
      assert plan.active[n] in plan.active && LegalRun(plan, limits, plan.active[n], before, runs[n]);
      LaneTouchesOnce(plan, plan.active[n], before, runs[n], id);
    }
  }

  /** Over every history of passes and for any clock readings, an item's failures since its last
      SUCCESS never exceed the budget. */
  lemma {:induction false} AttemptBudget(limits: Limits, history: seq<Pass>, id: string)
    requires LegalHistory(limits, history)
    requires forall n :: 0 <= n < |history| ==> WellListed(history[n].plan)
    ensures FailedAttempts(LedgerAfter(history), id) <= MAX_ATTEMPTS_PER_ITEM
    decreases |history|
  {
    if history != [] {
      var init, p := history[..|history| - 1], history[|history| - 1];
      LegalPrefix(limits, history);
      AttemptBudget(limits, init, id);
      RunsAddFailures(limits, LedgerAfter(init), p.plan, p.runs, id);
      EachItemOncePerPass(limits, LedgerAfter(init), p.plan, p.runs, id);
    }
  }

  // ---- The quota cool-down over whole histories ----

  /** A live lane that ran anything had no QUOTA row of its own within the cool-down before. */
  lemma QuotaRowsCoolLanesDown(limits: Limits, history: seq<Pass>, n: nat, i: nat, r: RunRecord)
    requires LegalHistory(limits, history) && n < |history| && i < |history[n].runs|
    requires i < |history[n].plan.active|
    requires history[n].plan.active[i].mode == Live && history[n].runs[i] != []
    requires r in LedgerAfter(history[..n]) && r.lane == history[n].plan.active[i].id && r.outcome == Quota
    ensures history[n].plan.now - r.ts >= limits.quotaCooldownMs
  {
    var p, before := history[n], LedgerAfter(history[..n]);
    assert LegalPass(limits, before, p);
    assert LegalRun(p.plan, limits, p.plan.active[i], before, p.runs[i]);
    CooldownMeansRecentQuota(before, p.plan.active[i].id, p.plan.now, limits);
  }
}
