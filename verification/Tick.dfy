/** One pass of the scheduler: the halt and breaker checks, selection and claiming across
    lanes, and the nested loops that shadow or dispatch. */
module Tick {
  import opened Options
  import opened Sequences
  import opened Ledger
  import Circuit
  import opened Select
  import opened KillSwitch
  import HaltState
  import opened Pipeline
  import opened Fleet
  import opened Schedule

  datatype End =
    | LockNotHeld
    | StayedHalted
    | BreakerAbort(breaker: Breaker)
    | SourceUnreadable
    | ErrorAbort
    | HaltedMidPass(reason: string)
    | Finished

  // ---- What the events of a pass show ----

  /** The dispatches and shadows among the events, in order. */
  function Marks(events: seq<PassEvent>): seq<PassEvent> {
    if events == [] then []
    else
      var last := events[|events| - 1];
      Marks(events[..|events| - 1]) + if last.Sent? || last.Shadowed? then [last] else []
  }

  lemma MarksSnoc(events: seq<PassEvent>, e: PassEvent)
    ensures Marks(events + [e]) == Marks(events) + if e.Sent? || e.Shadowed? then [e] else []
  {
    assert (events + [e])[..|events|] == events;
  }

  /** How often the halt state was read. */
  function HaltChecks(events: seq<PassEvent>): nat {
    if events == [] then 0
    else HaltChecks(events[..|events| - 1]) + if events[|events| - 1].HaltChecked? then 1 else 0
  }

  lemma {:induction false} HaltChecksConcat(before: seq<PassEvent>, more: seq<PassEvent>)
    ensures HaltChecks(before + more) == HaltChecks(before) + HaltChecks(more)
    decreases |more|
  {
    if more == [] {
      assert before + more == before;
    } else {
      var init, last := more[..|more| - 1], more[|more| - 1];
      assert before + more == before + init + [last];
      InitOfSnoc(before + init, last);
      HaltChecksConcat(before, init);
    }
  }

  lemma {:induction false} NoHaltChecks(more: seq<PassEvent>)
    requires forall e :: e in more ==> !e.HaltChecked?
    ensures HaltChecks(more) == 0
  {
    if more != [] { NoHaltChecks(more[..|more| - 1]); }
  }

  /** One check, then events that are none. */
  lemma OneHaltCheck(before: seq<PassEvent>, reason: Option<string>, more: seq<PassEvent>)
    requires forall e :: e in more ==> !e.HaltChecked?
    ensures HaltChecks(before + [HaltChecked(reason)] + more) == HaltChecks(before) + 1
  {
    HaltChecksConcat(before + [HaltChecked(reason)], more);
    InitOfSnoc(before, HaltChecked(reason));
    NoHaltChecks(more);
  }

  /** The clock reading an entry's rows are stamped with. */
  function Stamp(e: Entry): int {
    if e.rows == [] then 0 else e.rows[0].ts
  }

  function Mark(lane: Lane, e: Entry): PassEvent {
    if lane.mode == Live then Sent(lane, e.item, Stamp(e)) else Shadowed(lane, e.item, Stamp(e))
  }

  function MarksOfRun(lane: Lane, run: seq<Entry>): seq<PassEvent> {
    if run == [] then [] else MarksOfRun(lane, run[..|run| - 1]) + [Mark(lane, run[|run| - 1])]
  }

  function MarksOfRuns(lanes: seq<Lane>, runs: seq<seq<Entry>>): seq<PassEvent>
    requires |runs| <= |lanes|
  {
    if runs == [] then []
    else MarksOfRuns(lanes, runs[..|runs| - 1]) + MarksOfRun(lanes[|runs| - 1], runs[|runs| - 1])
  }

  /** The event at `i`, if it is a dispatch, was let through by its own reads just before: the
      fleet not halted, the clock its rows are stamped with, no open pull request, and fresh labels
      that `Judge` accepts. A shadow needs its own halt check. */
  ghost predicate GuardedAt(events: seq<PassEvent>, from: nat, i: nat)
    requires i < |events|
  {
    && (events[i].Sent? ==>
          && i >= from + 4
          && events[i - 4] == HaltChecked(None) && events[i - 3] == ClockRead(events[i].ts)
          && events[i - 2] == OpenPrRead(events[i].item.id, false)
          && events[i - 1].LabelsRead? && events[i - 1].itemId == events[i].item.id
          && Judge(events[i].item, events[i - 1].labels, events[i].lane).None?)
    && (events[i].Shadowed? ==>
          i >= from + 2 && events[i - 2] == HaltChecked(None) && events[i - 1] == ClockRead(events[i].ts))
  }

  ghost predicate Guarded(events: seq<PassEvent>, from: nat) {
    forall i :: from <= i < |events| ==> GuardedAt(events, from, i)
  }

  lemma GuardedExtends(before: seq<PassEvent>, after: seq<PassEvent>, from: nat)
    requires before <= after && from <= |before| && Guarded(before, from) && Guarded(after, |before|)
    ensures Guarded(after, from)
  {
    forall i | from <= i < |after| ensures GuardedAt(after, from, i) {
      if i < |before| {
        assert GuardedAt(before, from, i);
      } else {
        assert GuardedAt(after, |before|, i);
      }
    }
  }

  /** Something threw, and nothing was done after it. */
  ghost predicate Broke(w: World, events0: seq<PassEvent>, calls0: seq<Call>)
    reads w
  {
    || (|w.events| > |events0| && w.events[|w.events| - 1] == CallThrew)
    || (|w.calls| > |calls0| && FailedCall(w.calls[|w.calls| - 1]))
  }

  /** Every dispatch among the events was of an item its lane may have, by labels read just before:
      the required label and the lane's own, and no veto. */
  lemma EverySentWasWanted(events: seq<PassEvent>, from: nat)
    requires Guarded(events, from)
    ensures SentWanted(events, from)
  {
    forall i | from <= i < |events| && events[i].Sent? ensures SentWantedAt(events, i) {
      assert GuardedAt(events, from, i);
      JudgeMeans(events[i].item, events[i - 1].labels, events[i].lane);
    }
  }

  ghost predicate SentWantedAt(events: seq<PassEvent>, i: nat)
    requires i < |events| && events[i].Sent?
  {
    && i >= 4 && events[i - 4] == HaltChecked(None) && events[i - 2] == OpenPrRead(events[i].item.id, false)
    && events[i - 1].LabelsRead? && events[i - 1].itemId == events[i].item.id
    && Wanted(events[i].item, events[i - 1].labels, events[i].lane)
  }

  ghost predicate SentWanted(events: seq<PassEvent>, from: nat) {
    forall i :: from <= i < |events| && events[i].Sent? ==> SentWantedAt(events, i)
  }

  // ---- One candidate ----

  datatype ItemStep =
    | Skipped
    | MidHalt(reason: string)
    | Threw
    | Took(entry: Entry, failed: bool, escaped: bool)

  ghost predicate ItemStepFits(lane: Lane, item: WorkItem, index: nat, cooling: bool, s: ItemStep) {
    s.Took? ==> s.entry.index == index && s.entry.item == item && EntryRows(lane, s.entry) && !cooling
  }

  /** Why a candidate that passed its halt check was not taken: the lane is cooling down, the item
      has an open PR, or its fresh labels are no longer acceptable. */
  ghost predicate Excused(events: seq<PassEvent>, lane: Lane, item: WorkItem, cooling: bool) {
    events != [] && lane.mode == Live &&
    var last := events[|events| - 1];
    || (cooling && last == HaltChecked(None))
    || last == OpenPrRead(item.id, true)
    || (last.LabelsRead? && last.itemId == item.id && Judge(item, last.labels, lane).Some?)
  }

  /** Neither a dispatch nor a shadow nor a halt check. */
  ghost predicate OnlyReads(more: seq<PassEvent>) {
    forall e :: e in more ==> !e.Sent? && !e.Shadowed? && !e.HaltChecked?
  }

  /** The events of a candidate that was taken, after its halt check. */
  ghost predicate Taken(lane: Lane, item: WorkItem, ts: int, more: seq<PassEvent>) {
    if lane.mode == Live then
      && |more| == 4
      && more[0] == ClockRead(ts) && more[1] == OpenPrRead(item.id, false)
      && more[2].LabelsRead? && more[2].itemId == item.id && Judge(item, more[2].labels, lane).None?
      && more[3] == Sent(lane, item, ts)
    else |more| == 2 && more[0] == ClockRead(ts) && more[1] == Shadowed(lane, item, ts)
  }

  method Shadow(w: World, lane: Lane, item: WorkItem, index: nat) returns (s: ItemStep, ghost more: seq<PassEvent>)
    requires lane.mode == ShadowOnly && w.Settled()
    modifies w
    ensures |old(w.calls)| <= |w.calls|
    ensures w.Settled() && ItemStepFits(lane, item, index, false, s) && (s.Threw? || (s.Took? && !s.escaped))
    ensures w.rows == old(w.rows) + if s.Took? then s.entry.rows else []
    ensures w.events == old(w.events) + more
    ensures if s.Took? then Taken(lane, item, Stamp(s.entry), more) else OnlyReads(more)
    ensures s.Threw? ==> Broke(w, old(w.events), old(w.calls))
  {
    var ts := w.ReadClock();
    more := [ClockRead(ts)];
    assert w.Settled();
    var ok, row := RecordShadow(w, lane, item, ts);
    if !ok {
      assert w.rows + [] == w.rows;
      return Threw, more;
    }
    Associative(old(w.events), more, [Shadowed(lane, item, ts)]);
    more := more + [Shadowed(lane, item, ts)];
    s := Took(Entry(index, item, [row]), false, false);
  }

  method RecordShadow(w: World, lane: Lane, item: WorkItem, ts: int) returns (ok: bool, row: RunRecord)
    requires w.Settled()
    modifies w`rows, w`calls, w`events
    ensures w.Settled() && row == Base(item, lane, ts, Outcome.Shadow)
    ensures w.calls == old(w.calls) + [Appended(row, ok)]
    ensures if ok then w.rows == old(w.rows) + [row] && w.events == old(w.events) + [Shadowed(lane, item, ts)]
            else w.rows == old(w.rows) && w.events == old(w.events)
  {
    row := Base(item, lane, ts, Outcome.Shadow);
    var works: bool := *;
    ok := w.Record(row, works);
    if ok {
      w.events := w.events + [Shadowed(lane, item, ts)];
    }
  }

  /** No open PR, then fresh labels judged again. */
  method LooksFree(w: World, lane: Lane, item: WorkItem) returns (free: bool, threw: bool, ts: int, ghost more: seq<PassEvent>)
    modifies w`events
    ensures w.events == old(w.events) + more && OnlyReads(more)
    ensures free ==> !threw && Taken(lane.(mode := Live), item, ts, more + [Sent(lane.(mode := Live), item, ts)])
    ensures threw ==> |more| > 0 && more[|more| - 1] == CallThrew
    ensures !free && !threw && lane.mode == Live ==> Excused(w.events, lane, item, false)
  {
    free, threw := false, false;
    ts := w.ReadClock();
    ghost var m1 := [ClockRead(ts)];
    var ok, found := w.FindOpenPr(item.id);
    more := m1 + [if ok then OpenPrRead(item.id, found) else CallThrew];
    Associative(old(w.events), m1, [if ok then OpenPrRead(item.id, found) else CallThrew]);
    if !ok || found {
      threw := !ok;
      return;
    }
    ghost var m2 := more;
    var labels: Option<seq<string>>;
    ok, labels := w.ReadLabels(item.id);
    more := m2 + [if ok then LabelsRead(item.id, labels) else CallThrew];
    Associative(old(w.events), m2, [if ok then LabelsRead(item.id, labels) else CallThrew]);
    threw := !ok;
    free := ok && Judge(item, labels, lane).None?;
  }

  /** The rows one dispatch leaves are one DISPATCHED row and at most one final row. */
  lemma DispatchRows(p: DispatchPlan, lane: Lane, item: WorkItem, ts: int)
    requires p.firstAppend
    ensures var rows := RowsOfCalls(PipelineCalls(p, item, lane, ts));
            LiveRows(item, lane, rows) && rows[0].ts == ts
  {
    WorkIsConserved(p, item, lane, ts);
    FinalRowIsTerminal(item, lane, ts, p.try_);
  }

  /** The guarded dispatch: the reads, then the pipeline. */
  method DispatchIfFree(w: World, lane: Lane, item: WorkItem, index: nat) returns (s: ItemStep, ghost more: seq<PassEvent>)
    requires lane.mode == Live && w.Settled()
    modifies w
    ensures |old(w.calls)| <= |w.calls|
    ensures w.Settled() && ItemStepFits(lane, item, index, false, s) && !s.MidHalt?
    ensures w.rows == old(w.rows) + if s.Took? then s.entry.rows else []
    ensures w.events == old(w.events) + more
    ensures if s.Took? then Taken(lane, item, Stamp(s.entry), more) else OnlyReads(more)
    ensures s.Skipped? ==> Excused(w.events, lane, item, false)
    ensures s.Threw? || (s.Took? && s.escaped) ==> Broke(w, old(w.events), old(w.calls))
  {
    var free, threw, ts;
    free, threw, ts, more := LooksFree(w, lane, item);
    if !free {
      assert w.rows + [] == w.rows;
      return if threw then Threw else Skipped, more;
    }
    s := DispatchNow(w, lane, item, index, ts);
    ghost var sent: seq<PassEvent> := if s.Took? then [Sent(lane, item, ts)] else [];
    Associative(old(w.events), more, sent);
    assert more + [] == more;
    more := more + sent;
  }

  /** The pipeline, for any plan. */
  method DispatchNow(w: World, lane: Lane, item: WorkItem, index: nat, ts: int) returns (s: ItemStep)
    requires lane.mode == Live && w.Settled()
    modifies w
    ensures |old(w.calls)| <= |w.calls|
    ensures w.Settled() && ItemStepFits(lane, item, index, false, s) && (s.Threw? || (s.Took? && Stamp(s.entry) == ts))
    ensures w.rows == old(w.rows) + if s.Took? then s.entry.rows else []
    ensures w.events == old(w.events) + if s.Took? then [Sent(lane, item, ts)] else []
    ensures s.Threw? || (s.Took? && s.escaped) ==> Broke(w, old(w.events), old(w.calls))
  {
    var p: DispatchPlan := *;
    var d := RunLiveDispatch(w, item, lane, ts, p);
    EscapeIsTheEnd(p, item, lane, ts);
    WorkIsConserved(p, item, lane, ts);
    if !d.started {
      return Threw;
    }
    DispatchRows(p, lane, item, ts);
    var rows := [Base(item, lane, ts, Dispatched)] + if d.recorded.Some? then [d.recorded.value] else [];
    s := Took(Entry(index, item, rows), d.attempt.outcome.None?, d.escaped);
  }

  ghost predicate Quiet(events: seq<PassEvent>) {
    forall e :: e in events ==> !e.Sent? && !e.Shadowed?
  }

  lemma {:induction false} QuietMarksNothing(before: seq<PassEvent>, more: seq<PassEvent>)
    requires Quiet(more)
    ensures Marks(before + more) == Marks(before)
    decreases |more|
  {
    if more == [] {
      assert before + more == before;
    } else {
      var init, last := more[..|more| - 1], more[|more| - 1];
      assert before + more == before + init + [last];
      MarksSnoc(before + init, last);
      QuietMarksNothing(before, init);
    }
  }

  lemma QuietExtends(before: seq<PassEvent>, more: seq<PassEvent>)
    requires Quiet(more)
    ensures before <= before + more && Guarded(before + more, |before|) && Marks(before + more) == Marks(before)
  {
    QuietMarksNothing(before, more);
    forall i | |before| <= i < |before + more| ensures GuardedAt(before + more, |before|, i) {
      assert (before + more)[i] == more[i - |before|];
    }
  }

  lemma TakenChecksOnce(before: seq<PassEvent>, lane: Lane, item: WorkItem, ts: int, more: seq<PassEvent>)
    requires Taken(lane, item, ts, more) && lane.mode != Off
    ensures HaltChecks(before + [HaltChecked(None)] + more) == HaltChecks(before) + 1
  {
    OneHaltCheck(before, None, more);
  }

  lemma TakenMarks(before: seq<PassEvent>, lane: Lane, item: WorkItem, ts: int, more: seq<PassEvent>)
    requires Taken(lane, item, ts, more) && lane.mode != Off
    ensures Marks(before + [HaltChecked(None)] + more) ==
            Marks(before) + [if lane.mode == Live then Sent(lane, item, ts) else Shadowed(lane, item, ts)]
  {
    var m := |more| - 1;
    assert more == more[..m] + [more[m]];
    assert Quiet(more[..m]);
    MarkAtEnd(before, more[..m], more[m]);
  }

  lemma MarkAtEnd(before: seq<PassEvent>, looked: seq<PassEvent>, last: PassEvent)
    requires Quiet(looked) && (last.Sent? || last.Shadowed?)
    ensures Marks(before + [HaltChecked(None)] + (looked + [last])) == Marks(before) + [last]
  {
    Associative(before + [HaltChecked(None)], looked, [last]);
    MarksSnoc(before + [HaltChecked(None)] + looked, last);
    QuietMarksNothing(before + [HaltChecked(None)], looked);
    MarksSnoc(before, HaltChecked(None));
    assert Marks(before) + [] == Marks(before);
  }

  lemma TakenAt(before: seq<PassEvent>, lane: Lane, item: WorkItem, ts: int, more: seq<PassEvent>)
    requires Taken(lane, item, ts, more) && lane.mode != Off
    ensures before <= before + [HaltChecked(None)] + more && Guarded(before + [HaltChecked(None)] + more, |before|)
  {
    var after, n := before + [HaltChecked(None)] + more, |before|;
    assert after[n] == HaltChecked(None) && after[n + 1] == more[0] && after[n + 2] == more[1];
    assert lane.mode == Live ==> after[n + 3] == more[2] && after[n + 4] == more[3];
  }

  lemma LooksAreQuiet(before: seq<PassEvent>, more: seq<PassEvent>)
    requires OnlyReads(more)
    ensures var after := before + [HaltChecked(None)] + more;
            && before <= after && Guarded(after, |before|) && Marks(after) == Marks(before)
            && HaltChecks(after) == HaltChecks(before) + 1
  {
    Associative(before, [HaltChecked(None)], more);
    QuietExtends(before, [HaltChecked(None)] + more);
    OneHaltCheck(before, None, more);
  }

  /** After a halt check that found nothing: shadow the item, or dispatch it if it is free. */
  method TakeItem(w: World, lane: Lane, item: WorkItem, index: nat, ghost before: seq<PassEvent>) returns (s: ItemStep)
    requires lane.mode != Off && w.Settled() && w.events == before + [HaltChecked(None)]
    modifies w
    ensures |old(w.calls)| <= |w.calls|
    ensures w.Settled() && ItemStepFits(lane, item, index, false, s) && !s.MidHalt?
    ensures w.rows == old(w.rows) + if s.Took? then s.entry.rows else []
    ensures |w.events| > |before|
    ensures before <= w.events && Guarded(w.events, |before|)
    ensures Marks(w.events) == Marks(before) + if s.Took? then [Mark(lane, s.entry)] else []
    ensures s.Skipped? ==> Excused(w.events, lane, item, false)
    ensures HaltChecks(w.events) == HaltChecks(before) + 1
    ensures s.Threw? || (s.Took? && s.escaped) ==> Broke(w, old(w.events), old(w.calls))
  {
    ghost var more;
    if lane.mode == ShadowOnly {
      s, more := Shadow(w, lane, item, index);
    } else {
      s, more := DispatchIfFree(w, lane, item, index);
    }
    if s.Took? {
      TakenMarks(before, lane, item, Stamp(s.entry), more);
      TakenAt(before, lane, item, Stamp(s.entry), more);
      TakenChecksOnce(before, lane, item, Stamp(s.entry), more);
    } else {
      LooksAreQuiet(before, more);
      assert Marks(before) + [] == Marks(before);
    }
  }

  /** The halt check is made before every candidate, also in a lane that is cooling down. */
  method TryItem(w: World, lane: Lane, item: WorkItem, index: nat, cooling: bool) returns (s: ItemStep)
    requires lane.mode != Off && (cooling ==> lane.mode == Live) && w.Settled()
    modifies w
    ensures |old(w.calls)| <= |w.calls|
    ensures w.Settled() && ItemStepFits(lane, item, index, cooling, s)
    ensures w.rows == old(w.rows) + if s.Took? then s.entry.rows else []
    ensures old(w.events) <= w.events && Guarded(w.events, |old(w.events)|)
    ensures Marks(w.events) == Marks(old(w.events)) + if s.Took? then [Mark(lane, s.entry)] else []
    ensures s.Skipped? ==> Excused(w.events, lane, item, cooling)
    ensures s.Took? || s.Skipped? ==> HaltChecks(w.events) == HaltChecks(old(w.events)) + 1
    ensures |w.events| > |old(w.events)|
    ensures s.MidHalt? ==> w.events == old(w.events) + [HaltChecked(Some(s.reason))]
    ensures s.Threw? || (s.Took? && s.escaped) ==> Broke(w, old(w.events), old(w.calls))
  {
    ghost var before := w.events;
    var ok, reason := w.ReadHalt();
    QuietExtends(before, [if ok then HaltChecked(reason) else CallThrew]);
    assert w.Settled() && w.rows + [] == w.rows && Marks(before) + [] == Marks(before);
    if !ok {
      return Threw;
    }
    if reason.Some? {
      return MidHalt(reason.value);
    }
    if cooling {
      InitOfSnoc(before, HaltChecked(None));
      return Skipped;
    }
    s := TakeItem(w, lane, item, index, before);
  }

  // ---- One lane ----

  datatype Stop = CarryOn | StopHalted(reason: string) | StopThrew

  ghost predicate Claims(plan: Plan, owned: map<string, string>) {
    forall id :: if id in owned then Owner(plan.active, plan.items, id) == Some(owned[id])
                 else Owner(plan.active, plan.items, id) == None
  }

  /** What the lane loop has done to the world since `rows0` and `events0`. */
  ghost predicate Did(w: World, rows0: seq<RunRecord>, events0: seq<PassEvent>, rows: seq<RunRecord>, marks: seq<PassEvent>)
    reads w
  {
    && w.Settled()
    && w.rows == rows0 + rows
    && events0 <= w.events && Guarded(w.events, |events0|)
    && Marks(w.events) == Marks(events0) + marks
  }

  lemma DidMore(w: World, rows0: seq<RunRecord>, rows1: seq<RunRecord>, rows2: seq<RunRecord>,
                events0: seq<PassEvent>, events1: seq<PassEvent>, marks1: seq<PassEvent>, marks2: seq<PassEvent>)
    requires events0 <= events1 && Guarded(events1, |events0|) && Marks(events1) == Marks(events0) + marks1
    requires Did(w, rows0 + rows1, events1, rows2, marks2)
    ensures Did(w, rows0, events0, rows1 + rows2, marks1 + marks2)
  {
    Associative(rows0, rows1, rows2);
    Associative(Marks(events0), marks1, marks2);
    PrefixTransitive(events0, events1, w.events);
    GuardedExtends(events1, w.events, |events0|);
  }

  lemma PrefixTransitive(a: seq<PassEvent>, b: seq<PassEvent>, c: seq<PassEvent>)
    requires a <= b <= c
    ensures a <= c
  {
  }

  lemma RunSnoc(plan: Plan, limits: Circuit.Limits, lane: Lane, before: seq<RunRecord>, run: seq<Entry>, e: Entry)
    requires LegalRun(plan, limits, lane, before, run) && LegalEntry(plan, lane, before, e) && |run| < lane.cap
    requires forall k :: 0 <= k < |run| ==> run[k].index < e.index
    requires lane.mode == Live ==> !Circuit.InQuotaCooldown(before, lane.id, plan.now, limits)
    ensures LegalRun(plan, limits, lane, before, run + [e])
    ensures RowsOfRun(run + [e]) == RowsOfRun(run) + e.rows
    ensures MarksOfRun(lane, run + [e]) == MarksOfRun(lane, run) + [Mark(lane, e)]
  {
    assert (run + [e])[..|run|] == run;
  }

  function CountTo(p: nat -> bool, n: nat): nat {
    if n == 0 then 0 else CountTo(p, n - 1) + if p(n - 1) then 1 else 0
  }

  /** The lane owns its `i`-th candidate, which has attempts left. */
  predicate IsEligible(plan: Plan, lane: Lane, rows: seq<RunRecord>, i: nat) {
    i < |ItemsOf(plan, lane)| &&
    var id := ItemsOf(plan, lane)[i].id;
    Owner(plan.active, plan.items, id) == Some(lane.id) && FailedAttempts(rows, id) < MAX_ATTEMPTS_PER_ITEM
  }

  /** How many of the lane's first `n` candidates are eligible. */
  function Eligible(plan: Plan, lane: Lane, rows: seq<RunRecord>, n: nat): nat {
    CountTo((i: nat) => IsEligible(plan, lane, rows, i), n)
  }

  lemma {:induction false} CountGrows(p: nat -> bool, n: nat, m: nat)
    requires n <= m
    ensures CountTo(p, n) <= CountTo(p, m)
    decreases m
  {
    if n < m { CountGrows(p, n, m - 1); }
  }

  function Min(a: nat, b: nat): nat {
    if a <= b then a else b
  }

  ghost predicate InRun(run: seq<Entry>, index: nat) {
    exists k :: 0 <= k < |run| && run[k].index == index
  }

  /** The excuse is on record among the events after the first `from`. */
  ghost predicate ExcusedIn(events: seq<PassEvent>, from: nat, lane: Lane, item: WorkItem, cooling: bool) {
    exists m :: from < m <= |events| && Excused(events[..m], lane, item, cooling)
  }

  function Cooling(plan: Plan, limits: Circuit.Limits, lane: Lane, rows: seq<RunRecord>): bool {
    lane.mode == Live && Circuit.InQuotaCooldown(rows, lane.id, plan.now, limits)
  }

  /** The lane's `j`-th candidate was taken, has its excuse on record, or was not eligible. */
  ghost predicate Accounted(events: seq<PassEvent>, from: nat, plan: Plan, limits: Circuit.Limits, lane: Lane, rows: seq<RunRecord>,
                            run: seq<Entry>, j: nat) {
    IsEligible(plan, lane, rows, j) ==>
      InRun(run, j) || ExcusedIn(events, from, lane, ItemsOf(plan, lane)[j], Cooling(plan, limits, lane, rows))
  }

  ghost predicate AccountedTo(events: seq<PassEvent>, from: nat, plan: Plan, limits: Circuit.Limits, lane: Lane, rows: seq<RunRecord>,
                              run: seq<Entry>, n: nat) {
    forall j :: 0 <= j < n ==> Accounted(events, from, plan, limits, lane, rows, run, j)
  }

  lemma AccountsStand(events: seq<PassEvent>, later: seq<PassEvent>, from: nat, plan: Plan, limits: Circuit.Limits, lane: Lane,
                      rows: seq<RunRecord>, run: seq<Entry>, run': seq<Entry>, n: nat)
    requires AccountedTo(events, from, plan, limits, lane, rows, run, n) && events <= later && run <= run'
    ensures AccountedTo(later, from, plan, limits, lane, rows, run', n)
  {
    forall j | 0 <= j < n ensures Accounted(later, from, plan, limits, lane, rows, run', j) {
      assert Accounted(events, from, plan, limits, lane, rows, run, j);
      if IsEligible(plan, lane, rows, j) {
        if InRun(run, j) {
          var k :| 0 <= k < |run| && run[k].index == j;
          assert run'[k].index == j;
        } else {
          ExcuseStands(events, later, from, lane, ItemsOf(plan, lane)[j], Cooling(plan, limits, lane, rows));
        }
      }
    }
  }

  lemma ExcuseStands(events: seq<PassEvent>, later: seq<PassEvent>, from: nat, lane: Lane, item: WorkItem, cooling: bool)
    requires ExcusedIn(events, from, lane, item, cooling) && events <= later
    ensures ExcusedIn(later, from, lane, item, cooling)
  {
    var m :| from < m <= |events| && Excused(events[..m], lane, item, cooling);
    assert later[..m] == events[..m];
  }

  /** The candidate just visited is accounted for. */
  lemma AccountNext(events: seq<PassEvent>, later: seq<PassEvent>, from: nat, plan: Plan, limits: Circuit.Limits, lane: Lane,
                    rows: seq<RunRecord>, run: seq<Entry>, run': seq<Entry>, i: nat)
    requires AccountedTo(events, from, plan, limits, lane, rows, run, i) && events <= later && |later| > from
    requires i < |ItemsOf(plan, lane)|
    requires if run' == run then Excused(later, lane, ItemsOf(plan, lane)[i], Cooling(plan, limits, lane, rows))
             else |run'| == |run| + 1 && run'[..|run|] == run && run'[|run|].index == i
    ensures AccountedTo(later, from, plan, limits, lane, rows, run', i + 1)
  {
    AccountsStand(events, later, from, plan, limits, lane, rows, run, run', i);
    if run' == run {
      NewExcuse(later, from, lane, ItemsOf(plan, lane)[i], Cooling(plan, limits, lane, rows));
    } else {
      assert run'[|run|].index == i;
    }
    assert Accounted(later, from, plan, limits, lane, rows, run', i);
  }

  lemma NewExcuse(events: seq<PassEvent>, from: nat, lane: Lane, item: WorkItem, cooling: bool)
    requires |events| > from && Excused(events, lane, item, cooling)
    ensures ExcusedIn(events, from, lane, item, cooling)
  {
    assert events[..|events|] == events;
  }

  /** A lane that ran to its end, or to its cap: no eligible candidate was passed over without its
      excuse on record, and a shadow lane has shadowed as many as it may. */
  ghost predicate LaneDone(events: seq<PassEvent>, from: nat, plan: Plan, limits: Circuit.Limits, lane: Lane, rows: seq<RunRecord>, run: seq<Entry>) {
    var n := |ItemsOf(plan, lane)|;
    && (|run| == lane.cap || AccountedTo(events, from, plan, limits, lane, rows, run, n))
    && (lane.mode == ShadowOnly ==> |run| == Min(lane.cap, Eligible(plan, lane, rows, n)))
  }

  /** How a lane's loop ended, and what its last event or call shows for it. */
  ghost predicate StopShown(w: World, events0: seq<PassEvent>, calls0: seq<Call>, stop: Stop)
    reads w
  {
    match stop
    case CarryOn => true
    case StopHalted(reason) => |w.events| > |events0| && w.events[|w.events| - 1] == HaltChecked(Some(reason))
    case StopThrew => Broke(w, events0, calls0)
  }

  /** A candidate the lane owns, with attempts left: the run grows by what was taken. */
  method VisitItem(w: World, plan: Plan, limits: Circuit.Limits, lane: Lane, rows: seq<RunRecord>, run: seq<Entry>,
                   index: nat, cooling: bool)
    returns (run': seq<Entry>, stop: Stop, ghost added: seq<RunRecord>, ghost marks: seq<PassEvent>)
    requires w.Settled() && lane.mode != Off && LegalRun(plan, limits, lane, rows, run) && |run| < lane.cap
    requires forall k :: 0 <= k < |run| ==> run[k].index < index
    requires cooling == Cooling(plan, limits, lane, rows)
    requires index < |ItemsOf(plan, lane)|
    requires Owner(plan.active, plan.items, ItemsOf(plan, lane)[index].id) == Some(lane.id)
    requires FailedAttempts(rows, ItemsOf(plan, lane)[index].id) < MAX_ATTEMPTS_PER_ITEM
    modifies w
    ensures |old(w.calls)| <= |w.calls|
    ensures LegalRun(plan, limits, lane, rows, run')
    ensures run' == run || (|run'| == |run| + 1 && run'[..|run|] == run && run'[|run|].index == index)
    ensures RowsOfRun(run') == RowsOfRun(run) + added && MarksOfRun(lane, run') == MarksOfRun(lane, run) + marks
    ensures Did(w, old(w.rows), old(w.events), added, marks)
    ensures stop.CarryOn? ==> HaltChecks(w.events) == HaltChecks(old(w.events)) + 1
    ensures |w.events| > |old(w.events)|
    ensures stop.CarryOn? ==> run' != run || Excused(w.events, lane, ItemsOf(plan, lane)[index], cooling)
    ensures StopShown(w, old(w.events), old(w.calls), stop)
  {
    run', stop, added, marks := run, CarryOn, [], [];
    var s := TryItem(w, lane, ItemsOf(plan, lane)[index], index, cooling);
    if s.Took? {
      RunSnoc(plan, limits, lane, rows, run, s.entry);
      run', added, marks := run + [s.entry], s.entry.rows, [Mark(lane, s.entry)];
    } else {
      assert RowsOfRun(run) + [] == RowsOfRun(run) && MarksOfRun(lane, run) + [] == MarksOfRun(lane, run);
    }
    if s.MidHalt? {
      stop := StopHalted(s.reason);
    } else if s.Threw? || (s.Took? && s.escaped) {
      stop := StopThrew;
    }
  }

  /** A lane's loop before its `i`-th candidate, or where it stopped. */
  ghost predicate LaneSoFar(w: World, plan: Plan, limits: Circuit.Limits, lane: Lane, rows: seq<RunRecord>,
                            rows0: seq<RunRecord>, events0: seq<PassEvent>, calls0: seq<Call>,
                            run: seq<Entry>, i: nat, stop: Stop)
    requires i <= |ItemsOf(plan, lane)|
    reads w
  {
    && LegalRun(plan, limits, lane, rows, run)
    && (forall k :: 0 <= k < |run| ==> run[k].index < i)
    && Did(w, rows0, events0, RowsOfRun(run), MarksOfRun(lane, run))
    && |calls0| <= |w.calls| && StopShown(w, events0, calls0, stop)
    && (stop.CarryOn? ==>
          && AccountedTo(w.events, |events0|, plan, limits, lane, rows, run, i)
          && HaltChecks(w.events) == HaltChecks(events0) + Eligible(plan, lane, rows, i)
          && (lane.mode == ShadowOnly ==> |run| == Eligible(plan, lane, rows, i)))
  }

  lemma NothingDone(w: World)
    requires w.Settled()
    ensures Did(w, w.rows, w.events, [], [])
  {
    assert w.rows + [] == w.rows && Marks(w.events) + [] == Marks(w.events);
  }

  lemma LaneStarts(w: World, plan: Plan, limits: Circuit.Limits, lane: Lane, rows: seq<RunRecord>)
    requires w.Settled()
    ensures LaneSoFar(w, plan, limits, lane, rows, w.rows, w.events, w.calls, [], 0, CarryOn)
  {
    NothingDone(w);
  }

  /** The lane's next candidate, whether eligible or not. */
  method VisitNext(w: World, plan: Plan, limits: Circuit.Limits, lane: Lane, owned: map<string, string>, rows: seq<RunRecord>,
                   run: seq<Entry>, i: nat, cooling: bool,
                   ghost rows0: seq<RunRecord>, ghost events0: seq<PassEvent>, ghost calls0: seq<Call>)
    returns (run': seq<Entry>, stop: Stop)
    requires lane.mode != Off && |run| < lane.cap && Claims(plan, owned) && i < |ItemsOf(plan, lane)|
    requires cooling == Cooling(plan, limits, lane, rows)
    requires LaneSoFar(w, plan, limits, lane, rows, rows0, events0, calls0, run, i, CarryOn)
    modifies w
    ensures LaneSoFar(w, plan, limits, lane, rows, rows0, events0, calls0, run', i + 1, stop)
  {
    run', stop := run, CarryOn;
    var item := ItemsOf(plan, lane)[i];
    if item.id !in owned || owned[item.id] != lane.id {
      return;
    }
    var failures := FailedAttemptsIn(rows, item.id);
    if failures >= MAX_ATTEMPTS_PER_ITEM {
      return;
    }
    run', stop := VisitEligible(w, plan, limits, lane, rows, run, i, cooling, rows0, events0, calls0);
  }

  lemma StopStays(w: World, events0: seq<PassEvent>, calls0: seq<Call>, events1: seq<PassEvent>, calls1: seq<Call>, stop: Stop)
    requires StopShown(w, events1, calls1, stop) && |events0| <= |events1| && |calls0| <= |calls1|
    ensures StopShown(w, events0, calls0, stop)
  {
  }

  lemma OneMoreEligible(plan: Plan, lane: Lane, rows: seq<RunRecord>, i: nat)
    requires IsEligible(plan, lane, rows, i)
    ensures Eligible(plan, lane, rows, i + 1) == Eligible(plan, lane, rows, i) + 1
  {
  }

  lemma IndicesGrow(run: seq<Entry>, run': seq<Entry>, i: nat)
    requires forall k :: 0 <= k < |run| ==> run[k].index < i
    requires run' == run || (|run'| == |run| + 1 && run'[..|run|] == run && run'[|run|].index == i)
    ensures forall k :: 0 <= k < |run'| ==> run'[k].index < i + 1
  {
    assert run' != run ==> forall k :: 0 <= k < |run| ==> run'[k] == run[k];
  }

  method VisitEligible(w: World, plan: Plan, limits: Circuit.Limits, lane: Lane, rows: seq<RunRecord>,
                       run: seq<Entry>, i: nat, cooling: bool,
                       ghost rows0: seq<RunRecord>, ghost events0: seq<PassEvent>, ghost calls0: seq<Call>)
    returns (run': seq<Entry>, stop: Stop)
    requires lane.mode != Off && |run| < lane.cap && IsEligible(plan, lane, rows, i)
    requires cooling == Cooling(plan, limits, lane, rows)
    requires LaneSoFar(w, plan, limits, lane, rows, rows0, events0, calls0, run, i, CarryOn)
    modifies w
    ensures LaneSoFar(w, plan, limits, lane, rows, rows0, events0, calls0, run', i + 1, stop)
  {
    ghost var events1, calls1, added, marks := w.events, w.calls, [], [];
    run', stop, added, marks := VisitItem(w, plan, limits, lane, rows, run, i, cooling);
    DidMore(w, rows0, RowsOfRun(run), added, events0, events1, MarksOfRun(lane, run), marks);
    StopStays(w, events0, calls0, events1, calls1, stop);
    OneMoreEligible(plan, lane, rows, i);
    IndicesGrow(run, run', i);
    if stop.CarryOn? { AccountNext(events1, w.events, |events0|, plan, limits, lane, rows, run, run', i); }
  }

  lemma LaneIsDone(events: seq<PassEvent>, from: nat, plan: Plan, limits: Circuit.Limits, lane: Lane, rows: seq<RunRecord>, run: seq<Entry>, i: nat)
    requires AccountedTo(events, from, plan, limits, lane, rows, run, i) && |run| <= lane.cap
    requires i <= |ItemsOf(plan, lane)| && (i == |ItemsOf(plan, lane)| || |run| == lane.cap)
    requires lane.mode == ShadowOnly ==> |run| == Eligible(plan, lane, rows, i)
    ensures LaneDone(events, from, plan, limits, lane, rows, run)
  {
    CountGrows((j: nat) => IsEligible(plan, lane, rows, j), i, |ItemsOf(plan, lane)|);
  }

  /** Every eligible candidate gets its own halt check until the cap is reached or the pass stops;
      in a shadow lane every one of them is shadowed, up to the cap. */
  method RunLane(w: World, plan: Plan, limits: Circuit.Limits, lane: Lane, owned: map<string, string>, rows: seq<RunRecord>)
    returns (run: seq<Entry>, stop: Stop, ghost seen: nat)
    requires w.Settled() && lane.mode != Off && Claims(plan, owned)
    modifies w
    ensures LegalRun(plan, limits, lane, rows, run)
    ensures Did(w, old(w.rows), old(w.events), RowsOfRun(run), MarksOfRun(lane, run))
    ensures |old(w.calls)| <= |w.calls| && StopShown(w, old(w.events), old(w.calls), stop)
    ensures stop.CarryOn? ==> seen <= |ItemsOf(plan, lane)| && (seen == |ItemsOf(plan, lane)| || |run| == lane.cap)
    ensures stop.CarryOn? ==> HaltChecks(w.events) == HaltChecks(old(w.events)) + Eligible(plan, lane, rows, seen)
    ensures stop.CarryOn? ==> LaneDone(w.events, |old(w.events)|, plan, limits, lane, rows, run)
  {
    run, stop, seen := VisitAll(w, plan, limits, lane, owned, rows);
    if stop.CarryOn? { LaneIsDone(w.events, |old(w.events)|, plan, limits, lane, rows, run, seen); }
  }

  method VisitAll(w: World, plan: Plan, limits: Circuit.Limits, lane: Lane, owned: map<string, string>, rows: seq<RunRecord>)
    returns (run: seq<Entry>, stop: Stop, ghost seen: nat)
    requires w.Settled() && lane.mode != Off && Claims(plan, owned)
    modifies w
    ensures seen <= |ItemsOf(plan, lane)|
    ensures stop.CarryOn? ==> seen == |ItemsOf(plan, lane)| || |run| >= lane.cap
    ensures LaneSoFar(w, plan, limits, lane, rows, old(w.rows), old(w.events), old(w.calls), run, seen, stop)
  {
    run, stop := [], CarryOn;
    var cooling := Cooling(plan, limits, lane, rows);
    var n, i := |ItemsOf(plan, lane)|, 0;
    ghost var rows0, events0, calls0 := w.rows, w.events, w.calls;
    LaneStarts(w, plan, limits, lane, rows);
    while i < n && |run| < lane.cap && stop.CarryOn?
      invariant 0 <= i <= n
      invariant LaneSoFar(w, plan, limits, lane, rows, rows0, events0, calls0, run, i, stop)
    {
      run, stop := VisitNext(w, plan, limits, lane, owned, rows, run, i, cooling, rows0, events0, calls0);
      i := i + 1;
    }
    seen := i;
  }

  // ---- The halt check ----

  /** What a pass's first events mean for it: it ends here, or it goes on after `next` events,
      having resumed the fleet itself at `resumed` or not. */
  datatype HaltStage = Stops(end: End, next: nat) | GoesOn(next: nat, resumed: Option<int>)

  /** None for events no pass begins with. A halt that never clears itself stops the pass at once;
      one that does is held against the clock, read once. */
  ghost function HaltStageOf(seen: seq<PassEvent>, parse: string -> Option<int>): Option<HaltStage> {
    if seen == [] then None
    else if seen[0] == CallThrew then Some(Stops(ErrorAbort, 1))
    else if !seen[0].HaltChecked? then None
    else if seen[0].reason.None? then Some(GoesOn(1, None))
    else if ClearsAt(seen[0].reason.value, parse).None? then Some(Stops(StayedHalted, 1))
    else if |seen| < 2 || !seen[1].ClockRead? then None
    else if seen[1].now < ClearsAt(seen[0].reason.value, parse).value then Some(Stops(StayedHalted, 2))
    else if |seen| < 3 then None
    else if seen[2] == CallThrew then Some(Stops(ErrorAbort, 3))
    else if seen[2].Resumed? then Some(GoesOn(3, Some(seen[2].at)))
    else None
  }

  lemma HaltStageOfPrefix(seen: seq<PassEvent>, more: seq<PassEvent>, parse: string -> Option<int>)
    requires HaltStageOf(seen, parse).Some?
    ensures HaltStageOf(seen + more, parse) == HaltStageOf(seen, parse)
  {
    assert forall i :: 0 <= i < |seen| ==> (seen + more)[i] == seen[i];
  }

  /** The breaker's own halt holds a pass whose clock reads earlier than the printed time, and only
      such a pass; any other goes on, having resumed, unless the resume threw. */
  lemma QuotaHaltStage(seen: seq<PassEvent>, engine: string, resumeAt: int, show: int -> string, parse: string -> Option<int>)
    requires RoundTrips(show, parse) && !Spoofs(engine)
    requires seen != [] && seen[0] == HaltChecked(Some(QuotaReason(engine, show(resumeAt)))) && HaltStageOf(seen, parse).Some?
    ensures |seen| >= 2 && seen[1].ClockRead?
    ensures var stage := HaltStageOf(seen, parse).value;
            && (stage == Stops(StayedHalted, 2) <==> seen[1].now < resumeAt)
            && (seen[1].now >= resumeAt ==>
                  |seen| >= 3 && if seen[2].Resumed? then stage == GoesOn(3, Some(seen[2].at)) else stage == Stops(ErrorAbort, 3))
  {
    QuotaHaltClearsAtItsTime(engine, resumeAt, show, parse);
  }

  /** It is the stage of the one halted state: the pass goes on exactly where the state machine
      does, leaving the same files. */
  lemma HaltStageIsDecide(s: HaltState.State, seen: seq<PassEvent>, now: int, at: int, parse: string -> Option<int>)
    requires seen != [] && seen[0].HaltChecked? && s.phase == HaltState.Read(seen[0].reason) && HaltStageOf(seen, parse).Some?
    requires |seen| > 1 && seen[1].ClockRead? ==> now == seen[1].now
    requires |seen| > 2 && seen[2].Resumed? ==> at == seen[2].at
    ensures var stage, s' := HaltStageOf(seen, parse).value, HaltState.Step(s, HaltState.Decide(now, at), parse);
            && (stage.GoesOn? ==> s'.phase.Checking? && s'.files == if stage.resumed.Some? then HaltState.Resume(stage.resumed.value) else s.files)
            && (stage.Stops? && stage.end.StayedHalted? ==> s'.phase.Idle? && s'.files == s.files)
  {
    if seen[0].reason.Some? {
      ClearedFromItsTimeOn(seen[0].reason.value, parse);
    }
  }

  /** Quiet events before what was done do not change what was done. */
  lemma DidAfterQuiet(w: World, rows0: seq<RunRecord>, events0: seq<PassEvent>, quiet: seq<PassEvent>, rows: seq<RunRecord>, marks: seq<PassEvent>)
    requires Quiet(quiet) && Did(w, rows0, events0 + quiet, rows, marks)
    ensures Did(w, rows0, events0, rows, marks)
  {
    QuietExtends(events0, quiet);
    PrefixTransitive(events0, events0 + quiet, w.events);
    GuardedExtends(events0 + quiet, w.events, |events0|);
  }

  lemma DidQuietly(w: World, rows0: seq<RunRecord>, events0: seq<PassEvent>, more: seq<PassEvent>)
    requires w.Settled() && w.rows == rows0 && w.events == events0 + more && Quiet(more)
    ensures Did(w, rows0, events0, [], [])
  {
    QuietExtends(events0, more);
    assert w.rows + [] == w.rows && Marks(events0) + [] == Marks(events0);
  }

  /** Stops here when the fleet is halted and the halt is not this pass's to clear. */
  method PassHalt(w: World, parse: string -> Option<int>) returns (end: Option<End>, ghost seen: seq<PassEvent>)
    requires w.Settled()
    modifies w`events, w`files
    ensures w.Settled() && w.events == old(w.events) + seen && Quiet(seen)
    ensures var stage := HaltStageOf(seen, parse);
            && stage.Some? && stage.value.next == |seen|
            && (if stage.value.Stops? then end == Some(stage.value.end) else end == None)
            && (stage.value.GoesOn? && stage.value.resumed.Some? ==> w.files == HaltState.Resume(stage.value.resumed.value))
    ensures end == Some(StayedHalted) ==> HaltState.Halted(w.files, true) == seen[0].reason
  {
    end := None;
    var ok, reason := w.ReadHalt();
    ghost var first := [if ok then HaltChecked(reason) else CallThrew];
    seen := first;
    if !ok {
      return Some(ErrorAbort), seen;
    }
    if reason.None? {
      return;
    }
    if ClearsAt(reason.value, parse).None? {
      return Some(StayedHalted), seen;
    }
    var now := w.ReadClock();
    seen := first + [ClockRead(now)];
    Associative(old(w.events), first, [ClockRead(now)]);
    if now < ClearsAt(reason.value, parse).value {
      return Some(StayedHalted), seen;
    }
    var at;
    ok, at := w.ResumeFleet();
    ghost var last := [if ok then Resumed(at) else CallThrew];
    Associative(old(w.events), seen, last);
    seen := seen + last;
    if !ok {
      end := Some(ErrorAbort);
    }
  }

  // ---- The breakers ----

  /** `b` is the breaker that stops a pass: rate before quota before failures. */
  ghost predicate Trips(rows: seq<RunRecord>, limits: Circuit.Limits, now: int, resumedAt: int, b: Breaker) {
    match b
    case RateTripped => Circuit.RateTrips(rows, limits, now)
    case QuotaTripped(halt) => !Circuit.RateTrips(rows, limits, now) && Circuit.IsQuotaHalt(rows, resumedAt, now, halt)
    case FailuresTripped =>
      && !Circuit.RateTrips(rows, limits, now) && !Circuit.QuotaTrips(rows, resumedAt)
      && Circuit.Streak(rows, resumedAt) >= limits.consecutiveFailuresToHalt
  }

  method TrippedBreaker(rows: seq<RunRecord>, limits: Circuit.Limits, now: int, resumedAt: int) returns (tripped: Option<Breaker>)
    ensures tripped.None? <==> BreakersClear(rows, limits, now, resumedAt)
    ensures tripped.Some? ==> Trips(rows, limits, now, resumedAt, tripped.value)
  {
    if Circuit.RateTrips(rows, limits, now) {
      return Some(RateTripped);
    }
    var quota := Circuit.QuotaBreaker(rows, resumedAt, now);
    if quota.Some? {
      return Some(QuotaTripped(quota.value));
    }
    var failures := Circuit.FailureBreaker(rows, limits, resumedAt);
    tripped := if failures then Some(FailuresTripped) else None;
  }

  /** When every row is as old as the resume, nothing but the rate can trip again. */
  lemma OnlyTheRateTripsAgain(rows: seq<RunRecord>, limits: Circuit.Limits, now: int, resumedAt: int, b: Breaker)
    requires limits.consecutiveFailuresToHalt > 0 && Trips(rows, limits, now, resumedAt, b)
    requires forall i :: 0 <= i < |rows| ==> rows[i].ts <= resumedAt
    ensures b == RateTripped
  {
    ClearAfterResume(rows, limits, now, resumedAt);
    assert !Circuit.RateTrips(rows, limits, now) ==> BreakersClear(rows, limits, now, resumedAt);
  }

  /** The reason a breaker writes; what the other two say after their prefix is left open. */
  ghost predicate ReasonOf(b: Breaker, show: int -> string, reason: string) {
    match b
    case RateTripped => RATE_PREFIX <= reason
    case QuotaTripped(halt) => reason == QuotaReason(halt.engine, show(halt.resumeAt))
    case FailuresTripped => FAILURE_PREFIX <= reason
  }

  /** The last events of a pass some breaker stopped, and the halt it leaves. */
  ghost predicate Tripped(rows: seq<RunRecord>, limits: Circuit.Limits, now: int, resumedAt: int, show: int -> string,
                          end: End, more: seq<PassEvent>, after: HaltState.Files) {
    |more| == 1 &&
    match more[0]
    case BreakerTripped(b) =>
      && end == BreakerAbort(b) && Trips(rows, limits, now, resumedAt, b)
      && after.halted && after.reason.Some? && ReasonOf(b, show, after.reason.value) && after.resumedAt == resumedAt
    case CallThrew => end == ErrorAbort
    case _ => false
  }

  /** A tripped breaker writes the halt files itself, and ends the pass. */
  method CheckBreakers(w: World, rows: seq<RunRecord>, limits: Circuit.Limits, now: int, resumedAt: int, show: int -> string)
    returns (end: Option<End>, ghost more: seq<PassEvent>)
    requires w.Settled() && w.files.resumedAt == resumedAt
    modifies w`events, w`files
    ensures w.Settled() && w.events == old(w.events) + more && Quiet(more)
    ensures end.None? <==> BreakersClear(rows, limits, now, resumedAt)
    ensures end.None? ==> more == [] && w.files == old(w.files)
    ensures end.Some? ==> Tripped(rows, limits, now, resumedAt, show, end.value, more, w.files)
  {
    assert w.events + [] == w.events;
    end, more := None, [];
    var tripped := TrippedBreaker(rows, limits, now, resumedAt);
    if tripped.None? {
      return;
    }
    var detail: string := *;
    var why := match tripped.value
      case RateTripped => RATE_PREFIX + detail
      case QuotaTripped(halt) => QuotaReason(halt.engine, show(halt.resumeAt))
      case FailuresTripped => FAILURE_PREFIX + detail;
    assert ReasonOf(tripped.value, show, why);
    var ok := w.WriteHalt(why);
    if !ok {
      return Some(ErrorAbort), [CallThrew];
    }
    w.events := w.events + [BreakerTripped(tripped.value)];
    end, more := Some(BreakerAbort(tripped.value)), [BreakerTripped(tripped.value)];
  }

  // ---- Selection ----

  /** The cache holds exactly what was read, and nothing was read twice. */
  ghost predicate CacheRead(labels: map<string, Option<seq<string>>>, seen: seq<PassEvent>) {
    && (forall id, l :: LabelsRead(id, l) in seen <==> id in labels && labels[id] == l)
    && (forall j, k :: 0 <= j < k < |seen| && seen[j].LabelsRead? && seen[k].LabelsRead? ==> seen[j].itemId != seen[k].itemId)
  }

  lemma CacheReadMore(labels: map<string, Option<seq<string>>>, seen: seq<PassEvent>, e: PassEvent)
    requires CacheRead(labels, seen) && (e.LabelsRead? ==> e.itemId !in labels)
    ensures CacheRead(if e.LabelsRead? then labels[e.itemId := e.labels] else labels, seen + [e])
  {
    forall j | 0 <= j < |seen| && seen[j].LabelsRead? && e.LabelsRead? ensures seen[j].itemId != e.itemId {
      assert LabelsRead(seen[j].itemId, seen[j].labels) in seen;
    }
  }

  /** Fills the cache for every item of a listing and never overwrites an entry. */
  method ReadAllLabels(w: World, items: seq<WorkItem>, cache: map<string, Option<seq<string>>>, ghost before: seq<PassEvent>, ghost seen0: seq<PassEvent>)
    returns (ok: bool, labels: map<string, Option<seq<string>>>, ghost seen: seq<PassEvent>)
    requires w.events == before + seen0 && OnlyReads(seen0) && CacheRead(cache, seen0)
    modifies w`events
    ensures w.events == before + seen && OnlyReads(seen) && CacheRead(labels, seen)
    ensures ok ==> forall i :: 0 <= i < |items| ==> items[i].id in labels
    ensures seen0 <= seen && forall id :: id in cache ==> id in labels && labels[id] == cache[id]
    ensures !ok ==> seen != [] && seen[|seen| - 1] == CallThrew
  {
    ok, labels, seen := true, cache, seen0;
    var i := 0;
    while i < |items|
      invariant 0 <= i <= |items| && ok
      invariant w.events == before + seen && OnlyReads(seen) && CacheRead(labels, seen) && seen0 <= seen
      invariant forall k :: 0 <= k < i ==> items[k].id in labels
      invariant forall id :: id in cache ==> id in labels && labels[id] == cache[id]
    {
      if items[i].id !in labels {
        var answer;
        ok, answer := w.ReadLabels(items[i].id);
        ghost var e := if ok then LabelsRead(items[i].id, answer) else CallThrew;
        Associative(before, seen, [e]);
        CacheReadMore(labels, seen, e);
        seen := seen + [e];
        if !ok {
          return;
        }
        labels := labels[items[i].id := answer];
      }
      i := i + 1;
    }
  }

  /** Each lane's items are its candidates among its one listing, judged by the labels of the cache. */
  ghost predicate SelectedFrom(active: seq<Lane>, items: map<string, seq<WorkItem>>, listings: map<string, seq<WorkItem>>,
                               labels: map<string, Option<seq<string>>>) {
    forall id :: id in items ==> id in listings && SelectedBy(active, id, items[id], listings[id], labels)
  }

  ghost predicate SelectedBy(active: seq<Lane>, id: string, chosen: seq<WorkItem>, listing: seq<WorkItem>,
                             labels: map<string, Option<seq<string>>>) {
    && (forall i :: 0 <= i < |listing| ==> listing[i].id in labels)
    && exists lane :: lane in active && lane.id == id && chosen == Candidates(listing, labels, lane)
  }

  /** Later reads of other items do not change what was selected. */
  lemma {:induction false} CandidatesAgree(listing: seq<WorkItem>, labels: map<string, Option<seq<string>>>,
                                           more: map<string, Option<seq<string>>>, lane: Lane)
    requires forall i :: 0 <= i < |listing| ==> listing[i].id in labels && listing[i].id in more && more[listing[i].id] == labels[listing[i].id]
    ensures Candidates(listing, more, lane) == Candidates(listing, labels, lane)
  {
    if listing != [] { CandidatesAgree(listing[..|listing| - 1], labels, more, lane); }
  }

  lemma SelectionStands(active: seq<Lane>, items: map<string, seq<WorkItem>>, listings: map<string, seq<WorkItem>>,
                        labels: map<string, Option<seq<string>>>, more: map<string, Option<seq<string>>>)
    requires SelectedFrom(active, items, listings, labels)
    requires forall id :: id in labels ==> id in more && more[id] == labels[id]
    ensures SelectedFrom(active, items, listings, more)
  {
    forall id | id in items ensures SelectedBy(active, id, items[id], listings[id], more) {
      assert SelectedBy(active, id, items[id], listings[id], labels);
      var lane :| lane in active && lane.id == id && items[id] == Candidates(listings[id], labels, lane);
      CandidatesAgree(listings[id], labels, more, lane);
    }
  }

  /** Every listing used was read in this pass. */
  ghost predicate ListingsRead(listings: map<string, seq<WorkItem>>, seen: seq<PassEvent>) {
    forall id :: id in listings ==> Listed(id, Some(listings[id])) in seen
  }

  /** What an end before the first candidate shows: the source unreadable, or a throw. */
  ghost predicate SelectEnd(end: Option<End>, seen: seq<PassEvent>) {
    end.Some? ==>
      && seen != []
      && (if end == Some(SourceUnreadable) then seen[|seen| - 1].Listed? && seen[|seen| - 1].items.None?
          else end == Some(ErrorAbort) && seen[|seen| - 1] == CallThrew)
  }

  /** One lane: list, read the labels not read yet, judge. */
  method SelectLane(w: World, active: seq<Lane>, lane: Lane, items: map<string, seq<WorkItem>>, cache: map<string, Option<seq<string>>>,
                    ghost listings: map<string, seq<WorkItem>>, ghost before: seq<PassEvent>, ghost seen0: seq<PassEvent>)
    returns (end: Option<End>, items': map<string, seq<WorkItem>>, labels: map<string, Option<seq<string>>>,
             ghost listings': map<string, seq<WorkItem>>, ghost seen: seq<PassEvent>)
    requires lane in active && w.events == before + seen0 && OnlyReads(seen0) && CacheRead(cache, seen0)
    requires SelectedFrom(active, items, listings, cache) && ListingsRead(listings, seen0)
    modifies w`events
    ensures w.events == before + seen && OnlyReads(seen) && CacheRead(labels, seen)
    ensures SelectedFrom(active, items', listings', labels) && ListingsRead(listings', seen)
    ensures SelectEnd(end, seen) && (end.None? ==> items'.Keys == items.Keys + {lane.id})
  {
    end, items', labels, listings', seen := None, items, cache, listings, seen0;
    var ok, listing := w.ListItems(lane.id);
    ghost var e := if ok then Listed(lane.id, listing) else CallThrew;
    assert forall x :: x in seen ==> x in seen + [e];
    Associative(before, seen, [e]);
    CacheReadMore(cache, seen, e);
    seen := seen + [e];
    if !ok || listing.None? {
      end := Some(if ok then SourceUnreadable else ErrorAbort);
      return;
    }
    assert e in seen;
    ghost var seen1 := seen;
    assert ListingsRead(listings, seen1);
    ok, labels, seen := ReadAllLabels(w, listing.value, cache, before, seen1);
    SelectionStands(active, items, listings, cache, labels);
    if !ok {
      end := Some(ErrorAbort);
      return;
    }
    var candidates, rejections := SelectForLane(listing.value, labels, lane);
    assert SelectedBy(active, lane.id, candidates, listing.value, labels);
    items' := items[lane.id := candidates];
    listings' := listings[lane.id := listing.value];
  }

  method SelectAll(w: World, active: seq<Lane>)
    returns (end: Option<End>, items: map<string, seq<WorkItem>>, labels: map<string, Option<seq<string>>>,
             ghost listings: map<string, seq<WorkItem>>, ghost seen: seq<PassEvent>)
    modifies w`events
    ensures w.events == old(w.events) + seen && OnlyReads(seen) && CacheRead(labels, seen)
    ensures SelectedFrom(active, items, listings, labels) && ListingsRead(listings, seen)
    ensures SelectEnd(end, seen) && (end.None? ==> forall lane :: lane in active ==> lane.id in items)
  {
    end, items, labels, listings, seen := None, map[], map[], map[], [];
    assert w.events + [] == w.events;
    var i := 0;
    while i < |active|
      invariant 0 <= i <= |active|
      invariant w.events == old(w.events) + seen && OnlyReads(seen) && CacheRead(labels, seen)
      invariant SelectedFrom(active, items, listings, labels) && ListingsRead(listings, seen)
      invariant end.None? && forall k :: 0 <= k < i ==> active[k].id in items
    {
      end, items, labels, listings, seen := SelectLane(w, active, active[i], items, labels, listings, old(w.events), seen);
      if end.Some? {
        return;
      }
      i := i + 1;
    }
  }

  /** With lane ids and listings free of duplicates, the pass works on duplicate-free lists. */
  lemma ListingsMakeWellListed(plan: Plan, listings: map<string, seq<WorkItem>>, labels: map<string, Option<seq<string>>>)
    requires DistinctLanes(plan.active) && SelectedFrom(plan.active, plan.items, listings, labels)
    requires forall id :: id in listings ==> DistinctItems(listings[id])
    ensures WellListed(plan)
  {
    forall lane | lane in plan.active ensures DistinctItems(ItemsOf(plan, lane)) {
      if lane.id in plan.items {
        assert SelectedBy(plan.active, lane.id, plan.items[lane.id], listings[lane.id], labels);
        var chooser :| chooser in plan.active && chooser.id == lane.id && plan.items[lane.id] == Candidates(listings[lane.id], labels, chooser);
        CandidatesStayDistinct(listings[lane.id], labels, chooser);
      }
    }
  }

  // ---- The pass ----

  function Active(lanes: seq<Lane>): (active: seq<Lane>)
    ensures forall lane :: lane in active <==> lane in lanes && lane.mode != Off
  {
    if lanes == [] then []
    else
      assert lanes == lanes[..|lanes| - 1] + [lanes[|lanes| - 1]];
      Active(lanes[..|lanes| - 1]) + if lanes[|lanes| - 1].mode != Off then [lanes[|lanes| - 1]] else []
  }

  lemma RunsSnoc(plan: Plan, limits: Circuit.Limits, rows: seq<RunRecord>, runs: seq<seq<Entry>>, run: seq<Entry>)
    requires BreakersClear(rows, limits, plan.now, plan.resumedAt) && LegalPass(limits, rows, Pass(plan, runs))
    requires |runs| < |plan.active| && LegalRun(plan, limits, plan.active[|runs|], rows, run)
    ensures LegalPass(limits, rows, Pass(plan, runs + [run]))
    ensures RowsOfRuns(runs + [run]) == RowsOfRuns(runs) + RowsOfRun(run)
    ensures MarksOfRuns(plan.active, runs + [run]) == MarksOfRuns(plan.active, runs) + MarksOfRun(plan.active[|runs|], run)
  {
    RunsSnocRows(plan.active, runs, run);
    LegalRunsSnoc(plan, limits, rows, runs, run);
  }

  lemma LegalRunsSnoc(plan: Plan, limits: Circuit.Limits, rows: seq<RunRecord>, runs: seq<seq<Entry>>, run: seq<Entry>)
    requires LegalRuns(plan, limits, rows, runs)
    requires |runs| < |plan.active| && LegalRun(plan, limits, plan.active[|runs|], rows, run)
    ensures LegalRuns(plan, limits, rows, runs + [run])
  {
    var longer := runs + [run];
    forall i | 0 <= i < |longer| ensures LegalRun(plan, limits, plan.active[i], rows, longer[i]) {
      if i < |runs| { assert longer[i] == runs[i]; }
    }
  }

  lemma RunsSnocRows(active: seq<Lane>, runs: seq<seq<Entry>>, run: seq<Entry>)
    requires |runs| < |active|
    ensures RowsOfRuns(runs + [run]) == RowsOfRuns(runs) + RowsOfRun(run)
    ensures MarksOfRuns(active, runs + [run]) == MarksOfRuns(active, runs) + MarksOfRun(active[|runs|], run)
  {
    InitOfSnoc(runs, run);
  }

  /** Every lane has run, a shadow lane to the end of its candidates or its cap. */
  ghost predicate AllDone(events: seq<PassEvent>, from: nat, plan: Plan, limits: Circuit.Limits, rows: seq<RunRecord>, runs: seq<seq<Entry>>) {
    |runs| == |plan.active| && LanesDone(events, from, plan, limits, rows, runs)
  }

  ghost predicate LanesDone(events: seq<PassEvent>, from: nat, plan: Plan, limits: Circuit.Limits, rows: seq<RunRecord>, runs: seq<seq<Entry>>)
    requires |runs| <= |plan.active|
  {
    forall i :: 0 <= i < |runs| ==> LaneDone(events, from, plan, limits, plan.active[i], rows, runs[i])
  }

  lemma LaneStaysDone(events: seq<PassEvent>, later: seq<PassEvent>, from: nat, from': nat, plan: Plan, limits: Circuit.Limits, lane: Lane,
                      rows: seq<RunRecord>, run: seq<Entry>)
    requires LaneDone(events, from, plan, limits, lane, rows, run) && events <= later && from' <= from
    ensures LaneDone(later, from', plan, limits, lane, rows, run)
  {
    if |run| != lane.cap {
      var n := |ItemsOf(plan, lane)|;
      AccountsStand(events, later, from, plan, limits, lane, rows, run, run, n);
      forall j | 0 <= j < n ensures Accounted(later, from', plan, limits, lane, rows, run, j) {
        assert Accounted(later, from, plan, limits, lane, rows, run, j);
        if IsEligible(plan, lane, rows, j) && !InRun(run, j) {
          EarlierFrom(later, from, from', lane, ItemsOf(plan, lane)[j], Cooling(plan, limits, lane, rows));
        }
      }
    }
  }

  lemma EarlierFrom(events: seq<PassEvent>, from: nat, from': nat, lane: Lane, item: WorkItem, cooling: bool)
    requires ExcusedIn(events, from, lane, item, cooling) && from' <= from
    ensures ExcusedIn(events, from', lane, item, cooling)
  {
  }

  /** One lane more. */
  lemma LanesDoneSnoc(events: seq<PassEvent>, later: seq<PassEvent>, from: nat, plan: Plan, limits: Circuit.Limits, rows: seq<RunRecord>,
                      runs: seq<seq<Entry>>, run: seq<Entry>)
    requires |runs| < |plan.active| && LanesDone(events, from, plan, limits, rows, runs) && events <= later && from <= |events|
    requires LaneDone(later, |events|, plan, limits, plan.active[|runs|], rows, run)
    ensures LanesDone(later, from, plan, limits, rows, runs + [run])
  {
    var longer := runs + [run];
    forall i | 0 <= i < |longer| ensures LaneDone(later, from, plan, limits, plan.active[i], rows, longer[i]) {
      if i < |runs| {
        assert longer[i] == runs[i];
        LaneStaysDone(events, later, from, from, plan, limits, plan.active[i], rows, runs[i]);
      } else {
        LaneStaysDone(later, later, |events|, from, plan, limits, plan.active[i], rows, run);
      }
    }
  }

  lemma AllStayDone(events: seq<PassEvent>, from: nat, from': nat, plan: Plan, limits: Circuit.Limits, rows: seq<RunRecord>, runs: seq<seq<Entry>>)
    requires AllDone(events, from, plan, limits, rows, runs) && from' <= from
    ensures AllDone(events, from', plan, limits, rows, runs)
  {
    forall i | 0 <= i < |runs| ensures LaneDone(events, from', plan, limits, plan.active[i], rows, runs[i]) {
      LaneStaysDone(events, events, from, from', plan, limits, plan.active[i], rows, runs[i]);
    }
  }

  /** Why a pass past its breakers ended, and what its last event or call shows for it. */
  ghost predicate BodyEnd(w: World, events0: seq<PassEvent>, calls0: seq<Call>, limits: Circuit.Limits, rows: seq<RunRecord>, end: End, p: Pass)
    reads w
  {
    match end
    case Finished => AllDone(w.events, |events0|, p.plan, limits, rows, p.runs)
    case HaltedMidPass(reason) => StopShown(w, events0, calls0, StopHalted(reason))
    case ErrorAbort => Broke(w, events0, calls0)
    case SourceUnreadable =>
      p.runs == [] && |w.events| > |events0| && w.events[|w.events| - 1].Listed? && w.events[|w.events| - 1].items.None?
    case _ => false
  }

  /** The lanes before the `i`-th have run. */
  ghost predicate LanesSoFar(w: World, plan: Plan, limits: Circuit.Limits, rows: seq<RunRecord>, rows0: seq<RunRecord>,
                             events0: seq<PassEvent>, calls0: seq<Call>, runs: seq<seq<Entry>>, stop: Stop)
    reads w
  {
    && LegalPass(limits, rows, Pass(plan, runs)) && |runs| <= |plan.active|
    && Did(w, rows0, events0, RowsOfRuns(runs), MarksOfRuns(plan.active, runs))
    && |calls0| <= |w.calls| && StopShown(w, events0, calls0, stop)
    && (stop.CarryOn? ==> LanesDone(w.events, |events0|, plan, limits, rows, runs))
  }

  method RunNextLane(w: World, plan: Plan, limits: Circuit.Limits, rows: seq<RunRecord>, owned: map<string, string>, runs: seq<seq<Entry>>,
                     ghost rows0: seq<RunRecord>, ghost events0: seq<PassEvent>, ghost calls0: seq<Call>)
    returns (runs': seq<seq<Entry>>, stop: Stop)
    requires BreakersClear(rows, limits, plan.now, plan.resumedAt) && Claims(plan, owned) && |runs| < |plan.active|
    requires plan.active[|runs|].mode != Off
    requires LanesSoFar(w, plan, limits, rows, rows0, events0, calls0, runs, CarryOn)
    modifies w
    ensures |runs'| == |runs| + 1 && LanesSoFar(w, plan, limits, rows, rows0, events0, calls0, runs', stop)
  {
    ghost var events1 := w.events;
    var lane := plan.active[|runs|];
    var run, more, seen := RunLane(w, plan, limits, lane, owned, rows);
    DidMore(w, rows0, RowsOfRuns(runs), RowsOfRun(run), events0, events1, MarksOfRuns(plan.active, runs), MarksOfRun(lane, run));
    RunsSnoc(plan, limits, rows, runs, run);
    if more.CarryOn? { LanesDoneSnoc(events1, w.events, |events0|, plan, limits, rows, runs, run); }
    runs', stop := runs + [run], more;
  }

  /** The lanes in order, each after the ones before it. */
  method RunLanes(w: World, plan: Plan, limits: Circuit.Limits, rows: seq<RunRecord>) returns (end: End, runs: seq<seq<Entry>>)
    requires w.Settled() && BreakersClear(rows, limits, plan.now, plan.resumedAt)
    requires forall i :: 0 <= i < |plan.active| ==> plan.active[i].mode != Off
    modifies w
    ensures LegalPass(limits, rows, Pass(plan, runs))
    ensures Did(w, old(w.rows), old(w.events), RowsOfRuns(runs), MarksOfRuns(plan.active, runs))
    ensures |old(w.calls)| <= |w.calls| && !end.SourceUnreadable? && BodyEnd(w, old(w.events), old(w.calls), limits, rows, end, Pass(plan, runs))
  {
    runs := [];
    NothingDone(w);
    var owned := ClaimAcrossLanes(plan.active, plan.items);
    var stop := CarryOn;
    while |runs| < |plan.active| && stop.CarryOn?
      invariant LanesSoFar(w, plan, limits, rows, old(w.rows), old(w.events), old(w.calls), runs, stop)
      decreases |plan.active| - |runs|
    {
      runs, stop := RunNextLane(w, plan, limits, rows, owned, runs, old(w.rows), old(w.events), old(w.calls));
    }
    end := match stop
      case CarryOn => Finished
      case StopHalted(reason) => HaltedMidPass(reason)
      case StopThrew => ErrorAbort;
  }

  /** What a pass read before its first candidate: halt, clock and breakers; then listings and labels. */
  datatype Account = Account(opening: seq<PassEvent>, stopped: Option<End>, selecting: seq<PassEvent>,
                             listings: map<string, seq<WorkItem>>, labels: map<string, Option<seq<string>>>)

  /** What was selected rests on what was read while selecting, in this pass. */
  ghost predicate SelectionShown(plan: Plan, acc: Account) {
    && SelectedFrom(plan.active, plan.items, acc.listings, acc.labels)
    && ListingsRead(acc.listings, acc.selecting) && CacheRead(acc.labels, acc.selecting)
  }

  /** Everything after the halt check and the breakers: select, claim, run the lanes. */
  method PassBody(w: World, lanes: seq<Lane>, limits: Circuit.Limits, rows: seq<RunRecord>, now: int, resumedAt: int, ghost acc0: Account)
    returns (end: End, p: Pass, ghost acc: Account)
    requires w.Settled() && BreakersClear(rows, limits, now, resumedAt)
    modifies w
    ensures LegalPass(limits, rows, p) && p.plan.active == Active(lanes) && p.plan.now == now && p.plan.resumedAt == resumedAt
    ensures Did(w, old(w.rows), old(w.events), RowsOfRuns(p.runs), MarksOfRuns(p.plan.active, p.runs))
    ensures acc == acc0.(selecting := acc.selecting, listings := acc.listings, labels := acc.labels) && SelectionShown(p.plan, acc)
    ensures old(w.events) + acc.selecting <= w.events
    ensures BodyEnd(w, old(w.events), old(w.calls), limits, rows, end, p)
  {
    var active := Active(lanes);
    assert forall i :: 0 <= i < |active| ==> active[i] in active;
    ghost var listings, seen;
    var stopped, items, labels;
    stopped, items, labels, listings, seen := SelectAll(w, active);
    acc := acc0.(selecting := seen, listings := listings, labels := labels);
    p := Pass(Plan(now, resumedAt, active, items), []);
    if stopped.Some? {
      end := stopped.value;
      DidQuietly(w, old(w.rows), old(w.events), seen);
      assert w.events[|w.events| - 1] == seen[|seen| - 1];
      return;
    }
    var runs;
    end, runs := RunLanes(w, p.plan, limits, rows);
    DidAfterQuiet(w, old(w.rows), old(w.events), seen, RowsOfRuns(runs), MarksOfRuns(active, runs));
    BodyEndLater(w, old(w.events), seen, old(w.calls), limits, rows, end, Pass(p.plan, runs));
    p := Pass(p.plan, runs);
  }

  lemma BodyEndLater(w: World, events0: seq<PassEvent>, more: seq<PassEvent>, calls0: seq<Call>, limits: Circuit.Limits, rows: seq<RunRecord>, end: End, p: Pass)
    requires BodyEnd(w, events0 + more, calls0, limits, rows, end, p)
    ensures BodyEnd(w, events0, calls0, limits, rows, end, p)
  {
    if end.Finished? { AllStayDone(w.events, |events0 + more|, |events0|, p.plan, limits, rows, p.runs); }
  }

  /** What a pass's first events show for its going on, or for its end. */
  ghost predicate OpeningShown(seen: seq<PassEvent>, parse: string -> Option<int>, show: int -> string, limits: Circuit.Limits,
                               rows: seq<RunRecord>, end: Option<End>, now: int, resumedAt: int, files: HaltState.Files) {
    var stage := HaltStageOf(seen, parse);
    stage.Some? &&
    match stage.value
    case Stops(e, next) => end == Some(e) && |seen| == next && (e.StayedHalted? ==> HaltState.Halted(files, true) == seen[0].reason)
    case GoesOn(k, resumed) => |seen| > k && BreakersShown(seen[k..], resumed, show, limits, rows, end, now, resumedAt, files)
  }

  /** The clock, the last resume (this pass's own, if it resumed), and what the breakers made of them. */
  ghost predicate BreakersShown(seen: seq<PassEvent>, resumed: Option<int>, show: int -> string, limits: Circuit.Limits,
                                rows: seq<RunRecord>, end: Option<End>, now: int, resumedAt: int, files: HaltState.Files)
    requires seen != []
  {
    if seen[|seen| - 1] == CallThrew && |seen| < 3 then end == Some(ErrorAbort)
    else
      && |seen| >= 2 && seen[0] == ClockRead(now) && seen[1] == ResumedAtRead(resumedAt)
      && (resumed.Some? ==> resumedAt == resumed.value)
      && (if BreakersClear(rows, limits, now, resumedAt) then end == None && |seen| == 2
          else end.Some? && Tripped(rows, limits, now, resumedAt, show, end.value, seen[2..], files))
  }

  /** A pass that resumed the fleet itself and finds only rows as old as that can be stopped again
      by nothing but the rate. */
  lemma ResumedPassTripsOnlyOnRate(seen: seq<PassEvent>, parse: string -> Option<int>, show: int -> string, limits: Circuit.Limits,
                                   rows: seq<RunRecord>, end: Option<End>, now: int, resumedAt: int, files: HaltState.Files, at: int)
    requires OpeningShown(seen, parse, show, limits, rows, end, now, resumedAt, files)
    requires |seen| > 2 && seen[0].HaltChecked? && seen[0].reason.Some? && seen[2] == Resumed(at)
    requires limits.consecutiveFailuresToHalt > 0 && forall i :: 0 <= i < |rows| ==> rows[i].ts <= at
    ensures end == None || end == Some(ErrorAbort) || end == Some(BreakerAbort(RateTripped))
  {
    var more := seen[3..];
    if end.Some? && end.value.BreakerAbort? {
      assert BreakersShown(more, Some(at), show, limits, rows, end, now, resumedAt, files);
      OnlyTheRateTripsAgain(rows, limits, now, resumedAt, end.value.breaker);
    }
  }

  /** The quota halt from one pass to a later one. The pass that trips leaves the printed time in
      the halt files; as long as nobody else touches them, a pass whose clock reads earlier stays
      halted, and one whose clock does not resumes the fleet (or throws trying), and is not stopped
      again over rows as old as that. */
  lemma QuotaHaltFromPassToPass(first: seq<PassEvent>, rows1: seq<RunRecord>, now1: int, resumedAt1: int, files: HaltState.Files, halt: Circuit.QuotaHalt,
                                later: seq<PassEvent>, rows2: seq<RunRecord>, end: Option<End>, now2: int, resumedAt2: int, files2: HaltState.Files,
                                issueSeen: bool, limits: Circuit.Limits, parse: string -> Option<int>, show: int -> string)
    requires RoundTrips(show, parse) && !Spoofs(halt.engine)
    requires OpeningShown(first, parse, show, limits, rows1, Some(BreakerAbort(QuotaTripped(halt))), now1, resumedAt1, files)
    requires OpeningShown(later, parse, show, limits, rows2, end, now2, resumedAt2, files2)
    requires later != [] && later[0] == HaltChecked(HaltState.Halted(files, issueSeen))
    ensures Circuit.IsQuotaHalt(rows1, resumedAt1, now1, halt) && files.reason == Some(QuotaReason(halt.engine, show(halt.resumeAt)))
    ensures |later| >= 2 && later[1].ClockRead?
    ensures end == Some(StayedHalted) <==> later[1].now < halt.resumeAt
    ensures later[1].now >= halt.resumeAt ==> |later| >= 3 && if later[2].Resumed? then true else end == Some(ErrorAbort)
    ensures later[1].now >= halt.resumeAt && later[2].Resumed? && limits.consecutiveFailuresToHalt > 0 &&
            (forall i :: 0 <= i < |rows2| ==> rows2[i].ts <= later[2].at) ==>
              end == None || end == Some(ErrorAbort) || end == Some(BreakerAbort(RateTripped))
  {
    TrippedOpening(first, rows1, now1, resumedAt1, files, QuotaTripped(halt), limits, parse, show);
    QuotaHaltStage(later, halt.engine, halt.resumeAt, show, parse);
    if later[1].now >= halt.resumeAt && later[2].Resumed? && limits.consecutiveFailuresToHalt > 0 &&
       (forall i :: 0 <= i < |rows2| ==> rows2[i].ts <= later[2].at)
    {
      ResumedPassTripsOnlyOnRate(later, parse, show, limits, rows2, end, now2, resumedAt2, files2, later[2].at);
    }
  }

  lemma TrippedOpening(seen: seq<PassEvent>, rows: seq<RunRecord>, now: int, resumedAt: int, files: HaltState.Files, b: Breaker,
                       limits: Circuit.Limits, parse: string -> Option<int>, show: int -> string)
    requires OpeningShown(seen, parse, show, limits, rows, Some(BreakerAbort(b)), now, resumedAt, files)
    ensures Trips(rows, limits, now, resumedAt, b)
    ensures files.halted && files.reason.Some? && ReasonOf(b, show, files.reason.value) && files.resumedAt == resumedAt
  {
    var stage := HaltStageOf(seen, parse).value;
    assert stage.GoesOn?;
    var more := seen[stage.next..];
    assert BreakersShown(more, stage.resumed, show, limits, rows, Some(BreakerAbort(b)), now, resumedAt, files);
  }

  method Breakers(w: World, limits: Circuit.Limits, show: int -> string, ghost resumed: Option<int>)
    returns (end: Option<End>, rows: seq<RunRecord>, now: int, resumedAt: int, ghost seen: seq<PassEvent>)
    requires w.Settled() && (resumed.Some? ==> w.files.resumedAt == resumed.value)
    modifies w`events, w`files
    ensures w.Settled() && w.events == old(w.events) + seen && seen != [] && Quiet(seen) && rows == w.rows
    ensures BreakersShown(seen, resumed, show, limits, rows, end, now, resumedAt, w.files)
    ensures end.None? ==> BreakersClear(rows, limits, now, resumedAt)
  {
    end, now, resumedAt, seen := Some(ErrorAbort), 0, 0, [CallThrew];
    var ok;
    ok, rows := w.ReadLedger();
    if !ok {
      return;
    }
    ok, now, resumedAt, seen := ReadTimes(w);
    if !ok {
      return;
    }
    ghost var more;
    end, more := CheckBreakers(w, rows, limits, now, resumedAt, show);
    Associative(old(w.events), seen, more);
    BreakersShownTogether(now, resumedAt, more);
    seen := seen + more;
  }

  lemma BreakersShownTogether(now: int, resumedAt: int, more: seq<PassEvent>)
    ensures Quiet(more) ==> Quiet([ClockRead(now), ResumedAtRead(resumedAt)] + more)
    ensures var seen := [ClockRead(now), ResumedAtRead(resumedAt)] + more;
            seen[2..] == more && seen[0] == ClockRead(now) && seen[1] == ResumedAtRead(resumedAt) && (more == [] ==> |seen| == 2)
  {
  }

  /** This pass's clock reading and the time of the last resume. */
  method ReadTimes(w: World) returns (ok: bool, now: int, resumedAt: int, ghost seen: seq<PassEvent>)
    modifies w`events
    ensures w.events == old(w.events) + seen && Quiet(seen)
    ensures seen == [ClockRead(now), if ok then ResumedAtRead(resumedAt) else CallThrew]
    ensures ok ==> resumedAt == w.files.resumedAt
  {
    now := w.ReadClock();
    ok, resumedAt := w.ReadResumedAt();
    seen := [ClockRead(now)] + [if ok then ResumedAtRead(resumedAt) else CallThrew];
    Associative(old(w.events), [ClockRead(now)], [if ok then ResumedAtRead(resumedAt) else CallThrew]);
  }

  /** Halt check and breakers. */
  method Opening(w: World, limits: Circuit.Limits, parse: string -> Option<int>, show: int -> string)
    returns (end: Option<End>, rows: seq<RunRecord>, now: int, resumedAt: int, ghost seen: seq<PassEvent>)
    requires w.Settled()
    modifies w`events, w`files
    ensures w.Settled() && w.events == old(w.events) + seen && Quiet(seen) && rows == w.rows
    ensures OpeningShown(seen, parse, show, limits, rows, end, now, resumedAt, w.files)
    ensures end.None? ==> BreakersClear(rows, limits, now, resumedAt)
  {
    rows, now, resumedAt := w.rows, 0, 0;
    end, seen := PassHalt(w, parse);
    if end.Some? {
      return;
    }
    ghost var first, more := seen, [];
    end, rows, now, resumedAt, more := Breakers(w, limits, show, HaltStageOf(first, parse).value.resumed);
    HaltStageOfPrefix(first, more, parse);
    Associative(old(w.events), first, more);
    assert (first + more)[|first|..] == more;
    seen := first + more;
  }

  /** A whole pass, the lock held. Whatever halts, breakers, sources and dependencies do, the rows it
      appends are those of one legal pass over the ledger it read, its dispatches and shadows are
      exactly the pass's entries in order, and each was let through by its own fresh checks. Its
      first events say why it went on or stopped, its last one how it ended. */
  method RunHeld(w: World, lanes: seq<Lane>, limits: Circuit.Limits, parse: string -> Option<int>, show: int -> string)
    returns (end: End, p: Pass, ghost acc: Account)
    requires w.Settled()
    modifies w
    ensures LegalPass(limits, old(w.rows), p)
    ensures Did(w, old(w.rows), old(w.events), RowsOfRuns(p.runs), MarksOfRuns(p.plan.active, p.runs))
    ensures PassShown(w, lanes, limits, parse, show, old(w.rows), old(w.events), old(w.calls), end, p, acc)
  {
    var stopped, rows, now, resumedAt;
    ghost var opening;
    stopped, rows, now, resumedAt, opening := Opening(w, limits, parse, show);
    acc := Account(opening, stopped, [], map[], map[]);
    p := Pass(Plan(now, resumedAt, [], map[]), []);
    if stopped.Some? {
      end := stopped.value;
      DidQuietly(w, old(w.rows), old(w.events), opening);
      assert old(w.events) + opening + [] == old(w.events) + opening;
      return;
    }
    end, p, acc := PassBody(w, lanes, limits, rows, now, resumedAt, acc);
    DidAfterQuiet(w, old(w.rows), old(w.events), opening, RowsOfRuns(p.runs), MarksOfRuns(p.plan.active, p.runs));
  }

  /** Why a pass ended as it did. */
  ghost predicate PassShown(w: World, lanes: seq<Lane>, limits: Circuit.Limits, parse: string -> Option<int>, show: int -> string,
                            rows: seq<RunRecord>, events0: seq<PassEvent>, calls0: seq<Call>, end: End, p: Pass, acc: Account)
    reads w
  {
    && events0 + acc.opening + acc.selecting <= w.events
    && (acc.stopped.Some? ==>
          && end == acc.stopped.value && p.runs == [] && w.events == events0 + acc.opening
          && OpeningShown(acc.opening, parse, show, limits, rows, acc.stopped, p.plan.now, p.plan.resumedAt, w.files))
    && (acc.stopped.None? ==>
          && p.plan.active == Active(lanes) && SelectionShown(p.plan, acc)
          && BodyEnd(w, events0 + acc.opening, calls0, limits, rows, end, p)
          && OpeningShown(acc.opening, parse, show, limits, rows, None, p.plan.now, p.plan.resumedAt, w.files))
  }

  /** A pass takes the lock first and does nothing without it. */
  method RunTick(w: World, lanes: seq<Lane>, limits: Circuit.Limits, parse: string -> Option<int>, show: int -> string)
    returns (end: End, p: Pass, ghost acc: Account)
    requires w.Settled()
    modifies w
    ensures LegalPass(limits, old(w.rows), p)
    ensures Did(w, old(w.rows), old(w.events), RowsOfRuns(p.runs), MarksOfRuns(p.plan.active, p.runs))
    ensures SentWanted(w.events, |old(w.events)|)
    ensures |w.events| > |old(w.events)|
    ensures var first := w.events[|old(w.events)|];
            match first
            case LockTried(held) =>
              if held then PassShown(w, lanes, limits, parse, show, old(w.rows), old(w.events) + [first], old(w.calls), end, p, acc)
              else end == LockNotHeld && p.runs == [] && w.events == old(w.events) + [first]
            case CallThrew => end == ErrorAbort && p.runs == [] && w.events == old(w.events) + [first]
            case _ => false
  {
    p, acc := Pass(Plan(0, 0, [], map[]), []), Account([], None, [], map[], map[]);
    var ok, held := w.AcquireLock();
    ghost var first := if ok then LockTried(held) else CallThrew;
    if !ok || !held {
      end := if ok then LockNotHeld else ErrorAbort;
      DidQuietly(w, old(w.rows), old(w.events), [first]);
      EverySentWasWanted(w.events, |old(w.events)|);
      return;
    }
    end, p, acc := RunHeld(w, lanes, limits, parse, show);
    DidAfterQuiet(w, old(w.rows), old(w.events), [first], RowsOfRuns(p.runs), MarksOfRuns(p.plan.active, p.runs));
    EverySentWasWanted(w.events, |old(w.events)|);
  }
}
