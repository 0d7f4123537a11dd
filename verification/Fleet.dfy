/** The outside world of one scheduler, and the methods a live dispatch is made of. A dispatch
    makes exactly the calls its plan leads to; the reads of a pass are answered arbitrarily. */
module Fleet {
  import opened Options
  import opened Sequences
  import opened Ledger
  import opened Circuit
  import opened Select
  import opened Review
  import opened KillSwitch
  import HaltState
  import opened Pipeline

  datatype Breaker = RateTripped | QuotaTripped(halt: QuotaHalt) | FailuresTripped

  /** `Sent` and `Shadowed` carry the clock reading their rows are stamped with; `CallThrew` stands
      for any read or write of the pass itself that threw. */
  datatype PassEvent =
    | LockTried(held: bool)
    | HaltChecked(reason: Option<string>)
    | ClockRead(now: int)
    | Resumed(at: int)
    | ResumedAtRead(at: int)
    | BreakerTripped(breaker: Breaker)
    | Listed(laneId: string, items: Option<seq<WorkItem>>)
    | OpenPrRead(itemId: string, found: bool)
    | LabelsRead(itemId: string, labels: Option<seq<string>>)
    | Sent(lane: Lane, item: WorkItem, ts: int)
    | Shadowed(lane: Lane, item: WorkItem, ts: int)
    | CallThrew

  class World {
    const rows0: seq<RunRecord>
    const armed0: set<string>
    var rows: seq<RunRecord>
    var armed: set<string>
    var files: HaltState.Files
    var events: seq<PassEvent>
    var calls: seq<Call>
    ghost var dispatches: seq<OneDispatch>

    /** Ledger and armed PRs are what the calls made of them. */
    ghost predicate Valid()
      reads this
    {
      rows == rows0 + RowsOfCalls(calls) && armed == ArmedAfter(armed0, calls)
    }

    /** Between dispatches the armed PRs are what the dispatches so far made of them. */
    ghost predicate Settled()
      reads this
    {
      Valid() && armed == ArmedAfterAll(armed0, dispatches)
    }

    constructor (rows: seq<RunRecord>, armed: set<string>, files: HaltState.Files)
      ensures Settled() && this.rows == rows && this.armed == armed && this.files == files && events == [] && calls == []
    {
      rows0, armed0 := rows, armed;
      this.rows, this.armed, this.files := rows, armed, files;
      events, calls, dispatches := [], [], [];
      new;
      assert rows + [] == rows;
    }

    /** What a call may do to ledger and armed PRs, and that nothing else does. */
    lemma OneMoreCall(c: Call)
      requires Valid()
      ensures rows0 + RowsOfCalls(calls + [c]) == rows + if c.Appended? && c.ok then [c.row] else []
      ensures ArmedAfter(armed0, calls + [c]) == if c.ArmAsked? && Took(c.ask) then armed + {c.pr}
                                                 else if c.DisarmAsked? && Took(c.ask) then armed - {c.pr} else armed
    {
      RowsOfCallsConcat(calls, [c]);
      OneCall(armed, c);
      Associative(rows0, RowsOfCalls(calls), RowsOfCalls([c]));
      ArmedAfterConcat(armed0, calls, [c]);
    }

    /** Ledger and armed PRs after a longer trace. */
    lemma Follows(calls1: seq<Call>, rows1: seq<RunRecord>, armed1: set<string>, more: seq<Call>)
      requires Valid() && calls == calls1 + more
      requires rows1 == rows0 + RowsOfCalls(calls1) && armed1 == ArmedAfter(armed0, calls1)
      ensures rows == rows1 + RowsOfCalls(more) && armed == ArmedAfter(armed1, more)
    {
      RowsOfCallsConcat(calls1, more);
      Associative(rows0, RowsOfCalls(calls1), RowsOfCalls(more));
      ArmedAfterConcat(armed0, calls1, more);
    }

    // ---- The calls of a dispatch; each goes as it is told to ----

    method Record(r: RunRecord, works: bool) returns (ok: bool)
      requires Valid()
      modifies this`rows, this`calls
      ensures Valid() && ok == works && calls == old(calls) + [Appended(r, works)]
      ensures rows == if works then old(rows) + [r] else old(rows)
    {
      OneMoreCall(Appended(r, works));
      ok := works;
      if works {
        rows := rows + [r];
      } else {
        assert rows + [] == rows;
      }
      calls := calls + [Appended(r, works)];
    }

    /** A call with no effect this model follows. */
    method Other(c: Call)
      requires Valid() && !c.Appended? && !c.ArmAsked? && !c.DisarmAsked?
      modifies this`calls
      ensures Valid() && calls == old(calls) + [c]
    {
      OneMoreCall(c);
      assert rows + [] == rows;
      calls := calls + [c];
    }

    method Tell(works: bool) returns (ok: bool)
      requires Valid()
      modifies this`calls
      ensures Valid() && ok == works && calls == old(calls) + [Told(works)]
    {
      Other(Told(works));
      ok := works;
    }

    method EnableAutoMerge(pr: string, ask: Ask) returns (ok: bool)
      requires Valid()
      modifies this`armed, this`calls
      ensures Valid() && ok == ask.ok && calls == old(calls) + [ArmAsked(pr, ask)]
      ensures armed == if Took(ask) then old(armed) + {pr} else old(armed)
    {
      OneMoreCall(ArmAsked(pr, ask));
      assert rows + [] == rows;
      if Took(ask) {
        armed := armed + {pr};
      }
      calls := calls + [ArmAsked(pr, ask)];
      ok := ask.ok;
    }

    method DisableAutoMerge(pr: string, ask: Ask) returns (ok: bool)
      requires Valid()
      modifies this`armed, this`calls
      ensures Valid() && ok == ask.ok && calls == old(calls) + [DisarmAsked(pr, ask)]
      ensures armed == if Took(ask) then old(armed) - {pr} else old(armed)
    {
      OneMoreCall(DisarmAsked(pr, ask));
      assert rows + [] == rows;
      if Took(ask) {
        armed := armed - {pr};
      }
      calls := calls + [DisarmAsked(pr, ask)];
      ok := ask.ok;
    }

    method HaltFleet(why: string, works: bool) returns (ok: bool)
      requires Valid()
      modifies this`files, this`calls
      ensures Valid() && ok == works && calls == old(calls) + [HaltAsked(why, works)]
      ensures files == if works then HaltState.Halt(old(files), why) else old(files)
    {
      Other(HaltAsked(why, works));
      if works {
        files := HaltState.Halt(files, why);
      }
      ok := works;
    }

    // ---- The reads and writes of a pass; the answers are arbitrary ----

    /** Other processes may have written the halt files since; what is read is what is there now. */
    method ReadHalt() returns (ok: bool, reason: Option<string>)
      modifies this`events, this`files
      ensures events == old(events) + [if ok then HaltChecked(reason) else CallThrew]
      ensures ok ==> reason == HaltState.Halted(files, false) || reason == HaltState.Halted(files, true)
    {
      files := *;
      var issueSeen: bool := *;
      ok := *;
      reason := HaltState.Halted(files, issueSeen);
      events := events + [if ok then HaltChecked(reason) else CallThrew];
    }

    method ReadClock() returns (now: int)
      modifies this`events
      ensures events == old(events) + [ClockRead(now)]
    {
      now := *;
      events := events + [ClockRead(now)];
    }

    /** Reads the clock for itself. */
    method ResumeFleet() returns (ok: bool, at: int)
      modifies this`events, this`files
      ensures events == old(events) + [if ok then Resumed(at) else CallThrew]
      ensures ok ==> files == HaltState.Resume(at)
    {
      ok, at := *, *;
      if ok {
        files := HaltState.Resume(at);
      } else {
        files := *;
      }
      events := events + [if ok then Resumed(at) else CallThrew];
    }

    method WriteHalt(why: string) returns (ok: bool)
      modifies this`events, this`files
      ensures ok ==> files == HaltState.Halt(old(files), why) && events == old(events)
      ensures !ok ==> events == old(events) + [CallThrew]
    {
      ok := *;
      if ok {
        files := HaltState.Halt(files, why);
      } else {
        files := *;
        events := events + [CallThrew];
      }
    }

    method ReadResumedAt() returns (ok: bool, at: int)
      modifies this`events
      ensures events == old(events) + [if ok then ResumedAtRead(at) else CallThrew]
      ensures ok ==> at == files.resumedAt
    {
      ok, at := *, files.resumedAt;
      events := events + [if ok then ResumedAtRead(at) else CallThrew];
    }

    method ReadLedger() returns (ok: bool, ledger: seq<RunRecord>)
      modifies this`events
      ensures ledger == rows && events == if ok then old(events) else old(events) + [CallThrew]
    {
      ok, ledger := *, rows;
      if !ok {
        events := events + [CallThrew];
      }
    }

    method AcquireLock() returns (ok: bool, held: bool)
      modifies this`events
      ensures events == old(events) + [if ok then LockTried(held) else CallThrew]
    {
      ok, held := *, *;
      events := events + [if ok then LockTried(held) else CallThrew];
    }

    method FindOpenPr(item: string) returns (ok: bool, found: bool)
      modifies this`events
      ensures events == old(events) + [if ok then OpenPrRead(item, found) else CallThrew]
    {
      ok, found := *, *;
      events := events + [if ok then OpenPrRead(item, found) else CallThrew];
    }

    method ReadLabels(item: string) returns (ok: bool, labels: Option<seq<string>>)
      modifies this`events
      ensures events == old(events) + [if ok then LabelsRead(item, labels) else CallThrew]
    {
      ok := *;
      var answer: Option<seq<string>> := *;
      labels := answer;
      events := events + [if ok then LabelsRead(item, labels) else CallThrew];
    }

    method ListItems(lane: string) returns (ok: bool, items: Option<seq<WorkItem>>)
      modifies this`events
      ensures events == old(events) + [if ok then Listed(lane, items) else CallThrew]
    {
      ok := *;
      var answer: Option<seq<WorkItem>> := *;
      items := answer;
      events := events + [if ok then Listed(lane, items) else CallThrew];
    }
  }

  // ---- At PR open ----

  method ArmStandardAutoMergeAtOpen(w: World, o: OpenPlan, pr: Option<string>, eligible: bool, mismatch: bool) returns (ok: bool)
    requires w.Valid()
    modifies w`armed, w`calls
    ensures w.Valid() && ok == OpenReturns(o, pr, eligible, mismatch)
    ensures w.calls == old(w.calls) + OpenCalls(o, pr, eligible, mismatch)
  {
    ghost var before := w.calls;
    if pr.None? || mismatch {
      assert before + [] == before;
      return true;
    }
    if !eligible {
      ok := w.Tell(o.logged);
      return;
    }
    ok := w.EnableAutoMerge(pr.value, o.arm);
    ghost var asked := [ArmAsked(pr.value, o.arm)];
    ghost var logged := if o.arm.ok then [Told(o.logged)] else [];
    Associative(before, asked, logged);
    if ok {
      ok := w.Tell(o.logged);
    } else {
      assert w.calls + [] == w.calls;
    }
    ghost var caught := if o.arm.ok && o.logged then [] else [Told(o.loggedFailure)];
    Associative(before, asked + logged, caught);
    if !ok {
      ok := w.Tell(o.loggedFailure);
    } else {
      assert w.calls + [] == w.calls;
    }
  }

  /** The worker's run followed by the arming at open; None when any of it threw. */
  method DispatchWorker(w: World, t: TryPlan) returns (reply: Option<Reply>)
    requires w.Valid()
    modifies w`armed, w`calls
    ensures w.Valid() && reply == ReplyOf(t) && w.calls == old(w.calls) + DispatchCalls(t)
  {
    reply := if t.work.Some? then Some(t.work.value.(outcome := StatusOutcome(t.work.value.outcome))) else None;
    w.Other(WorkerRan(reply));
    if reply.Some? {
      Associative(old(w.calls), [WorkerRan(reply)], OpenCalls(t.open, reply.value.pr, t.eligible, reply.value.mismatch));
      var ok := ArmStandardAutoMergeAtOpen(w, t.open, reply.value.pr, t.eligible, reply.value.mismatch);
      if !ok {
        reply := None;
      }
    }
  }

  // ---- The review loop ----

  /** Best effort: a comment that fails is logged. */
  method SafeComment(w: World, c: CommentPlan) returns (ok: bool)
    requires w.Valid()
    modifies w`calls
    ensures w.Valid() && ok == CommentReturns(c) && w.calls == old(w.calls) + CommentCalls(c)
  {
    ok := w.Tell(c.posted);
    if !ok {
      Associative(old(w.calls), [Told(false)], [Told(c.logged)]);
      ok := w.Tell(c.logged);
    }
  }

  /** The only halt a dispatch writes, and one that never clears itself. */
  ghost predicate OnlyTamperHalts(before: HaltState.Files, after: HaltState.Files) {
    after == before || exists detail :: after == HaltState.Halt(before, TAMPER_PREFIX + detail)
  }

  /** A verifier that tampered stops the whole fleet. */
  method HearTampering(w: World, p: RoundPlan, detail: string, ghost before: seq<Call>, ghost c2: seq<Call>) returns (done: bool)
    requires w.Valid() && w.calls == before + c2
    modifies w`calls, w`files
    ensures w.Valid() && w.files == if p.halt then HaltState.Halt(old(w.files), TAMPER_PREFIX + detail) else old(w.files)
    ensures done == (p.halt && p.tamperLogged && CommentReturns(p.comment))
    ensures w.calls == before + TamperCalls(p, detail, c2)
  {
    done := w.HaltFleet(TAMPER_PREFIX + detail, p.halt);
    ghost var c3 := c2 + [HaltAsked(TAMPER_PREFIX + detail, p.halt)];
    Associative(before, c2, [HaltAsked(TAMPER_PREFIX + detail, p.halt)]);
    if done {
      done := w.Tell(p.tamperLogged);
      Associative(before, c3, [Told(p.tamperLogged)]);
    }
    if done {
      Associative(before, c3 + [Told(true)], CommentCalls(p.comment));
      done := SafeComment(w, p.comment);
    }
  }

  /** Posting the review, and commenting on one nobody can read. */
  method PostOpinion(w: World, p: RoundPlan, verdict: Verdict, ghost before: seq<Call>, ghost c2: seq<Call>) returns (ok: bool)
    requires w.Valid() && w.calls == before + c2
    modifies w`calls
    ensures w.Valid() && ok == PostReturns(p, verdict) && w.calls == before + PostCalls(p, verdict, c2)
  {
    ok := w.Tell(p.posted);
    Associative(before, c2, [Told(p.posted)]);
    if ok && verdict == Unreadable {
      Associative(before, c2 + [Told(true)], CommentCalls(p.comment));
      ok := SafeComment(w, p.comment);
    }
  }

  /** Sends the worker back; `done` when it cannot be reached, which is logged. */
  method SendBack(w: World, p: RoundPlan, ghost before: seq<Call>, ghost c3: seq<Call>) returns (again: bool, done: bool)
    requires w.Valid() && w.calls == before + c3
    modifies w`calls
    ensures w.Valid() && again == (p.sendLogged && p.revise) && done == (p.sendLogged && !p.revise && p.reviseLogged)
    ensures w.calls == before + SendCalls(p, c3)
  {
    again, done := false, false;
    var ok := w.Tell(p.sendLogged);
    Associative(before, c3, [Told(p.sendLogged)]);
    if ok {
      w.Other(ReviseAsked(p.revise));
      Associative(before, c3 + [Told(true)], [ReviseAsked(p.revise)]);
      if p.revise {
        again := true;
      } else {
        done := w.Tell(p.reviseLogged);
        Associative(before, c3 + [Told(true)] + [ReviseAsked(false)], [Told(p.reviseLogged)]);
      }
    }
  }

  method HearOpinion(w: World, p: RoundPlan, exhaustedLogged: bool, round: nat, verdict: Verdict,
                     ghost before: seq<Call>, ghost c2: seq<Call>)
    returns (ev: seq<ReviewEvent>, r: LoopResult, again: bool)
    requires w.Valid() && w.calls == before + c2
    modifies w`calls
    ensures w.Valid()
    ensures var e := AfterOpinion(p, exhaustedLogged, round, verdict, c2);
            ev == e.ev && r == e.r && again == e.again && w.calls == before + e.calls
  {
    ev, r, again := [Verified(true), Reviewed(verdict)], LoopThrew, false;
    var ok := PostOpinion(w, p, verdict, before, c2);
    ghost var c3 := PostCalls(p, verdict, c2);
    if !ok {
      return;
    }
    if verdict == Pass {
      r := LoopDone(Pass, round, true);
    } else if round >= MAX_REVIEW_ROUNDS {
      ok := w.Tell(exhaustedLogged);
      Associative(before, c3, [Told(exhaustedLogged)]);
      if ok {
        r := LoopDone(verdict, round, true);
      }
    } else {
      again, ok := SendBack(w, p, before, c3);
      if again {
        ev := ev + [Revised];
      } else if ok {
        r := LoopDone(verdict, round, true);
      }
    }
  }

  method ReviewRound(w: World, p: RoundPlan, exhaustedLogged: bool, round: nat)
    returns (ev: seq<ReviewEvent>, r: LoopResult, again: bool)
    requires w.Valid()
    modifies w`calls, w`files
    ensures w.Valid() && OnlyTamperHalts(old(w.files), w.files) && (again ==> w.files == old(w.files))
    ensures var e := Round(p, exhaustedLogged, round);
            ev == e.ev && r == e.r && again == e.again && w.calls == old(w.calls) + e.calls
  {
    ghost var before := w.calls;
    ev, r, again := [], LoopThrew, false;
    w.Other(VerifyAsked(p.verify));
    if p.verify.None? {
      return;
    }
    if !p.verify.value {
      ev := [Verified(false)];
      var logged := w.Tell(p.verifyLogged);
      Associative(before, [VerifyAsked(p.verify)], [Told(p.verifyLogged)]);
      if logged {
        r := LoopDone(Fail, round, false);
      }
      return;
    }
    var diffed := w.Tell(p.diff);
    Associative(before, [VerifyAsked(p.verify)], [Told(p.diff)]);
    if !diffed {
      ev := [Verified(true)];
      return;
    }
    ev, r, again := AskOpinion(w, p, exhaustedLogged, round, before, [VerifyAsked(p.verify)] + [Told(true)]);
  }

  method AskOpinion(w: World, p: RoundPlan, exhaustedLogged: bool, round: nat, ghost before: seq<Call>, ghost c1: seq<Call>)
    returns (ev: seq<ReviewEvent>, r: LoopResult, again: bool)
    requires w.Valid() && w.calls == before + c1
    modifies w`calls, w`files
    ensures w.Valid() && OnlyTamperHalts(old(w.files), w.files) && (again ==> w.files == old(w.files))
    ensures var e := OpinionEnd(p, exhaustedLogged, round, c1 + [OpinionAsked(p.opinion)]);
            ev == e.ev && r == e.r && again == e.again && w.calls == before + e.calls
  {
    ev, r, again := [Verified(true)], LoopThrew, false;
    w.Other(OpinionAsked(p.opinion));
    Associative(before, c1, [OpinionAsked(p.opinion)]);
    ghost var c2 := c1 + [OpinionAsked(p.opinion)];
    match p.opinion
    case OpinionThrew =>
    case TamperDetected(detail) =>
      ev := [Verified(true), Tampered];
      var done := HearTampering(w, p, detail, before, c2);
      if done {
        r := LoopDone(Unreadable, round, true);
      }
    case Said(verdict) =>
      ev, r, again := HearOpinion(w, p, exhaustedLogged, round, verdict, before, c2);
  }

  /** The loop has got to `round` with `ev` and `done`, or it has ended in `r`. */
  ghost predicate LoopSoFar(rounds: nat -> RoundPlan, exhaustedLogged: bool, round: nat, ev: seq<ReviewEvent>, done: seq<Call>,
                            again: bool, r: LoopResult) {
    var all := Loop(rounds, exhaustedLogged, 1);
    if again then
      var rest := Loop(rounds, exhaustedLogged, round);
      round <= MAX_REVIEW_ROUNDS && all.r == rest.r && all.ev == ev + rest.ev && all.calls == done + rest.calls
    else all.r == r && all.ev == ev && all.calls == done
  }

  lemma LoopStarts(rounds: nat -> RoundPlan, exhaustedLogged: bool)
    ensures LoopSoFar(rounds, exhaustedLogged, 1, [], [], true, LoopThrew)
  {
    var all := Loop(rounds, exhaustedLogged, 1);
    assert [] + all.ev == all.ev && [] + all.calls == all.calls;
  }

  lemma RoundGoesOn(rounds: nat -> RoundPlan, exhaustedLogged: bool, round: nat, ev: seq<ReviewEvent>, done: seq<Call>, r: LoopResult)
    requires round >= 1 && LoopSoFar(rounds, exhaustedLogged, round, ev, done, true, r)
    ensures var e := Round(rounds(round), exhaustedLogged, round);
            LoopSoFar(rounds, exhaustedLogged, round + 1, ev + e.ev, done + e.calls, e.again, e.r)
  {
    var e := Round(rounds(round), exhaustedLogged, round);
    RoundIsLegal(rounds(round), exhaustedLogged, round);
    if e.again {
      var rest := Loop(rounds, exhaustedLogged, round + 1);
      Associative(ev, e.ev, rest.ev);
      Associative(done, e.calls, rest.calls);
    }
  }

  /** Verify, review, revise, at most MAX_REVIEW_ROUNDS times. */
  method RunReviewLoop(w: World, rounds: nat -> RoundPlan, exhaustedLogged: bool) returns (ev: seq<ReviewEvent>, r: LoopResult)
    requires w.Valid()
    modifies w`calls, w`files
    ensures w.Valid() && OnlyTamperHalts(old(w.files), w.files)
    ensures var e := Loop(rounds, exhaustedLogged, 1);
            ev == e.ev && r == e.r && w.calls == old(w.calls) + e.calls
  {
    ghost var done := [];
    var round, again := 1, true;
    ev, r := [], LoopThrew;
    assert w.calls + [] == w.calls;
    LoopStarts(rounds, exhaustedLogged);
    while again
      invariant round >= 1 && w.Valid() && (again ==> w.files == old(w.files))
      invariant OnlyTamperHalts(old(w.files), w.files) && w.calls == old(w.calls) + done
      invariant LoopSoFar(rounds, exhaustedLogged, round, ev, done, again, r)
      decreases MAX_REVIEW_ROUNDS + 1 - round, again
    {
      RoundGoesOn(rounds, exhaustedLogged, round, ev, done, r);
      ghost var e := Round(rounds(round), exhaustedLogged, round);
      var more;
      Associative(old(w.calls), done, e.calls);
      more, r, again := ReviewRound(w, rounds(round), exhaustedLogged, round);
      ev := ev + more;
      done := done + e.calls;
      round := round + 1;
    }
  }

  // ---- The part inside `try` ----

  /** The only place that arms after a review; a failure is logged and hands the PR to a human. */
  method ArmReviewed(w: World, j: JudgePlan, pr: string, ghost before: seq<Call>, ghost done: seq<Call>) returns (armed: bool, clean: bool, ok: bool)
    requires w.Valid() && w.calls == before + done
    modifies w`armed, w`calls
    ensures w.Valid() && armed == j.arm.ok && clean == (j.arm.ok && j.armLogged) && ok == (clean || j.armFailureLogged)
    ensures w.calls == before + (done + ArmCalls(j, pr))
  {
    ghost var c1 := [ArmAsked(pr, j.arm)];
    armed := w.EnableAutoMerge(pr, j.arm);
    Associative(before, done, c1);
    clean := armed;
    ghost var c2 := c1 + if j.arm.ok then [Told(j.armLogged)] else [];
    Associative(done, c1, if j.arm.ok then [Told(j.armLogged)] else []);
    if armed {
      clean := w.Tell(j.armLogged);
      Associative(before, done + c1, [Told(j.armLogged)]);
    } else {
      assert done + c1 + [] == done + c1;
    }
    ok := clean;
    Associative(done, c2, if clean then [] else [Told(j.armFailureLogged)]);
    if clean {
      assert done + c2 + [] == done + c2;
    } else {
      ok := w.Tell(j.armFailureLogged);
      Associative(before, done + c2, [Told(j.armFailureLogged)]);
    }
  }

  /** What the loop's end leads to: mechanical failure and FAIL reject, UNREADABLE goes to a human,
      PASS arms. */
  method Judged(w: World, j: JudgePlan, reply: Reply, ev: seq<ReviewEvent>, loop: LoopResult, ghost before: seq<Call>, ghost done: seq<Call>)
    returns (a: Attempt)
    requires w.Valid() && reply.pr.Some? && w.calls == before + done
    modifies w`armed, w`calls
    ensures w.Valid() && a == JudgeAttempt(j, reply, ev, loop)
    ensures w.calls == before + (done + JudgeCalls(j, reply.pr.value, loop))
  {
    a := Attempt(Some(reply), ev, Some(loop), false, false, false, None);
    if loop.LoopThrew? {
      assert done + [] == done;
      return;
    }
    var ok := w.Tell(j.gateLogged);
    Associative(before, done, [Told(j.gateLogged)]);
    if !ok {
      return;
    }
    if !loop.passed {
      ok := w.Tell(j.commented);
      Snoc2(before, done, Told(true), Told(j.commented));
      a := a.(outcome := if ok then Some(Rejected) else None);
      return;
    }
    ok := w.Tell(j.reviewLogged);
    Snoc2(before, done, Told(true), Told(j.reviewLogged));
    if !ok {
      return;
    }
    a := JudgedVerdict(w, j, reply, a, loop, before, done);
  }

  lemma Snoc2(before: seq<Call>, done: seq<Call>, c1: Call, c2: Call)
    ensures before + (done + [c1]) + [c2] == before + (done + [c1, c2])
  {
    assert done + [c1] + [c2] == done + [c1, c2];
    Associative(before, done + [c1], [c2]);
  }

  method JudgedVerdict(w: World, j: JudgePlan, reply: Reply, a0: Attempt, loop: LoopResult, ghost before: seq<Call>, ghost done: seq<Call>)
    returns (a: Attempt)
    requires w.Valid() && reply.pr.Some? && w.calls == before + (done + [Told(true), Told(true)])
    requires loop.LoopDone? && loop.passed && j.gateLogged && j.reviewLogged
    requires a0 == Attempt(Some(reply), a0.review, Some(loop), false, false, false, None)
    modifies w`armed, w`calls
    ensures w.Valid() && a == JudgeAttempt(j, reply, a0.review, loop)
    ensures w.calls == before + (done + JudgeCalls(j, reply.pr.value, loop))
  {
    a := a0;
    if loop.verdict == Pass {
      var armed, clean, ok := ArmReviewed(w, j, reply.pr.value, before, done + [Told(true), Told(true)]);
      Associative(done, [Told(true), Told(true)], ArmCalls(j, reply.pr.value));
      a := a.(armTried := true, armed := armed, needsHuman := !clean, outcome := if ok then Some(Success) else None);
      return;
    }
    var ok := w.Tell(j.commented);
    assert done + [Told(true), Told(true)] + [Told(j.commented)] == done + [Told(true), Told(true), Told(j.commented)];
    Associative(before, done + [Told(true), Told(true)], [Told(j.commented)]);
    if ok {
      a := if loop.verdict == Fail then a.(outcome := Some(Rejected)) else a.(needsHuman := true, outcome := Some(Unverified));
    }
  }

  method ReviewAndArm(w: World, t: TryPlan, reply: Reply, ghost before: seq<Call>, ghost done: seq<Call>) returns (a: Attempt)
    requires w.Valid() && reply.pr.Some? && w.calls == before + done
    modifies w`armed, w`calls, w`files
    ensures w.Valid() && OnlyTamperHalts(old(w.files), w.files)
    ensures var loop := Loop(t.rounds, t.exhaustedLogged, 1);
            && a == JudgeAttempt(t.judge, reply, loop.ev, loop.r)
            && w.calls == before + (done + loop.calls + JudgeCalls(t.judge, reply.pr.value, loop.r))
  {
    var ev, r := RunReviewLoop(w, t.rounds, t.exhaustedLogged);
    ghost var loop := Loop(t.rounds, t.exhaustedLogged, 1);
    Associative(before, done, loop.calls);
    a := Judged(w, t.judge, reply, ev, r, before, done + loop.calls);
  }

  /** A log line, and a comment when there is a PR. */
  method TellHuman(w: World, c: CommentPlan, pr: Option<string>, ghost before: seq<Call>, ghost done: seq<Call>) returns (ok: bool)
    requires w.Valid() && w.calls == before + done
    modifies w`calls
    ensures w.Valid() && ok == ToldReturns(c, pr) && w.calls == before + (done + ToldCalls(c, pr))
  {
    ok := w.Tell(c.logged);
    Associative(before, done, [Told(c.logged)]);
    if ok && pr.Some? {
      ok := w.Tell(c.posted);
      Associative(before, done + [Told(true)], [Told(c.posted)]);
      Associative(done, [Told(true)], [Told(c.posted)]);
    } else {
      assert [Told(c.logged)] + [] == [Told(c.logged)];
    }
  }

  /** Everything inside the `try`: whatever throws ends it, and the attempt says how far it got. */
  method TryDispatch(w: World, t: TryPlan) returns (a: Attempt)
    requires w.Valid()
    modifies w`armed, w`calls, w`files
    ensures w.Valid() && OnlyTamperHalts(old(w.files), w.files)
    ensures a == Try(t).attempt && w.calls == old(w.calls) + Try(t).calls
  {
    ghost var before, done := w.calls, DispatchCalls(t);
    var reply := DispatchWorker(w, t);
    a := NOT_TRIED.(reply := reply);
    if reply.None? {
      return;
    }
    var r := reply.value;
    if r.mismatch {
      var ok := TellHuman(w, t.told, r.pr, before, done);
      a := a.(needsHuman := true, outcome := if ok then Some(Outcome.Failed) else None);
    } else if Reviewable(r) {
      a := ReviewAndArm(w, t, r, before, done);
    } else if r.outcome == Success {
      var ok := TellHuman(w, t.told, r.pr, before, done);
      if ok {
        a := a.(needsHuman := true, outcome := Some(Success));
      }
    } else {
      a := a.(outcome := Some(r.outcome));
    }
  }

  // ---- One dispatch ----

  /** Every path that came back with a PR and did not itself arm it disarms it; `ok` is false only
      when the log line of a failed disarm throws. */
  method DisarmUnlessArmed(w: World, p: DispatchPlan, a: Attempt) returns (ok: bool)
    requires w.Valid()
    modifies w`armed, w`calls
    ensures w.Valid() && ok == ReachesFinal(p, a) && w.calls == old(w.calls) + DisarmCalls(p, a)
  {
    ok := true;
    if Disarms(a) {
      ok := w.DisableAutoMerge(PrOf(a).value, p.disarm);
      ghost var c1 := [DisarmAsked(PrOf(a).value, p.disarm)];
      if !ok {
        Associative(old(w.calls), c1, [Told(p.disarmLogged)]);
        ok := w.Tell(p.disarmLogged);
      } else {
        assert c1 + [] == c1;
      }
    } else {
      assert w.calls + [] == w.calls;
    }
  }

  method Settle(w: World, p: DispatchPlan, a: Attempt, final: RunRecord) returns (ok: bool)
    requires w.Valid()
    modifies w`calls
    ensures w.Valid() && ok == (p.settle || p.settleLogged) && w.calls == old(w.calls) + SettleCalls(p, a, final)
  {
    ghost var c1 := [SettleAsked(final.outcome, a.needsHuman, p.settle)];
    w.Other(SettleAsked(final.outcome, a.needsHuman, p.settle));
    ok := p.settle;
    if !ok {
      Associative(old(w.calls), c1, [Told(p.settleLogged)]);
      ok := w.Tell(p.settleLogged);
    } else {
      assert c1 + [] == c1;
    }
  }

  /** Disarm, record, settle, in that order and whatever the attempt came to. */
  method CloseDispatch(w: World, p: DispatchPlan, a: Attempt, final: RunRecord) returns (recorded: bool, escaped: bool)
    requires w.Valid()
    modifies w`rows, w`armed, w`calls
    ensures w.Valid() && w.calls == old(w.calls) + EndCalls(p, a, final)
    ensures recorded == (ReachesFinal(p, a) && p.finalAppend)
    ensures escaped == (!recorded || (!p.settle && !p.settleLogged))
  {
    ghost var before := w.calls;
    var ok := DisarmUnlessArmed(w, p, a);
    Associative(before, DisarmCalls(p, a), BookCalls(p, a, final));
    recorded, escaped := false, true;
    if !ok {
      assert w.calls + [] == w.calls;
      return;
    }
    ghost var disarmed := w.calls;
    recorded := w.Record(final, p.finalAppend);
    ghost var c1 := [Appended(final, p.finalAppend)];
    if recorded {
      Associative(disarmed, c1, SettleCalls(p, a, final));
      ok := Settle(w, p, a, final);
      escaped := !ok;
    } else {
      assert c1 + [] == c1;
    }
  }

  /** One live dispatch. It makes exactly the calls its plan leads to, so ledger and armed PRs end
      as the lemmas of `Pipeline` say: for every pattern of throws. */
  method RunLiveDispatch(w: World, item: WorkItem, lane: Lane, ts: int, p: DispatchPlan) returns (d: Dispatch)
    requires w.Settled()
    modifies w
    ensures w.Settled() && OnlyTamperHalts(old(w.files), w.files)
    ensures d == DispatchOf(p, item, lane, ts)
    ensures w.calls == old(w.calls) + PipelineCalls(p, item, lane, ts)
    ensures w.rows == old(w.rows) + RowsOfCalls(PipelineCalls(p, item, lane, ts))
    ensures w.armed == ArmedAfterDispatch(old(w.armed), p, item, lane, ts)
    ensures w.dispatches == old(w.dispatches) + [OneDispatch(p, item, lane, ts)]
    ensures w.events == old(w.events) + if p.firstAppend then [Sent(lane, item, ts)] else []
  {
    ghost var before := w.calls;
    InitOfSnoc(w.dispatches, OneDispatch(p, item, lane, ts));
    w.dispatches := w.dispatches + [OneDispatch(p, item, lane, ts)];
    var ok := w.Record(Base(item, lane, ts, Dispatched), p.firstAppend);
    ghost var c1 := [Appended(Base(item, lane, ts, Dispatched), p.firstAppend)];
    if !ok {
      d := Dispatch(false, NOT_TRIED, None, true);
      assert c1 + [] == c1 && w.events + [] == w.events;
      w.Follows(before, old(w.rows), old(w.armed), c1);
      return;
    }
    w.events := w.events + [Sent(lane, item, ts)];
    var a := TryDispatch(w, p.try_);
    var final := FinalRow(item, lane, ts, a);
    ghost var tried, end := Try(p.try_).calls, EndCalls(p, a, final);
    Associative(before, c1, tried);
    var recorded, escaped := CloseDispatch(w, p, a, final);
    Associative(before, c1 + tried, end);
    Associative(c1, tried, end);
    w.Follows(before, old(w.rows), old(w.armed), PipelineCalls(p, item, lane, ts));
    d := Dispatch(true, a, if recorded then Some(final) else None, escaped);
  }
}
