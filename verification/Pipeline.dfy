/** The pipeline a live dispatch goes through: record, dispatch, verify and review, arm or disarm,
    record, settle. Everything it asks of the world may throw; a `DispatchPlan` says how each call
    goes. The functions here say which calls a plan leads to and what they leave behind, and the
    lemmas hold for every plan: for every pattern of throws. */
module Pipeline {
  import opened Options
  import opened Sequences
  import opened Ledger
  import opened Select
  import opened Review
  import opened KillSwitch

  /** What the dispatched worker's run came back with. */
  datatype Reply = Reply(outcome: Outcome, pr: Option<string>, hasBranch: bool, hasWorktree: bool,
                         mismatch: bool, quotaResetAt: Option<int>)

  /** What a worker's status can come out as: one that never turned terminal is FAILED. */
  function StatusOutcome(o: Outcome): Outcome {
    if o == Success || o == Blocked || o == Quota then o else Outcome.Failed
  }

  datatype Opinion = Said(verdict: Verdict) | TamperDetected(detail: string) | OpinionThrew

  // ---- How each call of a dispatch goes ----

  /** A request to GitHub: whether it returned, and whether it took effect. One that threw may
      have taken effect all the same. */
  datatype Ask = Ask(ok: bool, effect: bool)

  predicate Took(a: Ask) {
    a.ok || a.effect
  }

  /** Arming at PR open: the request, the log line after it, and the log line of the `catch`. */
  datatype OpenPlan = OpenPlan(arm: Ask, logged: bool, loggedFailure: bool)

  /** A comment that is only best effort, and the log line when it fails. */
  datatype CommentPlan = CommentPlan(posted: bool, logged: bool)

  datatype RoundPlan = RoundPlan(verify: Option<bool>, verifyLogged: bool, diff: bool, opinion: Opinion,
                                 halt: bool, tamperLogged: bool, posted: bool, comment: CommentPlan,
                                 sendLogged: bool, revise: bool, reviseLogged: bool)

  /** After the loop: the gate log, the comment, the review log, and the arming with its logs. */
  datatype JudgePlan = JudgePlan(gateLogged: bool, reviewLogged: bool, commented: bool,
                                 arm: Ask, armLogged: bool, armFailureLogged: bool)

  /** `work` is None when anything threw before the arming at open; `told` is the log and the
      comment about a branch mismatch or an unverifiable SUCCESS. */
  datatype TryPlan = TryPlan(work: Option<Reply>, eligible: bool, open: OpenPlan, told: CommentPlan,
                             rounds: nat -> RoundPlan, exhaustedLogged: bool, judge: JudgePlan)

  datatype DispatchPlan = DispatchPlan(firstAppend: bool, try_: TryPlan, disarm: Ask, disarmLogged: bool,
                                       finalAppend: bool, settle: bool, settleLogged: bool)

  /** The calls that matter one by one; `Told` is any log line, comment, post or read. */
  datatype Call =
    | Appended(row: RunRecord, ok: bool)
    | WorkerRan(reply: Option<Reply>)
    | ArmAsked(pr: string, ask: Ask)
    | DisarmAsked(pr: string, ask: Ask)
    | VerifyAsked(passed: Option<bool>)
    | OpinionAsked(opinion: Opinion)
    | HaltAsked(reason: string, ok: bool)
    | ReviseAsked(ok: bool)
    | SettleAsked(outcome: Outcome, needsHuman: bool, ok: bool)
    | Told(ok: bool)

  // ---- At PR open ----

  predicate ArmsAtOpen(pr: Option<string>, eligible: bool, mismatch: bool) {
    pr.Some? && !mismatch && eligible
  }

  /** A failed request is caught and logged; a log line that cannot be written is not caught when
      it is the one in the `catch`, nor when no request is made. */
  predicate OpenReturns(o: OpenPlan, pr: Option<string>, eligible: bool, mismatch: bool) {
    if pr.None? || mismatch then true
    else if !eligible then o.logged
    else (o.arm.ok && o.logged) || o.loggedFailure
  }

  function OpenCalls(o: OpenPlan, pr: Option<string>, eligible: bool, mismatch: bool): seq<Call> {
    if pr.None? || mismatch then []
    else if !eligible then [Told(o.logged)]
    else
      [ArmAsked(pr.value, o.arm)] + (if o.arm.ok then [Told(o.logged)] else []) +
      (if o.arm.ok && o.logged then [] else [Told(o.loggedFailure)])
  }

  /** The reply the pipeline sees: None when the worker's run or the arming at open threw. */
  function ReplyOf(t: TryPlan): Option<Reply> {
    if t.work.None? then None
    else
      var r := t.work.value.(outcome := StatusOutcome(t.work.value.outcome));
      if OpenReturns(t.open, r.pr, t.eligible, r.mismatch) then Some(r) else None
  }

  function DispatchCalls(t: TryPlan): seq<Call> {
    if t.work.None? then [WorkerRan(None)]
    else
      var r := t.work.value.(outcome := StatusOutcome(t.work.value.outcome));
      [WorkerRan(Some(r))] + OpenCalls(t.open, r.pr, t.eligible, r.mismatch)
  }

  // ---- The review loop ----

  predicate CommentReturns(c: CommentPlan) {
    c.posted || c.logged
  }

  function CommentCalls(c: CommentPlan): seq<Call> {
    [Told(c.posted)] + if c.posted then [] else [Told(c.logged)]
  }

  /** What one round does; `again` is a round that ended in a revision. */
  datatype RoundEnd = RoundEnd(ev: seq<ReviewEvent>, r: LoopResult, again: bool, calls: seq<Call>)

  function Round(p: RoundPlan, exhaustedLogged: bool, round: nat): RoundEnd {
    var c1 := [VerifyAsked(p.verify)];
    if p.verify.None? then RoundEnd([], LoopThrew, false, c1)
    else if !p.verify.value then
      RoundEnd([Verified(false)], if p.verifyLogged then LoopDone(Fail, round, false) else LoopThrew, false, c1 + [Told(p.verifyLogged)])
    else if !p.diff then RoundEnd([Verified(true)], LoopThrew, false, c1 + [Told(false)])
    else OpinionEnd(p, exhaustedLogged, round, c1 + [Told(true)] + [OpinionAsked(p.opinion)])
  }

  function OpinionEnd(p: RoundPlan, exhaustedLogged: bool, round: nat, c2: seq<Call>): RoundEnd {
    match p.opinion
    case OpinionThrew => RoundEnd([Verified(true)], LoopThrew, false, c2)
    case TamperDetected(detail) =>
      var done := p.halt && p.tamperLogged && CommentReturns(p.comment);
      RoundEnd([Verified(true), Tampered], if done then LoopDone(Unreadable, round, true) else LoopThrew, false,
               TamperCalls(p, detail, c2))
    case Said(verdict) => AfterOpinion(p, exhaustedLogged, round, verdict, c2)
  }

  function TamperCalls(p: RoundPlan, detail: string, c2: seq<Call>): seq<Call> {
    var c3 := c2 + [HaltAsked(TAMPER_PREFIX + detail, p.halt)];
    if !p.halt then c3
    else if !p.tamperLogged then c3 + [Told(false)]
    else c3 + [Told(true)] + CommentCalls(p.comment)
  }

  predicate PostReturns(p: RoundPlan, verdict: Verdict) {
    p.posted && (verdict == Unreadable ==> CommentReturns(p.comment))
  }

  function PostCalls(p: RoundPlan, verdict: Verdict, c2: seq<Call>): seq<Call> {
    if p.posted && verdict == Unreadable then c2 + [Told(true)] + CommentCalls(p.comment) else c2 + [Told(p.posted)]
  }

  function SendCalls(p: RoundPlan, c3: seq<Call>): seq<Call> {
    if !p.sendLogged then c3 + [Told(false)]
    else if p.revise then c3 + [Told(true)] + [ReviseAsked(true)]
    else c3 + [Told(true)] + [ReviseAsked(false)] + [Told(p.reviseLogged)]
  }

  /** The review is posted; an unreadable one is commented on; anything but a PASS goes back to the
      worker while rounds are left. A worker that cannot be reached ends the loop with the verdict. */
  function AfterOpinion(p: RoundPlan, exhaustedLogged: bool, round: nat, verdict: Verdict, c2: seq<Call>): RoundEnd {
    var ev, c3 := [Verified(true), Reviewed(verdict)], PostCalls(p, verdict, c2);
    if !PostReturns(p, verdict) then RoundEnd(ev, LoopThrew, false, c3)
    else if verdict == Pass then RoundEnd(ev, LoopDone(Pass, round, true), false, c3)
    else if round >= MAX_REVIEW_ROUNDS then
      RoundEnd(ev, if exhaustedLogged then LoopDone(verdict, round, true) else LoopThrew, false, c3 + [Told(exhaustedLogged)])
    else if p.sendLogged && p.revise then RoundEnd(ev + [Revised], LoopThrew, true, SendCalls(p, c3))
    else RoundEnd(ev, if p.sendLogged && p.reviseLogged then LoopDone(verdict, round, true) else LoopThrew, false, SendCalls(p, c3))
  }

  /** The loop from `round` on. */
  function Loop(rounds: nat -> RoundPlan, exhaustedLogged: bool, round: nat): RoundEnd
    decreases MAX_REVIEW_ROUNDS - round
  {
    var first := Round(rounds(round), exhaustedLogged, round);
    if !first.again || round >= MAX_REVIEW_ROUNDS then first
    else
      var rest := Loop(rounds, exhaustedLogged, round + 1);
      RoundEnd(first.ev + rest.ev, rest.r, false, first.calls + rest.calls)
  }

  lemma RoundIsLegal(p: RoundPlan, exhaustedLogged: bool, round: nat)
    requires 1 <= round <= MAX_REVIEW_ROUNDS
    ensures var e := Round(p, exhaustedLogged, round);
            && (!e.again ==> LoopTrace(round, e.ev, e.r))
            && (e.again ==> round < MAX_REVIEW_ROUNDS && |e.ev| == 3 && e.ev[0] == Verified(true) && e.ev[1].Reviewed? &&
                            e.ev[1].verdict != Pass && e.ev[2] == Revised)
  {
  }

  /** However the calls go, the loop leaves a legal trace. */
  lemma {:induction false} LoopIsLegal(rounds: nat -> RoundPlan, exhaustedLogged: bool, round: nat)
    requires 1 <= round <= MAX_REVIEW_ROUNDS
    ensures var e := Loop(rounds, exhaustedLogged, round); LoopTrace(round, e.ev, e.r)
    decreases MAX_REVIEW_ROUNDS - round
  {
    var first := Round(rounds(round), exhaustedLogged, round);
    RoundIsLegal(rounds(round), exhaustedLogged, round);
    if first.again {
      LoopIsLegal(rounds, exhaustedLogged, round + 1);
      var rest := Loop(rounds, exhaustedLogged, round + 1);
      assert (first.ev + rest.ev)[3..] == rest.ev;
    }
  }

  // ---- Where the loop ends, and when it goes on ----

  /** The round got an opinion on a diff that passed verification, and could post it. */
  predicate HeardIn(p: RoundPlan, verdict: Verdict) {
    && p.verify == Some(true) && p.diff && p.opinion == Said(verdict) && p.posted
    && (verdict == Unreadable ==> p.comment.posted || p.comment.logged)
  }

  /** The round's verdict was not PASS, and the worker took it back for revision. */
  predicate RevisedIn(p: RoundPlan) {
    p.opinion.Said? && p.opinion.verdict != Pass && HeardIn(p, p.opinion.verdict) && p.sendLogged && p.revise
  }

  predicate TamperingSettled(p: RoundPlan) {
    p.verify == Some(true) && p.diff && p.opinion.TamperDetected? && p.halt && p.tamperLogged && (p.comment.posted || p.comment.logged)
  }

  /** Why a round is the last: what its plan says, for each result the loop can have. */
  ghost predicate EndsIn(p: RoundPlan, exhaustedLogged: bool, round: nat, r: LoopResult)
    requires r.LoopDone?
  {
    if !r.passed then r.verdict == Fail && p.verify == Some(false) && p.verifyLogged
    else if r.verdict == Pass then HeardIn(p, Pass)
    else
      || (r.verdict == Unreadable && TamperingSettled(p))
      || (HeardIn(p, r.verdict) && if round < MAX_REVIEW_ROUNDS then p.sendLogged && !p.revise && p.reviseLogged else exhaustedLogged)
  }

  lemma RoundOutcomes(p: RoundPlan, exhaustedLogged: bool, round: nat)
    requires 1 <= round <= MAX_REVIEW_ROUNDS
    ensures var e := Round(p, exhaustedLogged, round);
            && (e.again <==> round < MAX_REVIEW_ROUNDS && RevisedIn(p))
            && (!e.again && e.r.LoopDone? ==> e.r.rounds == round)
            && (forall r: LoopResult :: r.LoopDone? && r.rounds == round ==> (!e.again && e.r == r <==> EndsIn(p, exhaustedLogged, round, r)))
  {
  }

  lemma RevisionsAreCalls(p: RoundPlan, exhaustedLogged: bool, round: nat)
    requires 1 <= round <= MAX_REVIEW_ROUNDS
    ensures var e := Round(p, exhaustedLogged, round);
            && e.calls[0] == VerifyAsked(p.verify)
            && (e.again ==> e.calls[|e.calls| - 1] == ReviseAsked(true))
            && (!e.again && e.r.LoopDone? && e.r.passed && e.r.verdict != Pass && round < MAX_REVIEW_ROUNDS ==>
                  ReviseAsked(false) in e.calls || p.opinion.TamperDetected?)
  {
  }

  /** The loop ends in round `n` if and only if every round before it sent the work back for
      revision and the `n`-th is one that ends it that way; so a rejected diff is always revised and
      looked at again while a round is left and the worker can be reached. */
  lemma {:induction false} LoopEndsExactly(rounds: nat -> RoundPlan, exhaustedLogged: bool, round: nat, r: LoopResult)
    requires 1 <= round <= MAX_REVIEW_ROUNDS && r.LoopDone?
    ensures Loop(rounds, exhaustedLogged, round).r == r <==>
              && round <= r.rounds <= MAX_REVIEW_ROUNDS
              && (forall k :: round <= k < r.rounds ==> RevisedIn(rounds(k)))
              && EndsIn(rounds(r.rounds), exhaustedLogged, r.rounds, r)
    decreases MAX_REVIEW_ROUNDS - round
  {
    var p := rounds(round);
    RoundOutcomes(p, exhaustedLogged, round);
    var e := Round(p, exhaustedLogged, round);
    if e.again {
      LoopEndsExactly(rounds, exhaustedLogged, round + 1, r);
      EndsOrRevises(p, exhaustedLogged, round, r);
    } else if round < r.rounds {
      assert e.r != r;
    }
  }

  lemma EndsOrRevises(p: RoundPlan, exhaustedLogged: bool, round: nat, r: LoopResult)
    requires RevisedIn(p) && round < MAX_REVIEW_ROUNDS && r.LoopDone?
    ensures !EndsIn(p, exhaustedLogged, round, r)
  {
  }

  /** Of the calls themselves: a verdict that was not PASS, on work that could be revised, is followed
      at once by the next round's verification; and a loop that ends in one before its last round asked
      for a revision nobody took, or was tampered with. */
  lemma RevisionIsFollowedByVerification(rounds: nat -> RoundPlan, exhaustedLogged: bool, round: nat)
    requires 1 <= round < MAX_REVIEW_ROUNDS
    ensures var e, all := Round(rounds(round), exhaustedLogged, round), Loop(rounds, exhaustedLogged, round);
            && e.calls <= all.calls
            && (RevisedIn(rounds(round)) ==>
                  && |all.calls| > |e.calls| > 0 && e.calls[|e.calls| - 1] == ReviseAsked(true)
                  && all.calls[|e.calls|] == VerifyAsked(rounds(round + 1).verify))
            && (all.r.LoopDone? && all.r.passed && all.r.verdict != Pass && all.r.rounds == round ==>
                  ReviseAsked(false) in all.calls || rounds(round).opinion.TamperDetected?)
  {
    RoundOutcomes(rounds(round), exhaustedLogged, round);
    RevisionsAreCalls(rounds(round), exhaustedLogged, round);
    var e := Round(rounds(round), exhaustedLogged, round);
    if e.again {
      LoopIsLegal(rounds, exhaustedLogged, round + 1);
      RevisionsAreCalls(rounds(round + 1), exhaustedLogged, round + 1);
      NextRoundIsLater(rounds, exhaustedLogged, round + 1);
      var rest := Loop(rounds, exhaustedLogged, round + 1);
      assert (e.calls + rest.calls)[|e.calls|] == rest.calls[0];
    }
  }

  lemma NextRoundIsLater(rounds: nat -> RoundPlan, exhaustedLogged: bool, round: nat)
    requires 1 <= round <= MAX_REVIEW_ROUNDS
    ensures var all := Loop(rounds, exhaustedLogged, round);
            && all.calls != [] && all.calls[0] == VerifyAsked(rounds(round).verify)
            && (all.r.LoopDone? ==> all.r.rounds >= round)
  {
    RevisionsAreCalls(rounds(round), exhaustedLogged, round);
    if Loop(rounds, exhaustedLogged, round).r.LoopDone? {
      LoopEndsExactly(rounds, exhaustedLogged, round, Loop(rounds, exhaustedLogged, round).r);
    }
    var e := Round(rounds(round), exhaustedLogged, round);
    if e.again && round < MAX_REVIEW_ROUNDS {
      assert (e.calls + Loop(rounds, exhaustedLogged, round + 1).calls)[0] == e.calls[0];
    }
  }

  // ---- The part inside `try` ----

  predicate Complete(reply: Reply) {
    reply.hasBranch && reply.pr.Some? && reply.hasWorktree
  }

  /** A claimed SUCCESS on the right branch that can be put through the review loop. */
  predicate Reviewable(reply: Reply) {
    !reply.mismatch && reply.outcome == Success && Complete(reply)
  }

  /** `armed` is the program's own flag; `outcome` is None when something threw. */
  datatype Attempt = Attempt(reply: Option<Reply>, review: seq<ReviewEvent>, loop: Option<LoopResult>,
                             armTried: bool, armed: bool, needsHuman: bool, outcome: Option<Outcome>)

  const NOT_TRIED := Attempt(None, [], None, false, false, false, None)

  datatype TryEnd = TryEnd(attempt: Attempt, calls: seq<Call>)

  predicate LoopPassed(r: LoopResult) {
    r.LoopDone? && r.passed && r.verdict == Pass
  }

  /** Mechanical failure and FAIL reject, UNREADABLE goes to a human, PASS arms. */
  function JudgeAttempt(j: JudgePlan, reply: Reply, ev: seq<ReviewEvent>, loop: LoopResult): Attempt {
    var a := Attempt(Some(reply), ev, Some(loop), false, false, false, None);
    if loop.LoopThrew? || !j.gateLogged then a
    else if !loop.passed then (if j.commented then a.(outcome := Some(Rejected)) else a)
    else if !j.reviewLogged then a
    else
      match loop.verdict
      case Fail => if j.commented then a.(outcome := Some(Rejected)) else a
      case Unreadable => if j.commented then a.(needsHuman := true, outcome := Some(Unverified)) else a
      case Pass =>
        var clean := j.arm.ok && j.armLogged;
        a.(armTried := true, armed := j.arm.ok, needsHuman := !clean,
           outcome := if clean || j.armFailureLogged then Some(Success) else None)
  }

  function JudgeCalls(j: JudgePlan, pr: string, loop: LoopResult): seq<Call> {
    if loop.LoopThrew? then []
    else if !j.gateLogged then [Told(false)]
    else if !loop.passed then [Told(true), Told(j.commented)]
    else if !j.reviewLogged then [Told(true), Told(false)]
    else if loop.verdict != Pass then [Told(true), Told(true), Told(j.commented)]
    else [Told(true), Told(true)] + ArmCalls(j, pr)
  }

  function ArmCalls(j: JudgePlan, pr: string): seq<Call> {
    [ArmAsked(pr, j.arm)] + (if j.arm.ok then [Told(j.armLogged)] else []) +
    (if j.arm.ok && j.armLogged then [] else [Told(j.armFailureLogged)])
  }

  /** A log line, and a comment when there is a PR. */
  predicate ToldReturns(c: CommentPlan, pr: Option<string>) {
    c.logged && (pr.Some? ==> c.posted)
  }

  function ToldCalls(c: CommentPlan, pr: Option<string>): seq<Call> {
    [Told(c.logged)] + if c.logged && pr.Some? then [Told(c.posted)] else []
  }

  function Try(t: TryPlan): TryEnd {
    var reply, calls := ReplyOf(t), DispatchCalls(t);
    var a := NOT_TRIED.(reply := reply);
    if reply.None? then TryEnd(a, calls)
    else
      var r := reply.value;
      if r.mismatch then
        TryEnd(a.(needsHuman := true, outcome := if ToldReturns(t.told, r.pr) then Some(Outcome.Failed) else None),
               calls + ToldCalls(t.told, r.pr))
      else if Reviewable(r) then
        var loop := Loop(t.rounds, t.exhaustedLogged, 1);
        TryEnd(JudgeAttempt(t.judge, r, loop.ev, loop.r), calls + loop.calls + JudgeCalls(t.judge, r.pr.value, loop.r))
      else if r.outcome == Success then
        TryEnd(if ToldReturns(t.told, r.pr) then a.(needsHuman := true, outcome := Some(Success)) else a,
               calls + ToldCalls(t.told, r.pr))
      else TryEnd(a.(outcome := Some(r.outcome)), calls)
  }

  // ---- One dispatch ----

  function Base(item: WorkItem, lane: Lane, ts: int, outcome: Outcome): RunRecord {
    RunRecord(ts, lane.id, item.id, lane.engine, outcome, None)
  }

  /** The final row: FAILED after a throw, otherwise the outcome of the attempt. */
  function FinalRow(item: WorkItem, lane: Lane, ts: int, a: Attempt): RunRecord {
    if a.outcome.None? then Base(item, lane, ts, Outcome.Failed)
    else Base(item, lane, ts, a.outcome.value).(quotaResetAt :=
           if a.reply.Some? && !a.reply.value.mismatch && a.reply.value.outcome != Success
           then a.reply.value.quotaResetAt else None)
  }

  function PrOf(a: Attempt): Option<string> {
    if a.reply.Some? then a.reply.value.pr else None
  }

  /** Every path that came back with a PR and did not itself arm it disarms it. */
  predicate Disarms(a: Attempt) {
    PrOf(a).Some? && !a.armed
  }

  /** The pipeline reaches its final row unless the log line of a failed disarm throws. */
  predicate ReachesFinal(p: DispatchPlan, a: Attempt) {
    Disarms(a) && !p.disarm.ok ==> p.disarmLogged
  }

  /** `recorded` is the final row when it was appended; `escaped` an exception that left the
      pipeline itself. */
  datatype Dispatch = Dispatch(started: bool, attempt: Attempt, recorded: Option<RunRecord>, escaped: bool)

  function DispatchOf(p: DispatchPlan, item: WorkItem, lane: Lane, ts: int): Dispatch {
    var a := Try(p.try_).attempt;
    if !p.firstAppend then Dispatch(false, NOT_TRIED, None, true)
    else if !ReachesFinal(p, a) || !p.finalAppend then Dispatch(true, a, None, true)
    else Dispatch(true, a, Some(FinalRow(item, lane, ts, a)), !p.settle && !p.settleLogged)
  }

  function DisarmCalls(p: DispatchPlan, a: Attempt): seq<Call> {
    if !Disarms(a) then []
    else [DisarmAsked(PrOf(a).value, p.disarm)] + if p.disarm.ok then [] else [Told(p.disarmLogged)]
  }

  function SettleCalls(p: DispatchPlan, a: Attempt, final: RunRecord): seq<Call> {
    [SettleAsked(final.outcome, a.needsHuman, p.settle)] + if p.settle then [] else [Told(p.settleLogged)]
  }

  /** The final row, and the settle once it is appended. */
  function BookCalls(p: DispatchPlan, a: Attempt, final: RunRecord): seq<Call> {
    if !ReachesFinal(p, a) then []
    else [Appended(final, p.finalAppend)] + if p.finalAppend then SettleCalls(p, a, final) else []
  }

  /** After the `try`: the disarm, then the books. */
  function EndCalls(p: DispatchPlan, a: Attempt, final: RunRecord): seq<Call> {
    DisarmCalls(p, a) + BookCalls(p, a, final)
  }

  function PipelineCalls(p: DispatchPlan, item: WorkItem, lane: Lane, ts: int): seq<Call> {
    [Appended(Base(item, lane, ts, Dispatched), p.firstAppend)] +
    if !p.firstAppend then []
    else
      var e := Try(p.try_);
      e.calls + EndCalls(p, e.attempt, FinalRow(item, lane, ts, e.attempt))
  }

  // ---- What a trace of calls did ----

  /** The rows its appends left in the ledger. */
  function RowsOfCalls(calls: seq<Call>): seq<RunRecord> {
    if calls == [] then []
    else
      var last := calls[|calls| - 1];
      RowsOfCalls(calls[..|calls| - 1]) + if last.Appended? && last.ok then [last.row] else []
  }

  /** The armed PRs after it. */
  function ArmedAfter(before: set<string>, calls: seq<Call>): set<string> {
    if calls == [] then before
    else
      var last, armed := calls[|calls| - 1], ArmedAfter(before, calls[..|calls| - 1]);
      if last.ArmAsked? && Took(last.ask) then armed + {last.pr}
      else if last.DisarmAsked? && Took(last.ask) then armed - {last.pr}
      else armed
  }

  function SettlesIn(calls: seq<Call>): nat {
    if calls == [] then 0
    else SettlesIn(calls[..|calls| - 1]) + if calls[|calls| - 1].SettleAsked? then 1 else 0
  }

  lemma {:induction false} RowsOfCallsConcat(a: seq<Call>, b: seq<Call>)
    ensures RowsOfCalls(a + b) == RowsOfCalls(a) + RowsOfCalls(b)
    decreases |b|
  {
    if b == [] {
      assert a + b == a;
    } else {
      var init, last := b[..|b| - 1], b[|b| - 1];
      assert a + b == (a + init) + [last];
      InitOfSnoc(a + init, last);
      RowsOfCallsConcat(a, init);
    }
  }

  lemma {:induction false} ArmedAfterConcat(before: set<string>, a: seq<Call>, b: seq<Call>)
    ensures ArmedAfter(before, a + b) == ArmedAfter(ArmedAfter(before, a), b)
    decreases |b|
  {
    if b == [] {
      assert a + b == a;
    } else {
      var init, last := b[..|b| - 1], b[|b| - 1];
      assert a + b == (a + init) + [last];
      InitOfSnoc(a + init, last);
      ArmedAfterConcat(before, a, init);
    }
  }

  lemma {:induction false} SettlesInConcat(a: seq<Call>, b: seq<Call>)
    ensures SettlesIn(a + b) == SettlesIn(a) + SettlesIn(b)
    decreases |b|
  {
    if b == [] {
      assert a + b == a;
    } else {
      var init, last := b[..|b| - 1], b[|b| - 1];
      assert a + b == (a + init) + [last];
      InitOfSnoc(a + init, last);
      SettlesInConcat(a, init);
    }
  }

  /** Calls that keep no books: no row, no disarm, no settle. */
  ghost predicate Inner(calls: seq<Call>) {
    forall c :: c in calls ==> !c.Appended? && !c.DisarmAsked? && !c.SettleAsked?
  }

  /** Calls that ask for no arming either. */
  ghost predicate ArmsNothing(calls: seq<Call>) {
    Inner(calls) && forall c :: c in calls ==> !c.ArmAsked?
  }

  lemma {:induction false} InnerKeepsNoBooks(calls: seq<Call>, before: set<string>)
    requires Inner(calls)
    ensures RowsOfCalls(calls) == [] && SettlesIn(calls) == 0
    ensures ArmsNothing(calls) ==> ArmedAfter(before, calls) == before
  {
    if calls != [] { InnerKeepsNoBooks(calls[..|calls| - 1], before); }
  }

  lemma CommentArmsNothing(c: CommentPlan)
    ensures ArmsNothing(CommentCalls(c))
  {
  }

  lemma AfterOpinionArmsNothing(p: RoundPlan, exhaustedLogged: bool, round: nat, verdict: Verdict, c2: seq<Call>)
    requires ArmsNothing(c2)
    ensures ArmsNothing(AfterOpinion(p, exhaustedLogged, round, verdict, c2).calls)
  {
    CommentArmsNothing(p.comment);
    var c3 := PostCalls(p, verdict, c2);
    assert ArmsNothing(c3) && ArmsNothing(SendCalls(p, c3));
  }

  lemma RoundArmsNothing(p: RoundPlan, exhaustedLogged: bool, round: nat)
    ensures ArmsNothing(Round(p, exhaustedLogged, round).calls)
  {
    var c1 := [VerifyAsked(p.verify)];
    var c2 := c1 + [Told(true)] + [OpinionAsked(p.opinion)];
    assert ArmsNothing(c1) && ArmsNothing(c2);
    CommentArmsNothing(p.comment);
    if p.opinion.Said? { AfterOpinionArmsNothing(p, exhaustedLogged, round, p.opinion.verdict, c2); }
  }

  lemma {:induction false} LoopArmsNothing(rounds: nat -> RoundPlan, exhaustedLogged: bool, round: nat)
    ensures ArmsNothing(Loop(rounds, exhaustedLogged, round).calls)
    decreases MAX_REVIEW_ROUNDS - round
  {
    var first := Round(rounds(round), exhaustedLogged, round);
    RoundArmsNothing(rounds(round), exhaustedLogged, round);
    if first.again && round < MAX_REVIEW_ROUNDS {
      LoopArmsNothing(rounds, exhaustedLogged, round + 1);
      assert Loop(rounds, exhaustedLogged, round).calls == first.calls + Loop(rounds, exhaustedLogged, round + 1).calls;
    }
  }

  // ---- Which PRs a dispatch leaves armed ----

  /** The PR whose arming at open took effect. */
  function OpenArmed(t: TryPlan): Option<string> {
    if t.work.Some? && ArmsAtOpen(t.work.value.pr, t.eligible, t.work.value.mismatch) && Took(t.open.arm)
    then t.work.value.pr else None
  }

  /** The PR whose arming after the review took effect. */
  function JudgeArmed(t: TryPlan): Option<string> {
    var a := Try(t).attempt;
    if a.armTried && Took(t.judge.arm) then PrOf(a) else None
  }

  function AsSet(pr: Option<string>): set<string> {
    if pr.Some? then {pr.value} else {}
  }

  lemma OneCall(before: set<string>, c: Call)
    ensures ArmedAfter(before, [c]) == if c.ArmAsked? && Took(c.ask) then before + {c.pr}
                                       else if c.DisarmAsked? && Took(c.ask) then before - {c.pr} else before
    ensures RowsOfCalls([c]) == if c.Appended? && c.ok then [c.row] else []
    ensures SettlesIn([c]) == if c.SettleAsked? then 1 else 0
  {
    var none: seq<Call> := [];
    InitOfSnoc(none, c);
    assert none + [c] == [c];
    assert ArmedAfter(before, none) == before && RowsOfCalls(none) == [] && SettlesIn(none) == 0;
  }

  /** A request followed by calls that arm nothing. */
  lemma OneAsk(before: set<string>, pr: string, ask: Ask, rest: seq<Call>)
    requires ArmsNothing(rest)
    ensures Inner([ArmAsked(pr, ask)] + rest)
    ensures ArmedAfter(before, [ArmAsked(pr, ask)] + rest) == before + if Took(ask) then {pr} else {}
  {
    ArmedAfterConcat(before, [ArmAsked(pr, ask)], rest);
    OneCall(before, ArmAsked(pr, ask));
    InnerKeepsNoBooks(rest, ArmedAfter(before, [ArmAsked(pr, ask)]));
  }

  lemma OpenCallsArm(o: OpenPlan, pr: Option<string>, eligible: bool, mismatch: bool, before: set<string>)
    ensures Inner(OpenCalls(o, pr, eligible, mismatch))
    ensures ArmedAfter(before, OpenCalls(o, pr, eligible, mismatch)) ==
            before + if ArmsAtOpen(pr, eligible, mismatch) && Took(o.arm) then {pr.value} else {}
  {
    if ArmsAtOpen(pr, eligible, mismatch) {
      var rest := (if o.arm.ok then [Told(o.logged)] else []) + (if o.arm.ok && o.logged then [] else [Told(o.loggedFailure)]);
      OneAsk(before, pr.value, o.arm, rest);
      Associative([ArmAsked(pr.value, o.arm)], if o.arm.ok then [Told(o.logged)] else [],
                  if o.arm.ok && o.logged then [] else [Told(o.loggedFailure)]);
    } else {
      InnerKeepsNoBooks(OpenCalls(o, pr, eligible, mismatch), before);
    }
  }

  lemma DispatchCallsArm(t: TryPlan, before: set<string>)
    ensures Inner(DispatchCalls(t)) && ArmedAfter(before, DispatchCalls(t)) == before + AsSet(OpenArmed(t))
  {
    if t.work.None? {
      OneCall(before, WorkerRan(None));
    } else {
      var r := t.work.value.(outcome := StatusOutcome(t.work.value.outcome));
      OneCall(before, WorkerRan(Some(r)));
      OpenCallsArm(t.open, r.pr, t.eligible, r.mismatch, before);
      ArmedAfterConcat(before, [WorkerRan(Some(r))], OpenCalls(t.open, r.pr, t.eligible, r.mismatch));
    }
  }

  /** A passed review, reached past both log lines, is the one way to the arming. */
  predicate TriesArming(j: JudgePlan, loop: LoopResult) {
    LoopPassed(loop) && j.gateLogged && j.reviewLogged
  }

  lemma JudgeTries(j: JudgePlan, reply: Reply, ev: seq<ReviewEvent>, loop: LoopResult)
    ensures JudgeAttempt(j, reply, ev, loop).armTried <==> TriesArming(j, loop)
    ensures PrOf(JudgeAttempt(j, reply, ev, loop)) == reply.pr
  {
  }

  lemma ArmCallsArm(j: JudgePlan, pr: string, before: set<string>)
    ensures Inner(ArmCalls(j, pr))
    ensures ArmedAfter(before, ArmCalls(j, pr)) == before + if Took(j.arm) then {pr} else {}
  {
    var first := if j.arm.ok then [Told(j.armLogged)] else [];
    var second := if j.arm.ok && j.armLogged then [] else [Told(j.armFailureLogged)];
    assert ArmsNothing(first + second);
    OneAsk(before, pr, j.arm, first + second);
    Associative([ArmAsked(pr, j.arm)], first, second);
  }

  lemma JudgeCallsArm(j: JudgePlan, pr: string, loop: LoopResult, before: set<string>)
    ensures Inner(JudgeCalls(j, pr, loop))
    ensures ArmedAfter(before, JudgeCalls(j, pr, loop)) == before + if TriesArming(j, loop) && Took(j.arm) then {pr} else {}
  {
    if TriesArming(j, loop) {
      var logs := [Told(true), Told(true)];
      ArmCallsArm(j, pr, before);
      assert ArmsNothing(logs);
      InnerKeepsNoBooks(logs, before);
      ArmedAfterConcat(before, logs, ArmCalls(j, pr));
      InnerConcat(logs, ArmCalls(j, pr));
    } else {
      assert ArmsNothing(JudgeCalls(j, pr, loop));
      InnerKeepsNoBooks(JudgeCalls(j, pr, loop), before);
    }
  }

  lemma InnerConcat(a: seq<Call>, b: seq<Call>)
    requires Inner(a) && Inner(b)
    ensures Inner(a + b)
  {
  }

  lemma ReviewedCallsArm(t: TryPlan, pr: string, calls: seq<Call>, before: set<string>)
    requires Inner(calls)
    ensures var loop := Loop(t.rounds, t.exhaustedLogged, 1);
            var all := calls + loop.calls + JudgeCalls(t.judge, pr, loop.r);
            && Inner(all)
            && ArmedAfter(before, all) ==
                 ArmedAfter(before, calls) + if TriesArming(t.judge, loop.r) && Took(t.judge.arm) then {pr} else {}
  {
    var loop := Loop(t.rounds, t.exhaustedLogged, 1);
    var judged := JudgeCalls(t.judge, pr, loop.r);
    var armed := ArmedAfter(before, calls);
    LoopArmsNothing(t.rounds, t.exhaustedLogged, 1);
    InnerKeepsNoBooks(loop.calls, armed);
    ArmedAfterConcat(before, calls, loop.calls);
    JudgeCallsArm(t.judge, pr, loop.r, armed);
    ArmedAfterConcat(before, calls + loop.calls, judged);
    InnerConcat(calls, loop.calls);
    InnerConcat(calls + loop.calls, judged);
  }

  lemma ToldCallsArm(c: CommentPlan, pr: Option<string>, calls: seq<Call>, before: set<string>)
    requires Inner(calls)
    ensures Inner(calls + ToldCalls(c, pr)) && ArmedAfter(before, calls + ToldCalls(c, pr)) == ArmedAfter(before, calls)
  {
    assert ArmsNothing(ToldCalls(c, pr));
    InnerKeepsNoBooks(ToldCalls(c, pr), ArmedAfter(before, calls));
    ArmedAfterConcat(before, calls, ToldCalls(c, pr));
    InnerConcat(calls, ToldCalls(c, pr));
  }

  /** The part inside `try` keeps no books and arms at most what it asked for. */
  lemma TryArms(t: TryPlan, before: set<string>)
    ensures Inner(Try(t).calls)
    ensures ArmedAfter(before, Try(t).calls) == before + AsSet(OpenArmed(t)) + AsSet(JudgeArmed(t))
  {
    var reply, calls := ReplyOf(t), DispatchCalls(t);
    DispatchCallsArm(t, before);
    if reply.Some? {
      var r := reply.value;
      if r.mismatch || (!Reviewable(r) && r.outcome == Success) {
        ToldCallsArm(t.told, r.pr, calls, before);
      } else if Reviewable(r) {
        var loop := Loop(t.rounds, t.exhaustedLogged, 1);
        ReviewedCallsArm(t, r.pr.value, calls, before);
        JudgeTries(t.judge, r, loop.ev, loop.r);
      }
    }
  }

  // ---- What the attempt is recorded as ----

  /** The outcome recorded when nothing threw. */
  ghost function OutcomeOf(reply: Reply, loop: Option<LoopResult>): Outcome {
    if reply.mismatch then Outcome.Failed
    else if !Reviewable(reply) then reply.outcome
    else if loop.None? || loop.value.LoopThrew? || !loop.value.passed || loop.value.verdict == Fail then Rejected
    else if loop.value.verdict == Unreadable then Unverified
    else Success
  }

  /** Everything the `try` part may have come to, whatever threw and wherever. */
  ghost predicate LegalAttempt(a: Attempt) {
    && (a.reply.None? ==> a.loop.None? && a.outcome.None?)
    && (a.reply.Some? ==> a.reply.value.outcome == StatusOutcome(a.reply.value.outcome))
    && (a.loop.None? ==> a.review == [] && !a.armTried)
    && (a.loop.Some? ==> a.reply.Some? && Reviewable(a.reply.value) && LoopTrace(1, a.review, a.loop.value))
    && (a.armed ==> a.armTried)
    && (a.armTried ==> LoopPassed(a.loop.value))
    && (a.outcome.Some? ==>
          && (Reviewable(a.reply.value) ==> a.loop.Some? && a.loop.value.LoopDone?)
          && (a.loop.Some? && LoopPassed(a.loop.value) ==> a.armTried)
          && a.outcome.value == OutcomeOf(a.reply.value, a.loop))
  }

  /** When nothing threw, exactly these attempts hand the item to a human: the wrong branch, a
      claimed SUCCESS that cannot be verified, no verdict, and an arming that did not go through
      cleanly. */
  ghost predicate NeedsHuman(t: TryPlan, a: Attempt)
    requires a.reply.Some?
  {
    || a.reply.value.mismatch
    || (a.reply.value.outcome == Success && !Complete(a.reply.value))
    || (a.outcome == Some(Unverified))
    || (a.armTried && !(t.judge.arm.ok && t.judge.armLogged))
  }

  lemma JudgeIsLegal(j: JudgePlan, reply: Reply, ev: seq<ReviewEvent>, loop: LoopResult)
    requires Reviewable(reply) && reply.outcome == StatusOutcome(reply.outcome) && LoopTrace(1, ev, loop)
    ensures LegalAttempt(JudgeAttempt(j, reply, ev, loop))
  {
    if loop.LoopDone? { PassWasVerifiedAndReviewed(1, ev, loop); }
  }

  lemma JudgeHandsOver(j: JudgePlan, reply: Reply, ev: seq<ReviewEvent>, loop: LoopResult)
    ensures var a := JudgeAttempt(j, reply, ev, loop);
            a.outcome.Some? ==> (a.needsHuman <==> a.outcome == Some(Unverified) || (a.armTried && !(j.arm.ok && j.armLogged)))
  {
  }

  lemma AttemptIsLegal(t: TryPlan)
    ensures LegalAttempt(Try(t).attempt)
  {
    var reply := ReplyOf(t);
    if reply.Some? && Reviewable(reply.value) {
      var loop := Loop(t.rounds, t.exhaustedLogged, 1);
      LoopIsLegal(t.rounds, t.exhaustedLogged, 1);
      JudgeIsLegal(t.judge, reply.value, loop.ev, loop.r);
    }
  }

  lemma HandsOverExactly(t: TryPlan)
    ensures var a := Try(t).attempt;
            a.outcome.Some? ==> a.reply.Some? && (a.needsHuman <==> NeedsHuman(t, a))
  {
    var reply := ReplyOf(t);
    if reply.Some? && Reviewable(reply.value) {
      var loop := Loop(t.rounds, t.exhaustedLogged, 1);
      JudgeHandsOver(t.judge, reply.value, loop.ev, loop.r);
    }
  }

  /** The final row is never a DISPATCHED or a SHADOW row, so the rate of dispatches is the
      rate of first rows. */
  lemma FinalRowIsTerminal(item: WorkItem, lane: Lane, ts: int, t: TryPlan)
    ensures var final := FinalRow(item, lane, ts, Try(t).attempt);
            && final.outcome != Dispatched && final.outcome != Shadow
            && final.itemId == item.id && final.lane == lane.id && final.ts == ts
  {
    AttemptIsLegal(t);
  }

  // ---- When nothing throws ----

  /** A call that threw, and whose exception nothing on the way catches. */
  predicate Threw(c: Call) {
    || FailedCall(c)
    || c == WorkerRan(None) || c == VerifyAsked(None) || c == OpinionAsked(OpinionThrew) || (c.HaltAsked? && !c.ok)
  }

  ghost predicate EndsInThrow(calls: seq<Call>) {
    calls != [] && Threw(calls[|calls| - 1])
  }

  lemma LastCallDecides(a: seq<Call>, b: seq<Call>)
    ensures EndsInThrow(a + b) <==> if b == [] then EndsInThrow(a) else EndsInThrow(b)
  {
    LastOfConcat(a, b);
  }

  lemma OpenThrows(o: OpenPlan, pr: Option<string>, eligible: bool, mismatch: bool)
    ensures EndsInThrow(OpenCalls(o, pr, eligible, mismatch)) <==> !OpenReturns(o, pr, eligible, mismatch)
  {
  }

  lemma DispatchThrows(t: TryPlan)
    ensures DispatchCalls(t) != [] && (EndsInThrow(DispatchCalls(t)) <==> ReplyOf(t).None?)
  {
    if t.work.Some? {
      var r := t.work.value.(outcome := StatusOutcome(t.work.value.outcome));
      OpenThrows(t.open, r.pr, t.eligible, r.mismatch);
      LastCallDecides([WorkerRan(Some(r))], OpenCalls(t.open, r.pr, t.eligible, r.mismatch));
    }
  }

  lemma PostThrows(p: RoundPlan, verdict: Verdict, c2: seq<Call>)
    ensures PostCalls(p, verdict, c2) != [] && (EndsInThrow(PostCalls(p, verdict, c2)) <==> !PostReturns(p, verdict))
  {
    if p.posted && verdict == Unreadable { LastCallDecides(c2 + [Told(true)], CommentCalls(p.comment)); }
  }

  lemma TamperThrows(p: RoundPlan, detail: string, c2: seq<Call>)
    ensures EndsInThrow(TamperCalls(p, detail, c2)) <==> !(p.halt && p.tamperLogged && CommentReturns(p.comment))
  {
    var c3 := c2 + [HaltAsked(TAMPER_PREFIX + detail, p.halt)];
    if p.halt && p.tamperLogged { LastCallDecides(c3 + [Told(true)], CommentCalls(p.comment)); }
  }

  lemma RoundThrows(p: RoundPlan, exhaustedLogged: bool, round: nat)
    ensures var e := Round(p, exhaustedLogged, round);
            e.calls != [] && (EndsInThrow(e.calls) <==> !e.again && e.r.LoopThrew?)
  {
    var c2 := [VerifyAsked(p.verify)] + [Told(true)] + [OpinionAsked(p.opinion)];
    if p.verify == Some(true) && p.diff {
      match p.opinion
      case OpinionThrew =>
      case TamperDetected(detail) => TamperThrows(p, detail, c2);
      case Said(verdict) => PostThrows(p, verdict, c2);
    }
  }

  lemma {:induction false} LoopThrows(rounds: nat -> RoundPlan, exhaustedLogged: bool, round: nat)
    requires 1 <= round <= MAX_REVIEW_ROUNDS
    ensures var e := Loop(rounds, exhaustedLogged, round);
            e.calls != [] && (EndsInThrow(e.calls) <==> e.r.LoopThrew?)
    decreases MAX_REVIEW_ROUNDS - round
  {
    RoundThrows(rounds(round), exhaustedLogged, round);
    RoundIsLegal(rounds(round), exhaustedLogged, round);
    var first := Round(rounds(round), exhaustedLogged, round);
    if first.again {
      LoopThrows(rounds, exhaustedLogged, round + 1);
      LastCallDecides(first.calls, Loop(rounds, exhaustedLogged, round + 1).calls);
    }
  }

  lemma JudgeThrows(j: JudgePlan, reply: Reply, ev: seq<ReviewEvent>, loop: LoopResult, pr: string)
    ensures var a, calls := JudgeAttempt(j, reply, ev, loop), JudgeCalls(j, pr, loop);
            && (loop.LoopThrew? <==> calls == [])
            && (loop.LoopDone? ==> (EndsInThrow(calls) <==> a.outcome.None?))
  {
    if TriesArming(j, loop) { LastCallDecides([Told(true), Told(true)], ArmCalls(j, pr)); }
  }

  /** A dispatch counts as thrown, and is recorded FAILED for it, if and only if its very last call
      threw: no outcome is lost, and none is made up. */
  lemma ThrownIsTheLastCall(t: TryPlan)
    ensures Try(t).attempt.outcome.None? <==> EndsInThrow(Try(t).calls)
  {
    var reply, calls := ReplyOf(t), DispatchCalls(t);
    DispatchThrows(t);
    if reply.Some? {
      var r := reply.value;
      if r.mismatch || (!Reviewable(r) && r.outcome == Success) {
        ToldThrows(t, r, calls);
      } else if Reviewable(r) {
        ReviewedThrows(t, r, calls);
      }
    }
  }

  lemma ToldThrows(t: TryPlan, r: Reply, calls: seq<Call>)
    ensures EndsInThrow(calls + ToldCalls(t.told, r.pr)) <==> !ToldReturns(t.told, r.pr)
  {
    LastCallDecides(calls, ToldCalls(t.told, r.pr));
  }

  lemma ReviewedThrows(t: TryPlan, r: Reply, calls: seq<Call>)
    requires r.pr.Some?
    ensures var loop := Loop(t.rounds, t.exhaustedLogged, 1);
            EndsInThrow(calls + loop.calls + JudgeCalls(t.judge, r.pr.value, loop.r)) <==>
              JudgeAttempt(t.judge, r, loop.ev, loop.r).outcome.None?
  {
    var loop := Loop(t.rounds, t.exhaustedLogged, 1);
    LoopThrows(t.rounds, t.exhaustedLogged, 1);
    JudgeThrows(t.judge, r, loop.ev, loop.r, r.pr.value);
    LastCallDecides(calls, loop.calls);
    LastCallDecides(calls + loop.calls, JudgeCalls(t.judge, r.pr.value, loop.r));
  }

  /** At PR open auto-merge is asked for exactly on a PR that was opened, on the right branch, and
      eligible; once. */
  lemma ArmsAtOpenExactly(t: TryPlan, pr: string, ask: Ask)
    ensures ArmAsked(pr, ask) in DispatchCalls(t) <==>
              t.work.Some? && t.work.value.pr == Some(pr) && !t.work.value.mismatch && t.eligible && ask == t.open.arm
  {
    if t.work.Some? {
      var r := t.work.value.(outcome := StatusOutcome(t.work.value.outcome));
      var opening := OpenCalls(t.open, r.pr, t.eligible, r.mismatch);
      assert forall c :: c in DispatchCalls(t) <==> c == WorkerRan(Some(r)) || c in opening;
    }
  }

  /** What the worker reported is what is recorded, when it did not claim SUCCESS and its branch was
      right: BLOCKED and QUOTA as they are, with the reset time; anything that is no terminal
      status as FAILED. */
  lemma WorkerOutcomeIsRecorded(item: WorkItem, lane: Lane, ts: int, t: TryPlan)
    requires t.work.Some? && !t.work.value.mismatch && t.work.value.outcome != Success && ReplyOf(t).Some?
    ensures var w, row := t.work.value, FinalRow(item, lane, ts, Try(t).attempt);
            && row.outcome == (if w.outcome == Blocked then Blocked else if w.outcome == Quota then Quota else Outcome.Failed)
            && row.quotaResetAt == w.quotaResetAt
  {
  }

  /** And what was recorded for a claimed SUCCESS: SUCCESS only if it could not be put through the
      loop at all or the loop passed it; a wrong branch is FAILED. */
  lemma ClaimedSuccessIsRecorded(item: WorkItem, lane: Lane, ts: int, t: TryPlan)
    requires Try(t).attempt.outcome.Some? && t.work.Some? && t.work.value.outcome == Success
    ensures var w, a := t.work.value, Try(t).attempt;
            var row := FinalRow(item, lane, ts, a);
            && (w.mismatch ==> row.outcome == Outcome.Failed)
            && (!w.mismatch && !(w.hasBranch && w.pr.Some? && w.hasWorktree) ==> row.outcome == Success && a.needsHuman && a.review == [])
            && (!w.mismatch && w.hasBranch && w.pr.Some? && w.hasWorktree ==>
                  var loop := Loop(t.rounds, t.exhaustedLogged, 1).r;
                  && loop.LoopDone?
                  && row.outcome == if !loop.passed || loop.verdict == Fail then Rejected
                                    else if loop.verdict == Unreadable then Unverified else Success)
  {
    AttemptIsLegal(t);
  }

  // ---- Conservation of work ----

  /** Both appends worked, and so did the log line of the disarm if that failed. */
  predicate Kept(p: DispatchPlan) {
    p.firstAppend && p.finalAppend &&
    (Disarms(Try(p.try_).attempt) && !p.disarm.ok ==> p.disarmLogged)
  }

  lemma SettleCallsSettle(p: DispatchPlan, a: Attempt, final: RunRecord)
    ensures RowsOfCalls(SettleCalls(p, a, final)) == [] && SettlesIn(SettleCalls(p, a, final)) == 1
  {
    var first, rest := SettleAsked(final.outcome, a.needsHuman, p.settle), if p.settle then [] else [Told(p.settleLogged)];
    OneCall({}, first);
    NoRowsNoSettles(rest);
    RowsOfCallsConcat([first], rest);
    SettlesInConcat([first], rest);
  }

  lemma BookCallsKeepBooks(p: DispatchPlan, a: Attempt, final: RunRecord)
    ensures var kept := ReachesFinal(p, a) && p.finalAppend;
            && RowsOfCalls(BookCalls(p, a, final)) == (if kept then [final] else [])
            && SettlesIn(BookCalls(p, a, final)) == (if kept then 1 else 0)
  {
    if ReachesFinal(p, a) {
      var first, rest := Appended(final, p.finalAppend), if p.finalAppend then SettleCalls(p, a, final) else [];
      OneCall({}, first);
      SettleCallsSettle(p, a, final);
      RowsOfCallsConcat([first], rest);
      SettlesInConcat([first], rest);
    }
  }

  lemma DisarmCallsKeepNoBooks(p: DispatchPlan, a: Attempt)
    ensures RowsOfCalls(DisarmCalls(p, a)) == [] && SettlesIn(DisarmCalls(p, a)) == 0
  {
    NoRowsNoSettles(DisarmCalls(p, a));
  }

  lemma EndKeepsBooks(p: DispatchPlan, a: Attempt, final: RunRecord)
    ensures var kept := ReachesFinal(p, a) && p.finalAppend;
            && RowsOfCalls(EndCalls(p, a, final)) == (if kept then [final] else [])
            && SettlesIn(EndCalls(p, a, final)) == (if kept then 1 else 0)
  {
    DisarmCallsKeepNoBooks(p, a);
    BookCallsKeepBooks(p, a, final);
    RowsOfCallsConcat(DisarmCalls(p, a), BookCalls(p, a, final));
    SettlesInConcat(DisarmCalls(p, a), BookCalls(p, a, final));
    assert EndCalls(p, a, final) == DisarmCalls(p, a) + BookCalls(p, a, final);
    assert [] + RowsOfCalls(BookCalls(p, a, final)) == RowsOfCalls(BookCalls(p, a, final));
  }

  lemma {:induction false} NoRowsNoSettles(calls: seq<Call>)
    requires forall c :: c in calls ==> !c.Appended? && !c.SettleAsked?
    ensures RowsOfCalls(calls) == [] && SettlesIn(calls) == 0
  {
    if calls != [] { NoRowsNoSettles(calls[..|calls| - 1]); }
  }

  /** For every pattern of throws: the DISPATCHED row is asked for before the worker runs, and
      nothing else happens if that fails; then exactly one final row and one settle, if and only if
      both appends, and the log line of a failed disarm, work. */
  lemma WorkIsConserved(p: DispatchPlan, item: WorkItem, lane: Lane, ts: int)
    ensures var calls := PipelineCalls(p, item, lane, ts);
            var final := FinalRow(item, lane, ts, Try(p.try_).attempt);
            && calls[0] == Appended(Base(item, lane, ts, Dispatched), p.firstAppend)
            && (!p.firstAppend ==> |calls| == 1)
            && RowsOfCalls(calls) == (if p.firstAppend then [Base(item, lane, ts, Dispatched)] else []) + (if Kept(p) then [final] else [])
            && SettlesIn(calls) == (if Kept(p) then 1 else 0)
            && (DispatchOf(p, item, lane, ts).recorded == if Kept(p) then Some(final) else None)
  {
    var first := Appended(Base(item, lane, ts, Dispatched), p.firstAppend);
    OneCall({}, first);
    if p.firstAppend {
      var e := Try(p.try_);
      var end := EndCalls(p, e.attempt, FinalRow(item, lane, ts, e.attempt));
      TryArms(p.try_, {});
      EndKeepsBooks(p, e.attempt, FinalRow(item, lane, ts, e.attempt));
      BooksAround(first, e.calls, end);
    } else {
      assert PipelineCalls(p, item, lane, ts) == [first];
    }
  }

  predicate FailedCall(c: Call) {
    c == Told(false) || (c.Appended? && !c.ok)
  }

  /** An exception leaves the pipeline only from its very last call. */
  lemma EscapeIsTheEnd(p: DispatchPlan, item: WorkItem, lane: Lane, ts: int)
    ensures var d, calls := DispatchOf(p, item, lane, ts), PipelineCalls(p, item, lane, ts);
            d.escaped <==> FailedCall(calls[|calls| - 1])
  {
    var e := Try(p.try_);
    var final := FinalRow(item, lane, ts, e.attempt);
    if p.firstAppend {
      var end := EndCalls(p, e.attempt, final);
      if ReachesFinal(p, e.attempt) {
        var books := BookCalls(p, e.attempt, final);
        LastOfConcat(DisarmCalls(p, e.attempt), books);
      }
      LastOfConcat(e.calls, end);
      LastOfConcat([Appended(Base(item, lane, ts, Dispatched), true)], e.calls + end);
    }
  }

  lemma LastOfConcat(a: seq<Call>, b: seq<Call>)
    ensures b != [] ==> (a + b)[|a + b| - 1] == b[|b| - 1]
    ensures b == [] ==> a + b == a
  {
  }

  /** Inner calls between two others add nothing to the books. */
  lemma BooksAround(first: Call, inner: seq<Call>, end: seq<Call>)
    requires Inner(inner)
    ensures RowsOfCalls([first] + (inner + end)) == RowsOfCalls([first]) + RowsOfCalls(end)
    ensures SettlesIn([first] + (inner + end)) == SettlesIn([first]) + SettlesIn(end)
  {
    InnerKeepsNoBooks(inner, {});
    RowsOfCallsConcat(inner, end);
    SettlesInConcat(inner, end);
    RowsOfCallsConcat([first], inner + end);
    SettlesInConcat([first], inner + end);
    assert RowsOfCalls(inner) + RowsOfCalls(end) == RowsOfCalls(end);
  }

  /** The settle is asked for right after the final row is appended, with the outcome recorded. */
  lemma SettleFollowsFinalRow(p: DispatchPlan, item: WorkItem, lane: Lane, ts: int)
    requires Kept(p)
    ensures var a, calls := Try(p.try_).attempt, PipelineCalls(p, item, lane, ts);
            var final := FinalRow(item, lane, ts, a);
            exists k :: 0 <= k < |calls| - 1 && calls[k] == Appended(final, true) &&
                        calls[k + 1] == SettleAsked(final.outcome, a.needsHuman, p.settle)
  {
    var e := Try(p.try_);
    var final := FinalRow(item, lane, ts, e.attempt);
    var books := BookCalls(p, e.attempt, final);
    var before := [Appended(Base(item, lane, ts, Dispatched), true)] + (e.calls + DisarmCalls(p, e.attempt));
    var calls := PipelineCalls(p, item, lane, ts);
    Associative(e.calls, DisarmCalls(p, e.attempt), books);
    Associative([Appended(Base(item, lane, ts, Dispatched), true)], e.calls + DisarmCalls(p, e.attempt), books);
    assert calls == before + books;
    assert calls[|before|] == books[0] && calls[|before| + 1] == books[1];
  }

  // ---- Auto-merge safety ----

  /** What is armed after a dispatch. */
  function ArmedAfterDispatch(before: set<string>, p: DispatchPlan, item: WorkItem, lane: Lane, ts: int): set<string> {
    ArmedAfter(before, PipelineCalls(p, item, lane, ts))
  }

  lemma DisarmCallsDisarm(p: DispatchPlan, a: Attempt, before: set<string>)
    ensures ArmedAfter(before, DisarmCalls(p, a)) == if Disarms(a) && Took(p.disarm) then before - {PrOf(a).value} else before
  {
    if Disarms(a) {
      var asked := DisarmAsked(PrOf(a).value, p.disarm);
      var logged := if p.disarm.ok then [] else [Told(p.disarmLogged)];
      OneCall(before, asked);
      ArmedAfterConcat(before, [asked], logged);
      NeitherArmsNorDisarms(logged, ArmedAfter(before, [asked]));
    }
  }

  lemma BookCallsArmNothing(p: DispatchPlan, a: Attempt, final: RunRecord, before: set<string>)
    ensures ArmedAfter(before, BookCalls(p, a, final)) == before
  {
    var settling := SettleCalls(p, a, final);
    assert forall c :: c in settling ==> c.SettleAsked? || c.Told?;
    NeitherArmsNorDisarms(BookCalls(p, a, final), before);
  }

  lemma EndDisarms(p: DispatchPlan, a: Attempt, final: RunRecord, before: set<string>)
    ensures ArmedAfter(before, EndCalls(p, a, final)) ==
            if Disarms(a) && Took(p.disarm) then before - {PrOf(a).value} else before
  {
    ArmedAfterConcat(before, DisarmCalls(p, a), BookCalls(p, a, final));
    DisarmCallsDisarm(p, a, before);
    BookCallsArmNothing(p, a, final, ArmedAfter(before, DisarmCalls(p, a)));
  }

  lemma {:induction false} NeitherArmsNorDisarms(calls: seq<Call>, before: set<string>)
    requires forall c :: c in calls ==> !c.ArmAsked? && !c.DisarmAsked?
    ensures ArmedAfter(before, calls) == before
  {
    if calls != [] { NeitherArmsNorDisarms(calls[..|calls| - 1], before); }
  }

  /** Exactly what a started dispatch leaves armed, for every pattern of throws. */
  lemma ArmedExactly(before: set<string>, p: DispatchPlan, item: WorkItem, lane: Lane, ts: int)
    ensures var a := Try(p.try_).attempt;
            var tried := before + AsSet(OpenArmed(p.try_)) + AsSet(JudgeArmed(p.try_));
            ArmedAfterDispatch(before, p, item, lane, ts) ==
              if !p.firstAppend then before
              else if Disarms(a) && Took(p.disarm) then tried - {PrOf(a).value}
              else tried
  {
    var first := Appended(Base(item, lane, ts, Dispatched), p.firstAppend);
    OneCall(before, first);
    if p.firstAppend {
      var e := Try(p.try_);
      var final := FinalRow(item, lane, ts, e.attempt);
      var end := EndCalls(p, e.attempt, final);
      ArmedAfterConcat(before, [first], e.calls + end);
      ArmedAfterConcat(before, e.calls, end);
      TryArms(p.try_, before);
      EndDisarms(p, e.attempt, final, ArmedAfter(before, e.calls));
    } else {
      assert PipelineCalls(p, item, lane, ts) == [first];
    }
  }

  lemma ArmedPrIsTheReplys(t: TryPlan)
    ensures JudgeArmed(t).Some? ==> JudgeArmed(t) == PrOf(Try(t).attempt)
    ensures Try(t).attempt.reply.Some? && OpenArmed(t).Some? ==> OpenArmed(t) == PrOf(Try(t).attempt)
    ensures Try(t).attempt.armed ==> JudgeArmed(t) == PrOf(Try(t).attempt) && PrOf(Try(t).attempt).Some?
    ensures Try(t).attempt.reply == ReplyOf(t)
  {
    if ReplyOf(t).Some? && !ReplyOf(t).value.mismatch && Reviewable(ReplyOf(t).value) {
      var loop := Loop(t.rounds, t.exhaustedLogged, 1);
      JudgeTries(t.judge, ReplyOf(t).value, loop.ev, loop.r);
    }
  }

  /** If the dispatch came back with a PR and any disarm it asked for took effect, the PR is armed
      afterwards exactly when this run saw its own arming succeed, and then this very run verified
      it mechanically and had it reviewed PASS, with nothing after. No other PR is touched. */
  lemma StillArmedMeansReviewed(before: set<string>, p: DispatchPlan, item: WorkItem, lane: Lane, ts: int, pr: string)
    requires p.firstAppend && PrOf(Try(p.try_).attempt) == Some(pr)
    requires Disarms(Try(p.try_).attempt) ==> Took(p.disarm)
    ensures var a, after := Try(p.try_).attempt, ArmedAfterDispatch(before, p, item, lane, ts);
            && (pr in after <==> a.armed)
            && (pr in after ==> |a.review| >= 2 && a.review[|a.review| - 2..] == [Verified(true), Reviewed(Pass)])
            && (forall q :: q != pr ==> (q in after <==> q in before))
  {
    var a := Try(p.try_).attempt;
    ArmedExactly(before, p, item, lane, ts);
    ArmedPrIsTheReplys(p.try_);
    AttemptIsLegal(p.try_);
    if a.armed { PassWasVerifiedAndReviewed(1, a.review, a.loop.value); }
  }

  /** One dispatch of a history. */
  datatype OneDispatch = OneDispatch(plan: DispatchPlan, item: WorkItem, lane: Lane, ts: int)

  function ArmedAfterAll(before: set<string>, sent: seq<OneDispatch>): set<string> {
    if sent == [] then before
    else
      var d := sent[|sent| - 1];
      ArmedAfterDispatch(ArmedAfterAll(before, sent[..|sent| - 1]), d.plan, d.item, d.lane, d.ts)
  }

  /** A dispatch that does not touch `pr`: it never started, came back with another PR or none, or
      threw without having armed this one. */
  ghost predicate LeavesAlone(d: OneDispatch, pr: string) {
    var a := Try(d.plan.try_).attempt;
    d.plan.firstAppend ==> if a.reply.Some? then PrOf(a) != Some(pr) else OpenArmed(d.plan.try_) != Some(pr)
  }

  lemma LeftAloneStays(before: set<string>, d: OneDispatch, pr: string)
    requires LeavesAlone(d, pr)
    ensures pr in ArmedAfterDispatch(before, d.plan, d.item, d.lane, d.ts) <==> pr in before
  {
    ArmedExactly(before, d.plan, d.item, d.lane, d.ts);
    ArmedPrIsTheReplys(d.plan.try_);
  }

  /** A dispatch that came back with `pr` and whose disarm, if it asked for one, took effect. */
  ghost predicate CameBackWith(d: OneDispatch, pr: string) {
    var a := Try(d.plan.try_).attempt;
    d.plan.firstAppend && PrOf(a) == Some(pr) && (Disarms(a) ==> Took(d.plan.disarm))
  }

  ghost predicate LeftAloneAfter(sent: seq<OneDispatch>, k: nat, pr: string) {
    forall j :: k < j < |sent| ==> LeavesAlone(sent[j], pr)
  }

  /** Whatever earlier dispatches, retries and throws did, a PR's arming is decided by the last
      dispatch that came back with it. */
  lemma {:induction false} LastDispatchDecides(before: set<string>, sent: seq<OneDispatch>, k: nat, pr: string)
    requires k < |sent| && CameBackWith(sent[k], pr) && LeftAloneAfter(sent, k, pr)
    ensures var a := Try(sent[k].plan.try_).attempt;
            && (pr in ArmedAfterAll(before, sent) <==> a.armed)
            && (a.armed ==> |a.review| >= 2 && a.review[|a.review| - 2..] == [Verified(true), Reviewed(Pass)])
    decreases |sent|
  {
    var n, init := |sent| - 1, sent[..|sent| - 1];
    var d := sent[n];
    if k == n {
      StillArmedMeansReviewed(ArmedAfterAll(before, init), d.plan, d.item, d.lane, d.ts, pr);
    } else {
      LastDispatchDecides(before, init, k, pr);
      LeftAloneStays(ArmedAfterAll(before, init), d, pr);
    }
  }

  // ---- The one hole ----

  /** When `dispatch` itself throws, the program never learns the PR and disarms nothing: a PR is
      newly armed if and only if the arming asked for at open took effect on it. */
  lemma ThrownDispatchArms(before: set<string>, p: DispatchPlan, item: WorkItem, lane: Lane, ts: int, pr: string)
    requires p.firstAppend && Try(p.try_).attempt.reply.None? && pr !in before
    ensures pr in ArmedAfterDispatch(before, p, item, lane, ts) <==> OpenArmed(p.try_) == Some(pr)
    ensures before <= ArmedAfterDispatch(before, p, item, lane, ts)
  {
    ArmedExactly(before, p, item, lane, ts);
    ArmedPrIsTheReplys(p.try_);
  }

  /** The arming request works, but neither log line after it can be written. */
  function LogsThrow(r: Reply, rounds: nat -> RoundPlan, judge: JudgePlan): DispatchPlan {
    var t := TryPlan(Some(r), true, OpenPlan(Ask(true, true), false, false), CommentPlan(true, true), rounds, true, judge);
    DispatchPlan(true, t, Ask(true, true), true, true, true, true)
  }

  lemma LogsThrowEnds(r: Reply, rounds: nat -> RoundPlan, judge: JudgePlan)
    requires r.pr.Some? && !r.mismatch
    ensures var t := LogsThrow(r, rounds, judge).try_;
            && Try(t).attempt == NOT_TRIED && OpenArmed(t) == r.pr
            && (forall c :: c in Try(t).calls ==> !c.VerifyAsked? && !c.OpinionAsked? && !c.DisarmAsked?)
  {
    var t := LogsThrow(r, rounds, judge).try_;
    assert ReplyOf(t).None?;
    assert Try(t).calls == DispatchCalls(t);
  }

  /** Such a dispatch is recorded FAILED and settled like any other, and leaves the PR armed: it
      asked for no verification, no review and no disarm. */
  lemma ThrownDispatchCanLeaveArmed(r: Reply, rounds: nat -> RoundPlan, judge: JudgePlan, item: WorkItem, lane: Lane, ts: int)
    requires r.pr.Some? && !r.mismatch
    ensures var p := LogsThrow(r, rounds, judge);
            var calls := PipelineCalls(p, item, lane, ts);
            && r.pr.value in ArmedAfterDispatch({}, p, item, lane, ts)
            && DispatchOf(p, item, lane, ts).recorded == Some(Base(item, lane, ts, Outcome.Failed)) && SettlesIn(calls) == 1
            && (forall c :: c in calls ==> !c.VerifyAsked? && !c.OpinionAsked? && !c.DisarmAsked?)
  {
    var p := LogsThrow(r, rounds, judge);
    LogsThrowEnds(r, rounds, judge);
    ThrownDispatchArms({}, p, item, lane, ts, r.pr.value);
    WorkIsConserved(p, item, lane, ts);
  }
}
