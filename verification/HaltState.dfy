/** The one halted state: a file that stops the fleet, its reason, the time of the last resume, and
    a GitHub issue that stops it too. A pass reads it, decides, checks its breakers and dispatches;
    a person may halt or resume between any two of these. */
module HaltState {
  import opened Options
  import opened KillSwitch

  /** The halt file, the text of the reason file without surrounding blanks, and the resume time. */
  datatype Files = Files(halted: bool, reason: Option<string>, resumedAt: int)

  function Halt(f: Files, reason: string): Files {
    Files(true, Some(reason), f.resumedAt)
  }

  function Resume(now: int): Files {
    Files(false, None, now)
  }

  function LocalReason(f: Files): string {
    if f.reason.Some? then f.reason.value else NO_REASON
  }

  /** The local file fails closed; an issue list that cannot be read does not halt. */
  function Halted(f: Files, issueSeen: bool): Option<string> {
    if f.halted then Some(LocalReason(f)) else if issueSeen then Some(ISSUE_REASON) else None
  }

  /** Where the pass is: it holds the answer of its halt check, it is past it but before its
      breakers, or it is past those and only a tampering verifier makes it halt. */
  datatype Phase = Idle | Read(answer: Option<string>) | Checking | Dispatching

  datatype State = State(files: Files, issueOpen: bool, phase: Phase)

  datatype Action =
    | HumanHalt(reason: string)
    | HumanResume(now: int)
    | SetIssue(isOpen: bool)
    | ReadHalt(issueReadable: bool)
    | Decide(now: int, resumeClock: int)
    | CheckBreakers(tripped: Option<string>)
    | Tampered(detail: string)
    | EndPass

  function Step(s: State, a: Action, parse: string -> Option<int>): State {
    match a
    case HumanHalt(reason) => s.(files := Halt(s.files, reason))
    case HumanResume(now) => s.(files := Resume(now))
    case SetIssue(isOpen) => s.(issueOpen := isOpen)
    case ReadHalt(issueReadable) =>
      if s.phase.Idle? then s.(phase := Read(Halted(s.files, issueReadable && s.issueOpen))) else s
    case Decide(now, resumeClock) =>
      if !s.phase.Read? then s
      else (match OnHalt(s.phase.answer, now, parse)
            case Proceed => s.(phase := Checking)
            case ResumeAndProceed => s.(files := Resume(resumeClock), phase := Checking)
            case Stay => s.(phase := Idle))
    case CheckBreakers(tripped) =>
      if !s.phase.Checking? then s
      else if tripped.Some? then s.(files := Halt(s.files, tripped.value), phase := Idle)
      else s.(phase := Dispatching)
    case Tampered(detail) =>
      if s.phase.Dispatching? then s.(files := Halt(s.files, TAMPER_PREFIX + detail)) else s
    case EndPass => s.(phase := Idle)
  }

  function Run(s: State, actions: seq<Action>, parse: string -> Option<int>): State {
    if actions == [] then s else Step(Run(s, actions[..|actions| - 1], parse), actions[|actions| - 1], parse)
  }

  lemma RunThree(s: State, a: Action, b: Action, c: Action, parse: string -> Option<int>)
    ensures Run(s, [a], parse) == Step(s, a, parse)
    ensures Run(s, [a, b, c], parse) == Step(Step(Step(s, a, parse), b, parse), c, parse)
  {
    var none: seq<Action> := [];
    assert [a, b, c][..2] == [a, b] && [a, b][..1] == [a] && [a][..0] == none;
    assert Run(s, none, parse) == s;
    assert Run(s, [a], parse) == Step(s, a, parse);
    assert Run(s, [a, b], parse) == Step(Run(s, [a], parse), b, parse);
  }

  /** What one pass makes of the two switches, undisturbed: the file stops it unless its reason's own
      time has come; without the file an open issue stops it, but only while it can be read. */
  lemma PassGoesOn(s: State, readable: bool, now: int, resumeClock: int, parse: string -> Option<int>)
    requires s.phase.Idle?
    ensures var s' := Step(Step(s, ReadHalt(readable), parse), Decide(now, resumeClock), parse);
            var stopped := if s.files.halted then !(exists t :: ClearsAt(LocalReason(s.files), parse) == Some(t) && now >= t)
                           else readable && s.issueOpen;
            && (if stopped then s'.phase.Idle? else s'.phase.Checking?)
            && s'.files == if s.files.halted && !stopped then Files(false, None, resumeClock) else s.files
  {
    ClearedFromItsTimeOn(LocalReason(s.files), parse);
    OtherHaltsNeverCleared("", parse);
    ClearedFromItsTimeOn(ISSUE_REASON, parse);
    if s.files.halted && ClearsAt(LocalReason(s.files), parse).Some? && now >= ClearsAt(LocalReason(s.files), parse).value {
      assert ClearsAt(LocalReason(s.files), parse) == Some(ClearsAt(LocalReason(s.files), parse).value);
    }
  }

  // ---- A halt that only a person ends ----

  /** Halted for a reason that never clears itself. */
  ghost predicate Firm(f: Files, parse: string -> Option<int>) {
    f.halted && ClearsAt(LocalReason(f), parse).None?
  }

  /** Nobody resumes by hand, and nobody types a reason that clears itself. */
  ghost predicate HandsOff(actions: seq<Action>, parse: string -> Option<int>) {
    forall a :: a in actions ==> !a.HumanResume? && (a.HumanHalt? ==> ClearsAt(a.reason, parse).None?)
  }

  /** A pass that read the files before the halt was written and will still act on what it read:
      it goes on to its breakers, or it resumes. */
  ghost predicate Exposed(p: Phase, parse: string -> Option<int>) {
    p.Checking? || (p.Read? && (p.answer.Some? ==> ClearsAt(p.answer.value, parse).Some?))
  }

  /** A firm halt no pass is exposed to stops every later pass until a person resumes; a pass
      already dispatching may finish, and may only replace it by another firm one. */
  lemma {:induction false} FirmHaltHolds(s: State, actions: seq<Action>, parse: string -> Option<int>)
    requires Firm(s.files, parse) && !Exposed(s.phase, parse) && HandsOff(actions, parse)
    ensures var s' := Run(s, actions, parse);
            Firm(s'.files, parse) && !Exposed(s'.phase, parse) && (s'.phase.Dispatching? ==> s.phase.Dispatching?)
    decreases |actions|
  {
    if actions != [] {
      var init, last := actions[..|actions| - 1], actions[|actions| - 1];
      assert last in actions && HandsOff(init, parse);
      FirmHaltHolds(s, init, parse);
      FirmHaltStep(Run(s, init, parse), last, parse);
    }
  }

  lemma FirmHaltStep(s: State, a: Action, parse: string -> Option<int>)
    requires Firm(s.files, parse) && !Exposed(s.phase, parse)
    requires !a.HumanResume? && (a.HumanHalt? ==> ClearsAt(a.reason, parse).None?)
    ensures var s' := Step(s, a, parse);
            Firm(s'.files, parse) && !Exposed(s'.phase, parse) && (s'.phase.Dispatching? ==> s.phase.Dispatching?)
  {
    if a.Tampered? { OtherHaltsNeverCleared(a.detail, parse); }
    if a.Decide? && s.phase.Read? { ClearedFromItsTimeOn(s.phase.answer.value, parse); }
  }

  ghost predicate HoldsForEver(s: State, parse: string -> Option<int>) {
    forall actions :: HandsOff(actions, parse) ==> Run(s, actions, parse).files.halted
  }

  /** A quota halt written over whatever was there is cleared once its time has come. */
  lemma QuotaTripIsCleared(s: State, show: int -> string, parse: string -> Option<int>)
    requires s.phase.Checking? && RoundTrips(show, parse)
    ensures var reason := QuotaReason("claude", show(0));
            !Run(s, [CheckBreakers(Some(reason)), ReadHalt(true), Decide(0, 0)], parse).files.halted
  {
    var reason := QuotaReason("claude", show(0));
    NoSpoof();
    QuotaHaltLifecycle("claude", 0, 0, show, parse);
    RunThree(s, CheckBreakers(Some(reason)), ReadHalt(true), Decide(0, 0), parse);
  }

  lemma NoSpoof()
    ensures !Spoofs("claude")
  {
    LettersOfConstants();
    assert |"claude"| == 6;
  }

  /** A firm halt holds for ever exactly when, as it was written, no pass was exposed to it: none
      between reading the files and its breakers. Such a pass may trip its quota breaker and
      overwrite the reason with one that clears itself, or resume a halt it had read before. */
  lemma HaltHoldsUnlessAPassIsChecking(s: State, show: int -> string, parse: string -> Option<int>)
    requires Firm(s.files, parse) && RoundTrips(show, parse)
    ensures HoldsForEver(s, parse) <==> !Exposed(s.phase, parse)
  {
    if !Exposed(s.phase, parse) {
      forall actions | HandsOff(actions, parse) ensures Run(s, actions, parse).files.halted {
        FirmHaltHolds(s, actions, parse);
      }
    } else if s.phase.Checking? {
      QuotaTripIsCleared(s, show, parse);
      assert HandsOff([CheckBreakers(Some(QuotaReason("claude", show(0)))), ReadHalt(true), Decide(0, 0)], parse);
    } else if s.phase.answer.Some? {
      var t := ClearsAt(s.phase.answer.value, parse).value;
      ClearedFromItsTimeOn(s.phase.answer.value, parse);
      RunThree(s, Decide(t, t), EndPass, EndPass, parse);
      assert HandsOff([Decide(t, t)], parse) && !Run(s, [Decide(t, t)], parse).files.halted;
    } else {
      LateTripIsCleared(s, show, parse);
    }
  }

  lemma LateTripIsCleared(s: State, show: int -> string, parse: string -> Option<int>)
    requires s.phase == Read(None) && RoundTrips(show, parse)
    ensures !HoldsForEver(s, parse)
  {
    var checking := Step(s, Decide(0, 0), parse);
    var rest := [CheckBreakers(Some(QuotaReason("claude", show(0)))), ReadHalt(true), Decide(0, 0)];
    QuotaTripIsCleared(checking, show, parse);
    RunCons(s, Decide(0, 0), rest, parse);
    var all := [Decide(0, 0)] + rest;
    forall a | a in all ensures !a.HumanResume? && !a.HumanHalt? {
    }
    assert HandsOff(all, parse) && !Run(s, all, parse).files.halted;
  }

  lemma {:induction false} RunCons(s: State, a: Action, rest: seq<Action>, parse: string -> Option<int>)
    ensures Run(s, [a] + rest, parse) == Run(Step(s, a, parse), rest, parse)
    decreases |rest|
  {
    if rest == [] {
      assert [a] + rest == [a];
      RunThree(s, a, a, a, parse);
    } else {
      assert ([a] + rest)[..|rest|] == [a] + rest[..|rest| - 1];
      RunCons(s, a, rest[..|rest| - 1], parse);
    }
  }

  // ---- A halt that ends itself ----

  /** Nobody touches the halt, and every decision is made before `t`. */
  ghost predicate DecidedBefore(actions: seq<Action>, t: int) {
    forall a :: a in actions ==> !a.HumanResume? && !a.HumanHalt? && (a.Decide? ==> a.now < t)
  }

  /** While a halt waits for its time, no pass gets past its halt check and nothing changes. */
  lemma {:induction false} QuotaHaltWaits(s: State, actions: seq<Action>, t: int, parse: string -> Option<int>)
    requires s.files.halted && ClearsAt(LocalReason(s.files), parse) == Some(t) && s.phase.Idle?
    requires DecidedBefore(actions, t)
    ensures var s' := Run(s, actions, parse);
            s'.files == s.files && (s'.phase.Idle? || s'.phase == Read(Some(LocalReason(s.files))))
    decreases |actions|
  {
    if actions != [] {
      var init, last := actions[..|actions| - 1], actions[|actions| - 1];
      assert last in actions && DecidedBefore(init, t);
      QuotaHaltWaits(s, init, t, parse);
      ClearedFromItsTimeOn(LocalReason(s.files), parse);
    }
  }

  /** The whole life of a quota halt: over any history before its printed time the fleet stays
      halted and no pass goes ahead; the first decision from then on clears it, stamps the resume
      and goes on to the breakers. */
  lemma QuotaHaltHistory(s: State, waiting: seq<Action>, engine: string, resumeAt: int, now: int, resumeClock: int,
                         issueReadable: bool, show: int -> string, parse: string -> Option<int>)
    requires RoundTrips(show, parse) && !Spoofs(engine)
    requires s.phase.Checking? && now >= resumeAt && DecidedBefore(waiting, resumeAt)
    ensures var tripped := Step(s, CheckBreakers(Some(QuotaReason(engine, show(resumeAt)))), parse);
            var later := Run(tripped, waiting, parse);
            var decided := Step(Step(later, ReadHalt(issueReadable), parse), Decide(now, resumeClock), parse);
            && later.files == tripped.files && later.files.halted && !later.phase.Checking? && !later.phase.Dispatching?
            && decided.phase.Checking? && decided.files == Files(false, None, resumeClock)
  {
    var tripped := Step(s, CheckBreakers(Some(QuotaReason(engine, show(resumeAt)))), parse);
    QuotaHaltClearsAtItsTime(engine, resumeAt, show, parse);
    QuotaHaltWaits(tripped, waiting, resumeAt, parse);
    QuotaHaltLifecycle(engine, resumeAt, now, show, parse);
  }
}
