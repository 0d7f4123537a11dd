/** `fleet/review`: who may ask for a review, which reviews a PR needs, the gate in front of the
    engine, and the verdict cache behind it, over every history of events. */
module ReviewGate {
  import opened Options
  import opened Review
  import opened ReviewCache
  import opened Sequences

  // ---- Who may ask ----

  const REVIEW_REQUEST_LOGIN := "llamenos-auto"
  const RELEASE_REVIEW_REQUEST_LOGIN := "rhonda-rodododo"
  const KNOPE_RELEASE_BRANCH := "release"
  const REVIEW_DISPATCH_EVENT := "workflow_dispatch"
  const REVIEW_REPUBLISH_ACTION := "synchronize"
  const REVIEW_SKIP_AUTHORS := {"dependabot[bot]", "dependabot"}

  /** Logins are already trimmed and lower-cased; None is an absent or blank one. */
  datatype Trigger = Trigger(eventName: string, action: string, requestedReviewer: Option<string>,
                             prAuthor: Option<string>, branch: string)

  function ReviewTriggerLogins(prAuthor: Option<string>, branch: string): seq<string> {
    if prAuthor == Some(REVIEW_REQUEST_LOGIN) then [RELEASE_REVIEW_REQUEST_LOGIN]
    else if branch == KNOPE_RELEASE_BRANCH && prAuthor != Some(RELEASE_REVIEW_REQUEST_LOGIN)
    then [REVIEW_REQUEST_LOGIN, RELEASE_REVIEW_REQUEST_LOGIN]
    else [REVIEW_REQUEST_LOGIN]
  }

  predicate IsRepublishOnly(e: Trigger) {
    e.eventName == "pull_request" && e.action == REVIEW_REPUBLISH_ACTION
  }

  predicate ReviewRequested(e: Trigger) {
    if e.eventName == REVIEW_DISPATCH_EVENT then true
    else if e.eventName != "pull_request" || IsRepublishOnly(e) || e.requestedReviewer.None? then false
    else e.requestedReviewer.value in ReviewTriggerLogins(e.prAuthor, e.branch)
  }

  /** Every PR has somebody to ask, and it is never its own author; a push asks for nothing. */
  lemma AuthorNeverAsksItself(e: Trigger)
    ensures ReviewTriggerLogins(e.prAuthor, e.branch) != []
    ensures e.prAuthor.Some? ==> e.prAuthor.value !in ReviewTriggerLogins(e.prAuthor, e.branch)
    ensures ReviewRequested(e) && e.eventName != REVIEW_DISPATCH_EVENT ==>
              e.requestedReviewer.Some? && e.requestedReviewer != e.prAuthor
    ensures IsRepublishOnly(e) ==> !ReviewRequested(e)
  {
    assert REVIEW_REQUEST_LOGIN[0] == 'l' && RELEASE_REVIEW_REQUEST_LOGIN[0] == 'r';
    assert "pull_request"[0] == 'p' && REVIEW_DISPATCH_EVENT[0] == 'w';
  }

  /** Who may ask: the fleet's own login on every PR but its own; the release login on the fleet's PRs
      and on the release branch, never on its own. */
  lemma AskersAre(prAuthor: Option<string>, branch: string, login: string)
    ensures login in ReviewTriggerLogins(prAuthor, branch) <==>
              && prAuthor != Some(login)
              && (login == "llamenos-auto" || (login == "rhonda-rodododo" && (prAuthor == Some("llamenos-auto") || branch == "release")))
  {
    assert REVIEW_REQUEST_LOGIN[0] == 'l' && RELEASE_REVIEW_REQUEST_LOGIN[0] == 'r';
  }

  /** A review is asked for by hand, or by a review request to one of them that is not a push. */
  lemma RequestedMeans(e: Trigger)
    ensures ReviewRequested(e) <==>
              || e.eventName == "workflow_dispatch"
              || (e.eventName == "pull_request" && e.action != "synchronize" &&
                  e.requestedReviewer.Some? && e.requestedReviewer.value in ReviewTriggerLogins(e.prAuthor, e.branch))
  {
    assert "pull_request"[0] == 'p' && REVIEW_DISPATCH_EVENT[0] == 'w';
  }

  // ---- Which reviews ----

  datatype ReviewSet = Unresolved | Resolved(profiles: seq<string>, fromLabels: seq<string>)

  const REVIEWER_LABEL_SUFFIX := "-reviewer"

  function LowerChar(c: char): char {
    if 'A' <= c <= 'Z' then (c as int + 32) as char else c
  }

  function Lower(s: string): (r: string)
    ensures |r| == |s|
  {
    if s == "" then "" else [LowerChar(s[0])] + Lower(s[1..])
  }

  predicate IsReviewerLabel(l: string) {
    |l| >= |REVIEWER_LABEL_SUFFIX| && Lower(l)[|l| - |REVIEWER_LABEL_SUFFIX|..] == REVIEWER_LABEL_SUFFIX
  }

  lemma {:induction false} LowerConcat(a: string, b: string)
    ensures Lower(a + b) == Lower(a) + Lower(b)
  {
    if a == "" {
      assert a + b == b;
    } else {
      assert (a + b)[0] == a[0] && (a + b)[1..] == a[1..] + b;
      LowerConcat(a[1..], b);
    }
  }

  /** A reviewer label is any name followed by `-reviewer`, in any mixture of cases. */
  lemma ReviewerLabelMeans(l: string)
    ensures IsReviewerLabel(l) <==> exists name, suffix :: l == name + suffix && Lower(suffix) == "-reviewer"
  {
    if IsReviewerLabel(l) {
      var n := |l| - |REVIEWER_LABEL_SUFFIX|;
      assert l == l[..n] + l[n..];
      LowerConcat(l[..n], l[n..]);
      assert Lower(l[n..]) == Lower(l)[n..];
    }
    if name, suffix :| l == name + suffix && Lower(suffix) == "-reviewer" {
      LowerConcat(name, suffix);
      assert Lower(l)[|name|..] == Lower(suffix);
    }
  }

  function ReviewerLabels(labels: seq<string>): (r: seq<string>)
    ensures forall l :: l in r <==> l in labels && IsReviewerLabel(l)
  {
    if labels == [] then []
    else
      assert labels == labels[..|labels| - 1] + [labels[|labels| - 1]];
      ReviewerLabels(labels[..|labels| - 1]) +
      if IsReviewerLabel(labels[|labels| - 1]) then [labels[|labels| - 1]] else []
  }

  /** Refused exactly when the labels could not be read or some wanted review cannot be run;
      otherwise the set is everything the labels and the content ask for, and nothing else. */
  method DecideReviewSet(labels: Option<seq<string>>, fromContent: seq<string>, runnable: set<string>) returns (r: ReviewSet)
    ensures r.Resolved? <==> labels.Some? && Elements(ReviewerLabels(labels.value)) + Elements(fromContent) <= runnable
    ensures r.Resolved? ==> Ascending(r.profiles) && r.fromLabels == ReviewerLabels(labels.value)
    ensures r.Resolved? ==> Elements(r.profiles) == Elements(r.fromLabels) + Elements(fromContent)
  {
    if labels.None? {
      return Unresolved;
    }
    var fromLabels := ReviewerLabels(labels.value);
    var wanted := SortDistinct(fromLabels + fromContent);
    SortDistinctIsCanonical(fromLabels + fromContent);
    ElementsConcat(fromLabels, fromContent);
    var i := 0;
    while i < |wanted|
      invariant 0 <= i <= |wanted|
      invariant forall k :: 0 <= k < i ==> wanted[k] in runnable
    {
      if wanted[i] !in runnable {
        assert wanted[i] in Elements(wanted);
        return Unresolved;
      }
      i := i + 1;
    }
    r := Resolved(wanted, fromLabels);
  }

  lemma ElementsConcat(a: seq<string>, b: seq<string>)
    ensures Elements(a + b) == Elements(a) + Elements(b)
  {
    forall x | x in Elements(a + b) ensures x in Elements(a) + Elements(b) {
      var i :| 0 <= i < |a + b| && (a + b)[i] == x;
      assert if i < |a| then a[i] == x else b[i - |a|] == x;
    }
    forall x | x in Elements(a) + Elements(b) ensures x in Elements(a + b) {
      if x in Elements(a) {
        var i :| 0 <= i < |a| && a[i] == x;
        assert (a + b)[i] == x;
      } else {
        var i :| 0 <= i < |b| && b[i] == x;
        assert (a + b)[|a| + i] == x;
      }
    }
  }

  // ---- The gate ----

  datatype Gate = SetUnresolved | CacheHit(pass: bool) | BotAuthored | LowTier | NotRequested | RunEngine

  function DecideReviewGate(set_: ReviewSet, cached: Option<bool>, author: Option<string>, tier: nat,
                            requested: bool, republishOnly: bool): Gate {
    if set_.Unresolved? then SetUnresolved
    else if cached.Some? then CacheHit(cached.value)
    else if author.Some? && set_.profiles == [] && author.value in REVIEW_SKIP_AUTHORS then BotAuthored
    else if tier < 2 && set_.profiles == [] then LowTier
    else if republishOnly || !requested then NotRequested
    else RunEngine
  }

  // ---- The cache ----

  /** One artifact. The diff stands for its hash. */
  datatype Entry = Entry(pr: string, diff: string, tag: Option<Digest>, pass: bool)

  /** Which of the two lookups can be answered; an unanswered one, and an expired artifact, is a miss. */
  datatype Seen = Seen(pass: bool, fail: bool)

  function Lookup(store: set<Entry>, pr: string, diff: string, tag: Option<Digest>, seen: Seen): Option<bool> {
    if seen.pass && Entry(pr, diff, tag, true) in store then Some(true)
    else if seen.fail && Entry(pr, diff, tag, false) in store then Some(false)
    else None
  }

  /** How a run's records become artifacts. `review-cache.ts` writes one record per namespace;
      the workflow's one upload step names its artifact after the last of them. */
  datatype Upload = EveryRecord | LastRecord

  // ---- Histories ----

  const GENERAL_REVIEWER := "general"

  /** One run of the reviewers. A reviewer missing from `verdicts` threw, which is UNREADABLE. */
  datatype RunLog = RunLog(pr: string, diff: string, profiles: seq<string>, verdicts: map<string, Verdict>)

  /** One workflow run. The gate and the review step each read the review set and the cache for
      themselves; `ready` is false when the review step refuses before its lookup or before its
      reviewers (no key, scope failure, unsafe export). */
  datatype Event = Event(pr: string, diff: string, author: Option<string>, tier: nat,
                         requested: bool, republishOnly: bool,
                         gateSet: ReviewSet, gateSeen: Seen,
                         ready: bool, runSet: ReviewSet, runSeen: Seen, stripped: bool,
                         verdicts: map<string, Verdict>, keptExact: bool, keptGeneral: bool)

  datatype Conclusion = Conclusion(event: Event, gate: Gate, green: bool)

  datatype State = State(store: set<Entry>, runs: seq<RunLog>, conclusions: seq<Conclusion>)

  const EMPTY := State({}, [], [])

  function VerdictOf(verdicts: map<string, Verdict>, name: string): Verdict {
    if name in verdicts then verdicts[name] else Unreadable
  }

  function Reviewers(run: RunLog): seq<string> {
    [GENERAL_REVIEWER] + run.profiles
  }

  predicate Passed(run: RunLog) {
    forall n :: n in Reviewers(run) ==> VerdictOf(run.verdicts, n) == Pass
  }

  predicate Substantive(run: RunLog) {
    forall n :: n in Reviewers(run) ==> VerdictOf(run.verdicts, n) != Unreadable
  }

  /** The namespaces an artifact appears under. */
  function Stored(upload: Upload, tag: Option<Digest>, keptExact: bool, keptGeneral: bool): set<Option<Digest>> {
    var exact := if tag.Some? && keptExact then {tag} else {};
    var general := if keptGeneral then {None} else {};
    if upload == EveryRecord then exact + general
    else if general != {} then general else exact
  }

  function EntriesOf(run: RunLog, tags: set<Option<Digest>>): set<Entry> {
    set t | t in tags :: Entry(run.pr, run.diff, t, Passed(run))
  }

  function GateOf(s: State, e: Event): Gate {
    var cached := if e.gateSet.Unresolved? then None
                  else Lookup(s.store, e.pr, e.diff, ReviewSetTag(e.gateSet.profiles), e.gateSeen);
    DecideReviewGate(e.gateSet, cached, e.author, e.tier, e.requested, e.republishOnly)
  }

  /** Does the review step get as far as running its reviewers? */
  predicate Reviews(s: State, e: Event) {
    && GateOf(s, e) == RunEngine && e.ready && e.runSet.Resolved?
    && Lookup(s.store, e.pr, e.diff, ReviewSetTag(e.runSet.profiles), e.runSeen).None?
    && e.stripped
  }

  function RunOf(e: Event): RunLog
    requires e.runSet.Resolved?
  {
    RunLog(e.pr, e.diff, e.runSet.profiles, e.verdicts)
  }

  predicate Green(s: State, e: Event) {
    match GateOf(s, e)
    case CacheHit(pass) => pass
    case BotAuthored => true
    case LowTier => true
    case RunEngine =>
      if Reviews(s, e) then Passed(RunOf(e))
      else e.ready && e.runSet.Resolved? &&
           Lookup(s.store, e.pr, e.diff, ReviewSetTag(e.runSet.profiles), e.runSeen) == Some(true)
    case _ => false
  }

  function Step(upload: Upload, s: State, e: Event): State {
    var concluded := s.conclusions + [Conclusion(e, GateOf(s, e), Green(s, e))];
    if !Reviews(s, e) then State(s.store, s.runs, concluded)
    else
      var run := RunOf(e);
      var tags := Stored(upload, ReviewSetTag(run.profiles), e.keptExact, e.keptGeneral);
      State(if Substantive(run) then s.store + EntriesOf(run, tags) else s.store, s.runs + [run], concluded)
  }

  function Run(upload: Upload, events: seq<Event>): State {
    if events == [] then EMPTY
    else Step(upload, Run(upload, events[..|events| - 1]), events[|events| - 1])
  }

  lemma RunOneTwo(upload: Upload, a: Event, b: Event)
    ensures Run(upload, [a]) == Step(upload, EMPTY, a)
    ensures Run(upload, [a, b]) == Step(upload, Step(upload, EMPTY, a), b)
  {
    var none: seq<Event> := [];
    assert Run(upload, none) == EMPTY;
    assert [a][..0] == none && [a, b][..1] == [a];
    assert Run(upload, [a]) == Step(upload, Run(upload, [a][..0]), [a][0]);
  }

  // ---- Soundness ----

  /** A run that could have earned a verdict for the namespace `tag` of this diff. */
  ghost predicate Earns(run: RunLog, entry: Entry) {
    && run.pr == entry.pr && run.diff == entry.diff
    && Substantive(run) && Passed(run) == entry.pass
    && (entry.tag.Some? ==> entry.tag == ReviewSetTag(run.profiles))
  }

  lemma {:induction false} EveryEntryIsEarned(upload: Upload, events: seq<Event>, entry: Entry)
    requires entry in Run(upload, events).store
    ensures exists run :: run in Run(upload, events).runs && Earns(run, entry)
    decreases |events|
  {
    if events != [] {
      var s, e := Run(upload, events[..|events| - 1]), events[|events| - 1];
      if entry in s.store {
        EveryEntryIsEarned(upload, events[..|events| - 1], entry);
        var run :| run in s.runs && Earns(run, entry);
        assert run in Run(upload, events).runs;
      } else {
        assert Earns(RunOf(e), entry) && RunOf(e) in s.runs + [RunOf(e)];
      }
    }
  }

  /** Profile names come from the agent registry, which admits only `[a-z0-9-]`. */
  ghost predicate WellNamed(events: seq<Event>) {
    forall e :: e in events ==>
      (e.gateSet.Resolved? ==> OneLine(e.gateSet.profiles)) && (e.runSet.Resolved? ==> OneLine(e.runSet.profiles))
  }

  lemma {:induction false} RunsAreWellNamed(upload: Upload, events: seq<Event>, run: RunLog)
    requires WellNamed(events) && run in Run(upload, events).runs
    ensures OneLine(run.profiles)
    decreases |events|
  {
    if events != [] && run in Run(upload, events[..|events| - 1]).runs {
      RunsAreWellNamed(upload, events[..|events| - 1], run);
    }
  }

  /** Some earlier run reviewed this very diff with a set containing `profiles`, and every member passed. */
  ghost predicate Reviewed(runs: seq<RunLog>, pr: string, diff: string, profiles: seq<string>) {
    exists run :: run in runs && run.pr == pr && run.diff == diff && Passed(run) && Elements(profiles) <= Elements(run.profiles)
  }

  /** Some earlier run reached a verdict on this diff, every reviewer of it answering, and one rejected it. */
  ghost predicate RejectedBy(run: RunLog, pr: string, diff: string) {
    run.pr == pr && run.diff == diff && Substantive(run) &&
    exists n :: n in Reviewers(run) && VerdictOf(run.verdicts, n) == Fail
  }

  lemma NotPassedMeansFailed(run: RunLog)
    requires Substantive(run) && !Passed(run)
    ensures exists n :: n in Reviewers(run) && VerdictOf(run.verdicts, n) == Fail
  {
    var n :| n in Reviewers(run) && VerdictOf(run.verdicts, n) != Pass;
  }

  /** A cached PASS stands for a review that happened: this diff, a set containing the one asked
      for, every member passing. */
  lemma CachedPassIsSound(upload: Upload, events: seq<Event>, pr: string, diff: string, profiles: seq<string>, seen: Seen)
    requires WellNamed(events) && OneLine(profiles)
    requires Lookup(Run(upload, events).store, pr, diff, ReviewSetTag(profiles), seen) == Some(true)
    ensures Reviewed(Run(upload, events).runs, pr, diff, profiles)
  {
    var entry := Entry(pr, diff, ReviewSetTag(profiles), true);
    EveryEntryIsEarned(upload, events, entry);
    var run :| run in Run(upload, events).runs && Earns(run, entry);
    RunsAreWellNamed(upload, events, run);
    if profiles == [] { EmptyElements(profiles); } else { TagNamesTheSet(profiles, run.profiles); }
    assert run.pr == pr && run.diff == diff && Passed(run) && Elements(profiles) <= Elements(run.profiles);
  }

  /** A cached FAIL stands for a rejection of this diff: for a named set by exactly that set, for
      the general namespace by some set, which need not be the general reviewer alone. */
  lemma CachedFailIsARejection(upload: Upload, events: seq<Event>, pr: string, diff: string, profiles: seq<string>, seen: Seen)
    requires WellNamed(events) && OneLine(profiles)
    requires Lookup(Run(upload, events).store, pr, diff, ReviewSetTag(profiles), seen) == Some(false)
    ensures exists run :: run in Run(upload, events).runs && RejectedBy(run, pr, diff) &&
                          (profiles != [] ==> Elements(run.profiles) == Elements(profiles))
  {
    var entry := Entry(pr, diff, ReviewSetTag(profiles), false);
    EveryEntryIsEarned(upload, events, entry);
    var run :| run in Run(upload, events).runs && Earns(run, entry);
    RunsAreWellNamed(upload, events, run);
    NotPassedMeansFailed(run);
    if profiles != [] { TagNamesTheSet(profiles, run.profiles); }
    assert RejectedBy(run, pr, diff);
  }

  /** What a green conclusion rests on. */
  ghost predicate Earned(c: Conclusion, runs: seq<RunLog>) {
    match c.gate
    case BotAuthored =>
      c.event.gateSet.Resolved? && c.event.gateSet.profiles == [] && c.event.author.Some? && c.event.author.value in REVIEW_SKIP_AUTHORS
    case LowTier => c.event.gateSet.Resolved? && c.event.gateSet.profiles == [] && c.event.tier < 2
    case CacheHit(_) => c.event.gateSet.Resolved? && Reviewed(runs, c.event.pr, c.event.diff, c.event.gateSet.profiles)
    case RunEngine =>
      && c.event.runSet.Resolved? && c.event.requested && !c.event.republishOnly
      && Reviewed(runs, c.event.pr, c.event.diff, c.event.runSet.profiles)
    case _ => false
  }

  lemma EarnedStays(c: Conclusion, runs: seq<RunLog>, more: seq<RunLog>)
    requires runs <= more && Earned(c, runs)
    ensures Earned(c, more)
  {
    assert forall run :: run in runs ==> run in more;
  }

  /** Every green conclusion is earned: by a review of that diff containing the whole set the
      event asked for, or by the two exemptions, which a named reviewer always overrides. */
  lemma {:induction false} GreenIsEarned(upload: Upload, events: seq<Event>, c: Conclusion)
    requires WellNamed(events)
    requires c in Run(upload, events).conclusions && c.green
    ensures Earned(c, Run(upload, events).runs)
    decreases |events|
  {
    if events != [] {
      var before, e := events[..|events| - 1], events[|events| - 1];
      var s := Run(upload, before);
      if c in s.conclusions {
        GreenIsEarned(upload, before, c);
        EarnedStays(c, s.runs, Run(upload, events).runs);
      } else {
        NewGreenIsEarned(upload, before, e);
      }
    }
  }

  lemma NewGreenIsEarned(upload: Upload, before: seq<Event>, e: Event)
    requires WellNamed(before + [e]) && Green(Run(upload, before), e)
    ensures Earned(Conclusion(e, GateOf(Run(upload, before), e), true), Step(upload, Run(upload, before), e).runs)
  {
    var s := Run(upload, before);
    var c := Conclusion(e, GateOf(s, e), true);
    assert e in before + [e] && forall x :: x in before ==> x in before + [e];
    if c.gate.CacheHit? {
      CachedPassIsSound(upload, before, e.pr, e.diff, e.gateSet.profiles, e.gateSeen);
      EarnedStays(c, s.runs, Step(upload, s, e).runs);
    } else if c.gate == RunEngine {
      if Reviews(s, e) {
        assert RunOf(e) in Step(upload, s, e).runs;
      } else {
        CachedPassIsSound(upload, before, e.pr, e.diff, e.runSet.profiles, e.runSeen);
        EarnedStays(c, s.runs, Step(upload, s, e).runs);
      }
    }
  }

  // ---- What the cache saves, and what it forgets ----

  /** Nothing that starts as a push ever runs a reviewer, whatever labels, requests and cache say. */
  lemma {:induction false} PushesNeverReachTheEngine(upload: Upload, events: seq<Event>, pushes: seq<Event>)
    requires forall e :: e in pushes ==> e.republishOnly
    ensures Run(upload, events + pushes).runs == Run(upload, events).runs
    ensures Run(upload, events + pushes).store == Run(upload, events).store
    decreases |pushes|
  {
    if pushes == [] {
      assert events + pushes == events;
    } else {
      var init, last := pushes[..|pushes| - 1], pushes[|pushes| - 1];
      assert (events + pushes)[..|events + pushes| - 1] == events + init;
      assert last in pushes;
      PushesNeverReachTheEngine(upload, events, init);
    }
  }

  /** The review step's own lookup is answered and what it records is kept. */
  ghost predicate Reliable(e: Event) {
    e.runSeen == Seen(true, true) && e.keptExact && e.keptGeneral
  }

  ghost predicate Counts(run: RunLog, pr: string, diff: string, tag: Option<Digest>) {
    run.pr == pr && run.diff == diff && Substantive(run) && ReviewSetTag(run.profiles) == tag
  }

  /** Substantive runs on this diff with this review set. */
  ghost function SubstantiveRuns(runs: seq<RunLog>, pr: string, diff: string, tag: Option<Digest>): nat {
    if runs == [] then 0
    else SubstantiveRuns(runs[..|runs| - 1], pr, diff, tag) + if Counts(runs[|runs| - 1], pr, diff, tag) then 1 else 0
  }

  ghost predicate Cached(store: set<Entry>, pr: string, diff: string, tag: Option<Digest>) {
    Entry(pr, diff, tag, true) in store || Entry(pr, diff, tag, false) in store
  }

  /** Were every record uploaded, no diff would be reviewed to a verdict twice with the same set. */
  lemma {:induction false} AtMostOneSubstantiveRun(upload: Upload, events: seq<Event>, pr: string, diff: string, tag: Option<Digest>)
    requires forall e :: e in events ==> Reliable(e)
    requires upload == EveryRecord || tag.None?
    ensures SubstantiveRuns(Run(upload, events).runs, pr, diff, tag) <= 1
    ensures SubstantiveRuns(Run(upload, events).runs, pr, diff, tag) == 1 ==> Cached(Run(upload, events).store, pr, diff, tag)
    decreases |events|
  {
    if events != [] {
      var s, e := Run(upload, events[..|events| - 1]), events[|events| - 1];
      AtMostOneSubstantiveRun(upload, events[..|events| - 1], pr, diff, tag);
      assert Reliable(e);
      if Reviews(s, e) {
        var run := RunOf(e);
        assert (s.runs + [run])[..|s.runs|] == s.runs;
        var tags := Stored(upload, ReviewSetTag(run.profiles), true, true);
        if Counts(run, pr, diff, tag) {
          assert tag in tags;
          assert Entry(pr, diff, tag, Passed(run)) in EntriesOf(run, tags);
        }
      }
    }
  }

  /** The workflow uploads one artifact per run, named after the last record, and the last record
      is always the general one. So a set with a named reviewer is never cached under its own
      name: asking again for the same diff reviews it again. */
  lemma NamedSetsAreReviewedAgain(e: Event)
    requires e.gateSet.Resolved? && e.gateSet == e.runSet && e.runSet.profiles != []
    requires e.requested && !e.republishOnly && e.ready && e.stripped && Reliable(e) && Substantive(RunOf(e))
    ensures SubstantiveRuns(Run(LastRecord, [e, e]).runs, e.pr, e.diff, ReviewSetTag(e.runSet.profiles)) == 2
    ensures SubstantiveRuns(Run(EveryRecord, [e, e]).runs, e.pr, e.diff, ReviewSetTag(e.runSet.profiles)) <= 1
  {
    RunOneTwo(LastRecord, e, e);
    FirstNamedRun(e);
    SecondNamedRun(e, Step(LastRecord, EMPTY, e));
    CountsTwice(RunOf(e));
    AtMostOneSubstantiveRun(EveryRecord, [e, e], e.pr, e.diff, ReviewSetTag(e.runSet.profiles));
  }

  lemma FirstNamedRun(e: Event)
    requires e.gateSet.Resolved? && e.gateSet == e.runSet && e.runSet.profiles != []
    requires e.requested && !e.republishOnly && e.ready && e.stripped && Reliable(e) && Substantive(RunOf(e))
    ensures var s := Step(LastRecord, EMPTY, e);
            s.runs == [RunOf(e)] && forall entry :: entry in s.store ==> entry.tag.None?
  {
    assert Lookup({}, e.pr, e.diff, ReviewSetTag(e.runSet.profiles), e.gateSeen).None?;
    assert GateOf(EMPTY, e) == RunEngine && Reviews(EMPTY, e);
  }

  lemma SecondNamedRun(e: Event, s: State)
    requires e.gateSet.Resolved? && e.gateSet == e.runSet && e.runSet.profiles != []
    requires e.requested && !e.republishOnly && e.ready && e.stripped
    requires forall entry :: entry in s.store ==> entry.tag.None?
    ensures Step(LastRecord, s, e).runs == s.runs + [RunOf(e)]
  {
    assert Lookup(s.store, e.pr, e.diff, ReviewSetTag(e.runSet.profiles), e.gateSeen).None?;
    assert GateOf(s, e) == RunEngine && Reviews(s, e);
  }

  lemma CountsTwice(run: RunLog)
    requires Substantive(run)
    ensures SubstantiveRuns([run] + [run], run.pr, run.diff, ReviewSetTag(run.profiles)) == 2
  {
    InitOfSnoc([run], run);
    var none: seq<RunLog> := [];
    InitOfSnoc(none, run);
    assert none + [run] == [run];
    assert SubstantiveRuns([run], run.pr, run.diff, ReviewSetTag(run.profiles)) == 1;
  }

  /** With working lookups and records kept, what the general namespace answers: PASS as soon as
      any set passed this diff, whatever was rejected before or after; FAIL only while something
      was rejected and nothing passed; a miss when nothing was decided. */
  lemma {:induction false} GeneralVerdictIsAnyPass(upload: Upload, events: seq<Event>, pr: string, diff: string)
    requires forall e :: e in events ==> Reliable(e)
    ensures var s := Run(upload, events);
            && (Entry(pr, diff, None, true) in s.store <==>
                  exists run :: run in s.runs && run.pr == pr && run.diff == diff && Substantive(run) && Passed(run))
            && (Entry(pr, diff, None, false) in s.store <==>
                  exists run :: run in s.runs && run.pr == pr && run.diff == diff && Substantive(run) && !Passed(run))
    decreases |events|
  {
    if events != [] {
      var s, e := Run(upload, events[..|events| - 1]), events[|events| - 1];
      var s' := Run(upload, events);
      GeneralVerdictIsAnyPass(upload, events[..|events| - 1], pr, diff);
      assert Reliable(e);
      if Reviews(s, e) {
        var run := RunOf(e);
        var tags := Stored(upload, ReviewSetTag(run.profiles), true, true);
        assert None in tags;
        assert forall r :: r in s'.runs <==> r in s.runs || r == run;
        assert Substantive(run) ==> forall pass ::
          Entry(pr, diff, None, pass) in s'.store <==>
            Entry(pr, diff, None, pass) in s.store || (run.pr == pr && run.diff == diff && Passed(run) == pass);
      }
    }
  }

  lemma GeneralLookup(upload: Upload, events: seq<Event>, pr: string, diff: string)
    requires forall e :: e in events ==> Reliable(e)
    ensures var s := Run(upload, events);
            var answer := Lookup(s.store, pr, diff, None, Seen(true, true));
            && (answer == Some(true) <==>
                  exists run :: run in s.runs && run.pr == pr && run.diff == diff && Substantive(run) && Passed(run))
            && (answer.None? <==>
                  forall run :: run in s.runs && run.pr == pr && run.diff == diff ==> !Substantive(run))
  {
    GeneralVerdictIsAnyPass(upload, events, pr, diff);
  }

  /** So a rejection can be forgotten: reviewer `a` rejects the diff, its label is replaced by
      `b`, whose review passes, and the next event without labels goes green from the cache
      although nothing in the diff changed. */
  lemma RejectionIsForgotten(upload: Upload, first: Event, second: Event, third: Event)
    requires first.pr == second.pr == third.pr && first.diff == second.diff == third.diff
    requires first.gateSet == first.runSet && second.gateSet == second.runSet
    requires first.runSet.Resolved? && second.runSet.Resolved? && OneLine(first.runSet.profiles) && OneLine(second.runSet.profiles)
    requires first.runSet.profiles != [] && second.runSet.profiles != []
    requires Elements(first.runSet.profiles) != Elements(second.runSet.profiles)
    requires forall e :: e in [first, second] ==> e.requested && !e.republishOnly && e.ready && e.stripped && Reliable(e)
    requires Substantive(RunOf(first)) && !Passed(RunOf(first)) && Substantive(RunOf(second)) && Passed(RunOf(second))
    requires third.gateSet.Resolved? && third.gateSet.profiles == [] && third.gateSeen == Seen(true, true)
    ensures GateOf(Run(upload, [first]), third) == CacheHit(false)
    ensures GateOf(Run(upload, [first, second]), third) == CacheHit(true)
  {
    assert first in [first, second] && second in [first, second];
    TagNamesTheSet(first.runSet.profiles, second.runSet.profiles);
    var tag1, tag2 := ReviewSetTag(first.runSet.profiles), ReviewSetTag(second.runSet.profiles);
    RunOneTwo(upload, first, second);
    var s1 := Run(upload, [first]);
    assert s1.store == EntriesOf(RunOf(first), Stored(upload, tag1, true, true));
    assert None in Stored(upload, tag1, true, true) && tag2 !in Stored(upload, tag1, true, true);
    assert Entry(first.pr, first.diff, None, false) in s1.store;
    assert forall en :: en in s1.store ==> !en.pass && en.tag != tag2;
    var s2 := Run(upload, [first, second]);
    assert Reviews(s1, second);
    assert None in Stored(upload, tag2, true, true);
    assert Entry(first.pr, first.diff, None, true) in EntriesOf(RunOf(second), Stored(upload, tag2, true, true));
  }

  /** Reviewers that judge a diff the same way every time they can judge it at all. */
  ghost predicate Consistent(events: seq<Event>, judges: (string, string) -> Verdict) {
    forall e, n :: e in events && n in e.verdicts && e.verdicts[n] != Unreadable ==> e.verdicts[n] == judges(e.diff, n)
  }

  lemma {:induction false} RunsAreConsistent(upload: Upload, events: seq<Event>, judges: (string, string) -> Verdict, run: RunLog, n: string)
    requires Consistent(events, judges) && run in Run(upload, events).runs
    ensures VerdictOf(run.verdicts, n) != Unreadable ==> VerdictOf(run.verdicts, n) == judges(run.diff, n)
    decreases |events|
  {
    if events != [] && run in Run(upload, events[..|events| - 1]).runs {
      RunsAreConsistent(upload, events[..|events| - 1], judges, run, n);
    }
  }

  /** With such reviewers the cache answers what reviewing again would: a cached PASS means the
      general reviewer and every profile asked for pass the diff; a cached FAIL of a named set
      means one of exactly these rejects it. */
  lemma CacheAgreesWithReviewingAgain(upload: Upload, events: seq<Event>, judges: (string, string) -> Verdict,
                                      pr: string, diff: string, profiles: seq<string>, seen: Seen)
    requires WellNamed(events) && OneLine(profiles) && Consistent(events, judges)
    ensures var asked := [GENERAL_REVIEWER] + profiles;
            match Lookup(Run(upload, events).store, pr, diff, ReviewSetTag(profiles), seen)
            case Some(true) => forall n :: n in asked ==> judges(diff, n) == Pass
            case Some(false) => profiles != [] ==> exists n :: n in asked && judges(diff, n) == Fail
            case None => true
  {
    var answer := Lookup(Run(upload, events).store, pr, diff, ReviewSetTag(profiles), seen);
    var asked := [GENERAL_REVIEWER] + profiles;
    if answer == Some(true) {
      CachedPassIsSound(upload, events, pr, diff, profiles, seen);
      var run :| run in Run(upload, events).runs && run.pr == pr && run.diff == diff && Passed(run) && Elements(profiles) <= Elements(run.profiles);
      forall n | n in asked ensures judges(diff, n) == Pass {
        RunsAreConsistent(upload, events, judges, run, n);
        if n in profiles { InElements(profiles, n); InElements(run.profiles, n); }
      }
    } else if answer == Some(false) && profiles != [] {
      CachedFailIsARejection(upload, events, pr, diff, profiles, seen);
      var run :| run in Run(upload, events).runs && RejectedBy(run, pr, diff) && Elements(run.profiles) == Elements(profiles);
      var n :| n in Reviewers(run) && VerdictOf(run.verdicts, n) == Fail;
      RunsAreConsistent(upload, events, judges, run, n);
      if n in run.profiles { InElements(run.profiles, n); InElements(profiles, n); }
      assert n in asked;
    }
  }

  lemma InElements(names: seq<string>, n: string)
    ensures n in names <==> n in Elements(names)
  {
  }

  // ---- When the engine runs ----

  /** The lookup could see no verdict of this diff under this tag. */
  ghost predicate Unseen(store: set<Entry>, e: Event, profiles: seq<string>, seen: Seen) {
    && !(seen.pass && Entry(e.pr, e.diff, ReviewSetTag(profiles), true) in store)
    && !(seen.fail && Entry(e.pr, e.diff, ReviewSetTag(profiles), false) in store)
  }

  /** No reviewer is named, and the author is a bot that never needs one or the diff is below Tier 2. */
  ghost predicate Exempt(e: Event) {
    e.gateSet.Resolved? && e.gateSet.profiles == [] &&
    (e.tier < 2 || e.author == Some("dependabot[bot]") || e.author == Some("dependabot"))
  }

  /** A resolved set nobody has a visible verdict for, not exempt, asked for by something that is no push. */
  ghost predicate Due(store: set<Entry>, e: Event) {
    && e.gateSet.Resolved? && Unseen(store, e, e.gateSet.profiles, e.gateSeen) && !Exempt(e)
    && e.requested && !e.republishOnly
  }

  /** And the review step gets to its reviewers. */
  ghost predicate Reachable(store: set<Entry>, e: Event) {
    e.ready && e.stripped && e.runSet.Resolved? && Unseen(store, e, e.runSet.profiles, e.runSeen)
  }

  lemma GateMeans(s: State, e: Event)
    ensures GateOf(s, e) == RunEngine <==> Due(s.store, e)
    ensures Reviews(s, e) <==> Due(s.store, e) && Reachable(s.store, e)
  {
  }

  /** After any history, an event runs the reviewers if and only if a review was due and could be
      made, whatever its set, the general reviewer alone included; and then it is that one run, of
      that diff with that set, that is added. */
  lemma EngineRunsExactly(upload: Upload, events: seq<Event>, e: Event)
    ensures var s, s' := Run(upload, events), Run(upload, events + [e]);
            && (s'.runs != s.runs <==> Due(s.store, e) && Reachable(s.store, e))
            && (s'.runs != s.runs ==> s'.runs == s.runs + [RunLog(e.pr, e.diff, e.runSet.profiles, e.verdicts)])
  {
    InitOfSnoc(events, e);
    GateMeans(Run(upload, events), e);
  }

  ghost predicate PassSeen(store: set<Entry>, e: Event, profiles: seq<string>, seen: Seen) {
    seen.pass && Entry(e.pr, e.diff, ReviewSetTag(profiles), true) in store
  }

  ghost predicate AllPass(e: Event) {
    e.runSet.Resolved? && forall n :: n in ["general"] + e.runSet.profiles ==> n in e.verdicts && e.verdicts[n] == Pass
  }

  /** The review step itself ends green: it saw a PASS, or every reviewer passed. */
  ghost predicate StepPasses(store: set<Entry>, e: Event) {
    e.ready && e.runSet.Resolved? && (PassSeen(store, e, e.runSet.profiles, e.runSeen) || (Reachable(store, e) && AllPass(e)))
  }

  lemma GreenMeans(s: State, e: Event)
    ensures Green(s, e) <==>
              e.gateSet.Resolved? &&
              (|| PassSeen(s.store, e, e.gateSet.profiles, e.gateSeen)
               || (Exempt(e) && Unseen(s.store, e, e.gateSet.profiles, e.gateSeen))
               || (Due(s.store, e) && StepPasses(s.store, e)))
  {
    GateMeans(s, e);
    if e.runSet.Resolved? {
      var run := RunOf(e);
      assert Reviewers(run) == ["general"] + e.runSet.profiles;
      forall n | n in Reviewers(run) ensures VerdictOf(run.verdicts, n) == Pass <==> n in e.verdicts && e.verdicts[n] == Pass {
      }
      assert Passed(run) <==> AllPass(e);
    }
  }

  /** After any history, the check goes green if and only if the set is resolved and a PASS is seen in
      the cache, or the PR is exempt and no verdict is seen, or a review was due and the review step
      saw a PASS or had every reviewer pass. */
  lemma GreenExactly(upload: Upload, events: seq<Event>, e: Event)
    ensures var s, s' := Run(upload, events), Run(upload, events + [e]);
            && |s'.conclusions| == |s.conclusions| + 1 && s'.conclusions[..|s.conclusions|] == s.conclusions
            && s'.conclusions[|s.conclusions|].event == e
            && (s'.conclusions[|s.conclusions|].green <==>
                  e.gateSet.Resolved? &&
                  (|| PassSeen(s.store, e, e.gateSet.profiles, e.gateSeen)
                   || (Exempt(e) && Unseen(s.store, e, e.gateSet.profiles, e.gateSeen))
                   || (Due(s.store, e) && StepPasses(s.store, e))))
  {
    var s := Run(upload, events);
    InitOfSnoc(events, e);
    GreenMeans(s, e);
    InitOfSnoc(s.conclusions, Conclusion(e, GateOf(s, e), Green(s, e)));
  }

  // ---- The check as the workflow runs it ----

  /** The artifacts, and the history of what the check did. */
  class ReviewCheck {
    const upload: Upload
    var store: set<Entry>
    var runs: seq<RunLog>
    var conclusions: seq<Conclusion>

    ghost function Contents(): State
      reads this
    {
      State(store, runs, conclusions)
    }

    constructor (upload: Upload)
      ensures Contents() == EMPTY && this.upload == upload
    {
      this.upload := upload;
      store, runs, conclusions := {}, [], [];
    }

    /** All reviewers pass; all reviewers answered. */
    method Compose(run: RunLog) returns (ok: bool, substantive: bool)
      ensures ok == Passed(run) && substantive == Substantive(run)
    {
      ok, substantive := true, true;
      var names := Reviewers(run);
      var i := 0;
      while i < |names|
        invariant 0 <= i <= |names|
        invariant ok <==> forall k :: 0 <= k < i ==> VerdictOf(run.verdicts, names[k]) == Pass
        invariant substantive <==> forall k :: 0 <= k < i ==> VerdictOf(run.verdicts, names[k]) != Unreadable
      {
        var verdict := VerdictOf(run.verdicts, names[i]);
        ok := ok && verdict == Pass;
        substantive := substantive && verdict != Unreadable;
        i := i + 1;
      }
    }

    /** Records under the exact set, then under the general namespace, and uploads. */
    method RecordVerdict(run: RunLog, ok: bool, keptExact: bool, keptGeneral: bool)
      requires ok == Passed(run)
      modifies this`store
      ensures store == old(store) + EntriesOf(run, Stored(upload, ReviewSetTag(run.profiles), keptExact, keptGeneral))
    {
      var exact := ReviewSetTag(run.profiles);
      var scopes := if exact.Some? then [exact, None] else [None];
      var recorded: seq<Option<Digest>> := [];
      var i := 0;
      while i < |scopes|
        invariant 0 <= i <= |scopes|
        invariant i == 0 ==> recorded == []
        invariant i == 1 && exact.Some? ==> recorded == if keptExact then [exact] else []
        invariant i == |scopes| ==> recorded == (if exact.Some? && keptExact then [exact] else []) + (if keptGeneral then [None] else [])
      {
        if (if scopes[i].Some? then keptExact else keptGeneral) {
          recorded := recorded + [scopes[i]];
        }
        i := i + 1;
      }
      var uploaded := if upload == EveryRecord || recorded == [] then recorded else [recorded[|recorded| - 1]];
      var tags := set t | t in uploaded;
      assert tags == Stored(upload, exact, keptExact, keptGeneral);
      store := store + set t | t in tags :: Entry(run.pr, run.diff, t, ok);
    }

    /** The review step: resolve the set, look up, strip, review, record. */
    method ReviewStep(e: Event) returns (green: bool)
      requires GateOf(Contents(), e) == RunEngine
      modifies this`store, this`runs
      ensures green == Green(old(Contents()), e)
      ensures store == Step(upload, old(Contents()), e).store && runs == Step(upload, old(Contents()), e).runs
    {
      if !e.ready || e.runSet.Unresolved? {
        return false;
      }
      var cached := Lookup(store, e.pr, e.diff, ReviewSetTag(e.runSet.profiles), e.runSeen);
      if cached.Some? {
        return cached.value;
      }
      if !e.stripped {
        return false;
      }
      var run := RunOf(e);
      var ok, substantive := Compose(run);
      runs := runs + [run];
      if substantive {
        RecordVerdict(run, ok, e.keptExact, e.keptGeneral);
      }
      green := ok;
    }

    method Handle(e: Event)
      modifies this
      ensures Contents() == Step(upload, old(Contents()), e)
    {
      var cached := if e.gateSet.Unresolved? then None
                    else Lookup(store, e.pr, e.diff, ReviewSetTag(e.gateSet.profiles), e.gateSeen);
      var gate := DecideReviewGate(e.gateSet, cached, e.author, e.tier, e.requested, e.republishOnly);
      var green := gate == CacheHit(true) || gate == BotAuthored || gate == LowTier;
      if gate == RunEngine {
        green := ReviewStep(e);
      }
      conclusions := conclusions + [Conclusion(e, gate, green)];
    }
  }
}
