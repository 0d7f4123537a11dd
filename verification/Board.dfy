/** The pull-request board: one action per open PR, from the checks on its current head, its base
    branch's ruleset and its reviews. */
module Board {
  import opened Options
  import opened Fragments
  import opened Sequences
  import ReviewGate

  datatype CheckState = Passing | Failing | Pending

  /** `substantive` says, of a failed `fleet/review`, that its own verdict failed. */
  datatype Check = Check(name: string, sha: string, state: CheckState, runAttempt: Option<nat>, substantive: bool)

  datatype ReviewState = Approved | ChangesRequested | Dismissed
  datatype PrReview = PrReview(login: string, state: ReviewState)

  /** `files` is the part of the diff that was read, out of `changedFiles`. */
  datatype Pr = Pr(number: nat, author: string, isDraft: bool, head: string, headRefName: string, base: string,
                   mergeState: string, labels: seq<string>, reviews: seq<PrReview>, files: seq<string>, changedFiles: nat,
                   checks: seq<Check>)

  datatype Ruleset = Ruleset(requiredContexts: seq<string>, requireCodeOwnerReview: bool, requiredApprovals: nat,
                             extraApprovalForBots: bool)

  datatype CodeOwnerRule = CodeOwnerRule(pattern: string, owners: seq<string>)
  datatype CodeOwners = NotRead | Unreadable | Rules(rules: seq<CodeOwnerRule>)

  /** None is a ruleset that could not be learnt. */
  datatype BranchGate = BranchGate(ruleset: Option<Ruleset>, codeOwners: CodeOwners)

  datatype Action =
    | CannotDecide | Merge | ApproveThenMerge | RerunReview | NeedsFix | ReviewBlocked
    | LabelForReview | StaleLabel | Waiting | Operator
    | LabelCandidate

  datatype Classification = Classification(action: Action, failing: seq<string>)

  const REVIEW_JOB := "fleet/review"
  const RELEASE_BRANCH := "release"
  const KNOWN_BOT_LOGINS := {"dependabot", "github-actions", "app/dependabot", "app/github-actions",
                             "dependabot[bot]", "github-actions[bot]"}
  const MERGEABLE_STATES := {"CLEAN", "UNSTABLE", "HAS_HOOKS"}

  predicate IsBotAuthor(login: string) {
    login in KNOWN_BOT_LOGINS || EndsWith(login, "[bot]") || "app/" <= login
  }

  // ---- The ruleset ----

  /** A rule of the branch; a context or a whole list may be malformed. */
  datatype RawRule =
    | StatusChecks(contexts: Option<seq<Option<string>>>)
    | PullRequestRule(codeOwnerReview: bool, extraApproval: bool, approvals: Option<nat>)
    | OtherRule

  predicate WellFormedRule(r: RawRule) {
    r.StatusChecks? ==> r.contexts.Some? && forall c :: c in r.contexts.value ==> c.Some? && c.value != ""
  }

  predicate Demands(rules: seq<RawRule>, context: string) {
    exists r :: r in rules && r.StatusChecks? && r.contexts.Some? && Some(context) in r.contexts.value
  }

  /** Refuses malformed rules and an empty required set; otherwise the union of the contexts and
      the strictest of everything else. */
  method DeriveBranchRuleset(raw: seq<RawRule>) returns (r: Option<Ruleset>)
    ensures r.Some? <==> (forall x :: x in raw ==> WellFormedRule(x)) && exists c :: Demands(raw, c)
    ensures r.Some? ==> forall c :: c in r.value.requiredContexts <==> Demands(raw, c)
    ensures r.Some? ==> (r.value.requireCodeOwnerReview <==> exists x :: x in raw && x.PullRequestRule? && x.codeOwnerReview)
    ensures r.Some? ==> (r.value.extraApprovalForBots <==> exists x :: x in raw && x.PullRequestRule? && x.extraApproval)
    ensures r.Some? ==> forall x :: x in raw && x.PullRequestRule? && x.approvals.Some? ==> x.approvals.value <= r.value.requiredApprovals
    ensures r.Some? && r.value.requiredApprovals > 0 ==>
              exists x :: x in raw && x.PullRequestRule? && x.approvals == Some(r.value.requiredApprovals)
  {
    var contexts: seq<string> := [];
    var codeOwner, extra := false, false;
    var approvals: nat := 0;
    var i := 0;
    while i < |raw|
      invariant 0 <= i <= |raw|
      invariant forall x :: x in raw[..i] ==> WellFormedRule(x)
      invariant forall c :: c in contexts <==> Demands(raw[..i], c)
      invariant codeOwner <==> exists x :: x in raw[..i] && x.PullRequestRule? && x.codeOwnerReview
      invariant extra <==> exists x :: x in raw[..i] && x.PullRequestRule? && x.extraApproval
      invariant forall x :: x in raw[..i] && x.PullRequestRule? && x.approvals.Some? ==> x.approvals.value <= approvals
      invariant approvals > 0 ==> exists x :: x in raw[..i] && x.PullRequestRule? && x.approvals == Some(approvals)
    {
      var rule := raw[i];
      assert raw[..i + 1] == raw[..i] + [rule];
      match rule {
        case StatusChecks(list) =>
          if list.None? {
            assert rule in raw && !WellFormedRule(rule);
            return None;
          }
          var ok;
          ok, contexts := AddContexts(contexts, list.value);
          if !ok {
            assert rule in raw && !WellFormedRule(rule);
            return None;
          }
          forall c ensures c in contexts <==> Demands(raw[..i + 1], c) {
            assert Demands(raw[..i + 1], c) <==> Demands(raw[..i], c) || Some(c) in list.value;
          }
        case PullRequestRule(owner, unattributed, count) =>
          codeOwner := codeOwner || owner;
          extra := extra || unattributed;
          if count.Some? && count.value > approvals {
            approvals := count.value;
            assert rule in raw[..i + 1];
          }
          DemandsOther(raw[..i], rule);
        case OtherRule =>
          DemandsOther(raw[..i], rule);
      }
      i := i + 1;
    }
    assert raw[..i] == raw;
    if |contexts| == 0 {
      return None;
    }
    assert contexts[0] in contexts;
    r := Some(Ruleset(contexts, codeOwner, approvals, extra));
  }

  lemma DemandsOther(rules: seq<RawRule>, rule: RawRule)
    requires !rule.StatusChecks?
    ensures forall c :: Demands(rules + [rule], c) <==> Demands(rules, c)
  {
    forall c ensures Demands(rules + [rule], c) <==> Demands(rules, c) {
      assert forall r :: r in rules + [rule] <==> r in rules || r == rule;
    }
  }

  method AddContexts(contexts: seq<string>, list: seq<Option<string>>) returns (ok: bool, r: seq<string>)
    ensures ok <==> forall c :: c in list ==> c.Some? && c.value != ""
    ensures ok ==> forall c :: c in r <==> c in contexts || Some(c) in list
  {
    ok, r := true, contexts;
    var i := 0;
    while i < |list|
      invariant 0 <= i <= |list|
      invariant forall c :: c in list[..i] ==> c.Some? && c.value != ""
      invariant forall c :: c in r <==> c in contexts || Some(c) in list[..i]
    {
      assert list[..i + 1] == list[..i] + [list[i]];
      if list[i].None? || list[i].value == "" {
        assert list[i] in list;
        return false, contexts;
      }
      if list[i].value !in r {
        r := r + [list[i].value];
      }
      i := i + 1;
    }
    assert list[..i] == list;
  }

  // ---- Reviews ----

  /** The owners of a path: those of the last rule that matches it. */
  function OwnersOf(rules: seq<CodeOwnerRule>, path: string, matches: (string, string) -> bool): seq<string> {
    if rules == [] then []
    else if matches(rules[|rules| - 1].pattern, path) then rules[|rules| - 1].owners
    else OwnersOf(rules[..|rules| - 1], path, matches)
  }

  method CodeOwnersOf(rules: seq<CodeOwnerRule>, path: string, matches: (string, string) -> bool) returns (owners: seq<string>)
    ensures owners == OwnersOf(rules, path, matches)
  {
    var i := |rules|;
    assert rules[..i] == rules;
    while i > 0
      invariant 0 <= i <= |rules|
      invariant OwnersOf(rules, path, matches) == OwnersOf(rules[..i], path, matches)
      decreases i
    {
      i := i - 1;
      assert rules[..i + 1][..i] == rules[..i];
      if matches(rules[i].pattern, path) {
        return rules[i].owners;
      }
    }
    owners := [];
  }

  /** A later rule that matches, even one naming nobody, takes the path from every earlier one. */
  lemma {:induction false} LastMatchWins(rules: seq<CodeOwnerRule>, path: string, matches: (string, string) -> bool, k: nat)
    requires k < |rules| && matches(rules[k].pattern, path)
    requires forall j :: k < j < |rules| ==> !matches(rules[j].pattern, path)
    ensures OwnersOf(rules, path, matches) == rules[k].owners
  {
    if k < |rules| - 1 { LastMatchWins(rules[..|rules| - 1], path, matches, k); }
  }

  function Approvers(pr: Pr): set<string> {
    set r | r in pr.reviews && r.state == Approved && r.login != pr.author :: r.login
  }

  /** A path nobody owns, or one approved by a person who owns it; a team cannot be checked. */
  predicate OwnerApproved(pr: Pr, rules: seq<CodeOwnerRule>, matches: (string, string) -> bool, path: string) {
    var owners := OwnersOf(rules, path, matches);
    owners == [] || exists o :: o in owners && '/' !in o && o in Approvers(pr)
  }

  datatype Blocker = ChangesWanted | TooFewApprovals | FilesTruncated | CodeOwnerMissing | BotUnapproved

  function ReviewBlockers(pr: Pr, rules: Ruleset, codeOwners: Option<seq<CodeOwnerRule>>, matches: (string, string) -> bool): seq<Blocker> {
    (if exists r :: r in pr.reviews && r.state == ChangesRequested then [ChangesWanted] else []) +
    (if |Approvers(pr)| < rules.requiredApprovals then [TooFewApprovals] else []) +
    (if rules.requireCodeOwnerReview && codeOwners.Some? then
       (if pr.changedFiles > |pr.files| then [FilesTruncated] else []) +
       (if exists f :: f in pr.files && !OwnerApproved(pr, codeOwners.value, matches, f) then [CodeOwnerMissing] else [])
     else []) +
    (if rules.extraApprovalForBots && IsBotAuthor(pr.author) && Approvers(pr) == {} then [BotUnapproved] else [])
  }

  /** Every blocker is a missing approval that some other person could give. */
  predicate NeedsApprovalOnly(pr: Pr, rules: Ruleset, codeOwners: Option<seq<CodeOwnerRule>>, matches: (string, string) -> bool) {
    && (forall r :: r in pr.reviews ==> r.state != ChangesRequested)
    && (rules.requireCodeOwnerReview && codeOwners.Some? ==>
          forall f :: f in pr.files && !OwnerApproved(pr, codeOwners.value, matches, f) ==>
            exists o :: o in OwnersOf(codeOwners.value, f, matches) && o != pr.author)
  }

  // ---- Checks ----

  /** Only what is bound to the current head exists. */
  function ChecksOnHead(pr: Pr): seq<Check> {
    OnSha(pr.checks, pr.head)
  }

  function OnSha(checks: seq<Check>, sha: string): seq<Check> {
    if checks == [] then []
    else (if checks[0].sha == sha then [checks[0]] else []) + OnSha(checks[1..], sha)
  }

  /** The worst of the same-named checks; None when there is none. */
  function RequiredContextState(onHead: seq<Check>, name: string): Option<CheckState> {
    if !exists c :: c in onHead && c.name == name then None
    else if exists c :: c in onHead && c.name == name && c.state == Failing then Some(Failing)
    else if exists c :: c in onHead && c.name == name && c.state == Pending then Some(Pending)
    else Some(Passing)
  }

  function ContextsIn(onHead: seq<Check>, names: seq<string>, states: set<Option<CheckState>>): seq<string> {
    if names == [] then []
    else
      (if names[0] != REVIEW_JOB && RequiredContextState(onHead, names[0]) in states then [names[0]] else []) +
      ContextsIn(onHead, names[1..], states)
  }

  /** The first check of this name. */
  function FirstNamed(checks: seq<Check>, name: string): Option<Check> {
    if checks == [] then None else if checks[0].name == name then Some(checks[0]) else FirstNamed(checks[1..], name)
  }

  // ---- One PR ----

  function Only(action: Action): Classification {
    Classification(action, [])
  }

  function ClassifyPr(pr: Pr, gate: BranchGate, matches: (string, string) -> bool): Classification {
    if pr.isDraft || (pr.headRefName == RELEASE_BRANCH && IsBotAuthor(pr.author)) then Only(Operator)
    else if gate.ruleset.None? then Only(CannotDecide)
    else if gate.ruleset.value.requireCodeOwnerReview && !gate.codeOwners.Rules? then Only(CannotDecide)
    else
      var rules := gate.ruleset.value;
      var codeOwners := if rules.requireCodeOwnerReview then Some(gate.codeOwners.rules) else None;
      var onHead := ChecksOnHead(pr);
      var failing := ContextsIn(onHead, rules.requiredContexts, {Some(Failing)});
      if failing != [] then Classification(NeedsFix, failing)
      else if ContextsIn(onHead, rules.requiredContexts, {None, Some(Pending)}) != [] then Only(Waiting)
      else
        var review := FirstNamed(onHead, REVIEW_JOB);
        if review.None? then
          (if exists l :: l in pr.labels && ReviewGate.IsReviewerLabel(l) then Only(StaleLabel) else Only(LabelCandidate))
        else ClassifyReviewed(pr, rules, codeOwners, matches, review.value)
  }

  /** Every cheap check is green and `fleet/review` has something on the head. */
  function ClassifyReviewed(pr: Pr, rules: Ruleset, codeOwners: Option<seq<CodeOwnerRule>>, matches: (string, string) -> bool,
                            review: Check): Classification {
    match review.state
    case Pending => Only(Waiting)
    case Passing =>
      if ReviewBlockers(pr, rules, codeOwners, matches) != [] then
        (if IsBotAuthor(pr.author) && NeedsApprovalOnly(pr, rules, codeOwners, matches) then Only(ApproveThenMerge)
         else Only(ReviewBlocked))
      else if pr.mergeState == "DIRTY" then Only(NeedsFix)
      else if pr.mergeState == "UNKNOWN" then Only(Waiting)
      else if pr.mergeState !in MERGEABLE_STATES then Only(Operator)
      else Only(Merge)
    case Failing =>
      if review.substantive then Classification(NeedsFix, [REVIEW_JOB])
      else if (if review.runAttempt.Some? then review.runAttempt.value else 1) <= 1 then Only(RerunReview)
      else Classification(NeedsFix, [REVIEW_JOB])
  }

  lemma {:induction false} OnShaMembers(checks: seq<Check>, sha: string)
    ensures forall c :: c in OnSha(checks, sha) <==> c in checks && c.sha == sha
  {
    if checks != [] { OnShaMembers(checks[1..], sha); }
  }

  lemma {:induction false} NoContextsIn(onHead: seq<Check>, names: seq<string>, states: set<Option<CheckState>>)
    ensures ContextsIn(onHead, names, states) == [] <==>
              forall n :: n in names && n != REVIEW_JOB ==> RequiredContextState(onHead, n) !in states
  {
    if names != [] { NoContextsIn(onHead, names[1..], states); }
  }

  /** The context was posted on the head, and every check of that name there passes. */
  ghost predicate GreenOnHead(pr: Pr, name: string) {
    && (exists c :: c in pr.checks && c.sha == pr.head && c.name == name)
    && (forall c :: c in pr.checks && c.sha == pr.head && c.name == name ==> c.state == Passing)
  }

  /** What the ruleset's reviews demand is met. */
  ghost predicate ReviewsMet(pr: Pr, gate: BranchGate, matches: (string, string) -> bool)
    requires gate.ruleset.Some?
  {
    var rules := gate.ruleset.value;
    && (forall r :: r in pr.reviews ==> r.state != ChangesRequested)
    && |Approvers(pr)| >= rules.requiredApprovals
    && (rules.requireCodeOwnerReview ==>
          && gate.codeOwners.Rules? && pr.changedFiles <= |pr.files|
          && forall f :: f in pr.files ==> OwnerApproved(pr, gate.codeOwners.rules, matches, f))
    && (rules.extraApprovalForBots && IsBotAuthor(pr.author) ==> Approvers(pr) != {})
  }

  lemma GreenMeansPassing(pr: Pr, name: string)
    ensures GreenOnHead(pr, name) <==> RequiredContextState(ChecksOnHead(pr), name) == Some(Passing)
  {
    OnShaMembers(pr.checks, pr.head);
  }

  lemma CheapGreen(pr: Pr, names: seq<string>)
    ensures ContextsIn(ChecksOnHead(pr), names, {Some(Failing)}) == [] && ContextsIn(ChecksOnHead(pr), names, {None, Some(Pending)}) == [] <==>
              forall n :: n in names && n != REVIEW_JOB ==> GreenOnHead(pr, n)
  {
    NoContextsIn(ChecksOnHead(pr), names, {Some(Failing)});
    NoContextsIn(ChecksOnHead(pr), names, {None, Some(Pending)});
    forall n | n in names ensures GreenOnHead(pr, n) <==> RequiredContextState(ChecksOnHead(pr), n) == Some(Passing) {
      GreenMeansPassing(pr, n);
    }
  }

  lemma NoBlockersMeansMet(pr: Pr, gate: BranchGate, matches: (string, string) -> bool)
    requires gate.ruleset.Some? && (gate.ruleset.value.requireCodeOwnerReview ==> gate.codeOwners.Rules?)
    ensures var rules := gate.ruleset.value;
            ReviewBlockers(pr, rules, if rules.requireCodeOwnerReview then Some(gate.codeOwners.rules) else None, matches) == []
            <==> ReviewsMet(pr, gate, matches)
  {
  }

  lemma MergeNeedsAReview(pr: Pr, rules: Ruleset, codeOwners: Option<seq<CodeOwnerRule>>, matches: (string, string) -> bool, review: Check)
    ensures ClassifyReviewed(pr, rules, codeOwners, matches, review).action == Merge <==>
              review.state == Passing && ReviewBlockers(pr, rules, codeOwners, matches) == [] && pr.mergeState in MERGEABLE_STATES
  {
    assert "DIRTY"[0] == 'D' && "UNKNOWN"[1] == 'N' && "UNSTABLE"[2] == 'S' && "UNKNOWN"[2] == 'K';
    assert "DIRTY" !in MERGEABLE_STATES && "UNKNOWN" !in MERGEABLE_STATES;
  }

  lemma MergeNeedsGates(pr: Pr, gate: BranchGate, matches: (string, string) -> bool)
    requires !pr.isDraft && !(pr.headRefName == RELEASE_BRANCH && IsBotAuthor(pr.author))
    requires gate.ruleset.Some? && (gate.ruleset.value.requireCodeOwnerReview ==> gate.codeOwners.Rules?)
    ensures var rules := gate.ruleset.value;
            var codeOwners := if rules.requireCodeOwnerReview then Some(gate.codeOwners.rules) else None;
            var review := FirstNamed(ChecksOnHead(pr), REVIEW_JOB);
            ClassifyPr(pr, gate, matches).action == Merge <==>
              && ContextsIn(ChecksOnHead(pr), rules.requiredContexts, {Some(Failing)}) == []
              && ContextsIn(ChecksOnHead(pr), rules.requiredContexts, {None, Some(Pending)}) == []
              && review.Some? && ClassifyReviewed(pr, rules, codeOwners, matches, review.value).action == Merge
  {
  }

  /** MERGE is said exactly when the ruleset is known, every other required context is green in all
      its head checks, the first `fleet/review` on the head passes, the reviews demanded are in,
      and GitHub's own state allows it; never of a draft or an automated release PR. */
  lemma MergeMeans(pr: Pr, gate: BranchGate, matches: (string, string) -> bool)
    ensures ClassifyPr(pr, gate, matches).action == Merge <==>
              && !pr.isDraft && !(pr.headRefName == RELEASE_BRANCH && IsBotAuthor(pr.author))
              && gate.ruleset.Some?
              && (forall n :: n in gate.ruleset.value.requiredContexts && n != REVIEW_JOB ==> GreenOnHead(pr, n))
              && FirstNamed(ChecksOnHead(pr), REVIEW_JOB).Some?
              && FirstNamed(ChecksOnHead(pr), REVIEW_JOB).value.state == Passing
              && ReviewsMet(pr, gate, matches)
              && pr.mergeState in MERGEABLE_STATES
  {
    if !pr.isDraft && !(pr.headRefName == RELEASE_BRANCH && IsBotAuthor(pr.author)) && gate.ruleset.Some? {
      var rules := gate.ruleset.value;
      if rules.requireCodeOwnerReview ==> gate.codeOwners.Rules? {
        var codeOwners := if rules.requireCodeOwnerReview then Some(gate.codeOwners.rules) else None;
        var review := FirstNamed(ChecksOnHead(pr), REVIEW_JOB);
        MergeNeedsGates(pr, gate, matches);
        CheapGreen(pr, rules.requiredContexts);
        NoBlockersMeansMet(pr, gate, matches);
        if review.Some? { MergeNeedsAReview(pr, rules, codeOwners, matches, review.value); }
      }
    }
  }

  // ---- Every other action ----

  /** A draft, or the release PR a bot opened. */
  ghost predicate ForOperator(pr: Pr) {
    pr.isDraft || (pr.headRefName == "release" && IsBotAuthor(pr.author))
  }

  ghost predicate GateKnown(gate: BranchGate) {
    gate.ruleset.Some? && (gate.ruleset.value.requireCodeOwnerReview ==> gate.codeOwners.Rules?)
  }

  /** Some check of this name on the head failed. */
  ghost predicate FailsOnHead(pr: Pr, name: string) {
    exists c :: c in pr.checks && c.sha == pr.head && c.name == name && c.state == Failing
  }

  /** A required context other than the review failed on the head. */
  ghost predicate CheapFails(pr: Pr, gate: BranchGate)
    requires gate.ruleset.Some?
  {
    exists n :: n in gate.ruleset.value.requiredContexts && n != "fleet/review" && FailsOnHead(pr, n)
  }

  /** Every required context other than the review is green on the head. */
  ghost predicate CheapGreenAll(pr: Pr, gate: BranchGate)
    requires gate.ruleset.Some?
  {
    forall n :: n in gate.ruleset.value.requiredContexts && n != "fleet/review" ==> GreenOnHead(pr, n)
  }

  lemma FailingMeans(pr: Pr, name: string)
    ensures FailsOnHead(pr, name) <==> RequiredContextState(ChecksOnHead(pr), name) == Some(Failing)
  {
    OnShaMembers(pr.checks, pr.head);
  }

  lemma CheapMeans(pr: Pr, gate: BranchGate)
    requires gate.ruleset.Some?
    ensures var names := gate.ruleset.value.requiredContexts;
            && (ContextsIn(ChecksOnHead(pr), names, {Some(Failing)}) != [] <==> CheapFails(pr, gate))
            && (ContextsIn(ChecksOnHead(pr), names, {Some(Failing)}) == [] && ContextsIn(ChecksOnHead(pr), names, {None, Some(Pending)}) == []
                <==> CheapGreenAll(pr, gate))
  {
    var names := gate.ruleset.value.requiredContexts;
    NoContextsIn(ChecksOnHead(pr), names, {Some(Failing)});
    CheapGreen(pr, names);
    forall n | n in names ensures FailsOnHead(pr, n) <==> RequiredContextState(ChecksOnHead(pr), n) == Some(Failing) {
      FailingMeans(pr, n);
    }
  }

  /** What is said before the review is looked at: nothing automatic of a draft or a release PR; no
      decision without the ruleset, or the owners it asks for; a failed required context, in any of
      its checks on the head, must be fixed; one not green yet is waited for. */
  lemma BeforeTheReview(pr: Pr, gate: BranchGate, matches: (string, string) -> bool)
    ensures var action := ClassifyPr(pr, gate, matches).action;
            && (ForOperator(pr) ==> action == Operator)
            && (!ForOperator(pr) && !GateKnown(gate) ==> action == CannotDecide)
            && (!ForOperator(pr) && GateKnown(gate) && CheapFails(pr, gate) ==> action == NeedsFix)
            && (!ForOperator(pr) && GateKnown(gate) && !CheapFails(pr, gate) && !CheapGreenAll(pr, gate) ==> action == Waiting)
            && (action == CannotDecide ==> !ForOperator(pr) && !GateKnown(gate))
  {
    if gate.ruleset.Some? { CheapMeans(pr, gate); }
    OnlyReviewedActions(pr, gate, matches);
  }

  lemma OnlyReviewedActions(pr: Pr, gate: BranchGate, matches: (string, string) -> bool)
    ensures ClassifyPr(pr, gate, matches).action == CannotDecide ==> !ForOperator(pr) && !GateKnown(gate)
  {
  }

  lemma {:induction false} ContextsInAre(onHead: seq<Check>, names: seq<string>, states: set<Option<CheckState>>)
    ensures forall n :: n in ContextsIn(onHead, names, states) <==>
              n in names && n != REVIEW_JOB && RequiredContextState(onHead, n) in states
  {
    if names != [] {
      ContextsInAre(onHead, names[1..], states);
      assert names == [names[0]] + names[1..];
    }
  }

  /** What must be fixed is named: exactly the required contexts that failed on the head. */
  lemma FailedContextsAreNamed(pr: Pr, gate: BranchGate, matches: (string, string) -> bool, n: string)
    requires !ForOperator(pr) && GateKnown(gate) && CheapFails(pr, gate)
    ensures n in ClassifyPr(pr, gate, matches).failing <==>
              n in gate.ruleset.value.requiredContexts && n != "fleet/review" && FailsOnHead(pr, n)
  {
    CheapMeans(pr, gate);
    ContextsInAre(ChecksOnHead(pr), gate.ruleset.value.requiredContexts, {Some(Failing)});
    FailingMeans(pr, n);
  }

  /** The rule that decides who owns a path: the last that matches it. */
  ghost predicate Decides(rules: seq<CodeOwnerRule>, path: string, matches: (string, string) -> bool, k: nat) {
    k < |rules| && matches(rules[k].pattern, path) && forall j :: k < j < |rules| ==> !matches(rules[j].pattern, path)
  }

  ghost predicate ApprovedBy(pr: Pr, login: string) {
    login != pr.author && exists r :: r in pr.reviews && r.state == Approved && r.login == login
  }

  lemma {:induction false} OwnersMean(rules: seq<CodeOwnerRule>, path: string, matches: (string, string) -> bool)
    ensures forall k: nat :: Decides(rules, path, matches, k) ==> OwnersOf(rules, path, matches) == rules[k].owners
    ensures (forall k :: 0 <= k < |rules| ==> !matches(rules[k].pattern, path)) ==> OwnersOf(rules, path, matches) == []
  {
    forall k: nat | Decides(rules, path, matches, k) ensures OwnersOf(rules, path, matches) == rules[k].owners {
      LastMatchWins(rules, path, matches, k);
    }
    if rules != [] { OwnersMean(rules[..|rules| - 1], path, matches); }
  }

  /** An approval never comes from the author, and a file's owners have approved it when the rule that
      decides names nobody, or one of the people it names, not a team, approved. */
  lemma ApprovalsMean(pr: Pr, rules: seq<CodeOwnerRule>, matches: (string, string) -> bool, path: string, login: string)
    ensures login in Approvers(pr) <==> ApprovedBy(pr, login)
    ensures forall k: nat :: Decides(rules, path, matches, k) ==>
              (OwnerApproved(pr, rules, matches, path) <==>
                 rules[k].owners == [] || exists o :: o in rules[k].owners && '/' !in o && ApprovedBy(pr, o))
    ensures (forall k :: 0 <= k < |rules| ==> !matches(rules[k].pattern, path)) ==> OwnerApproved(pr, rules, matches, path)
  {
    OwnersMean(rules, path, matches);
    forall o ensures o in Approvers(pr) <==> ApprovedBy(pr, o) {
    }
  }

  /** The first `fleet/review` posted on the head is the one read. */
  ghost predicate ReadFirst(pr: Pr, review: Check) {
    exists k: nat :: FirstReviewAt(pr, review, k)
  }

  ghost predicate FirstReviewAt(pr: Pr, review: Check, k: nat) {
    && k < |pr.checks| && pr.checks[k] == review && review.sha == pr.head && review.name == "fleet/review"
    && forall j :: 0 <= j < k ==> pr.checks[j].sha != pr.head || pr.checks[j].name != "fleet/review"
  }

  lemma {:induction false} FirstNamedIs(checks: seq<Check>, sha: string, name: string) returns (k: nat)
    ensures FirstNamed(OnSha(checks, sha), name).None? <==> forall c :: c in checks ==> c.sha != sha || c.name != name
    ensures FirstNamed(OnSha(checks, sha), name).Some? ==>
              && k < |checks| && checks[k] == FirstNamed(OnSha(checks, sha), name).value && checks[k].sha == sha && checks[k].name == name
              && forall j :: 0 <= j < k ==> checks[j].sha != sha || checks[j].name != name
  {
    k := 0;
    if checks != [] && !(checks[0].sha == sha && checks[0].name == name) {
      var rest := FirstNamedIs(checks[1..], sha, name);
      k := rest + 1;
      var more := OnSha(checks[1..], sha);
      assert checks == [checks[0]] + checks[1..];
      assert ([checks[0]] + more)[1..] == more && [] + more == more;
    } else if checks != [] {
      assert ([checks[0]] + OnSha(checks[1..], sha))[0] == checks[0];
    }
  }

  /** Every cheap check green and no review on the head: a reviewer label still on the PR is stale, and
      without one the PR is a candidate to be labelled. */
  lemma WithoutAReview(pr: Pr, gate: BranchGate, matches: (string, string) -> bool)
    requires !ForOperator(pr) && GateKnown(gate) && CheapGreenAll(pr, gate)
    requires forall c :: c in pr.checks ==> c.sha != pr.head || c.name != "fleet/review"
    ensures ClassifyPr(pr, gate, matches).action ==
              if exists l :: l in pr.labels && ReviewGate.IsReviewerLabel(l) then StaleLabel else LabelCandidate
  {
    CheapMeans(pr, gate);
    var k := FirstNamedIs(pr.checks, pr.head, REVIEW_JOB);
  }

  /** Every blocker is an approval some other person could give: nobody asked for changes, and each
      file without an owner's approval has an owner besides the author. */
  ghost predicate OnlyApprovalsMissing(pr: Pr, gate: BranchGate, matches: (string, string) -> bool)
    requires gate.ruleset.Some?
  {
    && (forall r :: r in pr.reviews ==> r.state != ChangesRequested)
    && (gate.ruleset.value.requireCodeOwnerReview && gate.codeOwners.Rules? ==>
          forall f :: f in pr.files && !OwnerApproved(pr, gate.codeOwners.rules, matches, f) ==>
            exists o :: o in OwnersOf(gate.codeOwners.rules, f, matches) && o != pr.author)
  }

  /** Every cheap check green and a review on the head: its state, the reviews demanded and GitHub's own
      state decide. A failed review is rerun only when the failure was not its verdict's and it was
      never rerun before. */
  lemma WithAReview(pr: Pr, gate: BranchGate, matches: (string, string) -> bool, review: Check)
    requires !ForOperator(pr) && GateKnown(gate) && CheapGreenAll(pr, gate) && ReadFirst(pr, review)
    ensures ClassifyPr(pr, gate, matches).action ==
              match review.state
              case Pending => Waiting
              case Failing =>
                if !review.substantive && (review.runAttempt.None? || review.runAttempt.value <= 1) then RerunReview else NeedsFix
              case Passing =>
                if !ReviewsMet(pr, gate, matches) then
                  (if IsBotAuthor(pr.author) && OnlyApprovalsMissing(pr, gate, matches) then ApproveThenMerge else ReviewBlocked)
                else if pr.mergeState == "DIRTY" then NeedsFix
                else if pr.mergeState == "UNKNOWN" then Waiting
                else if pr.mergeState in {"CLEAN", "UNSTABLE", "HAS_HOOKS"} then Merge
                else Operator
  {
    CheapMeans(pr, gate);
    var k := FirstNamedIs(pr.checks, pr.head, REVIEW_JOB);
    var m: nat :| FirstReviewAt(pr, review, m);
    assert pr.checks[m] in pr.checks;
    assert k == m;
    var rules := gate.ruleset.value;
    var owners := if rules.requireCodeOwnerReview then Some(gate.codeOwners.rules) else None;
    NoBlockersMeansMet(pr, gate, matches);
    assert NeedsApprovalOnly(pr, rules, owners, matches) <==> OnlyApprovalsMissing(pr, gate, matches);
    ReadThrough(pr, gate, matches, owners, review);
  }

  lemma ReadThrough(pr: Pr, gate: BranchGate, matches: (string, string) -> bool, owners: Option<seq<CodeOwnerRule>>, review: Check)
    requires !ForOperator(pr) && GateKnown(gate)
    requires owners == if gate.ruleset.value.requireCodeOwnerReview then Some(gate.codeOwners.rules) else None
    requires ContextsIn(ChecksOnHead(pr), gate.ruleset.value.requiredContexts, {Some(Failing)}) == []
    requires ContextsIn(ChecksOnHead(pr), gate.ruleset.value.requiredContexts, {None, Some(Pending)}) == []
    requires FirstNamed(ChecksOnHead(pr), REVIEW_JOB) == Some(review)
    ensures ClassifyPr(pr, gate, matches) == ClassifyReviewed(pr, gate.ruleset.value, owners, matches, review)
  {
  }

  /** Checks bound to any other commit do not exist. */
  lemma StaleChecksNeverMatter(pr: Pr, checks: seq<Check>, gate: BranchGate, matches: (string, string) -> bool)
    requires OnSha(checks, pr.head) == ChecksOnHead(pr)
    ensures ClassifyPr(pr.(checks := checks), gate, matches) == ClassifyPr(pr, gate, matches)
  {
    assert ChecksOnHead(pr.(checks := checks)) == ChecksOnHead(pr);
    if gate.ruleset.Some? {
      var rules := gate.ruleset.value;
      ChecksAreNoReviews(pr, checks, rules, if rules.requireCodeOwnerReview && gate.codeOwners.Rules? then Some(gate.codeOwners.rules) else None, matches);
    }
  }

  lemma ChecksAreNoReviews(pr: Pr, checks: seq<Check>, rules: Ruleset, owners: Option<seq<CodeOwnerRule>>, matches: (string, string) -> bool)
    ensures ReviewBlockers(pr.(checks := checks), rules, owners, matches) == ReviewBlockers(pr, rules, owners, matches)
    ensures NeedsApprovalOnly(pr.(checks := checks), rules, owners, matches) == NeedsApprovalOnly(pr, rules, owners, matches)
  {
    var other := pr.(checks := checks);
    assert Approvers(other) == Approvers(pr);
    assert forall rs, f :: OwnerApproved(other, rs, matches, f) <==> OwnerApproved(pr, rs, matches, f);
  }

  lemma {:induction false} OnShaAppend(checks: seq<Check>, more: Check, sha: string)
    ensures OnSha(checks + [more], sha) == OnSha(checks, sha) + if more.sha == sha then [more] else []
  {
    if checks == [] {
      assert checks + [more] == [more] && [more][1..] == [];
    } else {
      assert (checks + [more])[1..] == checks[1..] + [more] && (checks + [more])[0] == checks[0];
      OnShaAppend(checks[1..], more, sha);
      Associative(if checks[0].sha == sha then [checks[0]] else [], OnSha(checks[1..], sha), if more.sha == sha then [more] else []);
    }
  }

  lemma {:induction false} FirstNamedAppend(checks: seq<Check>, more: Check, name: string)
    requires FirstNamed(checks, name).Some?
    ensures FirstNamed(checks + [more], name) == FirstNamed(checks, name)
  {
    if checks[0].name != name {
      assert (checks + [more])[1..] == checks[1..] + [more];
      FirstNamedAppend(checks[1..], more, name);
    }
  }

  /** Of `fleet/review`, unlike every other context, only the first check on the head is read: a
      second one that failed does not take MERGE back. */
  lemma SecondReviewCheckIsNotRead(pr: Pr, gate: BranchGate, matches: (string, string) -> bool, second: Check)
    requires ClassifyPr(pr, gate, matches).action == Merge && second.name == REVIEW_JOB
    ensures ClassifyPr(pr.(checks := pr.checks + [second]), gate, matches).action == Merge
  {
    var other := pr.(checks := pr.checks + [second]);
    MergeMeans(pr, gate, matches);
    MergeMeans(other, gate, matches);
    OnShaAppend(pr.checks, second, pr.head);
    FirstNamedAppend(ChecksOnHead(pr), second, REVIEW_JOB);
    assert ChecksOnHead(pr) + [] == ChecksOnHead(pr);
    assert Approvers(other) == Approvers(pr);
    assert forall rs, f :: OwnerApproved(other, rs, matches, f) <==> OwnerApproved(pr, rs, matches, f);
    forall n | n != REVIEW_JOB && GreenOnHead(pr, n) ensures GreenOnHead(other, n) {
    }
  }

  // ---- The whole board ----

  datatype Row = Row(number: nat, author: string, head: string, action: Action, failing: seq<string>)

  function GateOf(gates: map<string, BranchGate>, base: string): BranchGate {
    if base in gates then gates[base] else BranchGate(None, NotRead)
  }

  /** How the board classifies a PR; what follows about rows holds for any way of classifying. */
  function Classifier(gates: map<string, BranchGate>, matches: (string, string) -> bool): Pr -> Classification {
    (pr: Pr) => ClassifyPr(pr, GateOf(gates, pr.base), matches)
  }

  /** The smallest number among the candidates for a review. */
  function Chosen(prs: seq<Pr>, classify: Pr -> Classification): Option<nat> {
    if prs == [] then None
    else
      var before, pr := Chosen(prs[..|prs| - 1], classify), prs[|prs| - 1];
      if classify(pr).action != LabelCandidate then before
      else if before.None? || pr.number < before.value then Some(pr.number)
      else before
  }

  function RowOf(pr: Pr, c: Classification, chosen: Option<nat>): Row {
    if c.action == LabelCandidate
    then Row(pr.number, pr.author, pr.head, if chosen == Some(pr.number) then LabelForReview else Waiting, [])
    else Row(pr.number, pr.author, pr.head, c.action, c.failing)
  }

  /** The order actions are listed in. */
  function Rank(a: Action): nat {
    match a
    case CannotDecide => 0 case Merge => 1 case ApproveThenMerge => 2 case RerunReview => 3 case NeedsFix => 4
    case ReviewBlocked => 5 case LabelForReview => 6 case StaleLabel => 7 case Waiting => 8 case Operator => 9
    case LabelCandidate => 10
  }

  predicate Before(a: Row, b: Row) {
    Rank(a.action) < Rank(b.action) || (Rank(a.action) == Rank(b.action) && a.number < b.number)
  }

  /** The order the board promises, most actionable first; then by number. */
  lemma MostActionableFirst(a: Row, b: Row)
    requires a.action != LabelCandidate && b.action != LabelCandidate
    ensures var order := [CannotDecide, Merge, ApproveThenMerge, RerunReview, NeedsFix,
                          ReviewBlocked, LabelForReview, StaleLabel, Waiting, Operator];
            Before(a, b) <==> exists i, j :: 0 <= i <= j < |order| && order[i] == a.action && order[j] == b.action && (i < j || a.number < b.number)
  {
    var order := [CannotDecide, Merge, ApproveThenMerge, RerunReview, NeedsFix,
                  ReviewBlocked, LabelForReview, StaleLabel, Waiting, Operator];
    assert order[Rank(a.action)] == a.action && order[Rank(b.action)] == b.action;
    assert forall i :: 0 <= i < |order| ==> Rank(order[i]) == i;
  }

  /** Inserted after every row that does not come later: equal keys keep their order. */
  function InsertRow(sorted: seq<Row>, r: Row): seq<Row> {
    if sorted == [] then [r]
    else if Before(r, sorted[0]) then [r] + sorted
    else [sorted[0]] + InsertRow(sorted[1..], r)
  }

  function SortedRows(prs: seq<Pr>, classify: Pr -> Classification, chosen: Option<nat>): seq<Row> {
    if prs == [] then []
    else
      var pr := prs[|prs| - 1];
      InsertRow(SortedRows(prs[..|prs| - 1], classify, chosen), RowOf(pr, classify(pr), chosen))
  }

  function Rows(prs: seq<Pr>, classify: Pr -> Classification): seq<Row> {
    SortedRows(prs, classify, Chosen(prs, classify))
  }

  method ChooseForReview(prs: seq<Pr>, classify: Pr -> Classification) returns (chosen: Option<nat>)
    ensures chosen == Chosen(prs, classify)
  {
    chosen := None;
    var i := 0;
    while i < |prs|
      invariant 0 <= i <= |prs|
      invariant chosen == Chosen(prs[..i], classify)
    {
      TakeOneMore(prs, i);
      if classify(prs[i]).action == LabelCandidate && (chosen.None? || prs[i].number < chosen.value) {
        chosen := Some(prs[i].number);
      }
      i := i + 1;
    }
    assert prs[..i] == prs;
  }

  method BuildBoard(prs: seq<Pr>, gates: map<string, BranchGate>, matches: (string, string) -> bool) returns (rows: seq<Row>)
    ensures rows == Rows(prs, Classifier(gates, matches))
  {
    var classify := Classifier(gates, matches);
    var chosen := ChooseForReview(prs, classify);
    rows := [];
    var i := 0;
    while i < |prs|
      invariant 0 <= i <= |prs|
      invariant rows == SortedRows(prs[..i], classify, chosen)
    {
      TakeOneMore(prs, i);
      rows := InsertRow(rows, RowOf(prs[i], classify(prs[i]), chosen));
      i := i + 1;
    }
    assert prs[..i] == prs;
  }

  ghost predicate DistinctNumbers(prs: seq<Pr>) {
    forall i, j :: 0 <= i < j < |prs| ==> prs[i].number != prs[j].number
  }

  lemma {:induction false} ChosenIsOldest(prs: seq<Pr>, classify: Pr -> Classification)
    ensures var c := Chosen(prs, classify);
            && (c.None? <==> forall pr :: pr in prs ==> classify(pr).action != LabelCandidate)
            && (c.Some? ==>
                  && (exists pr :: pr in prs && pr.number == c.value && classify(pr).action == LabelCandidate)
                  && (forall pr :: pr in prs && classify(pr).action == LabelCandidate ==> c.value <= pr.number))
  {
    if prs != [] {
      var init, last := prs[..|prs| - 1], prs[|prs| - 1];
      ChosenIsOldest(init, classify);
      assert forall pr :: pr in prs <==> pr in init || pr == last;
    }
  }

  ghost predicate InOrder(rows: seq<Row>) {
    forall i, j :: 0 <= i < j < |rows| ==> !Before(rows[j], rows[i])
  }

  lemma {:induction false} InsertRowAdds(sorted: seq<Row>, r: Row)
    ensures multiset(InsertRow(sorted, r)) == multiset(sorted) + multiset{r}
  {
    if sorted != [] && !Before(r, sorted[0]) {
      InsertRowAdds(sorted[1..], r);
      assert sorted == [sorted[0]] + sorted[1..];
    }
  }

  lemma OnlyAdded(sorted: seq<Row>, r: Row, x: Row)
    requires x in InsertRow(sorted, r)
    ensures x == r || x in sorted
  {
    InsertRowAdds(sorted, r);
    assert x in multiset(InsertRow(sorted, r));
  }

  lemma InOrderCons(first: Row, rest: seq<Row>)
    requires InOrder(rest) && forall x :: x in rest ==> !Before(x, first)
    ensures InOrder([first] + rest)
  {
  }

  lemma {:induction false} InsertRowKeepsOrder(sorted: seq<Row>, r: Row)
    requires InOrder(sorted)
    ensures InOrder(InsertRow(sorted, r))
  {
    if sorted != [] {
      if Before(r, sorted[0]) {
        forall x | x in sorted ensures !Before(x, r) {
          var k :| 0 <= k < |sorted| && sorted[k] == x;
          assert k > 0 ==> !Before(sorted[k], sorted[0]);
        }
        InOrderCons(r, sorted);
      } else {
        InsertRowKeepsOrder(sorted[1..], r);
        forall x | x in InsertRow(sorted[1..], r) ensures !Before(x, sorted[0]) {
          OnlyAdded(sorted[1..], r, x);
          if x in sorted[1..] {
            var k :| 0 <= k < |sorted[1..]| && sorted[1..][k] == x;
            assert !Before(sorted[k + 1], sorted[0]);
          }
        }
        InOrderCons(sorted[0], InsertRow(sorted[1..], r));
      }
    }
  }

  /** The rows the PRs have, one each. */
  function RowsInInputOrder(prs: seq<Pr>, classify: Pr -> Classification, chosen: Option<nat>): seq<Row> {
    if prs == [] then []
    else RowsInInputOrder(prs[..|prs| - 1], classify, chosen) + [RowOf(prs[|prs| - 1], classify(prs[|prs| - 1]), chosen)]
  }

  lemma {:induction false} RowsFollowPrs(prs: seq<Pr>, classify: Pr -> Classification, chosen: Option<nat>)
    ensures var rows := RowsInInputOrder(prs, classify, chosen);
            |rows| == |prs| && forall i :: 0 <= i < |prs| ==> rows[i] == RowOf(prs[i], classify(prs[i]), chosen)
  {
    if prs != [] { RowsFollowPrs(prs[..|prs| - 1], classify, chosen); }
  }

  lemma {:induction false} RowsConcat(a: seq<Pr>, b: seq<Pr>, classify: Pr -> Classification, chosen: Option<nat>)
    ensures RowsInInputOrder(a + b, classify, chosen) == RowsInInputOrder(a, classify, chosen) + RowsInInputOrder(b, classify, chosen)
    decreases |b|
  {
    if b == [] {
      assert a + b == a;
    } else {
      assert (a + b)[..|a + b| - 1] == a + b[..|b| - 1];
      RowsConcat(a, b[..|b| - 1], classify, chosen);
    }
  }

  /** The board is a sorted permutation of the PRs' rows. */
  lemma {:induction false} BoardIsSortedPermutation(prs: seq<Pr>, classify: Pr -> Classification, chosen: Option<nat>)
    ensures InOrder(SortedRows(prs, classify, chosen))
    ensures multiset(SortedRows(prs, classify, chosen)) == multiset(RowsInInputOrder(prs, classify, chosen))
  {
    if prs != [] {
      var init, last := prs[..|prs| - 1], prs[|prs| - 1];
      var row := RowOf(last, classify(last), chosen);
      BoardIsSortedPermutation(init, classify, chosen);
      InsertRowAdds(SortedRows(init, classify, chosen), row);
      InsertRowKeepsOrder(SortedRows(init, classify, chosen), row);
      assert RowsInInputOrder(prs, classify, chosen) == RowsInInputOrder(init, classify, chosen) + [row];
      assert multiset(RowsInInputOrder(init, classify, chosen) + [row]) == multiset(RowsInInputOrder(init, classify, chosen)) + multiset{row};
    }
  }

  /** A review is asked for on at most one PR: the candidate with the smallest number. Every other
      candidate waits, and the classification itself never asks. */
  lemma OneReviewAtATime(prs: seq<Pr>, gates: map<string, BranchGate>, matches: (string, string) -> bool, pr: Pr)
    requires pr in prs
    ensures var classify := Classifier(gates, matches);
            var c := classify(pr);
            var row := RowOf(pr, c, Chosen(prs, classify));
            && (row.action == LabelForReview <==>
                  c.action == LabelCandidate &&
                  forall o :: o in prs && classify(o).action == LabelCandidate ==> pr.number <= o.number)
            && (c.action == LabelCandidate && row.action != LabelForReview ==> row.action == Waiting)
            && row.action != LabelCandidate
  {
    NeverAsks(gates, matches);
    OldestIsAsked(prs, Classifier(gates, matches), pr);
  }

  ghost predicate Sparing(classify: Pr -> Classification) {
    forall pr :: classify(pr).action != LabelForReview
  }

  /** The classification itself never asks. */
  lemma NeverAsks(gates: map<string, BranchGate>, matches: (string, string) -> bool)
    ensures Sparing(Classifier(gates, matches))
  {
    forall pr: Pr ensures ClassifyPr(pr, GateOf(gates, pr.base), matches).action != LabelForReview {
      NeverLabelsDirectly(pr, GateOf(gates, pr.base), matches);
    }
  }

  lemma OldestIsAsked(prs: seq<Pr>, classify: Pr -> Classification, pr: Pr)
    requires pr in prs && Sparing(classify)
    ensures var c := classify(pr);
            var row := RowOf(pr, c, Chosen(prs, classify));
            && (row.action == LabelForReview <==>
                  c.action == LabelCandidate &&
                  forall o :: o in prs && classify(o).action == LabelCandidate ==> pr.number <= o.number)
            && (c.action == LabelCandidate && row.action != LabelForReview ==> row.action == Waiting)
            && row.action != LabelCandidate
  {
    ChosenIsOldest(prs, classify);
  }

  lemma NeverLabelsDirectly(pr: Pr, gate: BranchGate, matches: (string, string) -> bool)
    ensures ClassifyPr(pr, gate, matches).action != LabelForReview
  {
  }

  // ---- Independence of the input order ----

  lemma FirstOfSorted(a: seq<Row>, x: Row)
    requires InOrder(a) && x in a
    ensures !Before(x, a[0])
  {
    var k :| 0 <= k < |a| && a[k] == x;
    if k == 0 { assert !Before(a[0], a[0]); }
  }

  lemma DistinctByNumber(a: seq<Row>, x: Row, y: Row)
    requires DistinctRows(a) && x in a && y in a && x.number == y.number
    ensures x == y
  {
    var i :| 0 <= i < |a| && a[i] == x;
    var j :| 0 <= j < |a| && a[j] == y;
    assert i == j;
  }

  lemma SameFirst(a: seq<Row>, b: seq<Row>)
    requires InOrder(a) && InOrder(b) && multiset(a) == multiset(b) && a != [] && b != []
    requires DistinctRows(a)
    ensures a[0] == b[0]
  {
    assert a[0] in multiset(b) && b[0] in multiset(a);
    FirstOfSorted(b, a[0]);
    FirstOfSorted(a, b[0]);
    DistinctByNumber(a, a[0], b[0]);
  }

  lemma {:induction false} SortedIsUnique(a: seq<Row>, b: seq<Row>)
    requires InOrder(a) && InOrder(b) && multiset(a) == multiset(b)
    requires DistinctRows(a)
    ensures a == b
  {
    assert |a| == |multiset(a)| == |multiset(b)| == |b|;
    if a != [] {
      SameFirst(a, b);
      TailWithoutFirst(a);
      TailWithoutFirst(b);
      SortedIsUnique(a[1..], b[1..]);
      assert a == [a[0]] + a[1..] && b == [b[0]] + b[1..];
    }
  }

  lemma TailWithoutFirst(a: seq<Row>)
    requires a != [] && InOrder(a)
    ensures multiset(a[1..]) == multiset(a) - multiset{a[0]} && InOrder(a[1..])
    ensures DistinctRows(a) ==> DistinctRows(a[1..])
  {
    assert a == [a[0]] + a[1..];
  }

  /** Taking out the element at `k` takes out its row. */
  lemma RowsWithout(prs: seq<Pr>, k: nat, classify: Pr -> Classification, chosen: Option<nat>)
    requires k < |prs|
    ensures multiset(prs[..k] + prs[k + 1..]) == multiset(prs) - multiset{prs[k]}
    ensures multiset(RowsInInputOrder(prs, classify, chosen)) ==
            multiset(RowsInInputOrder(prs[..k] + prs[k + 1..], classify, chosen)) + multiset{RowOf(prs[k], classify(prs[k]), chosen)}
  {
    var before, one, after := prs[..k], [prs[k]], prs[k + 1..];
    assert prs == before + (one + after);
    assert one[..0] == [];
    assert RowsInInputOrder(one, classify, chosen) == [] + [RowOf(prs[k], classify(prs[k]), chosen)];
    RowsConcat(before, one + after, classify, chosen);
    RowsConcat(one, after, classify, chosen);
    RowsConcat(before, after, classify, chosen);
  }

  lemma {:induction false} MapMultiset(prs: seq<Pr>, others: seq<Pr>, classify: Pr -> Classification, chosen: Option<nat>)
    requires multiset(prs) == multiset(others)
    ensures multiset(RowsInInputOrder(prs, classify, chosen)) == multiset(RowsInInputOrder(others, classify, chosen))
    decreases |prs|
  {
    if prs == [] {
      assert |multiset(others)| == 0;
    } else {
      var n := |prs| - 1;
      assert prs[n] in multiset(others);
      var k :| 0 <= k < |others| && others[k] == prs[n];
      RowsWithout(prs, n, classify, chosen);
      RowsWithout(others, k, classify, chosen);
      assert prs[..n] + prs[n + 1..] == prs[..n];
      MapMultiset(prs[..n], others[..k] + others[k + 1..], classify, chosen);
    }
  }

  ghost predicate DistinctRows(rows: seq<Row>) {
    forall i, j :: 0 <= i < j < |rows| ==> rows[i].number != rows[j].number
  }

  lemma PermutedRowsStayDistinct(input: seq<Row>, rows: seq<Row>)
    requires DistinctRows(input) && multiset(rows) == multiset(input)
    ensures DistinctRows(rows)
  {
    forall i, j | 0 <= i < j < |rows| ensures rows[i].number != rows[j].number {
      AtMostOnce(input, rows[i]);
      if rows[i] == rows[j] {
        RepeatedTwice(rows, i, j);
        assert false;
      }
      InputIndex(input, rows, i);
      InputIndex(input, rows, j);
    }
  }

  lemma InputIndex(input: seq<Row>, rows: seq<Row>, i: nat)
    requires multiset(rows) == multiset(input) && i < |rows|
    ensures exists p :: 0 <= p < |input| && input[p] == rows[i]
  {
    assert rows[i] in multiset(input);
  }

  lemma RepeatedTwice(rows: seq<Row>, i: nat, j: nat)
    requires i < j < |rows| && rows[i] == rows[j]
    ensures multiset(rows)[rows[i]] >= 2
  {
    assert rows == rows[..j] + [rows[j]] + rows[j + 1..];
    assert rows[..j][i] == rows[i] && rows[i] in multiset(rows[..j]);
  }

  lemma {:induction false} AtMostOnce(rows: seq<Row>, r: Row)
    requires DistinctRows(rows)
    ensures multiset(rows)[r] <= 1
  {
    if rows != [] {
      var n := |rows| - 1;
      AtMostOnce(rows[..n], r);
      assert rows == rows[..n] + [rows[n]];
      if rows[n] == r {
        assert r !in rows[..n];
        assert multiset(rows[..n])[r] == 0;
      }
    }
  }

  lemma SameChosen(prs: seq<Pr>, others: seq<Pr>, classify: Pr -> Classification)
    requires forall pr :: pr in prs <==> pr in others
    ensures Chosen(prs, classify) == Chosen(others, classify)
  {
    ChosenIsOldest(prs, classify);
    ChosenIsOldest(others, classify);
  }

  /** For distinct PR numbers the board does not depend on the order the PRs were listed in. */
  lemma BoardIgnoresInputOrder(prs: seq<Pr>, others: seq<Pr>, classify: Pr -> Classification)
    requires multiset(prs) == multiset(others) && DistinctNumbers(prs)
    ensures Rows(prs, classify) == Rows(others, classify)
  {
    forall pr ensures pr in prs <==> pr in others {
      assert pr in prs <==> pr in multiset(prs);
      assert pr in others <==> pr in multiset(others);
    }
    SameChosen(prs, others, classify);
    var chosen := Chosen(prs, classify);
    BoardIsSortedPermutation(prs, classify, chosen);
    BoardIsSortedPermutation(others, classify, chosen);
    MapMultiset(prs, others, classify, chosen);
    RowsFollowPrs(prs, classify, chosen);
    PermutedRowsStayDistinct(RowsInInputOrder(prs, classify, chosen), SortedRows(prs, classify, chosen));
    SortedIsUnique(SortedRows(prs, classify, chosen), SortedRows(others, classify, chosen));
  }

  /** A row that asks for a review is the row of the chosen PR. */
  lemma AskingRow(prs: seq<Pr>, classify: Pr -> Classification, row: Row)
    requires Sparing(classify) && row in Rows(prs, classify) && row.action == LabelForReview
    ensures Chosen(prs, classify) == Some(row.number)
  {
    var chosen := Chosen(prs, classify);
    BoardIsSortedPermutation(prs, classify, chosen);
    RowsFollowPrs(prs, classify, chosen);
    assert row in multiset(RowsInInputOrder(prs, classify, chosen));
    var p :| 0 <= p < |prs| && RowsInInputOrder(prs, classify, chosen)[p] == row;
  }

  lemma ChosenRowAsks(prs: seq<Pr>, classify: Pr -> Classification)
    requires Chosen(prs, classify).Some?
    ensures exists row :: row in Rows(prs, classify) && row.action == LabelForReview
  {
    var chosen := Chosen(prs, classify);
    ChosenIsOldest(prs, classify);
    var pr :| pr in prs && pr.number == chosen.value && classify(pr).action == LabelCandidate;
    var p :| 0 <= p < |prs| && prs[p] == pr;
    BoardIsSortedPermutation(prs, classify, chosen);
    RowsFollowPrs(prs, classify, chosen);
    var row := RowsInInputOrder(prs, classify, chosen)[p];
    assert row in multiset(RowsInInputOrder(prs, classify, chosen)) && row in multiset(Rows(prs, classify));
  }

  /** The board itself, for distinct PR numbers: at most one of its rows asks for a review, and one
      does if and only if there is a candidate. */
  lemma BoardAsksForOneReview(prs: seq<Pr>, gates: map<string, BranchGate>, matches: (string, string) -> bool)
    requires DistinctNumbers(prs)
    ensures var classify := Classifier(gates, matches);
            var rows := Rows(prs, classify);
            && (forall i, j :: 0 <= i < j < |rows| ==> rows[i].action != LabelForReview || rows[j].action != LabelForReview)
            && ((exists row :: row in rows && row.action == LabelForReview) <==>
                exists pr :: pr in prs && classify(pr).action == LabelCandidate)
  {
    NeverAsks(gates, matches);
    RowsAskOnce(prs, Classifier(gates, matches));
  }

  lemma RowsAskOnce(prs: seq<Pr>, classify: Pr -> Classification)
    requires DistinctNumbers(prs) && Sparing(classify)
    ensures var rows := Rows(prs, classify);
            && (forall i, j :: 0 <= i < j < |rows| ==> rows[i].action != LabelForReview || rows[j].action != LabelForReview)
            && ((exists row :: row in rows && row.action == LabelForReview) <==>
                exists pr :: pr in prs && classify(pr).action == LabelCandidate)
  {
    var rows, chosen := Rows(prs, classify), Chosen(prs, classify);
    BoardIsSortedPermutation(prs, classify, chosen);
    RowsFollowPrs(prs, classify, chosen);
    PermutedRowsStayDistinct(RowsInInputOrder(prs, classify, chosen), rows);
    forall i, j | 0 <= i < j < |rows| ensures rows[i].action != LabelForReview || rows[j].action != LabelForReview {
      if rows[i].action == LabelForReview { AskingRow(prs, classify, rows[i]); }
      if rows[j].action == LabelForReview { AskingRow(prs, classify, rows[j]); }
    }
    ChosenIsOldest(prs, classify);
    if chosen.Some? { ChosenRowAsks(prs, classify); }
    forall row | row in rows && row.action == LabelForReview ensures chosen.Some? {
      AskingRow(prs, classify, row);
    }
  }

  ghost predicate SameRow(a: Pr, b: Pr, classify: Pr -> Classification) {
    b.number == a.number && b.author == a.author && b.head == a.head && classify(b) == classify(a)
  }

  lemma {:induction false} SameRowsSameBoard(prs: seq<Pr>, others: seq<Pr>, classify: Pr -> Classification, chosen: Option<nat>)
    requires |prs| == |others| && forall i :: 0 <= i < |prs| ==> SameRow(prs[i], others[i], classify)
    ensures Chosen(prs, classify) == Chosen(others, classify)
    ensures SortedRows(prs, classify, chosen) == SortedRows(others, classify, chosen)
    decreases |prs|
  {
    if prs != [] {
      var n := |prs| - 1;
      SameRowsSameBoard(prs[..n], others[..n], classify, chosen);
      assert SameRow(prs[n], others[n], classify);
    }
  }

  /** The same PR with other checks that agree on the head. */
  ghost predicate SameOnHead(a: Pr, b: Pr) {
    b == a.(checks := b.checks) && OnSha(b.checks, a.head) == OnSha(a.checks, a.head)
  }

  /** Adding, dropping or changing checks bound to any commit but the head moves no row of the board. */
  lemma StaleChecksNeverMoveARow(prs: seq<Pr>, others: seq<Pr>, gates: map<string, BranchGate>, matches: (string, string) -> bool)
    requires |prs| == |others| && forall i :: 0 <= i < |prs| ==> SameOnHead(prs[i], others[i])
    ensures Rows(prs, Classifier(gates, matches)) == Rows(others, Classifier(gates, matches))
  {
    var classify := Classifier(gates, matches);
    forall i | 0 <= i < |prs| ensures SameRow(prs[i], others[i], classify) {
      assert SameOnHead(prs[i], others[i]);
      StaleChecksNeverMatter(prs[i], others[i].checks, GateOf(gates, prs[i].base), matches);
    }
    SameRowsSameBoard(prs, others, classify, Chosen(prs, classify));
  }
}
