/** Tearing down a worker's worktree without losing what is in it. Every git command may
    fail, before or after it took effect; `Plan` says how each one goes. */
module Worktree {

  /** A failed command may have taken effect all the same (a timeout, a killed process). */
  datatype GitResult = Worked | FailedBefore | FailedAfter

  datatype Plan = Plan(status: GitResult, checkout: GitResult, stage: GitResult, commit: GitResult,
                       push: GitResult, remove: GitResult)

  type Change = string

  /** `uncommitted` is what `git status` lists; `local` and `remote` hold the changes reachable
      from each branch of the repository and of the origin. */
  datatype Tree = Tree(uncommitted: set<Change>, head: string, local: map<string, set<Change>>,
                       remote: map<string, set<Change>>, standing: bool)

  ghost predicate WellFormed(t: Tree) {
    t.head in t.local && (!t.standing ==> t.uncommitted == {})
  }

  predicate TakesEffect(r: GitResult) {
    r != FailedBefore
  }

  /** `checkout -b` refuses a branch that exists already. */
  function Checkout(t: Tree, branch: string, r: GitResult): Tree
    requires t.head in t.local
  {
    if TakesEffect(r) && branch !in t.local
    then t.(head := branch, local := t.local[branch := t.local[t.head]])
    else t
  }

  function Commit(t: Tree, r: GitResult): Tree
    requires t.head in t.local
  {
    if TakesEffect(r)
    then t.(local := t.local[t.head := t.local[t.head] + t.uncommitted], uncommitted := {})
    else t
  }

  /** The origin refuses a push that would drop commits of the branch. */
  predicate PushRefused(t: Tree)
    requires t.head in t.local
  {
    t.head in t.remote && !(t.remote[t.head] <= t.local[t.head])
  }

  function Push(t: Tree, r: GitResult): Tree
    requires t.head in t.local
  {
    if TakesEffect(r) && !PushRefused(t) then t.(remote := t.remote[t.head := t.local[t.head]]) else t
  }

  /** `worktree remove --force` discards whatever is uncommitted; branches stay. */
  function Remove(t: Tree, r: GitResult): Tree {
    if TakesEffect(r) then t.(uncommitted := {}, standing := false) else t
  }

  /** The salvage, and whether it finished without an error. */
  function Salvage(t: Tree, branch: string, plan: Plan): (bool, Tree)
    requires t.head in t.local
  {
    if plan.status != Worked then (false, t)
    else if t.uncommitted == {} then (true, t)
    else
      var t1 := Checkout(t, branch, plan.checkout);
      if plan.checkout != Worked || branch in t.local then (false, t1)
      else if plan.stage != Worked then (false, t1)
      else
        var t2 := Commit(t1, plan.commit);
        if plan.commit != Worked then (false, t2)
        else (plan.push == Worked && !PushRefused(t2), Push(t2, plan.push))
  }

  function Settle(t: Tree, branch: string, plan: Plan): Tree
    requires t.head in t.local
  {
    if !t.standing then t
    else
      var (safe, t') := Salvage(t, branch, plan);
      if safe then Remove(t', plan.remove) else t'
  }

  /** The repository, its origin and one worker's worktree, updated command by command. */
  class Workspace {
    var uncommitted: set<Change>
    var head: string
    var local: map<string, set<Change>>
    var remote: map<string, set<Change>>
    var standing: bool

    ghost function State(): Tree
      reads this
    {
      Tree(uncommitted, head, local, remote, standing)
    }

    constructor (branch: string)
      ensures State() == Tree({}, branch, map[branch := {}], map[], true) && WellFormed(State())
    {
      uncommitted, head, local, remote, standing := {}, branch, map[branch := {}], map[], true;
    }

    method SalvageUncommittedWork(branch: string, plan: Plan) returns (ok: bool)
      requires WellFormed(State())
      modifies this
      ensures (ok, State()) == Salvage(old(State()), branch, plan)
    {
      if plan.status != Worked {
        return false;
      }
      if uncommitted == {} {
        return true;
      }
      if branch in local {
        return false;
      }
      if TakesEffect(plan.checkout) {
        local := local[branch := local[head]];
        head := branch;
      }
      if plan.checkout != Worked || plan.stage != Worked {
        return false;
      }
      if TakesEffect(plan.commit) {
        local := local[head := local[head] + uncommitted];
        uncommitted := {};
      }
      if plan.commit != Worked {
        return false;
      }
      if head in remote && !(remote[head] <= local[head]) {
        return false;
      }
      if TakesEffect(plan.push) {
        remote := remote[head := local[head]];
      }
      ok := plan.push == Worked;
    }

    method DestroyWorktree(plan: Plan)
      modifies this
      ensures State() == Remove(old(State()), plan.remove)
    {
      if TakesEffect(plan.remove) {
        uncommitted, standing := {}, false;
      }
    }

    /** Salvage first; a salvage that failed cancels the teardown. */
    method SettleItem(branch: string, plan: Plan)
      requires WellFormed(State())
      modifies this
      ensures State() == Settle(old(State()), branch, plan)
    {
      if !standing {
        return;
      }
      var safeToDestroy := SalvageUncommittedWork(branch, plan);
      if safeToDestroy {
        DestroyWorktree(plan);
      }
    }
  }

  // ---- What a settle keeps ----

  /** Everything in the worktree: uncommitted, or committed on the branch it has checked out. */
  function Work(t: Tree): set<Change>
    requires t.head in t.local
  {
    if t.standing then t.uncommitted + t.local[t.head] else {}
  }

  /** Whichever command fails: the uncommitted changes are in a worktree still standing, or all
      of them are on the pushed salvage branch, and the worktree goes only in the second case
      or when there were none. */
  lemma SettleKeepsUncommitted(t: Tree, branch: string, plan: Plan)
    requires WellFormed(t) && t.standing
    ensures var t' := Settle(t, branch, plan);
            && WellFormed(t')
            && (t'.standing ==> t.uncommitted <= Work(t'))
            && (!t'.standing && t.uncommitted != {} ==> branch in t'.remote && Work(t) <= t'.remote[branch])
  {
  }

  ghost predicate Pushed(t: Tree, changes: set<Change>) {
    forall c :: c in changes ==> exists b :: b in t.remote && c in t.remote[b]
  }

  /** Commits that were never pushed are carried along only when something uncommitted triggers
      the salvage: a settle that goes through leaves all the worktree's work on the origin
      exactly in that case, or when it was there already. */
  lemma CommittedWorkNeedsATrigger(t: Tree, branch: string)
    requires WellFormed(t) && t.standing && branch !in t.local && branch !in t.remote
    ensures var t' := Settle(t, branch, Plan(Worked, Worked, Worked, Worked, Worked, Worked));
            !t'.standing && (Pushed(t', Work(t)) <==> t.uncommitted != {} || Pushed(t, Work(t)))
  {
    var t' := Settle(t, branch, Plan(Worked, Worked, Worked, Worked, Worked, Worked));
    if t.uncommitted != {} {
      assert branch in t'.remote && Work(t) <= t'.remote[branch];
    } else {
      assert t'.remote == t.remote;
    }
  }

  /** So a push that fails once is enough: the settle after it finds nothing uncommitted and
      removes the worktree, and the salvaged change is on no remote branch. */
  lemma FailedPushThenSettleLeavesItLocal(t: Tree, first: string, second: string, c: Change)
    requires WellFormed(t) && t.standing && c in t.uncommitted && first !in t.local
    requires !Pushed(t, {c})
    ensures var works := Plan(Worked, Worked, Worked, Worked, Worked, Worked);
            var t1 := Settle(t, first, works.(push := FailedBefore));
            var t2 := Settle(t1, second, works);
            t1.standing && !t2.standing && !Pushed(t2, {c}) && first in t2.local && c in t2.local[first]
  {
    var works := Plan(Worked, Worked, Worked, Worked, Worked, Worked);
    var t1 := Settle(t, first, works.(push := FailedBefore));
    var t2 := Settle(t1, second, works);
    assert t1.remote == t.remote && t1.uncommitted == {} && t2.remote == t.remote;
    assert c in {c};
  }

  /** All changes git still holds somewhere. */
  ghost predicate Holds(t: Tree, c: Change) {
    || (t.standing && c in t.uncommitted)
    || (exists b :: b in t.local && c in t.local[b])
    || (exists b :: b in t.remote && c in t.remote[b])
  }

  function Settles(t: Tree, runs: seq<(string, Plan)>): (r: Tree)
    requires t.head in t.local
    ensures r.head in r.local
  {
    if runs == [] then t
    else
      var before := Settles(t, runs[..|runs| - 1]);
      Settle(before, runs[|runs| - 1].0, runs[|runs| - 1].1)
  }

  lemma SettleKeepsBranches(t: Tree, branch: string, plan: Plan)
    requires WellFormed(t)
    ensures var t' := Settle(t, branch, plan);
            && WellFormed(t')
            && (forall b :: b in t.local ==> b in t'.local && t.local[b] <= t'.local[b])
            && (forall b :: b in t.remote ==> b in t'.remote && t.remote[b] <= t'.remote[b])
            && ((t'.standing && t'.uncommitted == t.uncommitted) || t.uncommitted <= t'.local[t'.head])
  {
  }

  lemma SettleHolds(t: Tree, branch: string, plan: Plan, c: Change)
    requires WellFormed(t) && Holds(t, c)
    ensures WellFormed(Settle(t, branch, plan)) && Holds(Settle(t, branch, plan), c)
  {
    SettleKeepsBranches(t, branch, plan);
  }

  /** Over any number of settles, failing wherever they may, git never loses a change. */
  lemma {:induction false} SettlesHold(t: Tree, runs: seq<(string, Plan)>, c: Change)
    requires WellFormed(t) && Holds(t, c)
    ensures WellFormed(Settles(t, runs)) && Holds(Settles(t, runs), c)
    decreases |runs|
  {
    if runs != [] {
      var last := runs[|runs| - 1];
      SettlesHold(t, runs[..|runs| - 1], c);
      SettleHolds(Settles(t, runs[..|runs| - 1]), last.0, last.1, c);
    }
  }
}
