/** The two-phase sweep of databases whose worktrees are gone, and the claims that interleave
    with it. Everything runs under one instance lock, so actions follow one another. */
module Sweep {
  import opened Options
  import opened DatabaseNames

  /** A provenance record; `orphanSince` is when an acting sweep first saw the worktree gone. */
  datatype Prov = Prov(worktree: string, orphanSince: Option<int>)

  datatype PathState = Present | Absent | Unreadable
  datatype Registration = Listed | Unlisted | Unanswered

  /** What the probes say of one database's worktree at one sweep. */
  datatype View = View(worktree: PathState, parent: PathState, registration: Registration, sessions: nat)

  datatype Verdict = Refuse | Ignore | Skip | Keep | Unmark | Mark | Wait | Drop

  /** `comment` is None when the database carries no valid record; `nameOf` derives a worktree's name. */
  function ClassifyForSweep(name: string, comment: Option<Prov>, nameOf: string -> string,
                            v: View, now: int, grace: int): Verdict {
    if IsProtected(name) then Refuse
    else if !(WORKTREE_PREFIX <= name) then Ignore
    else if comment.None? || nameOf(comment.value.worktree) != name then Skip
    else if v.worktree == Present then (if comment.value.orphanSince.Some? then Unmark else Keep)
    else if v.worktree == Unreadable || v.parent != Present then Skip
    else if v.registration == Listed then Keep
    else if v.registration == Unanswered || v.sessions > 0 then Skip
    else
      var marked := comment.value.orphanSince;
      var since := if marked.Some? then marked.value else now;
      if since + grace <= now then Drop else if marked.Some? then Wait else Mark
  }

  /** The record is this tool's own for exactly this name. */
  predicate OwnRecord(name: string, comment: Option<Prov>, nameOf: string -> string) {
    comment.Some? && nameOf(comment.value.worktree) == name
  }

  /** Provably gone: the directory is absent, its parent is there, git does not list it, nothing
      is connected. */
  predicate Gone(v: View) {
    v == View(Absent, Present, Unlisted, 0)
  }

  /** The eight conditions, and nothing less, make a drop. */
  lemma DropNeedsEverything(name: string, comment: Option<Prov>, nameOf: string -> string, v: View, now: int, grace: int)
    ensures ClassifyForSweep(name, comment, nameOf, v, now, grace) == Drop <==>
              && !IsProtected(name) && WORKTREE_PREFIX <= name
              && OwnRecord(name, comment, nameOf) && Gone(v)
              && (if comment.value.orphanSince.Some? then now - comment.value.orphanSince.value >= grace else grace <= 0)
  {
  }

  /** The tool may touch it: not protected, with the tool's prefix, and its own record. */
  ghost predicate Ours(name: string, comment: Option<Prov>, nameOf: string -> string) {
    !IsProtected(name) && WORKTREE_PREFIX <= name && OwnRecord(name, comment, nameOf)
  }

  /** When each of the other verdicts is given: a first mark, a wait, and the removal of a mark, only
      ever of a database of the tool's own; every other database is left as it is. */
  lemma OtherVerdicts(name: string, comment: Option<Prov>, nameOf: string -> string, v: View, now: int, grace: int)
    ensures var verdict := ClassifyForSweep(name, comment, nameOf, v, now, grace);
            && (verdict == Mark <==> Ours(name, comment, nameOf) && Gone(v) && comment.value.orphanSince.None? && grace > 0)
            && (verdict == Wait <==> Ours(name, comment, nameOf) && Gone(v) && comment.value.orphanSince.Some? &&
                                     now - comment.value.orphanSince.value < grace)
            && (verdict == Unmark <==> Ours(name, comment, nameOf) && v.worktree == Present && comment.value.orphanSince.Some?)
            && (verdict == Refuse <==> IsProtected(name))
  {
  }

  // ---- Histories ----

  datatype Event =
    | Marked(name: string, at: int)
    | SawPresent(name: string)
    | Claimed(name: string)
    | Dropped(name: string, at: int, grace: int)
    | DroppedByOwner(name: string)

  type Databases = map<string, Option<Prov>>

  datatype State = State(dbs: Databases, log: seq<Event>)

  /** One run of the sweep: `act` is `--drop`, `done` how many targets it got through before it
      ended or crashed, `refused` the databases whose DROP failed. */
  datatype SweepRun = SweepRun(now: int, grace: int, act: bool, targets: seq<string>, views: map<string, View>,
                               refused: set<string>, done: nat)

  datatype Action =
    | SweepDatabases(run: SweepRun)
    | Ensure(root: string, crashed: bool)
    | DropOwn(root: string)

  function ViewOf(views: map<string, View>, name: string): View {
    if name in views then views[name] else View(Unreadable, Unreadable, Unanswered, 0)
  }

  function SweepOne(s: State, name: string, comment: Option<Prov>, r: SweepRun, nameOf: string -> string): State {
    if !r.act || name !in s.dbs then s
    else
      var v := ViewOf(r.views, name);
      match ClassifyForSweep(name, comment, nameOf, v, r.now, r.grace)
      case Mark => State(s.dbs[name := Some(Prov(comment.value.worktree, Some(r.now)))], s.log + [Marked(name, r.now)])
      case Unmark => State(s.dbs[name := Some(Prov(comment.value.worktree, None))], s.log + [SawPresent(name)])
      case Keep => if v.worktree == Present then State(s.dbs, s.log + [SawPresent(name)]) else s
      case Drop => if name in r.refused then s else State(s.dbs - {name}, s.log + [Dropped(name, r.now, r.grace)])
      case _ => s
  }

  /** Through the first `n` targets, each judged by its current comment. */
  function SweepFirst(s: State, r: SweepRun, n: nat, nameOf: string -> string): State
    requires n <= |r.targets|
  {
    if n == 0 then s
    else
      var before := SweepFirst(s, r, n - 1, nameOf);
      var name := r.targets[n - 1];
      if name in before.dbs then SweepOne(before, name, before.dbs[name], r, nameOf) else before
  }

  /** A database whose record is missing or names another worktree is never adopted. A new one has
      no record until its comment is written. */
  function EnsureDatabase(s: State, root: string, crashed: bool, nameOf: string -> string): State {
    var name := nameOf(root);
    if name !in s.dbs then
      State(s.dbs[name := if crashed then None else Some(Prov(root, None))], s.log + [Claimed(name)])
    else if s.dbs[name].None? || s.dbs[name].value.worktree != root || crashed then s
    else State(s.dbs[name := Some(Prov(root, None))], s.log + [Claimed(name)])
  }

  function DropOwnDatabase(s: State, root: string, nameOf: string -> string): State {
    var name := nameOf(root);
    if name !in s.dbs || (s.dbs[name].Some? && s.dbs[name].value.worktree != root) then s
    else State(s.dbs - {name}, s.log + [DroppedByOwner(name)])
  }

  function Step(s: State, a: Action, nameOf: string -> string): State {
    match a
    case SweepDatabases(r) => SweepFirst(s, r, if r.done < |r.targets| then r.done else |r.targets|, nameOf)
    case Ensure(root, crashed) => EnsureDatabase(s, root, crashed, nameOf)
    case DropOwn(root) => DropOwnDatabase(s, root, nameOf)
  }

  function Run(s: State, actions: seq<Action>, nameOf: string -> string): State {
    if actions == [] then s else Step(Run(s, actions[..|actions| - 1], nameOf), actions[|actions| - 1], nameOf)
  }

  // ---- Dropping takes two sightings, a grace period apart ----

  /** Nothing was logged for `name` after `i` and before `end`. */
  ghost predicate QuietBetween(log: seq<Event>, name: string, i: nat, end: nat) {
    i < end <= |log| && forall j :: i < j < end ==> log[j].name != name
  }

  ghost predicate MarkedAt(log: seq<Event>, name: string, at: int, end: nat) {
    exists i: nat :: QuietBetween(log, name, i, end) && log[i] == Marked(name, at)
  }

  /** Every mark in a comment was put there by a logged sweep, and nothing happened since. */
  ghost predicate MarksLogged(s: State) {
    forall name :: name in s.dbs && s.dbs[name].Some? && s.dbs[name].value.orphanSince.Some? ==>
      MarkedAt(s.log, name, s.dbs[name].value.orphanSince.value, |s.log|)
  }

  /** Every drop with a positive grace followed a mark at least that much older, with no acting
      sweep that saw the worktree, no claim and no other drop in between. */
  ghost predicate DropsWereDue(log: seq<Event>) {
    forall k :: 0 <= k < |log| && log[k].Dropped? && log[k].grace > 0 ==> DueAt(log, k)
  }

  ghost predicate DueAt(log: seq<Event>, k: nat)
    requires k < |log| && log[k].Dropped?
  {
    exists s: int :: MarkedAt(log, log[k].name, s, k) && log[k].at - s >= log[k].grace
  }

  lemma MarkedAtExtends(log: seq<Event>, more: seq<Event>, name: string, at: int, end: nat)
    requires log <= more && end <= |log| && MarkedAt(log, name, at, end)
    ensures MarkedAt(more, name, at, end)
  {
    var i: nat :| QuietBetween(log, name, i, end) && log[i] == Marked(name, at);
    assert QuietBetween(more, name, i, end) && more[i] == Marked(name, at);
  }

  lemma DropsStayDue(log: seq<Event>, more: seq<Event>)
    requires log <= more && DropsWereDue(log)
    requires forall k :: |log| <= k < |more| && more[k].Dropped? && more[k].grace > 0 ==> DueAt(more, k)
    ensures DropsWereDue(more)
  {
    forall k | 0 <= k < |more| && more[k].Dropped? && more[k].grace > 0 ensures DueAt(more, k) {
      if k < |log| {
        assert log[k] == more[k] && DueAt(log, k);
        var s: int :| MarkedAt(log, log[k].name, s, k) && log[k].at - s >= log[k].grace;
        MarkedAtExtends(log, more, log[k].name, s, k);
      }
    }
  }

  /** One logged change of one database's record keeps every other database's mark on record. */
  lemma OneChangeKeepsMarks(s: State, s': State, name: string, e: Event)
    requires MarksLogged(s) && e.name == name && s'.log == s.log + [e]
    requires forall n :: n != name ==> (n in s'.dbs <==> n in s.dbs) && (n in s.dbs ==> s'.dbs[n] == s.dbs[n])
    requires name in s'.dbs && s'.dbs[name].Some? && s'.dbs[name].value.orphanSince.Some? ==>
               e == Marked(name, s'.dbs[name].value.orphanSince.value)
    ensures MarksLogged(s')
  {
    forall n | n in s'.dbs && s'.dbs[n].Some? && s'.dbs[n].value.orphanSince.Some?
      ensures MarkedAt(s'.log, n, s'.dbs[n].value.orphanSince.value, |s'.log|)
    {
      if n == name {
        assert QuietBetween(s'.log, n, |s.log|, |s'.log|) && s'.log[|s.log|] == e;
      } else {
        var at := s.dbs[n].value.orphanSince.value;
        assert MarkedAt(s.log, n, at, |s.log|);
        var i: nat :| QuietBetween(s.log, n, i, |s.log|) && s.log[i] == Marked(n, at);
        assert QuietBetween(s'.log, n, i, |s'.log|) && s'.log[i] == Marked(n, at);
      }
    }
  }

  lemma SweepOneKeepsMarks(s: State, name: string, r: SweepRun, nameOf: string -> string)
    requires MarksLogged(s) && name in s.dbs
    ensures var s' := SweepOne(s, name, s.dbs[name], r, nameOf);
            MarksLogged(s') && s.log <= s'.log && |s'.log| <= |s.log| + 1
  {
    var s' := SweepOne(s, name, s.dbs[name], r, nameOf);
    if s'.log != s.log {
      OneChangeKeepsMarks(s, s', name, s'.log[|s.log|]);
    } else {
      assert s' == s;
    }
  }

  lemma SweepOneDropsDue(s: State, name: string, r: SweepRun, nameOf: string -> string)
    requires MarksLogged(s) && DropsWereDue(s.log) && name in s.dbs
    ensures DropsWereDue(SweepOne(s, name, s.dbs[name], r, nameOf).log)
  {
    var s' := SweepOne(s, name, s.dbs[name], r, nameOf);
    SweepOneKeepsMarks(s, name, r, nameOf);
    forall k | |s.log| <= k < |s'.log| && s'.log[k].Dropped? && s'.log[k].grace > 0 ensures DueAt(s'.log, k) {
      var at := s.dbs[name].value.orphanSince.value;
      MarkedAtExtends(s.log, s'.log, name, at, |s.log|);
    }
    DropsStayDue(s.log, s'.log);
  }

  lemma {:induction false} SweepKeepsMarks(s: State, r: SweepRun, n: nat, nameOf: string -> string)
    requires n <= |r.targets| && MarksLogged(s) && DropsWereDue(s.log)
    ensures var s' := SweepFirst(s, r, n, nameOf); MarksLogged(s') && DropsWereDue(s'.log)
  {
    if n > 0 {
      SweepKeepsMarks(s, r, n - 1, nameOf);
      var before := SweepFirst(s, r, n - 1, nameOf);
      if r.targets[n - 1] in before.dbs {
        SweepOneKeepsMarks(before, r.targets[n - 1], r, nameOf);
        SweepOneDropsDue(before, r.targets[n - 1], r, nameOf);
      }
    }
  }

  lemma OwnerKeepsMarks(s: State, a: Action, nameOf: string -> string)
    requires MarksLogged(s) && DropsWereDue(s.log) && !a.SweepDatabases?
    ensures MarksLogged(Step(s, a, nameOf)) && DropsWereDue(Step(s, a, nameOf).log)
  {
    var s', name := Step(s, a, nameOf), nameOf(a.root);
    if s'.log != s.log {
      OneChangeKeepsMarks(s, s', name, s'.log[|s.log|]);
      DropsStayDue(s.log, s'.log);
    }
  }

  /** Over every sequence of sweeps, crashes, claims and teardowns that starts with no marks:
      no database is dropped with a positive grace unless an acting sweep had marked it at least
      that long before and nothing in between saw the worktree present or claimed it. */
  lemma {:induction false} DropsAreTwoPhase(s: State, actions: seq<Action>, nameOf: string -> string)
    requires s.log == [] && forall name :: name in s.dbs && s.dbs[name].Some? ==> s.dbs[name].value.orphanSince.None?
    ensures var s' := Run(s, actions, nameOf); MarksLogged(s') && DropsWereDue(s'.log)
    decreases |actions|
  {
    if actions != [] {
      var a, before := actions[|actions| - 1], Run(s, actions[..|actions| - 1], nameOf);
      DropsAreTwoPhase(s, actions[..|actions| - 1], nameOf);
      if a.SweepDatabases? {
        SweepKeepsMarks(before, a.run, if a.run.done < |a.run.targets| then a.run.done else |a.run.targets|, nameOf);
      } else {
        OwnerKeepsMarks(before, a, nameOf);
      }
    }
  }

  /** A dry run changes nothing at all. */
  lemma {:induction false} DryRunChangesNothing(s: State, r: SweepRun, n: nat, nameOf: string -> string)
    requires !r.act && n <= |r.targets|
    ensures SweepFirst(s, r, n, nameOf) == s
  {
    if n > 0 { DryRunChangesNothing(s, r, n - 1, nameOf); }
  }

  /** Without a positive grace there is no second sighting: one sweep drops an unmarked database. */
  lemma NoGraceDropsAtOnce(s: State, name: string, r: SweepRun, nameOf: string -> string)
    requires r.act && name in s.dbs && name !in r.refused && !IsProtected(name) && WORKTREE_PREFIX <= name
    requires OwnRecord(name, s.dbs[name], nameOf) && s.dbs[name].value.orphanSince.None? && Gone(ViewOf(r.views, name))
    ensures var s' := SweepOne(s, name, s.dbs[name], r, nameOf);
            (name !in s'.dbs <==> r.grace <= 0) &&
            (r.grace > 0 ==> s'.dbs[name] == Some(Prov(s.dbs[name].value.worktree, Some(r.now))))
  {
  }

  /** What is still gone when its grace has run out goes: two acting sweeps that both find it gone, the
      second at least the grace after the first, remove it, unless the DROP is refused. */
  lemma OrphanGoes(s: State, name: string, first: SweepRun, second: SweepRun, nameOf: string -> string)
    requires first.act && second.act && name in s.dbs && name !in first.refused && name !in second.refused
    requires Ours(name, s.dbs[name], nameOf) && s.dbs[name].value.orphanSince.None?
    requires Gone(ViewOf(first.views, name)) && Gone(ViewOf(second.views, name))
    requires second.now - first.now >= second.grace
    ensures var s1 := SweepOne(s, name, s.dbs[name], first, nameOf);
            name !in s1.dbs || name !in SweepOne(s1, name, s1.dbs[name], second, nameOf).dbs
  {
  }

  /** A sighting takes the mark away, and so does the worktree's own ensure; the next grace starts over.
      Its own drop takes the database itself. */
  lemma SightingClearsTheMark(s: State, name: string, r: SweepRun, root: string, nameOf: string -> string)
    requires name in s.dbs && Ours(name, s.dbs[name], nameOf)
    ensures r.act && ViewOf(r.views, name).worktree == Present ==>
              var s' := SweepOne(s, name, s.dbs[name], r, nameOf);
              name in s'.dbs && s'.dbs[name] == Some(Prov(s.dbs[name].value.worktree, None))
    ensures nameOf(root) == name && s.dbs[name].value.worktree == root ==>
              var s' := EnsureDatabase(s, root, false, nameOf);
              name in s'.dbs && s'.dbs[name] == Some(Prov(root, None))
    ensures nameOf(root) == name && s.dbs[name].value.worktree == root ==> DropOwnDatabase(s, root, nameOf).dbs == s.dbs - {name}
  {
  }

  /** A worktree claims or drops only a database that is new or its own by its record; what has no
      record it may drop and never adopts. */
  lemma OwnerTouchesOnlyItsOwn(s: State, root: string, crashed: bool, nameOf: string -> string)
    requires nameOf(root) in s.dbs && !(s.dbs[nameOf(root)].Some? && s.dbs[nameOf(root)].value.worktree == root)
    ensures EnsureDatabase(s, root, crashed, nameOf) == s
    ensures s.dbs[nameOf(root)].Some? ==> DropOwnDatabase(s, root, nameOf) == s
    ensures s.dbs[nameOf(root)].None? ==> nameOf(root) !in DropOwnDatabase(s, root, nameOf).dbs
  {
  }

  // ---- The sweep as it runs ----

  class Instance {
    var dbs: Databases
    ghost var log: seq<Event>

    ghost function Contents(): State
      reads this
    {
      State(dbs, log)
    }

    constructor ()
      ensures Contents() == State(map[], [])
    {
      dbs, log := map[], [];
    }

    /** Lists every database once, then judges and acts on the targets one by one. */
    method RunSweep(r: SweepRun, nameOf: string -> string)
      requires forall i, j :: 0 <= i < j < |r.targets| ==> r.targets[i] != r.targets[j]
      modifies this
      ensures Contents() == Step(old(Contents()), SweepDatabases(r), nameOf)
    {
      var listing := dbs;
      var i := 0;
      while i < |r.targets| && i < r.done
        invariant 0 <= i <= |r.targets| && i <= r.done
        invariant Contents() == SweepFirst(old(Contents()), r, i, nameOf)
        invariant forall k :: i <= k < |r.targets| ==> (r.targets[k] in dbs <==> r.targets[k] in listing)
        invariant forall k :: i <= k < |r.targets| && r.targets[k] in dbs ==> dbs[r.targets[k]] == listing[r.targets[k]]
      {
        var name := r.targets[i];
        if name in listing && r.act {
          var comment := listing[name];
          var v := ViewOf(r.views, name);
          match ClassifyForSweep(name, comment, nameOf, v, r.now, r.grace) {
            case Mark =>
              dbs := dbs[name := Some(Prov(comment.value.worktree, Some(r.now)))];
              log := log + [Marked(name, r.now)];
            case Unmark =>
              dbs := dbs[name := Some(Prov(comment.value.worktree, None))];
              log := log + [SawPresent(name)];
            case Keep =>
              if v.worktree == Present {
                log := log + [SawPresent(name)];
              }
            case Drop =>
              if name !in r.refused {
                dbs := dbs - {name};
                log := log + [Dropped(name, r.now, r.grace)];
              }
            case _ =>
          }
        }
        i := i + 1;
      }
    }
  }
}
