/** Provisioning a worktree's database from a content-addressed template. `Step` is one database
    operation of one `ensure`; a crash may come between any two, and a migration may stop half way. */
module Templates {
  import opened Options
  import opened Sequences

  /** The hash of a migration set. */
  type Hash = string

  datatype Name = Template(hash: Hash) | Building(hash: Hash) | Own(id: string)

  /** The provenance record in a database's comment, if it is a valid one. */
  datatype Comment = NoRecord | TemplateRecord(schema: Hash) | WorktreeRecord(root: string, schema: Hash, orphaned: bool)

  /** `exact` is the migration set a database holds when it was built from nothing by exactly that
      set; `completed` are the sets whose migrations have run through on it. */
  datatype Database = Database(exact: Option<Hash>, completed: set<Hash>, comment: Comment, closed: bool)

  datatype Stage =
    | FindOwn | ClearMark | MigrateOwn | RecordOwn
    | FindTemplate | Reopen | DropTemplate | FindBuild | DropBuild | CreateBuild | MigrateBuild | CommentBuild | Publish | Seal
    | Clone | CommentOwn

  datatype End = NotStarted | Ready(root: string, hash: Hash) | Refused | OperationFailed | Crashed

  datatype Pc = Idle(end: End) | At(stage: Stage, root: string, hash: Hash)

  datatype State = State(dbs: map<Name, Database>, pc: Pc)

  datatype Result = Worked | Failed | StoppedHalfWay

  /** The last three happen outside this program's `ensure`: a sweep or a teardown, a sweep's
      mark, and a database somebody made by hand. */
  datatype Action =
    | Begin(root: string, hash: Hash)
    | Next(result: Result)
    | Crash
    | Remove(id: string)
    | SetMark(id: string, orphaned: bool)
    | MadeByHand(name: Name, exact: Option<Hash>, completed: set<Hash>)

  predicate ValidTemplate(dbs: map<Name, Database>, hash: Hash) {
    Template(hash) in dbs && dbs[Template(hash)].comment == TemplateRecord(hash)
  }

  /** The database is this worktree's by its own record. */
  predicate BelongsTo(d: Database, root: string) {
    d.comment.WorktreeRecord? && d.comment.root == root
  }

  function Migrated(d: Database, hash: Hash, fromNothing: bool): Database {
    d.(exact := if fromNothing then Some(hash) else None, completed := d.completed + {hash})
  }

  /** Where a stage goes once its operation worked. */
  function Goto(s: State, stage: Stage): State
    requires s.pc.At?
  {
    s.(pc := At(stage, s.pc.root, s.pc.hash))
  }

  function Fail(s: State): State {
    s.(pc := Idle(OperationFailed))
  }

  /** The operation of the current stage, when the database server carries it out. */
  function Perform(s: State, nameOf: string -> string): State
    requires s.pc.At?
  {
    var h, own := s.pc.hash, Own(nameOf(s.pc.root));
    match s.pc.stage
    case FindOwn =>
      if own !in s.dbs then Goto(s, FindTemplate)
      else if !BelongsTo(s.dbs[own], s.pc.root) then s.(pc := Idle(Refused))
      else if s.dbs[own].comment.orphaned then Goto(s, ClearMark)
      else if s.dbs[own].comment.schema != h then Goto(s, MigrateOwn)
      else s.(pc := Idle(Ready(s.pc.root, h)))
    case ClearMark =>
      if own !in s.dbs || !BelongsTo(s.dbs[own], s.pc.root) then Fail(s)
      else
        var d := s.dbs[own];
        var s' := s.(dbs := s.dbs[own := d.(comment := WorktreeRecord(d.comment.root, d.comment.schema, false))]);
        if d.comment.schema != h then Goto(s', MigrateOwn) else s'.(pc := Idle(Ready(s.pc.root, h)))
    case MigrateOwn =>
      if own !in s.dbs then Fail(s) else Goto(s.(dbs := s.dbs[own := Migrated(s.dbs[own], h, false)]), RecordOwn)
    case RecordOwn =>
      if own !in s.dbs || !s.dbs[own].comment.WorktreeRecord? then s.(pc := Idle(OperationFailed))
      else
        var d := s.dbs[own];
        s.(dbs := s.dbs[own := d.(comment := WorktreeRecord(d.comment.root, h, d.comment.orphaned))], pc := Idle(Ready(s.pc.root, h)))
    case FindTemplate =>
      if ValidTemplate(s.dbs, h) then (if s.dbs[Template(h)].closed then Goto(s, Clone) else Goto(s, Seal))
      else if Template(h) in s.dbs then Goto(s, Reopen)
      else Goto(s, FindBuild)
    case Reopen =>
      if Template(h) !in s.dbs then Fail(s)
      else Goto(s.(dbs := s.dbs[Template(h) := s.dbs[Template(h)].(closed := false)]), DropTemplate)
    case DropTemplate => Goto(s.(dbs := s.dbs - {Template(h)}), FindBuild)
    case FindBuild => Goto(s, if Building(h) in s.dbs then DropBuild else CreateBuild)
    case DropBuild => Goto(s.(dbs := s.dbs - {Building(h)}), CreateBuild)
    case CreateBuild =>
      if Building(h) in s.dbs then Fail(s)
      else Goto(s.(dbs := s.dbs[Building(h) := Database(None, {}, NoRecord, false)]), MigrateBuild)
    case MigrateBuild =>
      if Building(h) !in s.dbs then Fail(s)
      else Goto(s.(dbs := s.dbs[Building(h) := Migrated(s.dbs[Building(h)], h, true)]), CommentBuild)
    case CommentBuild =>
      if Building(h) !in s.dbs then Fail(s)
      else Goto(s.(dbs := s.dbs[Building(h) := s.dbs[Building(h)].(comment := TemplateRecord(h))]), Publish)
    case Publish =>
      if Building(h) !in s.dbs || Template(h) in s.dbs then Fail(s)
      else Goto(s.(dbs := (s.dbs - {Building(h)})[Template(h) := s.dbs[Building(h)]]), Seal)
    case Seal =>
      if Template(h) !in s.dbs then Fail(s)
      else Goto(s.(dbs := s.dbs[Template(h) := s.dbs[Template(h)].(closed := true)]), Clone)
    case Clone =>
      if own in s.dbs || Template(h) !in s.dbs then Fail(s)
      else
        var t := s.dbs[Template(h)];
        Goto(s.(dbs := s.dbs[own := Database(t.exact, t.completed, NoRecord, false)]), CommentOwn)
    case CommentOwn =>
      if own !in s.dbs then Fail(s)
      else s.(dbs := s.dbs[own := s.dbs[own].(comment := WorktreeRecord(s.pc.root, h, false))], pc := Idle(Ready(s.pc.root, h)))
  }

  /** A migration that stops half way leaves its database in no known state. */
  function HalfWay(s: State, nameOf: string -> string): State
    requires s.pc.At?
  {
    var target := if s.pc.stage == MigrateBuild then Building(s.pc.hash) else Own(nameOf(s.pc.root));
    if (s.pc.stage == MigrateBuild || s.pc.stage == MigrateOwn) && target in s.dbs
    then Fail(s.(dbs := s.dbs[target := s.dbs[target].(exact := None)]))
    else Fail(s)
  }

  function Step(s: State, a: Action, nameOf: string -> string): State {
    match a
    case Begin(root, hash) => if s.pc.Idle? then s.(pc := At(FindOwn, root, hash)) else s
    case Next(result) =>
      if s.pc.Idle? then s
      else (match result
            case Worked => Perform(s, nameOf)
            case Failed => Fail(s)
            case StoppedHalfWay => HalfWay(s, nameOf))
    case Crash => s.(pc := Idle(Crashed))
    case Remove(id) => if s.pc.Idle? then State(s.dbs - {Own(id)}, Idle(NotStarted)) else s
    case SetMark(id, orphaned) =>
      if s.pc.Idle? && Own(id) in s.dbs && s.dbs[Own(id)].comment.WorktreeRecord? then
        var c := s.dbs[Own(id)].comment;
        State(s.dbs[Own(id) := s.dbs[Own(id)].(comment := WorktreeRecord(c.root, c.schema, orphaned))], Idle(NotStarted))
      else s
    case MadeByHand(name, exact, completed) =>
      if s.pc.Idle? && name !in s.dbs
      then State(s.dbs[name := Database(exact, completed, NoRecord, false)], Idle(NotStarted)) else s
  }

  function Run(s: State, actions: seq<Action>, nameOf: string -> string): State {
    if actions == [] then s else Step(Run(s, actions[..|actions| - 1], nameOf), actions[|actions| - 1], nameOf)
  }

  // ---- What the records mean, at every moment ----

  /** A template that carries its record is exactly that migration set, complete. */
  ghost predicate TemplateTrue(h: Hash, d: Database) {
    d.comment == TemplateRecord(h) ==> d.exact == Some(h) && h in d.completed
  }

  ghost predicate BuildingTrue(h: Hash, d: Database) {
    d.comment.TemplateRecord? ==> d.comment.schema == h && d.exact == Some(h) && h in d.completed
  }

  /** A worktree's recorded set has run through on its database. */
  ghost predicate OwnTrue(id: string, d: Database, nameOf: string -> string) {
    d.comment.WorktreeRecord? ==> nameOf(d.comment.root) == id && d.comment.schema in d.completed
  }

  ghost predicate RecordTrue(name: Name, d: Database, nameOf: string -> string) {
    match name
    case Template(h) => TemplateTrue(h, d)
    case Building(h) => BuildingTrue(h, d)
    case Own(id) => OwnTrue(id, d, nameOf)
  }

  ghost predicate RecordsTrue(dbs: map<Name, Database>, nameOf: string -> string) {
    forall name :: name in dbs ==> RecordTrue(name, dbs[name], nameOf)
  }

  /** What an `ensure` under way has established so far. */
  ghost predicate Underway(s: State, nameOf: string -> string) {
    match s.pc
    case Idle(Ready(root, hash)) =>
      var own := Own(nameOf(root));
      && own in s.dbs && BelongsTo(s.dbs[own], root) && s.dbs[own].comment.schema == hash && hash in s.dbs[own].completed
      && !s.dbs[own].comment.orphaned
    case Idle(_) => true
    case At(stage, root, h) =>
      var own := Own(nameOf(root));
      var built := Building(h) in s.dbs && s.dbs[Building(h)].exact == Some(h) && h in s.dbs[Building(h)].completed;
      match stage
      case FindOwn => true
      case ClearMark => own in s.dbs && BelongsTo(s.dbs[own], root)
      case MigrateOwn => own in s.dbs && BelongsTo(s.dbs[own], root) && !s.dbs[own].comment.orphaned
      case RecordOwn => own in s.dbs && BelongsTo(s.dbs[own], root) && !s.dbs[own].comment.orphaned && h in s.dbs[own].completed
      case CommentOwn => own in s.dbs && s.dbs[own].comment == NoRecord && s.dbs[own].exact == Some(h) && h in s.dbs[own].completed
      case Reopen => own !in s.dbs && Template(h) in s.dbs && !ValidTemplate(s.dbs, h)
      case DropTemplate => own !in s.dbs && !ValidTemplate(s.dbs, h)
      case FindTemplate => own !in s.dbs
      case Seal => own !in s.dbs && ValidTemplate(s.dbs, h)
      case Clone => own !in s.dbs && ValidTemplate(s.dbs, h) && s.dbs[Template(h)].closed
      case FindBuild => own !in s.dbs && Template(h) !in s.dbs
      case DropBuild => own !in s.dbs && Template(h) !in s.dbs
      case CreateBuild => own !in s.dbs && Template(h) !in s.dbs && Building(h) !in s.dbs
      case MigrateBuild => own !in s.dbs && Template(h) !in s.dbs && Building(h) in s.dbs && s.dbs[Building(h)].comment == NoRecord
      case CommentBuild => own !in s.dbs && Template(h) !in s.dbs && built
      case Publish => own !in s.dbs && Template(h) !in s.dbs && built && s.dbs[Building(h)].comment == TemplateRecord(h)
  }

  ghost predicate Sound(s: State, nameOf: string -> string) {
    RecordsTrue(s.dbs, nameOf) && Underway(s, nameOf)
  }

  lemma PerformKeepsRecords(s: State, nameOf: string -> string)
    requires Sound(s, nameOf) && s.pc.At?
    ensures RecordsTrue(Perform(s, nameOf).dbs, nameOf)
  {
    var s' := Perform(s, nameOf);
    forall name | name in s'.dbs ensures RecordTrue(name, s'.dbs[name], nameOf) {
      assert name in s.dbs ==> RecordTrue(name, s.dbs[name], nameOf);
      if s.pc.stage == Publish && name == Template(s.pc.hash) {
        assert RecordTrue(Building(s.pc.hash), s.dbs[Building(s.pc.hash)], nameOf);
      }
    }
  }

  lemma PerformOwnKeepsUnderway(s: State, nameOf: string -> string)
    requires Sound(s, nameOf) && s.pc.At?
    requires s.pc.stage in {FindOwn, ClearMark, MigrateOwn, RecordOwn, Clone, CommentOwn}
    ensures Underway(Perform(s, nameOf), nameOf)
  {
    var own := Own(nameOf(s.pc.root));
    assert own in s.dbs ==> RecordTrue(own, s.dbs[own], nameOf);
    if s.pc.stage == Clone {
      assert RecordTrue(Template(s.pc.hash), s.dbs[Template(s.pc.hash)], nameOf);
    }
  }

  lemma PerformTemplateKeepsUnderway(s: State, nameOf: string -> string)
    requires Sound(s, nameOf) && s.pc.At?
    requires s.pc.stage !in {FindOwn, ClearMark, MigrateOwn, RecordOwn, Clone, CommentOwn}
    ensures Underway(Perform(s, nameOf), nameOf)
  {
  }

  lemma StepKeepsSound(s: State, a: Action, nameOf: string -> string)
    requires Sound(s, nameOf)
    ensures Sound(Step(s, a, nameOf), nameOf)
  {
    if a == Next(Worked) && s.pc.At? {
      PerformKeepsRecords(s, nameOf);
      if s.pc.stage in {FindOwn, ClearMark, MigrateOwn, RecordOwn, Clone, CommentOwn} {
        PerformOwnKeepsUnderway(s, nameOf);
      } else {
        PerformTemplateKeepsUnderway(s, nameOf);
      }
    } else {
      OtherStepsKeepRecords(s, a, nameOf);
    }
  }

  lemma OtherStepsKeepRecords(s: State, a: Action, nameOf: string -> string)
    requires Sound(s, nameOf) && !(a == Next(Worked) && s.pc.At?)
    ensures Sound(Step(s, a, nameOf), nameOf)
  {
    var s' := Step(s, a, nameOf);
    forall name | name in s'.dbs ensures RecordTrue(name, s'.dbs[name], nameOf) {
      assert name in s.dbs ==> RecordTrue(name, s.dbs[name], nameOf);
    }
  }

  /** Over every sequence of ensures with a crash anywhere, sweeps, teardowns and hand-made
      databases: a template's and a worktree's record is always true of what the database holds. */
  lemma {:induction false} RecordsStayTrue(s: State, actions: seq<Action>, nameOf: string -> string)
    requires Sound(s, nameOf)
    ensures Sound(Run(s, actions, nameOf), nameOf)
    decreases |actions|
  {
    if actions != [] {
      RecordsStayTrue(s, actions[..|actions| - 1], nameOf);
      StepKeepsSound(Run(s, actions[..|actions| - 1], nameOf), actions[|actions| - 1], nameOf);
    }
  }

  // ---- What an ensure never touches ----

  /** The steps and crashes of one `ensure`. */
  ghost predicate OfOneEnsure(actions: seq<Action>) {
    forall a :: a in actions ==> a.Next? || a.Crash?
  }

  /** A database under this worktree's name whose record is missing or names another worktree is
      refused, and nothing at all is changed. */
  lemma {:induction false} NeverAdopted(s: State, root: string, hash: Hash, actions: seq<Action>, nameOf: string -> string)
    requires s.pc.Idle? && OfOneEnsure(actions)
    requires Own(nameOf(root)) in s.dbs && !BelongsTo(s.dbs[Own(nameOf(root))], root)
    ensures var s' := Run(Step(s, Begin(root, hash), nameOf), actions, nameOf);
            && s'.dbs == s.dbs
            && (s'.pc == At(FindOwn, root, hash) || s'.pc == Idle(Refused) || s'.pc == Idle(OperationFailed) || s'.pc == Idle(Crashed))
    decreases |actions|
  {
    if actions != [] {
      assert actions[|actions| - 1] in actions;
      assert OfOneEnsure(actions[..|actions| - 1]);
      NeverAdopted(s, root, hash, actions[..|actions| - 1], nameOf);
    }
  }

  /** A worktree's own database is never dropped, rebuilt or taken from it by an ensure, however it
      ends: every migration that ran through on it stays, and so does its record. */
  lemma {:induction false} OwnDatabaseIsKept(s: State, root: string, hash: Hash, actions: seq<Action>, nameOf: string -> string)
    requires s.pc.Idle? && OfOneEnsure(actions)
    requires Own(nameOf(root)) in s.dbs && BelongsTo(s.dbs[Own(nameOf(root))], root)
    ensures var own, s' := Own(nameOf(root)), Run(Step(s, Begin(root, hash), nameOf), actions, nameOf);
            && own in s'.dbs && BelongsTo(s'.dbs[own], root) && s.dbs[own].completed <= s'.dbs[own].completed
            && (forall name :: name != own ==> (name in s'.dbs <==> name in s.dbs) && (name in s.dbs ==> s'.dbs[name] == s.dbs[name]))
            && (s'.pc.At? ==> s'.pc.root == root && s'.pc.hash == hash && s'.pc.stage in {FindOwn, ClearMark, MigrateOwn, RecordOwn})
    decreases |actions|
  {
    if actions != [] {
      assert actions[|actions| - 1] in actions;
      assert OfOneEnsure(actions[..|actions| - 1]);
      OwnDatabaseIsKept(s, root, hash, actions[..|actions| - 1], nameOf);
    }
  }

  /** A published template is never modified again: whatever runs or crashes afterwards, it stays,
      with the same contents and the same record. */
  lemma {:induction false} PublishedTemplateStays(s: State, actions: seq<Action>, h: Hash, nameOf: string -> string)
    requires Sound(s, nameOf) && ValidTemplate(s.dbs, h)
    ensures var s' := Run(s, actions, nameOf);
            && Sound(s', nameOf) && ValidTemplate(s'.dbs, h)
            && s'.dbs[Template(h)].exact == s.dbs[Template(h)].exact && s'.dbs[Template(h)].completed == s.dbs[Template(h)].completed
    decreases |actions|
  {
    if actions != [] {
      var t, a := Run(s, actions[..|actions| - 1], nameOf), actions[|actions| - 1];
      PublishedTemplateStays(s, actions[..|actions| - 1], h, nameOf);
      StepKeepsSound(t, a, nameOf);
      StepKeepsTemplate(t, a, h, nameOf);
    }
  }

  lemma StepKeepsTemplate(s: State, a: Action, h: Hash, nameOf: string -> string)
    requires Sound(s, nameOf) && ValidTemplate(s.dbs, h)
    ensures var s' := Step(s, a, nameOf);
            && ValidTemplate(s'.dbs, h)
            && s'.dbs[Template(h)].exact == s.dbs[Template(h)].exact && s'.dbs[Template(h)].completed == s.dbs[Template(h)].completed
  {
  }

  // ---- What a retry heals ----

  function Rank(stage: Stage): nat {
    match stage
    case FindOwn => 13 case ClearMark => 3 case MigrateOwn => 2 case RecordOwn => 1
    case FindTemplate => 12 case Reopen => 11 case DropTemplate => 10 case FindBuild => 9 case DropBuild => 8
    case CreateBuild => 7 case MigrateBuild => 6 case CommentBuild => 5 case Publish => 4 case Seal => 3
    case Clone => 2 case CommentOwn => 1
  }

  /** Each operation that works brings an `ensure` of a worktree's own or absent database strictly
      nearer to ready, whatever earlier crashes left behind. */
  lemma WorkingStepAdvances(s: State, nameOf: string -> string)
    requires Sound(s, nameOf) && s.pc.At?
    requires s.pc.stage == FindOwn ==> Own(nameOf(s.pc.root)) in s.dbs ==> BelongsTo(s.dbs[Own(nameOf(s.pc.root))], s.pc.root)
    ensures var s' := Step(s, Next(Worked), nameOf);
            s'.pc == Idle(Ready(s.pc.root, s.pc.hash)) ||
            (s'.pc.At? && s'.pc.stage != FindOwn && s'.pc.root == s.pc.root && s'.pc.hash == s.pc.hash && Rank(s'.pc.stage) < Rank(s.pc.stage))
  {
  }

  function Workings(n: nat): seq<Action> {
    if n == 0 then [] else Workings(n - 1) + [Next(Worked)]
  }

  /** `n` working operations after `s` began: ready, or that much nearer. */
  ghost predicate Arriving(s: State, t: State, n: nat, nameOf: string -> string)
    requires s.pc.At?
  {
    && Sound(t, nameOf)
    && (t.pc == Idle(Ready(s.pc.root, s.pc.hash)) ||
        (t.pc.At? && t.pc.root == s.pc.root && t.pc.hash == s.pc.hash && Rank(t.pc.stage) + n <= 13 &&
         (t.pc.stage == FindOwn ==> t.dbs == s.dbs)))
  }

  lemma ArrivingStep(s: State, t: State, n: nat, nameOf: string -> string)
    requires s.pc.At? && Arriving(s, t, n, nameOf)
    requires Own(nameOf(s.pc.root)) in s.dbs ==> BelongsTo(s.dbs[Own(nameOf(s.pc.root))], s.pc.root)
    ensures Arriving(s, Step(t, Next(Worked), nameOf), n + 1, nameOf)
  {
    StepKeepsSound(t, Next(Worked), nameOf);
    if t.pc.At? { WorkingStepAdvances(t, nameOf); }
  }

  lemma {:induction false} WorkingStepsArrive(s: State, n: nat, nameOf: string -> string)
    requires Sound(s, nameOf) && s.pc.At? && s.pc.stage == FindOwn
    requires Own(nameOf(s.pc.root)) in s.dbs ==> BelongsTo(s.dbs[Own(nameOf(s.pc.root))], s.pc.root)
    ensures Arriving(s, Run(s, Workings(n), nameOf), n, nameOf)
  {
    if n > 0 {
      WorkingStepsArrive(s, n - 1, nameOf);
      ArrivingStep(s, Run(s, Workings(n - 1), nameOf), n - 1, nameOf);
      InitOfSnoc(Workings(n - 1), Next(Worked));
    }
  }

  /** From whatever crashes and hand-made leftovers there are, one undisturbed `ensure` ends ready
      exactly when the worktree's database is absent or its own; ready means its record names this
      worktree and this migration set, the set has run through on it, and no sweep's mark is left. */
  lemma RetryHeals(s: State, root: string, hash: Hash, nameOf: string -> string)
    requires Sound(s, nameOf) && s.pc.Idle?
    ensures var own := Own(nameOf(root));
            var s' := Run(Step(s, Begin(root, hash), nameOf), Workings(13), nameOf);
            && (s'.pc == Idle(Ready(root, hash)) <==> (own in s.dbs ==> BelongsTo(s.dbs[own], root)))
            && (s'.pc == Idle(Ready(root, hash)) ==>
                  own in s'.dbs && s'.dbs[own].comment == WorktreeRecord(root, hash, false) && hash in s'.dbs[own].completed)
            && (s'.pc != Idle(Ready(root, hash)) ==> s'.dbs == s.dbs)
  {
    var begun := Step(s, Begin(root, hash), nameOf);
    StepKeepsSound(s, Begin(root, hash), nameOf);
    if Own(nameOf(root)) in s.dbs && !BelongsTo(s.dbs[Own(nameOf(root))], root) {
      WorkingsAreNext(13);
      NeverAdopted(s, root, hash, Workings(13), nameOf);
    } else {
      WorkingStepsArrive(begun, 13, nameOf);
    }
  }

  lemma {:induction false} WorkingsAreNext(n: nat)
    ensures OfOneEnsure(Workings(n))
  {
    if n > 0 { WorkingsAreNext(n - 1); }
  }

  /** The one crash a retry does not heal: between cloning the template and writing the record.
      The clone has no record, so no later `ensure` adopts it until it is dropped. */
  lemma CrashBeforeTheRecordBlocks(s: State, hash: Hash, actions: seq<Action>, nameOf: string -> string)
    requires Sound(s, nameOf) && s.pc.At? && s.pc.stage == CommentOwn && OfOneEnsure(actions)
    ensures var crashed := Step(s, Crash, nameOf);
            var s' := Run(Step(crashed, Begin(s.pc.root, hash), nameOf), actions, nameOf);
            s'.dbs == s.dbs && (s'.pc == At(FindOwn, s.pc.root, hash) || (s'.pc.Idle? && !s'.pc.end.Ready?))
  {
    NeverAdopted(Step(s, Crash, nameOf), s.pc.root, hash, actions, nameOf);
  }

  // ---- The program ----

  /** A database server, and one `ensure` on it. `trace` records the operations asked for. */
  class Provisioner {
    const nameOf: string -> string
    var dbs: map<Name, Database>
    ghost var pc: Pc
    ghost var start: State
    ghost var trace: seq<Action>

    ghost predicate Valid()
      reads this
    {
      Run(start, trace, nameOf) == State(dbs, pc)
    }

    constructor (dbs: map<Name, Database>, nameOf: string -> string)
      ensures Valid() && this.dbs == dbs && this.nameOf == nameOf && pc == Idle(NotStarted)
      ensures start == State(dbs, Idle(NotStarted)) && trace == []
    {
      this.dbs, this.nameOf := dbs, nameOf;
      pc, start, trace := Idle(NotStarted), State(dbs, Idle(NotStarted)), [];
    }

    /** Appends the action that led from `before` to the fields as they are now. */
    ghost method Took(a: Action, before: State)
      requires Run(start, trace, nameOf) == before && Step(before, a, nameOf).dbs == dbs
      modifies this`trace, this`pc
      ensures Valid() && trace == old(trace) + [a] && pc == Step(before, a, nameOf).pc
    {
      InitOfSnoc(trace, a);
      trace := trace + [a];
      pc := Step(before, a, nameOf).pc;
    }

    /** An operation that threw; a migration may have stopped half way. */
    method Threw(half: bool, target: Name)
      requires Valid() && pc.At?
      requires half ==> (pc.stage == MigrateBuild && target == Building(pc.hash)) || (pc.stage == MigrateOwn && target == Own(nameOf(pc.root)))
      modifies this
      ensures Valid() && pc == Idle(OperationFailed) && start == old(start)
      ensures dbs == if half && target in old(dbs) then old(dbs)[target := old(dbs)[target].(exact := None)] else old(dbs)
      ensures exists a: Action :: a.Next? && trace == old(trace) + [a]
    {
      ghost var before := State(dbs, pc);
      if half && target in dbs {
        dbs := dbs[target := dbs[target].(exact := None)];
      }
      Took(Next(if half then StoppedHalfWay else Failed), before);
    }

    /** What the current operation does to the server when it works. */
    method Worked(newDbs: map<Name, Database>)
      requires Valid() && pc.At? && Perform(State(dbs, pc), nameOf).dbs == newDbs
      modifies this
      ensures Valid() && dbs == newDbs && pc == Perform(old(State(dbs, pc)), nameOf).pc
      ensures start == old(start) && trace == old(trace) + [Next(Result.Worked)]
    {
      ghost var before := State(dbs, pc);
      dbs := newDbs;
      Took(Next(Result.Worked), before);
    }

    ghost predicate Stepping(from: int)
      reads this
    {
      0 <= from <= |trace| && forall k :: from <= k < |trace| ==> trace[k].Next?
    }

    /** The template for `hash`, built under a build name and renamed only when complete. */
    method EnsureTemplate(root: string, hash: Hash, works: nat -> bool, half: bool, ghost from: nat) returns (ok: bool)
      requires Valid() && pc == At(FindTemplate, root, hash) && Sound(State(dbs, pc), nameOf) && Stepping(from)
      modifies this
      ensures Valid() && start == old(start) && old(trace) <= trace && Stepping(from) && Sound(State(dbs, pc), nameOf)
      ensures pc == if ok then At(Clone, root, hash) else Idle(OperationFailed)
      ensures ok ==> ValidTemplate(dbs, hash) && dbs[Template(hash)].closed && dbs[Template(hash)].exact == Some(hash)
      ensures (forall i :: works(i)) ==> ok
    {
      var name, build := Template(hash), Building(hash);
      if name in dbs && dbs[name].comment == TemplateRecord(hash) {
        StepKeepsSound(State(dbs, pc), Next(Result.Worked), nameOf);
        Worked(dbs);
        if !dbs[name].closed {
          ok := Operation(works(0), dbs[name := dbs[name].(closed := true)], from);
          return;
        }
        return true;
      }
      ok := Operation(works(0), dbs, from);
      if !ok { return; }
      if name in dbs {
        ok := Operation(works(1), dbs[name := dbs[name].(closed := false)], from);
        if !ok { return; }
        ok := Operation(works(2), dbs - {name}, from);
        if !ok { return; }
      }
      ok := BuildTemplate(root, hash, works, half, from);
    }

    method BuildTemplate(root: string, hash: Hash, works: nat -> bool, half: bool, ghost from: nat) returns (ok: bool)
      requires Valid() && pc == At(FindBuild, root, hash) && Sound(State(dbs, pc), nameOf) && Stepping(from)
      modifies this
      ensures Valid() && start == old(start) && old(trace) <= trace && Stepping(from) && Sound(State(dbs, pc), nameOf)
      ensures pc == if ok then At(Clone, root, hash) else Idle(OperationFailed)
      ensures (forall i :: works(i)) ==> ok
    {
      ok := ClearBuild(root, hash, works, from);
      if !ok { return; }
      ok := MakeBuild(root, hash, works, half, from);
      if !ok { return; }
      ok := PublishBuild(root, hash, works, from);
    }

    /** A leftover build is from a run that died. */
    method ClearBuild(root: string, hash: Hash, works: nat -> bool, ghost from: nat) returns (ok: bool)
      requires Valid() && pc == At(FindBuild, root, hash) && Sound(State(dbs, pc), nameOf) && Stepping(from)
      modifies this
      ensures Valid() && start == old(start) && old(trace) <= trace && Stepping(from) && Sound(State(dbs, pc), nameOf)
      ensures pc == if ok then At(CreateBuild, root, hash) else Idle(OperationFailed)
      ensures (forall i :: works(i)) ==> ok
    {
      var build := Building(hash);
      ok := Operation(works(3), dbs, from);
      if ok && build in dbs {
        ok := Operation(works(4), dbs - {build}, from);
      }
    }

    method MakeBuild(root: string, hash: Hash, works: nat -> bool, half: bool, ghost from: nat) returns (ok: bool)
      requires Valid() && pc == At(CreateBuild, root, hash) && Sound(State(dbs, pc), nameOf) && Stepping(from)
      modifies this
      ensures Valid() && start == old(start) && old(trace) <= trace && Stepping(from) && Sound(State(dbs, pc), nameOf)
      ensures pc == if ok then At(CommentBuild, root, hash) else Idle(OperationFailed)
      ensures (forall i :: works(i)) ==> ok
    {
      var build := Building(hash);
      ok := Operation(works(5), dbs[build := Database(None, {}, NoRecord, false)], from);
      if !ok { return; }
      ok := Migration(works(6), half, build, Migrated(dbs[build], hash, true), from);
    }

    method PublishBuild(root: string, hash: Hash, works: nat -> bool, ghost from: nat) returns (ok: bool)
      requires Valid() && pc == At(CommentBuild, root, hash) && Sound(State(dbs, pc), nameOf) && Stepping(from)
      modifies this
      ensures Valid() && start == old(start) && old(trace) <= trace && Stepping(from) && Sound(State(dbs, pc), nameOf)
      ensures pc == if ok then At(Clone, root, hash) else Idle(OperationFailed)
      ensures (forall i :: works(i)) ==> ok
    {
      var name, build := Template(hash), Building(hash);
      ok := Operation(works(7), dbs[build := dbs[build].(comment := TemplateRecord(hash))], from);
      if !ok { return; }
      ok := Operation(works(8), (dbs - {build})[name := dbs[build]], from);
      if !ok { return; }
      ok := Operation(works(9), dbs[name := dbs[name].(closed := true)], from);
    }

    /** One awaited server operation: it works, or it throws and changes nothing. */
    method Operation(works: bool, newDbs: map<Name, Database>, ghost from: nat) returns (ok: bool)
      requires Valid() && pc.At? && Perform(State(dbs, pc), nameOf).dbs == newDbs
      requires Sound(State(dbs, pc), nameOf) && Stepping(from)
      modifies this
      ensures Valid() && start == old(start) && old(trace) <= trace && Stepping(from) && Sound(State(dbs, pc), nameOf) && ok == works
      ensures ok ==> dbs == newDbs && pc == Perform(old(State(dbs, pc)), nameOf).pc
      ensures !ok ==> dbs == old(dbs) && pc == Idle(OperationFailed)
    {
      StepKeepsSound(State(dbs, pc), Next(if works then Result.Worked else Failed), nameOf);
      ok := works;
      if works {
        Worked(newDbs);
      } else {
        Threw(false, Template(""));
      }
    }

    /** The migration runner, on a build or on a worktree's own database. */
    method Migration(works: bool, half: bool, target: Name, migrated: Database, ghost from: nat) returns (ok: bool)
      requires Valid() && pc.At? && target in dbs && Perform(State(dbs, pc), nameOf).dbs == dbs[target := migrated]
      requires (pc.stage == MigrateBuild && target == Building(pc.hash)) || (pc.stage == MigrateOwn && target == Own(nameOf(pc.root)))
      requires Sound(State(dbs, pc), nameOf) && Stepping(from)
      modifies this
      ensures Valid() && start == old(start) && old(trace) <= trace && Stepping(from) && Sound(State(dbs, pc), nameOf) && ok == works
      ensures ok ==> dbs == old(dbs)[target := migrated] && pc == Perform(old(State(dbs, pc)), nameOf).pc
      ensures !ok ==> pc == Idle(OperationFailed)
      ensures !ok ==> dbs == if half then old(dbs)[target := old(dbs)[target].(exact := None)] else old(dbs)
    {
      StepKeepsSound(State(dbs, pc), Next(if works then Result.Worked else if half then StoppedHalfWay else Failed), nameOf);
      ok := works;
      if works {
        Worked(dbs[target := migrated]);
      } else {
        Threw(half, target);
      }
    }

    /** A missing database is cloned from its template; the record is written last. */
    method CreateOwn(root: string, hash: Hash, works: nat -> bool, half: bool, ghost from: nat) returns (ok: bool)
      requires Valid() && pc == At(FindTemplate, root, hash) && Sound(State(dbs, pc), nameOf) && Stepping(from)
      modifies this
      ensures Valid() && start == old(start) && old(trace) <= trace && Stepping(from) && Sound(State(dbs, pc), nameOf)
      ensures pc == Idle(if ok then Ready(root, hash) else OperationFailed)
      ensures (forall i :: works(i)) ==> ok
    {
      var own, name := Own(nameOf(root)), Template(hash);
      ok := EnsureTemplate(root, hash, works, half, from);
      if !ok { return; }
      ok := Operation(works(10), dbs[own := Database(dbs[name].exact, dbs[name].completed, NoRecord, false)], from);
      if !ok { return; }
      ok := Operation(works(11), dbs[own := dbs[own].(comment := WorktreeRecord(root, hash, false))], from);
    }

    /** An own database is unmarked if it was marked, and migrated forward if its record is old. */
    method UpdateOwn(root: string, hash: Hash, works: nat -> bool, half: bool, ghost from: nat) returns (ok: bool)
      requires Valid() && pc == At(FindOwn, root, hash) && Sound(State(dbs, pc), nameOf) && Stepping(from)
      requires Own(nameOf(root)) in dbs && BelongsTo(dbs[Own(nameOf(root))], root)
      modifies this
      ensures Valid() && start == old(start) && old(trace) <= trace && Stepping(from) && Sound(State(dbs, pc), nameOf)
      ensures pc == Idle(if ok then Ready(root, hash) else OperationFailed)
      ensures (forall i :: works(i)) ==> ok
    {
      var own := Own(nameOf(root));
      var c := dbs[own].comment;
      ok := Operation(works(12), dbs, from);
      if !ok { return; }
      if c.orphaned {
        ok := Operation(works(0), dbs[own := dbs[own].(comment := WorktreeRecord(root, c.schema, false))], from);
        if !ok { return; }
      }
      if c.schema != hash {
        ok := Migration(works(1), half, own, Migrated(dbs[own], hash, false), from);
        if !ok { return; }
        var d := dbs[own];
        ok := Operation(works(2), dbs[own := d.(comment := WorktreeRecord(root, hash, d.comment.orphaned))], from);
      }
    }

    /** One `ensure`: refuse, update or create. Whatever operation throws, the operations asked for
        are those of one run, so every lemma above applies to what it leaves behind. */
    method Ensure(root: string, hash: Hash, works: nat -> bool, half: bool) returns (end: End)
      requires Valid() && pc.Idle? && Sound(State(dbs, pc), nameOf)
      modifies this
      ensures Valid() && start == old(start) && Sound(State(dbs, pc), nameOf) && pc == Idle(end)
      ensures old(trace) + [Begin(root, hash)] <= trace && Stepping(|old(trace)| + 1)
      ensures end == Ready(root, hash) || end == Refused || end == OperationFailed
      ensures end == Ready(root, hash) ==>
                var own := Own(nameOf(root));
                own in dbs && dbs[own].comment == WorktreeRecord(root, hash, false) && hash in dbs[own].completed
      ensures end == Refused ==> dbs == old(dbs)
      ensures end == Refused <==> Own(nameOf(root)) in old(dbs) && !BelongsTo(old(dbs)[Own(nameOf(root))], root) && works(0)
      ensures (forall i :: works(i)) ==> end != OperationFailed
    {
      ghost var before := State(dbs, pc);
      StepKeepsSound(before, Begin(root, hash), nameOf);
      Took(Begin(root, hash), before);
      ghost var from := |trace|;
      var own := Own(nameOf(root));
      var ok;
      if own in dbs && !BelongsTo(dbs[own], root) {
        ok := Operation(works(0), dbs, from);
        return if ok then Refused else OperationFailed;
      }
      if own in dbs {
        ok := UpdateOwn(root, hash, works, half, from);
      } else {
        ok := Operation(works(12), dbs, from);
        if !ok {
          return OperationFailed;
        }
        ok := CreateOwn(root, hash, works, half, from);
      }
      end := if ok then Ready(root, hash) else OperationFailed;
    }
  }
}
