/** The migration runner: a ledger of applied files, a reservation phase for a
    database that predates the ledger, and a catch-up mode that asks the live
    database before every destructive statement.

    `Step` is one database operation of one boot; `Crash` may come between any two.
    A run is any sequence of actions; an action that is not enabled changes nothing. */
module Migrations {
  import opened Options
  import opened Sequences
  import opened Database

  /** One `.sql` file, already split into statements. Equal contents have equal checksums
      and no others do, so the contents stand for the checksum. */
  datatype File = File(name: string, statements: seq<Statement>)

  datatype Mode = CatchUp | Fresh

  datatype Row = Row(checksum: Option<seq<Statement>>, applied: bool, mode: Mode, skipped: seq<Statement>)

  type Ledger = map<string, Row>

  datatype End = NotStarted | Completed | Refused | StatementFailed | Crashed

  datatype Pc =
    | Idle(end: End)
    | Reserving(next: nat)
    | Scanning(next: nat)
    | Applying(file: nat, next: nat, catchUp: bool, skipped: seq<Statement>)

  /** What a boot did with one statement of one file. */
  datatype Event =
    | Executed(file: nat, index: nat, statement: Statement, ok: bool)
    | Withheld(file: nat, index: nat, statement: Statement)

  /** `db` and `ledger` are durable; `pc` and `resurrected` are lost in a crash;
      `log` is the history of everything done to the database. */
  datatype State = State(db: Database, ledger: Option<Ledger>, pc: Pc,
                         resurrected: map<string, string>, log: seq<Event>)

  datatype Action =
    | Open
    | Reserve
    | Visit
    | Perform(fault: Option<DbError>)
    | Record
    | Clean(source: string, refused: bool)
    | Finish
    | Crash

  const SCHEMA_SENTINEL_TABLE := "users"

  ghost predicate DistinctNames(files: seq<File>) {
    forall i, j :: 0 <= i < j < |files| ==> files[i].name != files[j].name
  }

  predicate Reserved(ledger: Option<Ledger>, name: string) {
    ledger.Some? && name in ledger.value
  }

  predicate IsApplied(ledger: Option<Ledger>, name: string) {
    Reserved(ledger, name) && ledger.value[name].applied
  }

  function ReserveRow(ledger: Ledger, name: string): Ledger {
    if name in ledger then ledger else ledger[name := Row(None, false, CatchUp, [])]
  }

  /** The upsert that marks a file applied; an existing row keeps its mode. */
  function RecordRow(ledger: Ledger, f: File, catchUp: bool, skipped: seq<Statement>): Ledger {
    var mode := if f.name in ledger then ledger[f.name].mode else if catchUp then CatchUp else Fresh;
    ledger[f.name := Row(Some(f.statements), true, mode, skipped)]
  }

  /** A statement's effect, or the error the environment answered instead. */
  function Attempt(db: Database, s: Statement, fault: Option<DbError>): Effect {
    if fault.Some? then Failed(fault.value) else Execute(db, MakeIdempotent(s))
  }

  function NoteResurrected(resurrected: map<string, string>, s: Statement, e: DbError): map<string, string> {
    if s.Rename? && e == AlreadyExists then resurrected[s.table := s.target] else resurrected
  }

  function Step(files: seq<File>, s: State, a: Action): State {
    match a
    case Open =>
      if !s.pc.Idle? then s
      else
        var legacy := s.ledger.None? && SCHEMA_SENTINEL_TABLE in s.db;
        s.(ledger := Some(if s.ledger.None? then map[] else s.ledger.value),
           pc := if legacy then Reserving(0) else Scanning(0),
           resurrected := map[])
    case Reserve =>
      if !s.pc.Reserving? || s.ledger.None? then s
      else if s.pc.next < |files| then
        s.(ledger := Some(ReserveRow(s.ledger.value, files[s.pc.next].name)), pc := Reserving(s.pc.next + 1))
      else s.(pc := Scanning(0))
    case Visit =>
      if !s.pc.Scanning? || s.pc.next >= |files| then s
      else
        var f := files[s.pc.next];
        if !IsApplied(s.ledger, f.name) then s.(pc := Applying(s.pc.next, 0, Reserved(s.ledger, f.name), []))
        else if s.ledger.value[f.name].checksum == Some(f.statements) then s.(pc := Scanning(s.pc.next + 1))
        else s.(pc := Idle(Refused))
    case Perform(fault) =>
      if !s.pc.Applying? || s.pc.file >= |files| || s.pc.next >= |files[s.pc.file].statements| then s
      else PerformStatement(s, files[s.pc.file].statements[s.pc.next], fault)
    case Record =>
      if !s.pc.Applying? || s.pc.file >= |files| || s.pc.next != |files[s.pc.file].statements| || s.ledger.None? then s
      else s.(ledger := Some(RecordRow(s.ledger.value, files[s.pc.file], s.pc.catchUp, s.pc.skipped)),
              pc := Scanning(s.pc.file + 1))
    case Clean(source, refused) =>
      if s.pc != Scanning(|files|) || source !in s.resurrected then s
      else
        var drop := source in s.db && s.resurrected[source] in s.db && s.db[source].rows == map[] && !refused;
        s.(db := if drop then s.db - {source} else s.db, resurrected := s.resurrected - {source})
    case Finish =>
      if s.pc != Scanning(|files|) || s.resurrected != map[] then s else s.(pc := Idle(Completed))
    case Crash => s.(pc := Idle(Crashed), resurrected := map[])
  }

  function PerformStatement(s: State, statement: Statement, fault: Option<DbError>): State
    requires s.pc.Applying?
  {
    if s.pc.catchUp && WouldDestroyData(s.db, statement) then
      s.(pc := s.pc.(next := s.pc.next + 1, skipped := s.pc.skipped + [statement]),
         log := s.log + [Withheld(s.pc.file, s.pc.next, statement)])
    else
      var effect := Attempt(s.db, statement, fault);
      var s' := s.(log := s.log + [Executed(s.pc.file, s.pc.next, statement, effect.Done?)]);
      if effect.Done? then s'.(db := effect.db, pc := s.pc.(next := s.pc.next + 1))
      else if AlreadyApplied(MakeIdempotent(statement), effect.error, s.pc.catchUp) then
        s'.(pc := s.pc.(next := s.pc.next + 1),
            resurrected := if s.pc.catchUp then NoteResurrected(s.resurrected, statement, effect.error)
                           else s.resurrected)
      else s'.(pc := Idle(StatementFailed))
  }

  function Run(files: seq<File>, s: State, actions: seq<Action>): State {
    if actions == [] then s
    else Step(files, Run(files, s, actions[..|actions| - 1]), actions[|actions| - 1])
  }

  lemma RunSnoc(files: seq<File>, s: State, actions: seq<Action>, a: Action)
    ensures Run(files, s, actions + [a]) == Step(files, Run(files, s, actions), a)
  {
    assert (actions + [a])[..|actions|] == actions;
  }

  lemma {:induction false} RunConcat(files: seq<File>, s: State, first: seq<Action>, second: seq<Action>)
    ensures Run(files, s, first + second) == Run(files, Run(files, s, first), second)
    decreases |second|
  {
    if second == [] {
      assert first + second == first;
    } else {
      var init, last := second[..|second| - 1], second[|second| - 1];
      assert first + second == (first + init) + [last];
      RunSnoc(files, s, first + init, last);
      RunConcat(files, s, first, init);
    }
  }

  // ---- Order: an applied prefix, and no statement after one of a later file ----

  ghost predicate AppliedBelow(files: seq<File>, ledger: Option<Ledger>, n: nat) {
    n <= |files| && forall i :: 0 <= i < n ==> IsApplied(ledger, files[i].name)
  }

  /** The applied files are a prefix of the sorted list. */
  ghost predicate AppliedPrefix(files: seq<File>, ledger: Option<Ledger>) {
    forall i, j :: 0 <= i < j < |files| && IsApplied(ledger, files[j].name) ==> IsApplied(ledger, files[i].name)
  }

  ghost predicate LogOrdered(log: seq<Event>) {
    forall p, q :: 0 <= p < q < |log| ==> log[p].file <= log[q].file
  }

  ghost predicate Positioned(files: seq<File>, s: State) {
    match s.pc
    case Idle(_) => true
    case Reserving(n) => s.ledger.Some? && n <= |files|
    case Scanning(n) => s.ledger.Some? && AppliedBelow(files, s.ledger, n)
    case Applying(f, n, _, _) =>
      && s.ledger.Some? && f < |files| && n <= |files[f].statements|
      && AppliedBelow(files, s.ledger, f) && !IsApplied(s.ledger, files[f].name)
  }

  ghost predicate Ordered(files: seq<File>, s: State) {
    && AppliedPrefix(files, s.ledger)
    && LogOrdered(s.log)
    && (forall p :: 0 <= p < |s.log| ==> AppliedBelow(files, s.ledger, s.log[p].file))
    && Positioned(files, s)
  }

  /** One action appends at most one event, and only for the file being applied. */
  lemma StepLogs(files: seq<File>, s: State, a: Action)
    ensures var s' := Step(files, s, a);
            || s'.log == s.log
            || (s.pc.Applying? && s.pc.file < |files| && s'.ledger == s.ledger && |s'.log| == |s.log| + 1 &&
                s'.log == s.log + [s'.log[|s.log|]] && s'.log[|s.log|].file == s.pc.file)
  {
  }

  lemma StepKeepsApplied(files: seq<File>, s: State, a: Action, name: string)
    requires IsApplied(s.ledger, name)
    ensures IsApplied(Step(files, s, a).ledger, name)
  {
  }

  lemma RecordKeepsPrefix(files: seq<File>, s: State)
    requires DistinctNames(files) && Ordered(files, s) && s.pc.Applying?
    ensures var ledger := Some(RecordRow(s.ledger.value, files[s.pc.file], s.pc.catchUp, s.pc.skipped));
            AppliedPrefix(files, ledger) && AppliedBelow(files, ledger, s.pc.file + 1)
  {
  }

  lemma ReserveKeepsPrefix(files: seq<File>, ledger: Ledger, name: string)
    requires AppliedPrefix(files, Some(ledger))
    ensures AppliedPrefix(files, Some(ReserveRow(ledger, name)))
  {
    forall i | 0 <= i < |files| && IsApplied(Some(ReserveRow(ledger, name)), files[i].name)
      ensures IsApplied(Some(ledger), files[i].name)
    {
    }
  }

  lemma StepKeepsPrefix(files: seq<File>, s: State, a: Action)
    requires DistinctNames(files) && Ordered(files, s)
    ensures AppliedPrefix(files, Step(files, s, a).ledger)
  {
    if a.Record? && s.pc.Applying? {
      RecordKeepsPrefix(files, s);
    } else if a.Reserve? && s.pc.Reserving? && s.pc.next < |files| {
      ReserveKeepsPrefix(files, s.ledger.value, files[s.pc.next].name);
    }
  }

  lemma StepKeepsPosition(files: seq<File>, s: State, a: Action)
    requires DistinctNames(files) && Ordered(files, s)
    ensures Positioned(files, Step(files, s, a))
  {
    if a.Record? && s.pc.Applying? {
      RecordKeepsPrefix(files, s);
    }
  }

  lemma StepKeepsOrder(files: seq<File>, s: State, a: Action)
    requires DistinctNames(files) && Ordered(files, s)
    ensures Ordered(files, Step(files, s, a))
  {
    StepLogs(files, s, a);
    StepKeepsPrefix(files, s, a);
    StepKeepsPosition(files, s, a);
    var s' := Step(files, s, a);
    if s'.log != s.log {
      forall p | 0 <= p < |s.log| ensures s.log[p].file <= s.pc.file {
        var unapplied := files[s.pc.file].name;
        assert !IsApplied(s.ledger, unapplied) && AppliedBelow(files, s.ledger, s.log[p].file);
      }
    }
    forall p | 0 <= p < |s'.log| ensures AppliedBelow(files, s'.ledger, s'.log[p].file) {
      forall i | 0 <= i < s'.log[p].file ensures IsApplied(s'.ledger, files[i].name) {
        StepKeepsApplied(files, s, a, files[i].name);
      }
    }
  }

  /** Over every sequence of boots with a crash anywhere: the applied files are a prefix of
      the list, and no statement of a file runs after one of a later file. */
  lemma {:induction false} RunsKeepOrder(files: seq<File>, s: State, actions: seq<Action>)
    requires DistinctNames(files) && Ordered(files, s)
    ensures Ordered(files, Run(files, s, actions))
    decreases |actions|
  {
    if actions != [] {
      RunsKeepOrder(files, s, actions[..|actions| - 1]);
      StepKeepsOrder(files, Run(files, s, actions[..|actions| - 1]), actions[|actions| - 1]);
    }
  }

  /** Once a file is applied it stays applied and nothing is ever done for it again. */
  lemma {:induction false} AppliedFileNeverRunsAgain(files: seq<File>, s: State, actions: seq<Action>, i: nat)
    requires DistinctNames(files) && Ordered(files, s)
    requires i < |files| && IsApplied(s.ledger, files[i].name)
    ensures var s' := Run(files, s, actions);
            && IsApplied(s'.ledger, files[i].name)
            && s.log <= s'.log
            && forall p :: |s.log| <= p < |s'.log| ==> s'.log[p].file > i
    decreases |actions|
  {
    if actions != [] {
      var init := actions[..|actions| - 1];
      AppliedFileNeverRunsAgain(files, s, init, i);
      RunsKeepOrder(files, s, init);
      var t := Run(files, s, init);
      StepLogs(files, t, actions[|actions| - 1]);
      StepKeepsApplied(files, t, actions[|actions| - 1], files[i].name);
      if t.pc.Applying? && t.pc.file <= i { assert IsApplied(t.ledger, files[t.pc.file].name); }
    }
  }

  // ---- Catch-up: every cell survives, wherever its table was renamed to ----

  /** Where a table is found after the successful renames of `log`. */
  function Where(log: seq<Event>, t: string): string {
    if log == [] then t
    else
      var last := log[|log| - 1];
      var before := Where(log[..|log| - 1], t);
      if last.Executed? && last.ok then Moved(last.statement, before) else before
  }

  /** Every non-NULL cell of `s` is still there in `s'`, following renames made since. */
  ghost predicate CellsKept(s: State, s': State) {
    && s.log <= s'.log
    && forall t, id, c :: Cell(s.db, t, id, c).Some? ==>
         Cell(s'.db, Where(s'.log[|s.log|..], t), id, c) == Cell(s.db, t, id, c)
  }

  /** Reservation is finished: every file has its row, and whatever is being applied is in catch-up mode. */
  ghost predicate AllReserved(files: seq<File>, s: State) {
    && (forall i :: 0 <= i < |files| ==> Reserved(s.ledger, files[i].name))
    && (s.pc.Applying? ==> s.pc.catchUp)
  }

  lemma StepKeepsReservation(files: seq<File>, s: State, a: Action)
    requires AllReserved(files, s)
    ensures AllReserved(files, Step(files, s, a))
  {
  }

  lemma WhereSnoc(log: seq<Event>, e: Event, t: string)
    ensures Where(log + [e], t) == if e.Executed? && e.ok then Moved(e.statement, Where(log, t)) else Where(log, t)
  {
    assert (log + [e])[..|log|] == log;
  }

  lemma PerformMovesCell(s: State, statement: Statement, fault: Option<DbError>, t: string, id: nat, c: string) returns (e: Event)
    requires s.pc.Applying? && s.pc.catchUp && Cell(s.db, t, id, c).Some?
    ensures var s' := PerformStatement(s, statement, fault);
            && s'.log == s.log + [e]
            && Cell(s'.db, if e.Executed? && e.ok then Moved(e.statement, t) else t, id, c) == Cell(s.db, t, id, c)
  {
    e := PerformAppends(s, statement, fault);
    if !WouldDestroyData(s.db, statement) { UnguardedKeepsCell(s.db, statement, t, id, c); }
  }

  lemma PerformKeepsCell(s: State, statement: Statement, fault: Option<DbError>, t: string, id: nat, c: string)
    requires s.pc.Applying? && s.pc.catchUp && Cell(s.db, t, id, c).Some?
    ensures var s' := PerformStatement(s, statement, fault);
            && |s'.log| == |s.log| + 1 && s'.log[..|s.log|] == s.log
            && Cell(s'.db, Where(s'.log[|s.log|..], t), id, c) == Cell(s.db, t, id, c)
  {
    var e := PerformMovesCell(s, statement, fault, t, id, c);
    InitOfSnoc(s.log, e);
    WhereSnoc([], e, t);
    assert (s.log + [e])[|s.log|..] == [] + [e];
  }

  lemma StepKeepsCell(files: seq<File>, s: State, a: Action, t: string, id: nat, c: string)
    requires AllReserved(files, s) && Cell(s.db, t, id, c).Some?
    ensures var s' := Step(files, s, a);
            s.log <= s'.log && Cell(s'.db, Where(s'.log[|s.log|..], t), id, c) == Cell(s.db, t, id, c)
  {
    var s' := Step(files, s, a);
    StepLogs(files, s, a);
    if a.Perform? && s' != s {
      PerformKeepsCell(s, files[s.pc.file].statements[s.pc.next], a.fault, t, id, c);
    } else {
      assert s'.log[|s.log|..] == [];
      if a.Clean? && t == a.source { assert id in s.db[t].rows; }
    }
  }

  lemma {:induction false} WhereConcat(first: seq<Event>, second: seq<Event>, t: string)
    ensures Where(first + second, t) == Where(second, Where(first, t))
    decreases |second|
  {
    if second == [] {
      assert first + second == first;
    } else {
      var init, last := second[..|second| - 1], second[|second| - 1];
      assert first + second == (first + init) + [last] && second == init + [last];
      WhereSnoc(first + init, last, t);
      WhereSnoc(init, last, Where(first, t));
      WhereConcat(first, init, t);
    }
  }

  lemma CellsKeptTransitive(a: State, b: State, c: State)
    requires CellsKept(a, b) && CellsKept(b, c)
    ensures CellsKept(a, c)
  {
    var first, second := b.log[|a.log|..], c.log[|b.log|..];
    assert c.log[|a.log|..] == first + second;
    forall t, id, col | Cell(a.db, t, id, col).Some?
      ensures Cell(c.db, Where(first + second, t), id, col) == Cell(a.db, t, id, col)
    {
      WhereConcat(first, second, t);
      KeptAt(b, c, Where(first, t), id, col);
    }
  }

  lemma KeptAt(s: State, s': State, t: string, id: nat, c: string)
    requires CellsKept(s, s') && Cell(s.db, t, id, c).Some?
    ensures Cell(s'.db, Where(s'.log[|s.log|..], t), id, c) == Cell(s.db, t, id, c)
  {
  }

  /** Once reservation is finished, no sequence of boots and crashes loses a single cell,
      and every file is applied in catch-up mode on every retry. */
  lemma {:induction false} CatchUpKeepsEveryCell(files: seq<File>, s: State, actions: seq<Action>)
    requires AllReserved(files, s)
    ensures CellsKept(s, Run(files, s, actions)) && AllReserved(files, Run(files, s, actions))
    decreases |actions|
  {
    if actions == [] {
      assert s.log[|s.log|..] == [];
    } else {
      var init, a := actions[..|actions| - 1], actions[|actions| - 1];
      CatchUpKeepsEveryCell(files, s, init);
      var mid := Run(files, s, init);
      StepKeepsReservation(files, mid, a);
      forall t, id, c | Cell(mid.db, t, id, c).Some?
        ensures Cell(Step(files, mid, a).db, Where(Step(files, mid, a).log[|mid.log|..], t), id, c) == Cell(mid.db, t, id, c)
      {
        StepKeepsCell(files, mid, a, t, id, c);
      }
      StepLogs(files, mid, a);
      CellsKeptTransitive(s, mid, Step(files, mid, a));
    }
  }

  // ---- What becomes of a statement that did not run, or failed ----

  /** The statement under way. */
  ghost predicate At(files: seq<File>, s: State, statement: Statement) {
    s.pc.Applying? && s.pc.file < |files| && s.pc.next < |files[s.pc.file].statements| &&
    files[s.pc.file].statements[s.pc.next] == statement
  }

  /** What the statement would bring about is there already. */
  ghost predicate InPlace(db: Database, statement: Statement) {
    match statement
    case CreateTable(t, _, _) => t in db
    case AddColumn(t, c, _) => t in db && c in db[t].columns
    case DropColumn(t, c) => t !in db || c !in db[t].columns
    case DropTable(t, _) => t !in db
    case Insert(t, id, cells) => t in db && cells.Keys <= db[t].columns && id in db[t].rows
    case _ => false
  }

  /** The reading of an error under which the statement has nothing left to do. */
  ghost predicate SaysNothingToDo(e: DbError, statement: Statement) {
    match e
    case DoesNotExist => statement.DropColumn? || statement.DropTable? || statement == Neutral(OtherDrop)
    case DuplicateKey => statement.Insert?
    case ForeignKeyViolation => statement == Neutral(AddConstraint)
    case OtherError => false
    case _ => statement.CreateTable? || statement.AddColumn? || statement == Neutral(AddConstraint) || statement == Neutral(OtherAdd)
  }

  /** In a file applied for the first time, a statement the database itself cannot carry out is
      passed over if and only if its effect is there already; any other ends the boot. */
  lemma StrictPassesOnlyWhatIsThere(files: seq<File>, s: State, statement: Statement)
    requires At(files, s, statement) && !s.pc.catchUp && Attempt(s.db, statement, None).Failed?
    ensures var s' := Step(files, s, Perform(None));
            && s'.db == s.db && s'.ledger == s.ledger
            && s'.pc == if InPlace(s.db, statement) then s.pc.(next := s.pc.next + 1) else Idle(StatementFailed)
  {
  }

  lemma InPlaceMeans(db: Database, statement: Statement)
    requires Attempt(db, statement, None).Failed?
    ensures AlreadyApplied(MakeIdempotent(statement), Attempt(db, statement, None).error, false) <==> InPlace(db, statement)
  {
  }

  /** Whatever error comes back, in either mode: a first application passes over only an error that
      says there is nothing to do for a statement of that kind; the catch-up pass any of the five
      that speak of objects present or absent, and a foreign key that could not be added again. */
  lemma FailuresPassedOver(files: seq<File>, s: State, statement: Statement, fault: Option<DbError>)
    requires At(files, s, statement) && !(s.pc.catchUp && WouldDestroyData(s.db, statement))
    requires Attempt(s.db, statement, fault).Failed?
    ensures var s', e := Step(files, s, Perform(fault)), Attempt(s.db, statement, fault).error;
            var passed := if s.pc.catchUp then e != OtherError && (e == ForeignKeyViolation ==> statement == Neutral(AddConstraint))
                          else SaysNothingToDo(e, statement);
            && s'.db == s.db && s'.ledger == s.ledger
            && s'.pc == if passed then s.pc.(next := s.pc.next + 1) else Idle(StatementFailed)
  {
  }

  /** The hole a ledger alone would leave open: a statement about a table that is not there never
      passes in a file applied for the first time, unless it drops. */
  lemma MissingTableStopsTheBoot(files: seq<File>, s: State, statement: Statement)
    requires At(files, s, statement) && !s.pc.catchUp
    requires statement.AddColumn? || statement.Rename? || statement.Insert? || statement.Update? || statement.Delete? || statement.Truncate?
    requires statement.table !in s.db
    ensures Step(files, s, Perform(None)).pc == Idle(StatementFailed) && Step(files, s, Perform(None)).db == s.db
  {
  }

  /** Bare CREATE and DROP TABLE never fail, and doing either again changes nothing. */
  lemma CreateAndDropRerun(db: Database, statement: Statement)
    requires statement.CreateTable? || statement.DropTable?
    ensures var once := Attempt(db, statement, None);
            once.Done? && InPlace(once.db, statement) && Attempt(once.db, statement, None) == once
            && (InPlace(db, statement) ==> once.db == db)
  {
    if statement.DropTable? { assert statement.table !in db ==> db - {statement.table} == db; }
  }

  ghost predicate HasRow(db: Database, t: string, id: nat) {
    t in db && id in db[t].rows
  }

  /** Carrying it out now would lose a row or a non-NULL cell, renames followed. */
  ghost predicate Loses(db: Database, statement: Statement) {
    var e := Execute(db, MakeIdempotent(statement));
    e.Done? &&
    ((exists t, id :: HasRow(db, t, id) && !HasRow(e.db, Moved(statement, t), id)) ||
     (exists t, id, c :: Cell(db, t, id, c).Some? && Cell(e.db, Moved(statement, t), id, c) != Cell(db, t, id, c)))
  }

  /** The catch-up pass withholds exactly what would lose data now, and every UPDATE, DELETE and
      TRUNCATE; a first application withholds nothing. */
  lemma WithheldMeansLoss(files: seq<File>, s: State, statement: Statement, fault: Option<DbError>)
    requires At(files, s, statement)
    ensures var s' := Step(files, s, Perform(fault));
            && s'.log != [] && s'.log[..|s'.log| - 1] == s.log
            && (s'.log[|s.log|].Withheld? <==>
                  s.pc.catchUp && (statement.Update? || statement.Delete? || statement.Truncate? || Loses(s.db, statement)))
  {
    var e := PerformAppends(s, statement, fault);
    InitOfSnoc(s.log, e);
    if !statement.Update? && !statement.Delete? && !statement.Truncate? {
      if WouldDestroyData(s.db, statement) { DestroyingLoses(s.db, statement); } else { HarmlessLosesNothing(s.db, statement); }
    }
  }

  lemma DestroyingLoses(db: Database, statement: Statement)
    requires WouldDestroyData(db, statement) && (statement.DropColumn? || statement.DropTable?)
    ensures Loses(db, statement)
  {
    var t := statement.table;
    var e := Execute(db, MakeIdempotent(statement));
    assert Moved(statement, t) == t;
    if statement.DropColumn? {
      var id :| id in db[t].rows && statement.column in db[t].rows[id];
      assert Cell(db, t, id, statement.column).Some? && Cell(e.db, t, id, statement.column).None?;
    } else {
      var id :| id in db[t].rows;
      assert HasRow(db, t, id) && !HasRow(e.db, t, id);
    }
  }

  lemma HarmlessLosesNothing(db: Database, statement: Statement)
    requires !WouldDestroyData(db, statement)
    ensures !Loses(db, statement)
  {
    var e := Execute(db, MakeIdempotent(statement));
    forall t, id, c | e.Done? && Cell(db, t, id, c).Some? ensures Cell(e.db, Moved(statement, t), id, c) == Cell(db, t, id, c) {
      UnguardedKeepsCell(db, statement, t, id, c);
    }
    forall t, id | e.Done? && HasRow(db, t, id) ensures HasRow(e.db, Moved(statement, t), id) {
      HarmlessKeepsRow(db, statement, t, id);
    }
  }

  lemma HarmlessKeepsRow(db: Database, statement: Statement, t: string, id: nat)
    requires !WouldDestroyData(db, statement) && HasRow(db, t, id)
    ensures var e := Execute(db, MakeIdempotent(statement));
            e.Done? ==> HasRow(e.db, Moved(statement, t), id)
  {
    assert id in db[t].rows && db[t].rows != map[];
  }

  /** A rename the catch-up pass finds already made is remembered, and the empty table its replay
      brought back goes at the end, unless the database refuses. */
  lemma ResurrectedTableGoes(files: seq<File>, s: State, t: string, target: string, refused: bool)
    requires At(files, s, Rename(t, target)) && s.pc.catchUp && t in s.db && target in s.db
    ensures var noted := Step(files, s, Perform(None));
            && noted.pc == s.pc.(next := s.pc.next + 1) && noted.db == s.db
            && t in noted.resurrected && noted.resurrected[t] == target
            && var cleaned := Step(files, noted.(pc := Scanning(|files|)), Clean(t, refused));
               && t !in cleaned.resurrected
               && cleaned.db == if s.db[t].rows == map[] && !refused then s.db - {t} else s.db
  {
  }

  // ---- A database that is new ----

  /** Nothing is reserved: every row in the ledger is of a file applied in one strict pass. */
  ghost predicate AllStrict(s: State, logged: nat) {
    && (s.ledger.None? ==> s.pc.Idle? && SCHEMA_SENTINEL_TABLE !in s.db)
    && (s.ledger.Some? ==> forall n :: n in s.ledger.value ==>
          s.ledger.value[n].applied && s.ledger.value[n].mode == Fresh && s.ledger.value[n].skipped == [])
    && !s.pc.Reserving? && (s.pc.Applying? ==> !s.pc.catchUp && s.pc.skipped == [])
    && logged <= |s.log| && forall p :: logged <= p < |s.log| ==> s.log[p].Executed?
  }

  lemma StepStaysStrict(files: seq<File>, s: State, a: Action, logged: nat)
    requires AllStrict(s, logged)
    ensures AllStrict(Step(files, s, a), logged)
  {
  }

  /** A database with neither ledger nor schema reserves nothing, over every sequence of boots and
      crashes: each file is applied strictly, nothing is withheld, and its row says so. */
  lemma {:induction false} NewDatabaseRunsStrictly(files: seq<File>, s: State, actions: seq<Action>)
    requires s.pc.Idle? && s.ledger.None? && SCHEMA_SENTINEL_TABLE !in s.db
    ensures AllStrict(Run(files, s, actions), |s.log|)
    decreases |actions|
  {
    if actions != [] {
      NewDatabaseRunsStrictly(files, s, actions[..|actions| - 1]);
      StepStaysStrict(files, Run(files, s, actions[..|actions| - 1]), actions[|actions| - 1], |s.log|);
    }
  }

  // ---- Reservation: the protection starts only when its loop has finished ----

  /** The names of the first `n` files. */
  function NamesBelow(files: seq<File>, n: nat): set<string>
    requires n <= |files|
  {
    if n == 0 then {} else NamesBelow(files, n - 1) + {files[n - 1].name}
  }

  /** The state of the very first boot after `steps` steps of the reservation loop. */
  ghost predicate ReservingFirst(files: seq<File>, s: State, s': State, steps: nat) {
    && s'.db == s.db && s'.log == s.log && s'.ledger.Some?
    && s'.ledger.value.Keys == NamesBelow(files, if steps <= |files| then steps else |files|)
    && OnlyReservations(s'.ledger.value)
    && s'.pc == (if steps <= |files| then Reserving(steps) else Scanning(0))
  }

  lemma ReserveStep(files: seq<File>, s: State, t: State, steps: nat)
    requires steps <= |files| && ReservingFirst(files, s, t, steps)
    ensures ReservingFirst(files, s, Step(files, t, Reserve), steps + 1)
  {
    if steps < |files| {
      assert ReserveRow(t.ledger.value, files[steps].name).Keys == t.ledger.value.Keys + {files[steps].name};
    }
  }

  lemma OpenStartsReserving(files: seq<File>, s: State)
    requires s.pc.Idle? && s.ledger.None? && SCHEMA_SENTINEL_TABLE in s.db
    ensures ReservingFirst(files, s, Step(files, s, Open), 0)
  {
  }

  /** In a database with a schema and no ledger, the first boot touches no data while it reserves,
      and has reserved exactly the first `steps` files after that many steps: a crash then leaves
      the rest without a row. */
  lemma {:induction false} FirstBootReserves(files: seq<File>, s: State, steps: nat)
    requires s.pc.Idle? && s.ledger.None? && SCHEMA_SENTINEL_TABLE in s.db && steps <= |files| + 1
    ensures ReservingFirst(files, s, Run(files, s, [Open] + Repeat(Reserve, steps)), steps)
  {
    if steps == 0 {
      assert [Open] + Repeat(Reserve, 0) == [] + [Open];
      RunSnoc(files, s, [], Open);
      OpenStartsReserving(files, s);
    } else {
      FirstBootReserves(files, s, steps - 1);
      var before := [Open] + Repeat(Reserve, steps - 1);
      assert [Open] + Repeat(Reserve, steps) == before + [Reserve];
      RunSnoc(files, s, before, Reserve);
      ReserveStep(files, s, Run(files, s, before), steps - 1);
    }
  }

  lemma {:induction false} NamesBelowHolds(files: seq<File>, n: nat, i: nat)
    requires i < n <= |files|
    ensures files[i].name in NamesBelow(files, n)
  {
    if i < n - 1 { NamesBelowHolds(files, n - 1, i); }
  }

  /** A database that predates the ledger: if its first boot gets through the reservation loop,
      nothing that follows, boots and crashes alike, ever loses a cell it held at the start. */
  lemma LegacyDataSurvives(files: seq<File>, s: State, later: seq<Action>)
    requires s.pc.Idle? && s.ledger.None? && SCHEMA_SENTINEL_TABLE in s.db
    ensures CellsKept(s, Run(files, s, [Open] + Repeat(Reserve, |files| + 1) + later))
  {
    var first := [Open] + Repeat(Reserve, |files| + 1);
    var mid := Run(files, s, first);
    FirstBootReserves(files, s, |files| + 1);
    forall i | 0 <= i < |files| ensures Reserved(mid.ledger, files[i].name) {
      NamesBelowHolds(files, |files|, i);
    }
    CatchUpKeepsEveryCell(files, mid, later);
    RunConcat(files, s, first, later);
    assert mid.log[|s.log|..] == [];
    assert CellsKept(s, mid);
    CellsKeptTransitive(s, mid, Run(files, mid, later));
  }

  function Repeat(a: Action, n: nat): (r: seq<Action>)
    ensures |r| == n
  {
    if n == 0 then [] else Repeat(a, n - 1) + [a]
  }

  /** The names of a list of files. */
  function Names(files: seq<File>): seq<string> {
    seq(|files|, i requires 0 <= i < |files| => files[i].name)
  }

  /** A ledger holding reservations only, as a crash inside the reservation loop leaves it. */
  predicate OnlyReservations(ledger: Ledger) {
    forall n :: n in ledger ==> ledger[n] == Row(None, false, CatchUp, [])
  }

  /** Whatever the files with these names contain and whatever the database holds,
      no run from this ledger ever loses a cell. */
  ghost predicate NeverLosesData(names: seq<string>, ledger: Ledger) {
    forall files: seq<File>, db: Database, actions: seq<Action> :: Names(files) == names ==>
      var s := State(db, Some(ledger), Idle(Crashed), map[], []);
      CellsKept(s, Run(files, s, actions))
  }

  /** After a crash during reservation, later boots keep all data if and only if the loop had
      already reserved every file. */
  lemma ReservationMustFinish(names: seq<string>, ledger: Ledger)
    requires OnlyReservations(ledger)
    requires forall i, j :: 0 <= i < j < |names| ==> names[i] != names[j]
    ensures NeverLosesData(names, ledger) <==> forall i :: 0 <= i < |names| ==> names[i] in ledger
  {
    if forall i :: 0 <= i < |names| ==> names[i] in ledger {
      forall files: seq<File>, db: Database, actions: seq<Action> | Names(files) == names
        ensures var s := State(db, Some(ledger), Idle(Crashed), map[], []);
                CellsKept(s, Run(files, s, actions))
      {
        var s := State(db, Some(ledger), Idle(Crashed), map[], []);
        forall i | 0 <= i < |files| ensures Reserved(s.ledger, files[i].name) {
          assert Names(files)[i] == files[i].name;
        }
        CatchUpKeepsEveryCell(files, s, actions);
      }
    } else {
      var i :| 0 <= i < |names| && names[i] !in ledger;
      UnreservedFileLosesData(names, ledger, i);
    }
  }

  const LostStatement := DropColumn("users", "team_id")

  /** Files with the given names, all empty but the `i`-th, which drops `users.team_id`. */
  function DroppingFile(names: seq<string>, i: nat): (files: seq<File>)
    ensures Names(files) == names
  {
    seq(|names|, k requires 0 <= k < |names| => File(names[k], if k == i then [LostStatement] else []))
  }

  /** Open, then visit and record `k` empty files. */
  function ThroughEmptyFiles(k: nat): seq<Action> {
    if k == 0 then [Open] else ThroughEmptyFiles(k - 1) + [Visit] + [Record]
  }

  ghost predicate PassedEmpty(files: seq<File>, s: State, s': State, k: nat) {
    && k <= |files| && s'.db == s.db && s'.log == s.log && s.ledger.Some? && s'.ledger.Some? && s'.pc == Scanning(k)
    && forall j :: k <= j < |files| ==>
         !IsApplied(s'.ledger, files[j].name) &&
         (Reserved(s'.ledger, files[j].name) <==> Reserved(s.ledger, files[j].name))
  }

  lemma EmptyFilePasses(files: seq<File>, s: State, t: State, k: nat)
    requires DistinctNames(files) && k < |files| && files[k].statements == [] && PassedEmpty(files, s, t, k)
    ensures PassedEmpty(files, s, Step(files, Step(files, t, Visit), Record), k + 1)
  {
    var v := Step(files, t, Visit);
    assert v.pc == Applying(k, 0, Reserved(t.ledger, files[k].name), []) && v.ledger == t.ledger;
  }

  lemma OpenPassesNone(files: seq<File>, s: State)
    requires s.pc.Idle? && s.ledger.Some? && OnlyReservations(s.ledger.value)
    ensures PassedEmpty(files, s, Step(files, s, Open), 0)
  {
  }

  lemma {:induction false} EmptyFilesPass(files: seq<File>, s: State, k: nat)
    requires DistinctNames(files) && k <= |files| && s.pc.Idle? && s.ledger.Some? && OnlyReservations(s.ledger.value)
    requires forall j :: 0 <= j < k ==> files[j].statements == []
    ensures PassedEmpty(files, s, Run(files, s, ThroughEmptyFiles(k)), k)
  {
    if k == 0 {
      RunSnoc(files, s, [], Open);
      assert [] + [Open] == [Open];
      OpenPassesNone(files, s);
    } else {
      EmptyFilesPass(files, s, k - 1);
      RunSnoc(files, s, ThroughEmptyFiles(k - 1), Visit);
      RunSnoc(files, s, ThroughEmptyFiles(k - 1) + [Visit], Record);
      EmptyFilePasses(files, s, Run(files, s, ThroughEmptyFiles(k - 1)), k - 1);
    }
  }

  lemma StrictDropLosesCell(s: State, i: nat)
    requires s.pc == Applying(i, 0, false, []) && s.log == []
    requires s.db == map["users" := Table({"team_id"}, map[0 := map["team_id" := "7"]])]
    ensures var end := PerformStatement(s, LostStatement, None);
            |end.log| == 1 && Where(end.log, "users") == "users" && Cell(end.db, "users", 0, "team_id") == None
  {
    DropClearsCell(s.db);
    var end := PerformStatement(s, LostStatement, None);
    WhereSnoc([], end.log[0], "users");
    assert end.log == [] + [end.log[0]];
  }

  lemma DropClearsCell(db: Database)
    requires db == map["users" := Table({"team_id"}, map[0 := map["team_id" := "7"]])]
    ensures var e := Attempt(db, LostStatement, None);
            e.Done? && Cell(e.db, "users", 0, "team_id") == None
  {
    assert db["users"].columns == {"team_id"};
  }

  lemma UnreservedFileLosesData(names: seq<string>, ledger: Ledger, i: nat)
    requires OnlyReservations(ledger)
    requires forall i, j :: 0 <= i < j < |names| ==> names[i] != names[j]
    requires i < |names| && names[i] !in ledger
    ensures !NeverLosesData(names, ledger)
  {
    var files := DroppingFile(names, i);
    var db: Database := map["users" := Table({"team_id"}, map[0 := map["team_id" := "7"]])];
    var s := State(db, Some(ledger), Idle(Crashed), map[], []);
    var actions := ThroughEmptyFiles(i) + [Visit] + [Perform(None)];
    var end := Run(files, s, actions);
    assert end.log[|s.log|..] == end.log && Cell(end.db, Where(end.log, "users"), 0, "team_id") == None by {
      EmptyFilesPass(files, s, i);
      RunSnoc(files, s, ThroughEmptyFiles(i), Visit);
      RunSnoc(files, s, ThroughEmptyFiles(i) + [Visit], Perform(None));
      StrictDropLosesCell(Run(files, s, ThroughEmptyFiles(i) + [Visit]), i);
    }
    assert Cell(s.db, "users", 0, "team_id") == Some("7");
    assert !CellsKept(s, end);
  }

  // ---- What a recorded file did, and the boot after a completed one ----

  /** The statements of `log`'s events, in order. */
  function Statements(log: seq<Event>): seq<Statement> {
    seq(|log|, p requires 0 <= p < |log| => log[p].statement)
  }

  function WithheldOf(log: seq<Event>): seq<Statement> {
    if log == [] then []
    else
      var last := log[|log| - 1];
      WithheldOf(log[..|log| - 1]) + if last.Withheld? then [last.statement] else []
  }

  /** The attempt in progress has dealt with the file's first `next` statements, in order, each
      executed or withheld; `skipped` is exactly the withheld ones. */
  ghost predicate AttemptInOrder(files: seq<File>, s: State) {
    s.pc.Applying? ==>
      && s.pc.file < |files| && s.pc.next <= |files[s.pc.file].statements| && s.pc.next <= |s.log|
      && var attempt := s.log[|s.log| - s.pc.next..];
         && Statements(attempt) == files[s.pc.file].statements[..s.pc.next]
         && WithheldOf(attempt) == s.pc.skipped
  }

  lemma AttemptSnoc(attempt: seq<Event>, e: Event)
    ensures Statements(attempt + [e]) == Statements(attempt) + [e.statement]
    ensures WithheldOf(attempt + [e]) == WithheldOf(attempt) + if e.Withheld? then [e.statement] else []
  {
    assert (attempt + [e])[..|attempt|] == attempt;
  }

  lemma PerformAppends(s: State, statement: Statement, fault: Option<DbError>) returns (e: Event)
    requires s.pc.Applying?
    ensures var s' := PerformStatement(s, statement, fault);
            && s'.log == s.log + [e] && e.statement == statement
            && (if s.pc.catchUp && WouldDestroyData(s.db, statement) then e.Withheld? && s'.db == s.db
                else e.Executed? && var effect := Attempt(s.db, statement, fault);
                     e.ok == effect.Done? && s'.db == if effect.Done? then effect.db else s.db)
            && (s'.pc.Applying? ==>
                  s'.pc.file == s.pc.file && s'.pc.next == s.pc.next + 1 &&
                  s'.pc.skipped == s.pc.skipped + if e.Withheld? then [statement] else [])
  {
    e := if s.pc.catchUp && WouldDestroyData(s.db, statement)
         then Withheld(s.pc.file, s.pc.next, statement)
         else Executed(s.pc.file, s.pc.next, statement, Attempt(s.db, statement, fault).Done?);
  }

  lemma PerformKeepsAttempt(files: seq<File>, s: State, fault: Option<DbError>)
    requires AttemptInOrder(files, s) && s.pc.Applying? && s.pc.next < |files[s.pc.file].statements|
    ensures AttemptInOrder(files, PerformStatement(s, files[s.pc.file].statements[s.pc.next], fault))
  {
    var statements, n := files[s.pc.file].statements, s.pc.next;
    var e := PerformAppends(s, statements[n], fault);
    if PerformStatement(s, statements[n], fault).pc.Applying? {
      AttemptSnoc(s.log[|s.log| - n..], e);
      LastOfLog(s.log, e, n);
      TakeOneMore(statements, n);
    }
  }

  lemma LastOfLog(log: seq<Event>, e: Event, n: nat)
    requires n <= |log|
    ensures (log + [e])[|log + [e]| - (n + 1)..] == log[|log| - n..] + [e]
  {
  }

  lemma StepKeepsAttempt(files: seq<File>, s: State, a: Action)
    requires AttemptInOrder(files, s)
    ensures AttemptInOrder(files, Step(files, s, a))
  {
    if a.Perform? && s.pc.Applying? && s.pc.next < |files[s.pc.file].statements| {
      PerformKeepsAttempt(files, s, a.fault);
    }
  }

  lemma {:induction false} RunsKeepAttempt(files: seq<File>, s: State, actions: seq<Action>)
    requires s.pc.Idle?
    ensures AttemptInOrder(files, Run(files, s, actions))
    decreases |actions|
  {
    if actions != [] {
      RunsKeepAttempt(files, s, actions[..|actions| - 1]);
      StepKeepsAttempt(files, Run(files, s, actions[..|actions| - 1]), actions[|actions| - 1]);
    }
  }

  /** Recording in state `t`, if it happens, follows a complete attempt and describes it. */
  ghost predicate RecordsItsAttempt(files: seq<File>, t: State) {
    Step(files, t, Record) != t ==>
      && t.pc.Applying? && t.pc.file < |files|
      && var f := files[t.pc.file];
         && |f.statements| <= |t.log|
         && var attempt := t.log[|t.log| - |f.statements|..];
            && Statements(attempt) == f.statements
            && Reserved(Step(files, t, Record).ledger, f.name)
            && var row := Step(files, t, Record).ledger.value[f.name];
               row.applied && row.checksum == Some(f.statements) && row.skipped == WithheldOf(attempt)
  }

  lemma RecordDescribesAttempt(files: seq<File>, t: State)
    requires AttemptInOrder(files, t)
    ensures RecordsItsAttempt(files, t)
  {
    if t.pc.Applying? && t.pc.file < |files| {
      var statements := files[t.pc.file].statements;
      assert statements[..|statements|] == statements;
    }
  }

  /** In any run, a file is recorded only when its whole last attempt, in order, was executed or
      withheld; the row holds exactly the withheld statements and this file's checksum. */
  lemma RecordedFileWasPartitioned(files: seq<File>, s: State, actions: seq<Action>)
    requires s.pc.Idle?
    ensures RecordsItsAttempt(files, Run(files, s, actions))
  {
    RunsKeepAttempt(files, s, actions);
    RecordDescribesAttempt(files, Run(files, s, actions));
  }

  ghost predicate ChecksumsMatch(files: seq<File>, ledger: Option<Ledger>) {
    forall i :: 0 <= i < |files| && IsApplied(ledger, files[i].name) ==>
      ledger.value[files[i].name].checksum == Some(files[i].statements)
  }

  lemma StepKeepsChecksums(files: seq<File>, s: State, a: Action)
    requires DistinctNames(files) && ChecksumsMatch(files, s.ledger)
    ensures ChecksumsMatch(files, Step(files, s, a).ledger)
  {
  }

  lemma {:induction false} RunsKeepChecksums(files: seq<File>, s: State, actions: seq<Action>)
    requires DistinctNames(files) && ChecksumsMatch(files, s.ledger)
    ensures ChecksumsMatch(files, Run(files, s, actions).ledger)
    decreases |actions|
  {
    if actions != [] {
      RunsKeepChecksums(files, s, actions[..|actions| - 1]);
      StepKeepsChecksums(files, Run(files, s, actions[..|actions| - 1]), actions[|actions| - 1]);
    }
  }

  /** With the files unchanged, no boot ever refuses. */
  lemma {:induction false} UnchangedFilesNeverRefused(files: seq<File>, s: State, actions: seq<Action>)
    requires DistinctNames(files) && ChecksumsMatch(files, s.ledger) && s.pc != Idle(Refused)
    ensures Run(files, s, actions).pc != Idle(Refused)
    decreases |actions|
  {
    if actions != [] {
      UnchangedFilesNeverRefused(files, s, actions[..|actions| - 1]);
      RunsKeepChecksums(files, s, actions[..|actions| - 1]);
    }
  }

  /** Nothing left to do: every file is applied. */
  ghost predicate Settled(files: seq<File>, s: State) {
    s.ledger.Some? && AppliedBelow(files, s.ledger, |files|) && !s.pc.Applying? && !s.pc.Reserving? && s.resurrected == map[]
  }

  lemma {:induction false} SettledStays(files: seq<File>, s: State, actions: seq<Action>)
    requires DistinctNames(files) && Settled(files, s)
    ensures var s' := Run(files, s, actions);
            Settled(files, s') && s'.db == s.db && s'.log == s.log && s'.ledger == s.ledger
    decreases |actions|
  {
    if actions != [] {
      SettledStays(files, s, actions[..|actions| - 1]);
    }
  }

  /** A boot that completes leaves nothing for any later boot: no migration statement runs
      and the database never changes again. */
  lemma CompletedBootIsFinal(files: seq<File>, s: State, actions: seq<Action>, later: seq<Action>)
    requires DistinctNames(files) && Ordered(files, s) && s.pc.Idle? && s.pc.end != Completed
    requires Run(files, s, actions).pc == Idle(Completed)
    ensures var done := Run(files, s, actions);
            var s' := Run(files, s, actions + later);
            AppliedBelow(files, done.ledger, |files|) && s'.db == done.db && s'.log == done.log && s'.ledger == done.ledger
  {
    CompletedMeansSettled(files, s, actions);
    SettledStays(files, Run(files, s, actions), later);
    RunConcat(files, s, actions, later);
  }

  lemma {:induction false} CompletedMeansSettled(files: seq<File>, s: State, actions: seq<Action>)
    requires DistinctNames(files) && Ordered(files, s) && s.pc.Idle? && s.pc.end != Completed
    ensures Run(files, s, actions).pc == Idle(Completed) ==> Settled(files, Run(files, s, actions))
    decreases |actions|
  {
    if actions != [] {
      CompletedMeansSettled(files, s, actions[..|actions| - 1]);
      RunsKeepOrder(files, s, actions[..|actions| - 1]);
    }
  }

  // ---- A shipped file that was edited after it was applied ----

  /** `edited` lists the same file names, and its `i`-th file no longer matches the ledger. */
  ghost predicate EditedAfterApplied(edited: seq<File>, ledger: Option<Ledger>, i: nat) {
    && i < |edited| && AppliedBelow(edited, ledger, i + 1) && ledger.Some?
    && ledger.value[edited[i].name].checksum != Some(edited[i].statements)
  }

  /** Such a deployment never starts: whatever happens, no boot runs a statement, none completes. */
  lemma {:induction false} EditedFileBlocksEveryBoot(edited: seq<File>, s: State, actions: seq<Action>, i: nat)
    requires DistinctNames(edited) && EditedAfterApplied(edited, s.ledger, i)
    requires s.pc.Idle? && s.pc.end != Completed
    ensures var s' := Run(edited, s, actions);
            && s'.db == s.db && s'.log == s.log && s'.ledger == s.ledger
            && s'.pc != Idle(Completed) && !s'.pc.Applying? && !s'.pc.Reserving?
            && (s'.pc.Scanning? ==> s'.pc.next <= i)
    decreases |actions|
  {
    if actions != [] {
      EditedFileBlocksEveryBoot(edited, s, actions[..|actions| - 1], i);
    }
  }
}
