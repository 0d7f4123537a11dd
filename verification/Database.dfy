/** The part of PostgreSQL the migration runner depends on: tables of rows whose
    cells may be NULL (absent), the statement shapes the shipped migrations use,
    and the errors those statements report. */
module Database {
  import opened Options

  /** A row maps each column that is not NULL to its value. */
  datatype Table = Table(columns: set<string>, rows: map<nat, map<string, string>>)

  type Database = map<string, Table>

  /** What a statement that deletes no row data looks like to the runner's error filter. */
  datatype Shape = AddConstraint | OtherAdd | OtherDrop | Plain

  datatype Statement =
    | CreateTable(table: string, columns: set<string>, guarded: bool)
    | AddColumn(table: string, column: string, default: Option<string>)
    | DropColumn(table: string, column: string)
    | DropTable(table: string, guarded: bool)
    | Rename(table: string, target: string)
    | Insert(table: string, id: nat, cells: map<string, string>)
    | Update(table: string, column: string, newValue: Option<string>)
    | Delete(table: string, ids: set<nat>)
    | Truncate(table: string)
    | Neutral(shape: Shape)

  datatype DbError =
    | AlreadyExists | DoesNotExist | DuplicateKey | DuplicateColumn
    | MultiplePrimaryKeys | ForeignKeyViolation | OtherError

  datatype Effect = Done(db: Database) | Failed(error: DbError)

  /** The value of one cell; None when the table, the row or the value is missing. */
  function Cell(db: Database, table: string, id: nat, column: string): Option<string> {
    if table in db && id in db[table].rows && column in db[table].rows[id]
    then Some(db[table].rows[id][column])
    else None
  }

  /** The runner's rewriting of bare CREATE/DROP TABLE into the guarded forms. */
  function MakeIdempotent(s: Statement): Statement {
    match s
    case CreateTable(t, columns, _) => CreateTable(t, columns, true)
    case DropTable(t, _) => DropTable(t, true)
    case _ => s
  }

  function SetEverywhere(rows: map<nat, map<string, string>>, column: string, newValue: Option<string>)
    : map<nat, map<string, string>>
  {
    map id | id in rows ::
      if newValue.Some? then rows[id][column := newValue.value] else rows[id] - {column}
  }

  function Execute(db: Database, s: Statement): Effect {
    match s
    case CreateTable(t, columns, guarded) =>
      if t !in db then Done(db[t := Table(columns, map[])])
      else if guarded then Done(db) else Failed(AlreadyExists)
    case AddColumn(t, c, default) =>
      if t !in db then Failed(DoesNotExist)
      else if c in db[t].columns then Failed(AlreadyExists)
      else if default.None? then Done(db[t := Table(db[t].columns + {c}, db[t].rows)])
      else Done(db[t := Table(db[t].columns + {c},
                              map id | id in db[t].rows :: map[c := default.value] + db[t].rows[id])])
    case DropColumn(t, c) =>
      if t !in db || c !in db[t].columns then Failed(DoesNotExist)
      else Done(db[t := Table(db[t].columns - {c}, SetEverywhere(db[t].rows, c, None))])
    case DropTable(t, guarded) =>
      if t in db then Done(db - {t}) else if guarded then Done(db) else Failed(DoesNotExist)
    case Rename(t, target) =>
      if t !in db then Failed(DoesNotExist)
      else if target in db then Failed(AlreadyExists)
      else Done((db - {t})[target := db[t]])
    case Insert(t, id, cells) =>
      if t !in db || !(cells.Keys <= db[t].columns) then Failed(DoesNotExist)
      else if id in db[t].rows then Failed(DuplicateKey)
      else Done(db[t := Table(db[t].columns, db[t].rows[id := cells])])
    case Update(t, c, newValue) =>
      if t !in db || c !in db[t].columns then Failed(DoesNotExist)
      else Done(db[t := Table(db[t].columns, SetEverywhere(db[t].rows, c, newValue))])
    case Delete(t, ids) =>
      if t !in db then Failed(DoesNotExist)
      else Done(db[t := Table(db[t].columns, db[t].rows - ids)])
    case Truncate(t) =>
      if t !in db then Failed(DoesNotExist) else Done(db[t := Table(db[t].columns, map[])])
    case Neutral(_) => Done(db)
  }

  /** Asked of the live database before each catch-up statement: would it destroy
      data that is there now? UPDATE, DELETE and TRUNCATE always count. */
  predicate WouldDestroyData(db: Database, s: Statement) {
    match s
    case Update(_, _, _) => true
    case Delete(_, _) => true
    case Truncate(_) => true
    case DropColumn(t, c) =>
      t in db && c in db[t].columns && exists id :: id in db[t].rows && c in db[t].rows[id]
    case DropTable(t, _) => t in db && db[t].rows != map[]
    case _ => false
  }

  /** May this error be read as "the statement's effect is already in place"?
      Strict for a file applied the first time, lenient for the catch-up pass. */
  predicate AlreadyApplied(s: Statement, e: DbError, lenient: bool) {
    var isDrop := s.DropColumn? || s.DropTable? || s == Neutral(OtherDrop);
    var isAdd := s.CreateTable? || s.AddColumn? || s == Neutral(AddConstraint) || s == Neutral(OtherAdd);
    if s == Neutral(AddConstraint) && e == ForeignKeyViolation then true
    else if lenient then e != ForeignKeyViolation && e != OtherError
    else
      || (isDrop && e == DoesNotExist)
      || (isAdd && (e == AlreadyExists || e == DuplicateColumn || e == MultiplePrimaryKeys))
      || (s.Insert? && e == DuplicateKey)
  }

  /** Where a table called `t` before `s` is found after `s` succeeded. */
  function Moved(s: Statement, t: string): string {
    if s.Rename? && s.table == t then s.target else t
  }

  /** A statement the guard lets through keeps every non-NULL cell, under the
      table's new name if the statement renamed it. */
  lemma UnguardedKeepsCell(db: Database, s: Statement, t: string, id: nat, c: string)
    requires !WouldDestroyData(db, s)
    requires Cell(db, t, id, c).Some?
    ensures var e := Execute(db, MakeIdempotent(s));
            e.Done? ==> Cell(e.db, Moved(s, t), id, c) == Cell(db, t, id, c)
  {
    assert id in db[t].rows && db[t].rows != map[];
  }
}
