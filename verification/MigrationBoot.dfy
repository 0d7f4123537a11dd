/** The body of the migration script as it runs: one object holding the database and the
    ledger, one method per database operation, and `Boot`, which makes the whole pass.
    The ghost `actions` records which steps of `Migrations.Step` the object has taken, so
    everything proved there about runs holds of every object built this way. */
module MigrationBoot {
  import opened Options
  import opened Database
  import opened Migrations

  class Runner {
    const files: seq<File>
    var db: Database
    var ledger: Option<Ledger>
    var resurrected: map<string, string>
    ghost var pc: Pc
    ghost var log: seq<Event>
    ghost var start: State
    ghost var actions: seq<Action>

    constructor (files: seq<File>, db: Database, ledger: Option<Ledger>)
      requires DistinctNames(files) && AppliedPrefix(files, ledger)
      ensures Valid() && pc == Idle(NotStarted) && actions == []
      ensures this.files == files && start == State(db, ledger, Idle(NotStarted), map[], [])
    {
      this.files, this.db, this.ledger, this.resurrected := files, db, ledger, map[];
      pc, log, actions := Idle(NotStarted), [], [];
      start := State(db, ledger, Idle(NotStarted), map[], []);
    }

    ghost function Now(): State
      reads this
    {
      State(db, ledger, pc, resurrected, log)
    }

    /** The object's state is the one its steps lead to. */
    ghost predicate Valid()
      reads this
    {
      DistinctNames(files) && Ordered(files, start) && Now() == Run(files, start, actions) && Ordered(files, Now())
    }

    /** Records a step just taken on the real fields. */
    ghost method Took(a: Action, before: State)
      requires DistinctNames(files) && Ordered(files, start) && before == Run(files, start, actions)
      requires Now() == Step(files, before, a)
      modifies this`actions
      ensures Valid() && actions == old(actions) + [a]
    {
      RunSnoc(files, start, actions, a);
      actions := actions + [a];
      RunsKeepOrder(files, start, actions);
    }

    method Die()
      requires Valid()
      modifies this
      ensures Valid() && pc == Idle(Crashed) && start == old(start) && actions == old(actions) + [Crash]
    {
      ghost var before := Now();
      pc, resurrected := Idle(Crashed), map[];
      Took(Crash, before);
    }

    method OpenLedger() returns (legacy: bool)
      requires Valid() && pc.Idle?
      modifies this
      ensures Valid() && start == old(start) && actions == old(actions) + [Open]
      ensures ledger.Some? && resurrected == map[] && pc == if legacy then Reserving(0) else Scanning(0)
      ensures legacy <==> old(ledger).None? && SCHEMA_SENTINEL_TABLE in db
    {
      ghost var before := Now();
      var ledgerExisted, schemaExisted := ledger.Some?, SCHEMA_SENTINEL_TABLE in db;
      legacy := !ledgerExisted && schemaExisted;
      if !ledgerExisted {
        ledger := Some(map[]);
      }
      resurrected := map[];
      pc := if legacy then Reserving(0) else Scanning(0);
      Took(Open, before);
    }

    method ReserveFile(k: nat)
      requires Valid() && pc == Reserving(k) && k <= |files| && ledger.Some?
      modifies this
      ensures Valid() && start == old(start) && actions == old(actions) + [Reserve] && ledger.Some?
      ensures resurrected == old(resurrected) && pc == if k < |files| then Reserving(k + 1) else Scanning(0)
    {
      ghost var before := Now();
      if k < |files| {
        ledger := Some(ReserveRow(ledger.value, files[k].name));
        pc := Reserving(k + 1);
      } else {
        pc := Scanning(0);
      }
      Took(Reserve, before);
    }

    /** Sends one statement to the database; an error may mean there is nothing left to do. */
    method Try(raw: Statement, catchUp: bool, fault: Option<DbError>) returns (done: bool, ok: bool)
      modifies this`db, this`resurrected
      ensures var effect := Attempt(old(db), raw, fault);
              && done == effect.Done? && db == (if done then effect.db else old(db))
              && ok == (done || AlreadyApplied(MakeIdempotent(raw), effect.error, catchUp))
              && resurrected == if !done && ok && catchUp then NoteResurrected(old(resurrected), raw, effect.error) else old(resurrected)
    {
      var stmt := MakeIdempotent(raw);
      var effect := if fault.Some? then Failed(fault.value) else Execute(db, stmt);
      done, ok := effect.Done?, true;
      if effect.Done? {
        db := effect.db;
      } else if AlreadyApplied(stmt, effect.error, catchUp) {
        if catchUp {
          resurrected := NoteResurrected(resurrected, raw, effect.error);
        }
      } else {
        ok := false;
      }
    }

    /** One statement of the file being applied: withheld, executed, tolerated or fatal. */
    method PerformNext(file: nat, next: nat, catchUp: bool, skipped: seq<Statement>, fault: Option<DbError>)
      returns (ok: bool, withheld: bool)
      requires Valid() && pc == Applying(file, next, catchUp, skipped)
      requires file < |files| && next < |files[file].statements|
      modifies this
      ensures Valid() && start == old(start) && actions == old(actions) + [Perform(fault)] && ledger == old(ledger)
      ensures withheld <==> catchUp && WouldDestroyData(old(db), files[file].statements[next])
      ensures withheld ==> ok && db == old(db)
      ensures var raw := files[file].statements[next];
              !withheld && !catchUp && fault.None? && Attempt(old(db), raw, None).Failed? ==> db == old(db) && (ok <==> InPlace(old(db), raw))
      ensures pc == if ok then Applying(file, next + 1, catchUp,
                                        if withheld then skipped + [files[file].statements[next]] else skipped)
                    else Idle(StatementFailed)
    {
      var raw := files[file].statements[next];
      withheld := catchUp && WouldDestroyData(db, raw);
      if withheld {
        ok := true;
        ghost var before := Now();
        log := log + [Withheld(file, next, raw)];
        pc := Applying(file, next + 1, catchUp, skipped + [raw]);
        Took(Perform(fault), before);
      } else {
        if Attempt(db, raw, None).Failed? { InPlaceMeans(db, raw); }
        ok := CarryOut(file, next, catchUp, skipped, fault);
      }
    }

    /** A statement that is not withheld. */
    method CarryOut(file: nat, next: nat, catchUp: bool, skipped: seq<Statement>, fault: Option<DbError>) returns (ok: bool)
      requires Valid() && pc == Applying(file, next, catchUp, skipped)
      requires file < |files| && next < |files[file].statements|
      requires !(catchUp && WouldDestroyData(db, files[file].statements[next]))
      modifies this
      ensures Valid() && start == old(start) && actions == old(actions) + [Perform(fault)] && ledger == old(ledger)
      ensures var effect := Attempt(old(db), files[file].statements[next], fault);
              && db == (if effect.Done? then effect.db else old(db))
              && ok == (effect.Done? || AlreadyApplied(MakeIdempotent(files[file].statements[next]), effect.error, catchUp))
      ensures pc == if ok then Applying(file, next + 1, catchUp, skipped) else Idle(StatementFailed)
    {
      ghost var before := Now();
      var raw := files[file].statements[next];
      var done;
      done, ok := Try(raw, catchUp, fault);
      log := log + [Executed(file, next, raw, done)];
      pc := if ok then Applying(file, next + 1, catchUp, skipped) else Idle(StatementFailed);
      Took(Perform(fault), before);
    }

    method RecordFile(file: nat, catchUp: bool, skipped: seq<Statement>)
      requires Valid() && file < |files| && pc == Applying(file, |files[file].statements|, catchUp, skipped)
      requires ledger.Some?
      modifies this
      ensures Valid() && start == old(start) && actions == old(actions) + [Record] && pc == Scanning(file + 1)
      ensures ledger == Some(RecordRow(old(ledger).value, files[file], catchUp, skipped))
    {
      ghost var before := Now();
      ledger := Some(RecordRow(ledger.value, files[file], catchUp, skipped));
      pc := Scanning(file + 1);
      Took(Record, before);
    }

    /** Looks at one file: already applied, edited since, or to be applied now. */
    method VisitFile(i: nat, table: Ledger) returns (done: bool, refused: bool)
      requires Valid() && pc == Scanning(i) && i < |files| && ledger.Some?
      requires (files[i].name in table <==> files[i].name in ledger.value)
      requires files[i].name in table ==> table[files[i].name] == ledger.value[files[i].name]
      modifies this`pc, this`actions
      ensures Valid() && actions == old(actions) + [Visit]
      ensures pc == if refused then Idle(Refused) else if done then Scanning(i + 1)
                    else Applying(i, 0, files[i].name in table, [])
      ensures done <==> IsApplied(Some(table), files[i].name) && table[files[i].name].checksum == Some(files[i].statements)
    {
      ghost var before := Now();
      var f := files[i];
      var applied := f.name in table && table[f.name].applied;
      refused := applied && table[f.name].checksum != Some(f.statements);
      done := applied && !refused;
      pc := if refused then Idle(Refused) else if done then Scanning(i + 1) else Applying(i, 0, f.name in table, []);
      Took(Visit, before);
    }

    /** Applies one file; `life` is how many more steps the process survives, `faults` what the
        database answers instead of executing. */
    method ApplyFile(file: nat, catchUp: bool, life: nat, faults: nat -> Option<DbError>) returns (left: nat, stop: Option<End>)
      requires Valid() && file < |files| && pc == Applying(file, 0, catchUp, []) && ledger.Some?
      modifies this
      ensures Valid() && start == old(start) && old(actions) <= actions && ledger.Some?
      ensures pc == if stop.Some? then Idle(stop.value) else Scanning(file + 1)
      ensures stop.Some? ==> stop.value == StatementFailed || stop.value == Crashed
      ensures stop == Some(Crashed) ==> |actions| == |old(actions)| + life + 1
      ensures stop != Some(Crashed) ==> |actions| + left == |old(actions)| + life
      ensures stop.None? ==> exists skipped :: ledger == Some(RecordRow(old(ledger).value, files[file], catchUp, skipped))
    {
      left, stop := life, None;
      var next, skipped := 0, [];
      while next < |files[file].statements|
        invariant 0 <= next <= |files[file].statements|
        invariant Valid() && start == old(start) && old(actions) <= actions && ledger == old(ledger)
        invariant pc == Applying(file, next, catchUp, skipped)
        invariant |actions| + left == |old(actions)| + life
      {
        if left == 0 {
          Die();
          return left, Some(Crashed);
        }
        left := left - 1;
        var raw := files[file].statements[next];
        var ok, withheld := PerformNext(file, next, catchUp, skipped, faults(left));
        if !ok {
          return left, Some(StatementFailed);
        }
        if withheld {
          skipped := skipped + [raw];
        }
        next := next + 1;
      }
      if left == 0 {
        Die();
        return left, Some(Crashed);
      }
      left := left - 1;
      RecordFile(file, catchUp, skipped);
    }

    /** Drops the empty tables the catch-up replay brought back under their old names. */
    method CleanUp(life: nat, refusals: nat -> bool) returns (left: nat, crashed: bool)
      requires Valid() && pc == Scanning(|files|)
      modifies this
      ensures Valid() && start == old(start) && old(actions) <= actions
      ensures pc == if crashed then Idle(Crashed) else Scanning(|files|)
      ensures crashed ==> |actions| == |old(actions)| + life + 1
      ensures !crashed ==> resurrected == map[] && |actions| + left == |old(actions)| + life
    {
      left, crashed := life, false;
      while resurrected != map[]
        invariant Valid() && start == old(start) && old(actions) <= actions && pc == Scanning(|files|)
        invariant |actions| + left == |old(actions)| + life
        decreases resurrected.Keys
      {
        if left == 0 {
          Die();
          return left, true;
        }
        left := left - 1;
        var source :| source in resurrected;
        var target := resurrected[source];
        ghost var before := Now();
        if source in db && target in db && db[source].rows == map[] && !refusals(left) {
          db := db - {source};
        }
        resurrected := resurrected - {source};
        Took(Clean(source, refusals(left)), before);
      }
    }

    /** The reservation loop of the boot that finds a schema and no ledger. */
    method ReserveAll(life: nat) returns (left: nat, crashed: bool)
      requires Valid() && pc == Reserving(0) && ledger.Some?
      modifies this
      ensures Valid() && start == old(start) && old(actions) <= actions
      ensures pc == if crashed then Idle(Crashed) else Scanning(0)
      ensures crashed ==> |actions| == |old(actions)| + life + 1
      ensures !crashed ==> ledger.Some? && |actions| + left == |old(actions)| + life
    {
      left, crashed := life, false;
      var k := 0;
      while k <= |files|
        invariant 0 <= k <= |files| + 1 && Valid() && start == old(start) && old(actions) <= actions && ledger.Some?
        invariant pc == if k <= |files| then Reserving(k) else Scanning(0)
        invariant |actions| + left == |old(actions)| + life
      {
        if left == 0 {
          Die();
          return left, true;
        }
        left := left - 1;
        ReserveFile(k);
        k := k + 1;
      }
    }

    /** The loop over the files, against a copy of the ledger read once. */
    method ApplyAll(life: nat, faults: nat -> Option<DbError>) returns (left: nat, stop: Option<End>)
      requires Valid() && pc == Scanning(0) && ledger.Some?
      modifies this
      ensures Valid() && start == old(start) && old(actions) <= actions
      ensures pc == if stop.Some? then Idle(stop.value) else Scanning(|files|)
      ensures stop.Some? ==> stop.value in {Refused, StatementFailed, Crashed}
      ensures stop == Some(Crashed) ==> |actions| == |old(actions)| + life + 1
      ensures stop != Some(Crashed) ==> |actions| + left == |old(actions)| + life
    {
      left, stop := life, None;
      var table := ledger.value;
      var i := 0;
      while i < |files|
        invariant 0 <= i <= |files| && Valid() && start == old(start) && old(actions) <= actions
        invariant pc == Scanning(i) && ledger.Some? && stop.None?
        invariant |actions| + left == |old(actions)| + life
        invariant forall k :: i <= k < |files| ==>
                    && (files[k].name in table <==> files[k].name in ledger.value)
                    && (files[k].name in table ==> table[files[k].name] == ledger.value[files[k].name])
      {
        if left == 0 {
          Die();
          return left, Some(Crashed);
        }
        left := left - 1;
        var done, refused := VisitFile(i, table);
        if refused {
          return left, Some(Refused);
        }
        if !done {
          left, stop := ApplyFile(i, files[i].name in table, left, faults);
          if stop.Some? {
            return;
          }
        }
        i := i + 1;
      }
    }

    /** The end of a boot that got through everything. */
    method Complete(life: nat) returns (end: End)
      requires Valid() && pc == Scanning(|files|) && resurrected == map[]
      modifies this
      ensures Valid() && pc == Idle(end) && start == old(start) && old(actions) < actions
      ensures end == if life == 0 then Crashed else Completed
      ensures |actions| == |old(actions)| + 1
      ensures AppliedBelow(files, ledger, |files|)
    {
      if life == 0 {
        Die();
        return Crashed;
      }
      ghost var before := Now();
      pc := Idle(Completed);
      Took(Finish, before);
      return Completed;
    }

    /** Everything after the ledger is open. */
    method Migrate(life: nat, legacy: bool, faults: nat -> Option<DbError>, refusals: nat -> bool) returns (end: End)
      requires Valid() && ledger.Some? && pc == if legacy then Reserving(0) else Scanning(0)
      modifies this
      ensures Valid() && pc == Idle(end) && end != NotStarted && start == old(start) && old(actions) <= actions
      ensures end == Crashed ==> |actions| == |old(actions)| + life + 1
      ensures end != Crashed ==> |actions| <= |old(actions)| + life
      ensures end == Completed ==> AppliedBelow(files, ledger, |files|)
    {
      var left, crashed := life, false;
      if legacy {
        left, crashed := ReserveAll(left);
        if crashed {
          return Crashed;
        }
      }
      var stop;
      left, stop := ApplyAll(left, faults);
      if stop.Some? {
        return stop.value;
      }
      left, crashed := CleanUp(left, refusals);
      if crashed {
        return Crashed;
      }
      end := Complete(left);
    }

    /** One boot. It crashes only when its `life` runs out before it can finish. */
    method Boot(life: nat, faults: nat -> Option<DbError>, refusals: nat -> bool) returns (end: End)
      requires Valid() && pc.Idle?
      modifies this
      ensures Valid() && pc == Idle(end) && end != NotStarted && start == old(start) && old(actions) < actions
      ensures end == Crashed ==> |actions| == |old(actions)| + life + 1
      ensures end != Crashed ==> |actions| <= |old(actions)| + life
      ensures end == Completed ==> AppliedBelow(files, ledger, |files|)
    {
      if life == 0 {
        Die();
        return Crashed;
      }
      var legacy := OpenLedger();
      end := Migrate(life - 1, legacy, faults, refusals);
    }
  }
}
