/** The append-only run ledger and the per-item attempt budget read from it. */
module Ledger {
  import opened Options
  import opened Sequences

  datatype Outcome =
    | Dispatched | Success | Failed | Blocked | Timeout | Shadow | Rejected | Quota | Unverified

  datatype RunRecord = RunRecord(ts: int, lane: string, itemId: string, engine: string,
                                 outcome: Outcome, quotaResetAt: Option<int>)

  predicate TerminalFailure(o: Outcome) {
    o == Failed || o == Timeout || o == Blocked || o == Rejected
  }

  // ---- The sort every reader of the ledger uses: stable, newest first ----

  function InsertByTime(sorted: seq<RunRecord>, r: RunRecord): seq<RunRecord> {
    if sorted == [] then [r]
    else if sorted[0].ts >= r.ts then [sorted[0]] + InsertByTime(sorted[1..], r)
    else [r] + sorted
  }

  function NewestFirst(rows: seq<RunRecord>): seq<RunRecord> {
    if rows == [] then []
    else InsertByTime(NewestFirst(rows[..|rows| - 1]), rows[|rows| - 1])
  }

  lemma NewestFirstSnoc(rows: seq<RunRecord>, r: RunRecord)
    ensures NewestFirst(rows + [r]) == InsertByTime(NewestFirst(rows), r)
  {
    assert (rows + [r])[..|rows|] == rows;
  }

  ghost predicate Descending(rows: seq<RunRecord>) {
    forall i, j :: 0 <= i < j < |rows| ==> rows[i].ts >= rows[j].ts
  }

  /** The rows stamped `t`, in order. */
  function AtTime(rows: seq<RunRecord>, t: int): seq<RunRecord> {
    if rows == [] then []
    else (if rows[0].ts == t then [rows[0]] else []) + AtTime(rows[1..], t)
  }

  lemma {:induction false} AtTimeConcat(a: seq<RunRecord>, b: seq<RunRecord>, t: int)
    ensures AtTime(a + b, t) == AtTime(a, t) + AtTime(b, t)
  {
    if a == [] {
      assert a + b == b;
    } else {
      assert (a + b)[1..] == a[1..] + b;
      AtTimeConcat(a[1..], b, t);
      Associative(if a[0].ts == t then [a[0]] else [], AtTime(a[1..], t), AtTime(b, t));
    }
  }

  lemma AtTimeSnoc(rows: seq<RunRecord>, r: RunRecord, t: int)
    ensures AtTime(rows + [r], t) == AtTime(rows, t) + if r.ts == t then [r] else []
  {
    var one := [r];
    assert one[1..] == [];
    AtTimeConcat(rows, one, t);
  }

  lemma {:induction false} NoneAtTime(rows: seq<RunRecord>, t: int)
    requires forall i :: 0 <= i < |rows| ==> rows[i].ts < t
    ensures AtTime(rows, t) == []
  {
    if rows != [] { NoneAtTime(rows[1..], t); }
  }

  lemma {:induction false} InsertAddsOne(sorted: seq<RunRecord>, r: RunRecord)
    ensures multiset(InsertByTime(sorted, r)) == multiset(sorted) + multiset{r}
  {
    if sorted != [] && sorted[0].ts >= r.ts {
      InsertAddsOne(sorted[1..], r);
      assert sorted == [sorted[0]] + sorted[1..];
    }
  }

  lemma {:induction false} InsertKeepsDescending(sorted: seq<RunRecord>, r: RunRecord)
    requires Descending(sorted)
    ensures Descending(InsertByTime(sorted, r))
  {
    if sorted != [] && sorted[0].ts >= r.ts {
      InsertKeepsDescending(sorted[1..], r);
      InsertAddsOne(sorted[1..], r);
      var rest := InsertByTime(sorted[1..], r);
      forall i | 0 <= i < |rest| ensures rest[i].ts <= sorted[0].ts {
        assert rest[i] in multiset(rest);
        assert rest[i] in sorted[1..] || rest[i] == r;
      }
    }
  }

  lemma {:induction false} InsertKeepsTies(sorted: seq<RunRecord>, r: RunRecord, t: int)
    requires Descending(sorted)
    ensures AtTime(InsertByTime(sorted, r), t) == AtTime(sorted, t) + (if r.ts == t then [r] else [])
  {
    if sorted == [] {
    } else if sorted[0].ts >= r.ts {
      InsertKeepsTies(sorted[1..], r, t);
      assert InsertByTime(sorted, r)[1..] == InsertByTime(sorted[1..], r);
      Associative(if sorted[0].ts == t then [sorted[0]] else [], AtTime(sorted[1..], t), if r.ts == t then [r] else []);
    } else {
      assert InsertByTime(sorted, r)[1..] == sorted;
      if r.ts == t { NoneAtTime(sorted, t); }
    }
  }

  /** The sort is a permutation, newest first, and keeps rows of equal time in ledger order. */
  lemma {:induction false} NewestFirstIsStableSort(rows: seq<RunRecord>, t: int)
    ensures Descending(NewestFirst(rows)) && multiset(NewestFirst(rows)) == multiset(rows)
    ensures AtTime(NewestFirst(rows), t) == AtTime(rows, t)
  {
    if rows != [] {
      var init, last := rows[..|rows| - 1], rows[|rows| - 1];
      NewestFirstIsStableSort(init, t);
      InsertAddsOne(NewestFirst(init), last);
      InsertKeepsDescending(NewestFirst(init), last);
      InsertKeepsTies(NewestFirst(init), last, t);
      assert rows == init + [last];
      AtTimeSnoc(init, last, t);
    }
  }

  // ---- The attempt budget ----

  function RowsOf(rows: seq<RunRecord>, itemId: string): seq<RunRecord> {
    if rows == [] then []
    else
      var last := rows[|rows| - 1];
      RowsOf(rows[..|rows| - 1], itemId) + if last.itemId == itemId then [last] else []
  }

  /** Failures before the first SUCCESS. */
  function FailuresBeforeSuccess(sorted: seq<RunRecord>): nat {
    if sorted == [] || sorted[0].outcome == Success then 0
    else (if TerminalFailure(sorted[0].outcome) then 1 else 0) + FailuresBeforeSuccess(sorted[1..])
  }

  function FailedAttempts(rows: seq<RunRecord>, itemId: string): nat {
    FailuresBeforeSuccess(NewestFirst(RowsOf(rows, itemId)))
  }

  method FailedAttemptsIn(rows: seq<RunRecord>, itemId: string) returns (n: nat)
    ensures n == FailedAttempts(rows, itemId)
  {
    var mine := NewestFirst(RowsOf(rows, itemId));
    n := 0;
    var i := 0;
    while i < |mine|
      invariant 0 <= i <= |mine|
      invariant n + FailuresBeforeSuccess(mine[i..]) == FailuresBeforeSuccess(mine)
    {
      assert mine[i..][1..] == mine[i + 1..];
      if mine[i].outcome == Success {
        break;
      }
      if TerminalFailure(mine[i].outcome) {
        n := n + 1;
      }
      i := i + 1;
    }
  }

  lemma {:induction false} InsertChangesCountByOne(sorted: seq<RunRecord>, r: RunRecord)
    ensures var before, after := FailuresBeforeSuccess(sorted), FailuresBeforeSuccess(InsertByTime(sorted, r));
            if r.outcome == Success then after <= before
            else if TerminalFailure(r.outcome) then before <= after <= before + 1
            else after == before
  {
    if sorted != [] && sorted[0].ts >= r.ts {
      InsertChangesCountByOne(sorted[1..], r);
      assert InsertByTime(sorted, r)[1..] == InsertByTime(sorted[1..], r);
    } else {
      assert InsertByTime(sorted, r)[1..] == sorted;
    }
  }

  /** Whatever its clock reading, one appended row moves an item's count by at most one, and
      QUOTA, UNVERIFIED, SHADOW and DISPATCHED rows never move it at all. */
  lemma AppendChangesCountByOne(rows: seq<RunRecord>, r: RunRecord, itemId: string)
    ensures var before, after := FailedAttempts(rows, itemId), FailedAttempts(rows + [r], itemId);
            if r.itemId != itemId then after == before
            else if r.outcome == Success then after <= before
            else if TerminalFailure(r.outcome) then before <= after <= before + 1
            else after == before
  {
    assert (rows + [r])[..|rows|] == rows;
    assert RowsOf(rows + [r], itemId) == RowsOf(rows, itemId) + if r.itemId == itemId then [r] else [];
    if r.itemId != itemId {
      assert RowsOf(rows, itemId) + [] == RowsOf(rows, itemId);
    } else {
      NewestFirstSnoc(RowsOf(rows, itemId), r);
      InsertChangesCountByOne(NewestFirst(RowsOf(rows, itemId)), r);
    }
  }

  lemma {:induction false} RowsOfAre(rows: seq<RunRecord>, itemId: string, r: RunRecord)
    ensures r in RowsOf(rows, itemId) <==> r in rows && r.itemId == itemId
  {
    if rows != [] {
      RowsOfAre(rows[..|rows| - 1], itemId, r);
      assert rows == rows[..|rows| - 1] + [rows[|rows| - 1]];
    }
  }

  lemma NewestLeads(relevant: seq<RunRecord>, r: RunRecord)
    requires forall x :: x in relevant ==> x.ts < r.ts
    ensures NewestFirst(relevant + [r]) == [r] + NewestFirst(relevant)
  {
    NewestFirstSnoc(relevant, r);
    NewestFirstIsStableSort(relevant, 0);
    var sorted := NewestFirst(relevant);
    if sorted != [] { assert sorted[0] in multiset(sorted) && sorted[0] in relevant; }
  }

  lemma NewestLeadsItem(rows: seq<RunRecord>, r: RunRecord)
    requires forall x :: x in rows && x.itemId == r.itemId ==> x.ts < r.ts
    ensures NewestFirst(RowsOf(rows + [r], r.itemId)) == [r] + NewestFirst(RowsOf(rows, r.itemId))
  {
    var mine := RowsOf(rows, r.itemId);
    InitOfSnoc(rows, r);
    forall x | x in mine ensures x.ts < r.ts {
      RowsOfAre(rows, r.itemId, x);
    }
    NewestLeads(mine, r);
  }

  /** A row newer than every other of its item: a SUCCESS starts the count over, FAILED, TIMEOUT,
      BLOCKED and REJECTED each cost one attempt, and nothing else does. */
  lemma NewestRowMovesCount(rows: seq<RunRecord>, r: RunRecord)
    requires forall x :: x in rows && x.itemId == r.itemId ==> x.ts < r.ts
    ensures FailedAttempts([], r.itemId) == 0
    ensures var before, after := FailedAttempts(rows, r.itemId), FailedAttempts(rows + [r], r.itemId);
            match r.outcome
            case Success => after == 0
            case Failed => after == before + 1
            case Timeout => after == before + 1
            case Blocked => after == before + 1
            case Rejected => after == before + 1
            case _ => after == before
  {
    NewestLeadsItem(rows, r);
    LeadingRowMovesCount(NewestFirst(RowsOf(rows, r.itemId)), r);
  }

  lemma LeadingRowMovesCount(sorted: seq<RunRecord>, r: RunRecord)
    ensures FailuresBeforeSuccess([r] + sorted) ==
            if r.outcome == Success then 0
            else FailuresBeforeSuccess(sorted) + if r.outcome in {Failed, Timeout, Blocked, Rejected} then 1 else 0
  {
    assert ([r] + sorted)[1..] == sorted;
  }
}
