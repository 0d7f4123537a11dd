/** The breakers that stop the fleet, and the halt reasons they leave behind. */
module Circuit {
  import opened Options
  import opened Sequences
  import opened Ledger

  datatype Limits = Limits(maxDispatchesPerHour: nat, consecutiveFailuresToHalt: nat, quotaCooldownMs: nat)

  const HOUR := 3_600_000
  const QUOTA_DEFAULT_COOLDOWN_MS := 3_600_000

  // ---- Dispatch rate ----

  function DispatchedSince(rows: seq<RunRecord>, from: int): nat {
    if rows == [] then 0
    else
      var last := rows[|rows| - 1];
      DispatchedSince(rows[..|rows| - 1], from) + if last.outcome == Dispatched && from <= last.ts then 1 else 0
  }

  predicate RateTrips(rows: seq<RunRecord>, limits: Limits, now: int) {
    DispatchedSince(rows, now - HOUR) > limits.maxDispatchesPerHour
  }

  /** Where the DISPATCHED rows stamped `from` or later are. */
  ghost function DispatchedAt(rows: seq<RunRecord>, from: int): set<nat> {
    set i: nat | i < |rows| && rows[i].outcome == Dispatched && rows[i].ts >= from
  }

  lemma DispatchedAtSnoc(init: seq<RunRecord>, last: RunRecord, from: int)
    ensures DispatchedAt(init + [last], from) ==
            DispatchedAt(init, from) + if last.outcome == Dispatched && last.ts >= from then {|init|} else {}
  {
  }

  lemma {:induction false} DispatchedSinceCounts(rows: seq<RunRecord>, from: int)
    ensures DispatchedSince(rows, from) == |DispatchedAt(rows, from)|
  {
    if rows != [] {
      var init, last := rows[..|rows| - 1], rows[|rows| - 1];
      DispatchedSinceCounts(init, from);
      DispatchedAtSnoc(init, last, from);
      assert rows == init + [last];
    }
  }

  /** The rate breaker trips exactly when more than the limit of DISPATCHED rows are at most an hour
      old. */
  lemma RateTripsMeans(rows: seq<RunRecord>, limits: Limits, now: int)
    ensures RateTrips(rows, limits, now) <==> |DispatchedAt(rows, now - 3_600_000)| > limits.maxDispatchesPerHour
  {
    DispatchedSinceCounts(rows, now - HOUR);
  }

  // ---- Consecutive failures ----

  predicate StreakFailure(o: Outcome) {
    o == Failed || o == Timeout
  }

  /** The rows the streak is computed from: after the last resume, FAILED, TIMEOUT or SUCCESS. */
  function StreakRows(rows: seq<RunRecord>, resumedAt: int): seq<RunRecord> {
    if rows == [] then []
    else
      var last := rows[|rows| - 1];
      StreakRows(rows[..|rows| - 1], resumedAt) +
      if last.ts > resumedAt && (StreakFailure(last.outcome) || last.outcome == Success) then [last] else []
  }

  function LeadingFailures(sorted: seq<RunRecord>): nat {
    if sorted == [] || sorted[0].outcome == Success then 0 else 1 + LeadingFailures(sorted[1..])
  }

  function Streak(rows: seq<RunRecord>, resumedAt: int): nat {
    LeadingFailures(NewestFirst(StreakRows(rows, resumedAt)))
  }

  method FailureBreaker(rows: seq<RunRecord>, limits: Limits, resumedAt: int) returns (trips: bool)
    ensures trips <==> Streak(rows, resumedAt) >= limits.consecutiveFailuresToHalt
  {
    var considered := NewestFirst(StreakRows(rows, resumedAt));
    var streak, i := 0, 0;
    while i < |considered|
      invariant 0 <= i <= |considered|
      invariant streak + LeadingFailures(considered[i..]) == LeadingFailures(considered)
    {
      assert considered[i..][1..] == considered[i + 1..];
      if considered[i].outcome == Success {
        break;
      }
      streak := streak + 1;
      i := i + 1;
    }
    trips := streak >= limits.consecutiveFailuresToHalt;
  }

  /** The counter one would keep while appending: +1 on FAILED or TIMEOUT, back to 0 on SUCCESS. */
  function RunningStreak(rows: seq<RunRecord>, resumedAt: int): nat {
    if rows == [] then 0
    else
      var last, before := rows[|rows| - 1], RunningStreak(rows[..|rows| - 1], resumedAt);
      if last.ts <= resumedAt then before
      else if StreakFailure(last.outcome) then before + 1
      else if last.outcome == Success then 0
      else before
  }

  /** How many rows follow the last SUCCESS. */
  function TrailingFailures(rows: seq<RunRecord>): nat {
    if rows == [] || rows[|rows| - 1].outcome == Success then 0 else 1 + TrailingFailures(rows[..|rows| - 1])
  }

  lemma {:induction false} RunningStreakIsTrailing(rows: seq<RunRecord>, resumedAt: int)
    ensures RunningStreak(rows, resumedAt) == TrailingFailures(StreakRows(rows, resumedAt))
  {
    if rows != [] {
      var before := StreakRows(rows[..|rows| - 1], resumedAt);
      RunningStreakIsTrailing(rows[..|rows| - 1], resumedAt);
      InitOfSnoc(before, rows[|rows| - 1]);
      assert before + [] == before;
    }
  }

  function NewerThan(rows: seq<RunRecord>, t: int): nat {
    if rows == [] then 0 else (if rows[0].ts > t then 1 else 0) + NewerThan(rows[1..], t)
  }

  lemma {:induction false} InsertCountsOneMore(sorted: seq<RunRecord>, r: RunRecord, t: int)
    ensures NewerThan(InsertByTime(sorted, r), t) == NewerThan(sorted, t) + if r.ts > t then 1 else 0
  {
    if sorted != [] && sorted[0].ts >= r.ts {
      InsertCountsOneMore(sorted[1..], r, t);
      assert InsertByTime(sorted, r)[1..] == InsertByTime(sorted[1..], r);
    } else {
      assert InsertByTime(sorted, r)[1..] == sorted;
    }
  }

  lemma {:induction false} SnocCountsOneMore(rows: seq<RunRecord>, r: RunRecord, t: int)
    ensures NewerThan(rows + [r], t) == NewerThan(rows, t) + if r.ts > t then 1 else 0
  {
    if rows == [] {
      assert [r][1..] == [] && rows + [r] == [r];
    } else {
      assert (rows + [r])[1..] == rows[1..] + [r];
      SnocCountsOneMore(rows[1..], r, t);
    }
  }

  lemma {:induction false} SortKeepsNewer(rows: seq<RunRecord>, t: int)
    ensures NewerThan(NewestFirst(rows), t) == NewerThan(rows, t)
  {
    if rows != [] {
      var init, last := rows[..|rows| - 1], rows[|rows| - 1];
      SortKeepsNewer(init, t);
      InsertCountsOneMore(NewestFirst(init), last, t);
      SnocCountsOneMore(init, last, t);
      assert rows == init + [last];
    }
  }

  /** `t` is the time of the newest SUCCESS. */
  ghost predicate NewestSuccessAt(rows: seq<RunRecord>, t: int) {
    && (exists r :: r in rows && r.outcome == Success && r.ts == t)
    && (forall r :: r in rows && r.outcome == Success ==> r.ts <= t)
  }

  lemma OtherRowDecides(a: seq<RunRecord>, b: seq<RunRecord>, t: int)
    requires NewestSuccessAt(a + b, t) && forall r :: r in a ==> r.outcome != Success
    ensures NewestSuccessAt(b, t)
  {
    var s :| s in a + b && s.outcome == Success && s.ts == t;
    assert s in b;
    assert forall r :: r in b ==> r in a + b;
  }

  lemma LaterRowDecides(a: seq<RunRecord>, b: seq<RunRecord>, t: int)
    requires NewestSuccessAt(a + b, t) && forall r :: r in b ==> r.outcome != Success
    ensures NewestSuccessAt(a, t)
  {
    var s :| s in a + b && s.outcome == Success && s.ts == t;
    assert s in a;
    assert forall r :: r in a ==> r in a + b;
  }

  /** The claim for a whole list from the claim for its tail. */
  lemma OneMoreFailure(first: RunRecord, rest: seq<RunRecord>, t: int)
    requires first.outcome != Success && first.ts >= t
    requires first.ts == t ==> NewerThan(rest, t) == 0
    requires LeadingFailures(rest) == NewerThan(rest, t) + LeadingFailures(AtTime(rest, t))
    ensures LeadingFailures([first] + rest) == NewerThan([first] + rest, t) + LeadingFailures(AtTime([first] + rest, t))
  {
    assert ([first] + rest)[1..] == rest;
    var tied := AtTime(rest, t);
    assert ([first] + tied)[1..] == tied && [] + tied == tied;
  }

  lemma {:induction false} SortedStreak(sorted: seq<RunRecord>, t: int)
    requires Descending(sorted) && NewestSuccessAt(sorted, t)
    ensures LeadingFailures(sorted) == NewerThan(sorted, t) + LeadingFailures(AtTime(sorted, t))
  {
    FirstIsNewest(sorted, t);
    var first, rest := sorted[0], sorted[1..];
    assert sorted == [first] + rest;
    if first.ts == t { NoneNewer(rest, t); }
    if first.outcome != Success {
      TailDecides(sorted, t);
      SortedStreak(rest, t);
      OneMoreFailure(first, rest, t);
    }
  }

  lemma TailDecides(sorted: seq<RunRecord>, t: int)
    requires Descending(sorted) && NewestSuccessAt(sorted, t) && sorted != [] && sorted[0].outcome != Success
    ensures Descending(sorted[1..]) && NewestSuccessAt(sorted[1..], t)
  {
    assert sorted == [sorted[0]] + sorted[1..];
    OtherRowDecides([sorted[0]], sorted[1..], t);
    TailStaysDescending(sorted);
  }

  lemma TailStaysDescending(sorted: seq<RunRecord>)
    requires Descending(sorted) && sorted != []
    ensures Descending(sorted[1..])
  {
  }

  lemma FirstIsNewest(sorted: seq<RunRecord>, t: int)
    requires Descending(sorted) && NewestSuccessAt(sorted, t)
    ensures sorted != [] && sorted[0].ts >= t && (sorted[0].outcome == Success ==> sorted[0].ts == t)
    ensures forall r :: r in sorted[1..] ==> r.ts <= sorted[0].ts
  {
    var i :| 0 <= i < |sorted| && sorted[i].outcome == Success && sorted[i].ts == t;
    assert sorted[0].ts >= sorted[i].ts;
  }

  lemma {:induction false} NoneNewer(rows: seq<RunRecord>, t: int)
    requires forall r :: r in rows ==> r.ts <= t
    ensures NewerThan(rows, t) == 0
  {
    if rows != [] { NoneNewer(rows[1..], t); }
  }

  /** The breaker's streak: the rows newer than the newest SUCCESS, and those stamped like it that
      come before the first SUCCESS so stamped. */
  lemma StreakCounts(rows: seq<RunRecord>, t: int)
    requires NewestSuccessAt(rows, t)
    ensures LeadingFailures(NewestFirst(rows)) == NewerThan(rows, t) + LeadingFailures(AtTime(rows, t))
  {
    NewestFirstIsStableSort(rows, t);
    var sorted := NewestFirst(rows);
    assert forall r :: r in sorted <==> r in multiset(sorted);
    assert forall r :: r in rows <==> r in multiset(rows);
    SortedStreak(sorted, t);
    SortKeepsNewer(rows, t);
  }

  ghost predicate InOrder(rows: seq<RunRecord>) {
    forall i, j :: 0 <= i < j < |rows| ==> rows[i].ts <= rows[j].ts
  }

  /** The counter: the rows newer than the newest SUCCESS, and those stamped like it that come
      after the last SUCCESS so stamped. */
  lemma {:induction false} CounterCounts(rows: seq<RunRecord>, t: int)
    requires InOrder(rows) && NewestSuccessAt(rows, t)
    ensures TrailingFailures(rows) == NewerThan(rows, t) + TrailingFailures(AtTime(rows, t))
  {
    LastIsNewest(rows, t);
    var init, last := rows[..|rows| - 1], rows[|rows| - 1];
    assert rows == init + [last];
    if last.outcome == Success {
      NoneNewer(init, t);
      SnocCountsOneMore(init, last, t);
      AtTimeSnoc(init, last, t);
      InitOfSnoc(AtTime(init, t), last);
    } else {
      InitDecides(rows, t);
      CounterCounts(init, t);
      OneLaterFailure(init, last, t);
    }
  }

  lemma InitDecides(rows: seq<RunRecord>, t: int)
    requires NewestSuccessAt(rows, t) && rows != [] && rows[|rows| - 1].outcome != Success
    ensures NewestSuccessAt(rows[..|rows| - 1], t)
  {
    var init, last := rows[..|rows| - 1], rows[|rows| - 1];
    assert rows == init + [last];
    LaterRowDecides(init, [last], t);
  }

  lemma OneLaterFailure(init: seq<RunRecord>, last: RunRecord, t: int)
    requires last.outcome != Success && last.ts >= t
    requires TrailingFailures(init) == NewerThan(init, t) + TrailingFailures(AtTime(init, t))
    ensures TrailingFailures(init + [last]) == NewerThan(init + [last], t) + TrailingFailures(AtTime(init + [last], t))
  {
    SnocCountsOneMore(init, last, t);
    AtTimeSnoc(init, last, t);
    InitOfSnoc(init, last);
    InitOfSnoc(AtTime(init, t), last);
    assert AtTime(init, t) + [] == AtTime(init, t);
  }

  lemma LastIsNewest(rows: seq<RunRecord>, t: int)
    requires InOrder(rows) && NewestSuccessAt(rows, t)
    ensures rows != [] && InOrder(rows[..|rows| - 1]) && rows[|rows| - 1].ts >= t
    ensures rows[|rows| - 1].outcome == Success ==> rows[|rows| - 1].ts == t
    ensures forall r :: r in rows[..|rows| - 1] ==> r.ts <= rows[|rows| - 1].ts
  {
    var i :| 0 <= i < |rows| && rows[i].outcome == Success && rows[i].ts == t;
    assert rows[|rows| - 1].ts >= rows[i].ts;
    assert rows[|rows| - 1] in rows;
  }

  lemma {:induction false} NoSuccessCountsAll(rows: seq<RunRecord>)
    requires forall r :: r in rows ==> r.outcome != Success
    ensures LeadingFailures(rows) == TrailingFailures(rows) == |rows|
  {
    if rows != [] {
      NoSuccessLeads(rows);
      NoSuccessCountsAll(rows[..|rows| - 1]);
    }
  }

  lemma {:induction false} NoSuccessLeads(rows: seq<RunRecord>)
    requires forall r :: r in rows ==> r.outcome != Success
    ensures LeadingFailures(rows) == |rows|
  {
    if rows != [] { NoSuccessLeads(rows[1..]); }
  }

  lemma {:induction false} FindNewestSuccess(rows: seq<RunRecord>) returns (t: int)
    requires exists r :: r in rows && r.outcome == Success
    ensures NewestSuccessAt(rows, t)
  {
    var init, last := rows[..|rows| - 1], rows[|rows| - 1];
    assert rows == init + [last];
    if exists r :: r in init && r.outcome == Success {
      t := FindNewestSuccess(init);
      if last.outcome == Success && last.ts > t { t := last.ts; }
    } else {
      t := last.ts;
    }
  }

  /** On a ledger in time order, filtering, sorting and counting gives the counter one would keep
      while appending if and only if, among the rows stamped like the newest SUCCESS, as many come
      before the first SUCCESS as after the last one. Rows that do not bear on the streak are
      ignored. */
  lemma StreakIsRunningCounter(rows: seq<RunRecord>, resumedAt: int)
    requires InOrder(StreakRows(rows, resumedAt))
    ensures Streak(rows, resumedAt) == RunningStreak(rows, resumedAt) <==>
            forall t :: NewestSuccessAt(StreakRows(rows, resumedAt), t) ==>
              var tied := AtTime(StreakRows(rows, resumedAt), t); LeadingFailures(tied) == TrailingFailures(tied)
  {
    var relevant := StreakRows(rows, resumedAt);
    RunningStreakIsTrailing(rows, resumedAt);
    if exists r :: r in relevant && r.outcome == Success {
      var t := FindNewestSuccess(relevant);
      forall u | NewestSuccessAt(relevant, u) ensures u == t {
      }
      StreakCounts(relevant, t);
      CounterCounts(relevant, t);
    } else {
      var sorted := NewestFirst(relevant);
      NewestFirstIsStableSort(relevant, 0);
      assert forall r :: r in sorted <==> r in multiset(sorted);
      assert forall r :: r in relevant <==> r in multiset(relevant);
      assert |multiset(sorted)| == |sorted| && |multiset(relevant)| == |relevant|;
      NoSuccessCountsAll(sorted);
      NoSuccessCountsAll(relevant);
    }
  }

  lemma {:induction false} AtTimeAre(rows: seq<RunRecord>, t: int, r: RunRecord)
    ensures r in AtTime(rows, t) <==> r in rows && r.ts == t
  {
    if rows != [] { AtTimeAre(rows[1..], t, r); }
  }

  ghost predicate Ascending(rows: seq<RunRecord>) {
    forall j, k :: 0 <= j < k < |rows| ==> rows[j].ts < rows[k].ts
  }

  lemma {:induction false} OneAtATime(rows: seq<RunRecord>, i: nat)
    requires i < |rows| && Ascending(rows)
    ensures AtTime(rows, rows[i].ts) == [rows[i]]
  {
    var rest := rows[1..];
    if i == 0 {
      if AtTime(rest, rows[0].ts) != [] {
        var r := AtTime(rest, rows[0].ts)[0];
        AtTimeAre(rest, rows[0].ts, r);
        assert false;
      }
    } else {
      OneAtATime(rest, i - 1);
    }
  }

  /** In particular when no two rows are stamped alike. */
  lemma DistinctTimesAgree(rows: seq<RunRecord>, resumedAt: int)
    requires Ascending(StreakRows(rows, resumedAt))
    ensures Streak(rows, resumedAt) == RunningStreak(rows, resumedAt)
  {
    StreakIsRunningCounter(rows, resumedAt);
    forall t | NewestSuccessAt(StreakRows(rows, resumedAt), t)
      ensures var tied := AtTime(StreakRows(rows, resumedAt), t); LeadingFailures(tied) == TrailingFailures(tied)
    {
      AloneIsBalanced(StreakRows(rows, resumedAt), t);
    }
  }

  lemma AloneIsBalanced(rows: seq<RunRecord>, t: int)
    requires Ascending(rows) && NewestSuccessAt(rows, t)
    ensures LeadingFailures(AtTime(rows, t)) == TrailingFailures(AtTime(rows, t)) == 0
  {
    var i :| 0 <= i < |rows| && rows[i].outcome == Success && rows[i].ts == t;
    OneAtATime(rows, i);
  }

  /** But not when a failure and the SUCCESS after it are stamped alike, whatever came before. */
  lemma TiedTimesDisagree(older: seq<RunRecord>, f: RunRecord, s: RunRecord, resumedAt: int)
    requires StreakFailure(f.outcome) && s.outcome == Success && f.ts == s.ts > resumedAt
    requires forall i :: 0 <= i < |older| ==> older[i].ts < f.ts
    ensures Streak(older + [f, s], resumedAt) == 1 && RunningStreak(older + [f, s], resumedAt) == 0
  {
    var before := StreakRows(older, resumedAt);
    assert older + [f, s] == older + [f] + [s];
    InitOfSnoc(older + [f], s);
    InitOfSnoc(older, f);
    RunningStreakIsTrailing(older + [f, s], resumedAt);
    StreakRowsAreOlder(older, resumedAt, f.ts);
    TiedPair(before, f, s);
  }

  lemma TiedPair(before: seq<RunRecord>, f: RunRecord, s: RunRecord)
    requires f.outcome != Success && s.outcome == Success && f.ts == s.ts
    requires forall r :: r in before ==> r.ts < f.ts
    ensures LeadingFailures(NewestFirst(before + [f] + [s])) == 1 && TrailingFailures(before + [f] + [s]) == 0
  {
    var rows, t := before + [f] + [s], f.ts;
    PairAtTime(before, f, s);
    InitOfSnoc(before + [f], s);
    assert s in rows;
    StreakCounts(rows, t);
    assert [f, s][1..] == [s];
  }

  lemma PairAtTime(before: seq<RunRecord>, f: RunRecord, s: RunRecord)
    requires f.ts == s.ts && forall r :: r in before ==> r.ts < f.ts
    ensures AtTime(before + [f] + [s], f.ts) == [f, s] && NewerThan(before + [f] + [s], f.ts) == 0
  {
    AtTimeSnoc(before, f, f.ts);
    AtTimeSnoc(before + [f], s, f.ts);
    NoneAtTime(before, f.ts);
    NoneNewer(before, f.ts);
    SnocCountsOneMore(before, f, f.ts);
    SnocCountsOneMore(before + [f], s, f.ts);
    assert [] + [f] + [s] == [f, s];
  }

  lemma {:induction false} StreakRowsAreOlder(older: seq<RunRecord>, resumedAt: int, t: int)
    requires forall i :: 0 <= i < |older| ==> older[i].ts < t
    ensures forall r :: r in StreakRows(older, resumedAt) ==> r.ts < t
  {
    if older != [] { StreakRowsAreOlder(older[..|older| - 1], resumedAt, t); }
  }

  lemma StreakRowsSnoc(rows: seq<RunRecord>, r: RunRecord, resumedAt: int)
    ensures StreakRows(rows + [r], resumedAt) ==
            if r.ts > resumedAt && r.outcome in {Failed, Timeout, Success} then StreakRows(rows, resumedAt) + [r]
            else StreakRows(rows, resumedAt)
  {
    InitOfSnoc(rows, r);
    assert StreakRows(rows, resumedAt) + [] == StreakRows(rows, resumedAt);
  }

  /** A row newer than every other: FAILED and TIMEOUT lengthen the streak by one, SUCCESS ends it, and
      nothing else moves it, nor does any row no newer than the resume. */
  lemma NewestRowMovesStreak(rows: seq<RunRecord>, r: RunRecord, resumedAt: int)
    requires forall x :: x in rows ==> x.ts < r.ts
    ensures Streak([], resumedAt) == 0
    ensures var before, after := Streak(rows, resumedAt), Streak(rows + [r], resumedAt);
            after == if r.ts <= resumedAt then before
                     else match r.outcome
                          case Failed => before + 1
                          case Timeout => before + 1
                          case Success => 0
                          case _ => before
  {
    var relevant := StreakRows(rows, resumedAt);
    StreakRowsSnoc(rows, r, resumedAt);
    if r.ts > resumedAt && r.outcome in {Failed, Timeout, Success} {
      StreakRowsAreOlder(rows, resumedAt, r.ts);
      NewestLeads(relevant, r);
      assert ([r] + NewestFirst(relevant))[1..] == NewestFirst(relevant);
    }
  }

  // ---- Engine quota ----

  predicate IsQuotaRow(r: RunRecord, resumedAt: int, engine: string) {
    r.ts > resumedAt && r.outcome == Quota && r.engine == engine
  }

  /** The QUOTA rows of one engine since the last resume. */
  function QuotaRows(rows: seq<RunRecord>, resumedAt: int, engine: string): seq<RunRecord> {
    if rows == [] then []
    else
      var last := rows[|rows| - 1];
      QuotaRows(rows[..|rows| - 1], resumedAt, engine) + if IsQuotaRow(last, resumedAt, engine) then [last] else []
  }

  function LatestReset(rows: seq<RunRecord>): Option<int> {
    if rows == [] then None
    else
      var before, last := LatestReset(rows[..|rows| - 1]), rows[|rows| - 1].quotaResetAt;
      if last.None? then before
      else if before.None? || before.value < last.value then last else before
  }

  datatype QuotaHalt = QuotaHalt(engine: string, resumeAt: int)

  function ResumeTime(rows: seq<RunRecord>, now: int): int {
    var latest := LatestReset(rows);
    if latest.Some? then latest.value else now + QUOTA_DEFAULT_COOLDOWN_MS
  }

  function Group(byEngine: map<string, seq<RunRecord>>, r: RunRecord, resumedAt: int): map<string, seq<RunRecord>> {
    if r.ts > resumedAt && r.outcome == Quota
    then byEngine[r.engine := (if r.engine in byEngine then byEngine[r.engine] else []) + [r]]
    else byEngine
  }

  function GroupAll(rows: seq<RunRecord>, resumedAt: int): map<string, seq<RunRecord>> {
    if rows == [] then map[] else Group(GroupAll(rows[..|rows| - 1], resumedAt), rows[|rows| - 1], resumedAt)
  }

  /** Each engine's entry is its QUOTA rows; an engine with none has no entry. */
  lemma {:induction false} GroupAllAt(rows: seq<RunRecord>, resumedAt: int, e: string)
    ensures var byEngine := GroupAll(rows, resumedAt);
            QuotaRows(rows, resumedAt, e) == if e in byEngine then byEngine[e] else []
  {
    if rows != [] { GroupAllAt(rows[..|rows| - 1], resumedAt, e); }
  }

  /** Where an engine's first QUOTA row since the last resume is; |rows| if there is none. */
  function FirstQuotaAt(rows: seq<RunRecord>, resumedAt: int, engine: string): (n: nat)
    ensures n <= |rows| && (n < |rows| ==> IsQuotaRow(rows[n], resumedAt, engine))
    ensures forall k :: 0 <= k < n ==> !IsQuotaRow(rows[k], resumedAt, engine)
  {
    if rows == [] || IsQuotaRow(rows[0], resumedAt, engine) then 0
    else
      assert forall k :: 0 < k < |rows| ==> rows[k] == rows[1..][k - 1];
      1 + FirstQuotaAt(rows[1..], resumedAt, engine)
  }

  /** Ordered by where each engine's first QUOTA row is; so no engine is named twice. */
  ghost predicate ByFirstAppearance(rows: seq<RunRecord>, resumedAt: int, engines: seq<string>) {
    forall i, j :: 0 <= i < j < |engines| ==> FirstQuotaAt(rows, resumedAt, engines[i]) < FirstQuotaAt(rows, resumedAt, engines[j])
  }

  ghost predicate AppearedBy(rows: seq<RunRecord>, resumedAt: int, engines: seq<string>, n: nat) {
    ByFirstAppearance(rows, resumedAt, engines) && forall e :: e in engines <==> FirstQuotaAt(rows, resumedAt, e) < n
  }

  lemma OneMoreRow(rows: seq<RunRecord>, resumedAt: int, engines: seq<string>, n: nat)
    requires n < |rows| && AppearedBy(rows, resumedAt, engines, n)
    requires rows[n].ts > resumedAt && rows[n].outcome == Quota ==> rows[n].engine in engines
    ensures AppearedBy(rows, resumedAt, engines, n + 1)
  {
    forall e ensures e in engines <==> FirstQuotaAt(rows, resumedAt, e) < n + 1 {
    }
  }

  lemma OneMoreEngine(rows: seq<RunRecord>, resumedAt: int, engines: seq<string>, n: nat)
    requires n < |rows| && AppearedBy(rows, resumedAt, engines, n)
    requires IsQuotaRow(rows[n], resumedAt, rows[n].engine) && rows[n].engine !in engines
    ensures AppearedBy(rows, resumedAt, engines + [rows[n].engine], n + 1)
  {
    var engine, longer := rows[n].engine, engines + [rows[n].engine];
    assert FirstQuotaAt(rows, resumedAt, engine) == n;
    forall i, j | 0 <= i < j < |longer| ensures FirstQuotaAt(rows, resumedAt, longer[i]) < FirstQuotaAt(rows, resumedAt, longer[j]) {
      assert longer[i] == engines[i] && engines[i] in engines;
    }
    forall e ensures e in longer <==> FirstQuotaAt(rows, resumedAt, e) < n + 1 {
      assert FirstQuotaAt(rows, resumedAt, e) == n ==> IsQuotaRow(rows[n], resumedAt, e);
      assert e in longer <==> e in engines || e == engine;
    }
  }

  ghost predicate SameEngines(byEngine: map<string, seq<RunRecord>>, engines: seq<string>) {
    forall e :: e in byEngine <==> e in engines
  }

  method GroupNext(rows: seq<RunRecord>, resumedAt: int, i: nat, byEngine: map<string, seq<RunRecord>>, engines: seq<string>)
    returns (byEngine': map<string, seq<RunRecord>>, engines': seq<string>)
    requires i < |rows| && SameEngines(byEngine, engines) && AppearedBy(rows, resumedAt, engines, i)
    ensures byEngine' == Group(byEngine, rows[i], resumedAt)
    ensures SameEngines(byEngine', engines') && AppearedBy(rows, resumedAt, engines', i + 1)
  {
    byEngine', engines' := byEngine, engines;
    var r := rows[i];
    if r.ts > resumedAt && r.outcome == Quota {
      if r.engine !in byEngine {
        OneMoreEngine(rows, resumedAt, engines, i);
        engines' := engines + [r.engine];
      } else {
        OneMoreRow(rows, resumedAt, engines, i);
      }
      byEngine' := byEngine[r.engine := (if r.engine in byEngine then byEngine[r.engine] else []) + [r]];
    } else {
      OneMoreRow(rows, resumedAt, engines, i);
    }
  }

  /** The QUOTA rows since the last resume, by engine, and the engines in order of first appearance. */
  method GroupQuotaRows(rows: seq<RunRecord>, resumedAt: int)
    returns (byEngine: map<string, seq<RunRecord>>, engines: seq<string>)
    ensures byEngine == GroupAll(rows, resumedAt) && SameEngines(byEngine, engines)
    ensures ByFirstAppearance(rows, resumedAt, engines)
  {
    byEngine, engines := map[], [];
    var i := 0;
    while i < |rows|
      invariant 0 <= i <= |rows|
      invariant SameEngines(byEngine, engines) && AppearedBy(rows, resumedAt, engines, i)
      invariant byEngine == GroupAll(rows[..i], resumedAt)
    {
      TakeOneMore(rows, i);
      byEngine, engines := GroupNext(rows, resumedAt, i, byEngine, engines);
      i := i + 1;
    }
    assert rows[..i] == rows;
    assert ByFirstAppearance(rows, resumedAt, engines);
  }

  /** Where the first engine with two rows is. */
  method FirstRepeated(byEngine: map<string, seq<RunRecord>>, engines: seq<string>) returns (r: Option<nat>)
    requires SameEngines(byEngine, engines)
    ensures r.Some? ==> r.value < |engines| && |byEngine[engines[r.value]]| >= 2
    ensures r.Some? ==> forall j :: 0 <= j < r.value ==> |byEngine[engines[j]]| < 2
    ensures r.None? ==> forall e :: e in byEngine ==> |byEngine[e]| < 2
  {
    var i := 0;
    while i < |engines|
      invariant 0 <= i <= |engines|
      invariant forall j :: 0 <= j < i ==> |byEngine[engines[j]]| < 2
    {
      if |byEngine[engines[i]]| >= 2 {
        return Some(i);
      }
      i := i + 1;
    }
    r := None;
  }

  /** Some engine has two QUOTA rows since the last resume. */
  ghost predicate QuotaTrips(rows: seq<RunRecord>, resumedAt: int) {
    exists e :: |QuotaRows(rows, resumedAt, e)| >= 2
  }

  /** Names the tripping engine whose first QUOTA row came first, and when to resume. */
  ghost predicate IsQuotaHalt(rows: seq<RunRecord>, resumedAt: int, now: int, halt: QuotaHalt) {
    var tripping := QuotaRows(rows, resumedAt, halt.engine);
    && |tripping| >= 2 && halt.resumeAt == ResumeTime(tripping, now)
    && forall e :: |QuotaRows(rows, resumedAt, e)| >= 2 ==> FirstQuotaAt(rows, resumedAt, halt.engine) <= FirstQuotaAt(rows, resumedAt, e)
  }

  /** Trips exactly when some engine has two QUOTA rows since the last resume. */
  method QuotaBreaker(rows: seq<RunRecord>, resumedAt: int, now: int) returns (halt: Option<QuotaHalt>)
    ensures halt.Some? <==> QuotaTrips(rows, resumedAt)
    ensures halt.Some? ==> IsQuotaHalt(rows, resumedAt, now, halt.value)
  {
    var byEngine, engines := GroupQuotaRows(rows, resumedAt);
    var first := FirstRepeated(byEngine, engines);
    if first.Some? {
      var engine := engines[first.value];
      halt := Some(QuotaHalt(engine, ResumeTime(byEngine[engine], now)));
      GroupAllAt(rows, resumedAt, engine);
      forall e | |QuotaRows(rows, resumedAt, e)| >= 2
        ensures FirstQuotaAt(rows, resumedAt, engine) <= FirstQuotaAt(rows, resumedAt, e)
      {
        GroupAllAt(rows, resumedAt, e);
        FirstRepeatedIsFirst(rows, resumedAt, byEngine, engines, first.value, e);
      }
    } else {
      forall e ensures |QuotaRows(rows, resumedAt, e)| < 2 {
        GroupAllAt(rows, resumedAt, e);
      }
      halt := None;
    }
  }

  lemma FirstRepeatedIsFirst(rows: seq<RunRecord>, resumedAt: int, byEngine: map<string, seq<RunRecord>>, engines: seq<string>, k: nat, e: string)
    requires SameEngines(byEngine, engines) && ByFirstAppearance(rows, resumedAt, engines) && k < |engines|
    requires forall j :: 0 <= j < k ==> |byEngine[engines[j]]| < 2
    requires e in byEngine && |byEngine[e]| >= 2
    ensures FirstQuotaAt(rows, resumedAt, engines[k]) <= FirstQuotaAt(rows, resumedAt, e)
  {
    var j :| 0 <= j < |engines| && engines[j] == e;
    assert k < j ==> FirstQuotaAt(rows, resumedAt, engines[k]) < FirstQuotaAt(rows, resumedAt, engines[j]);
  }

  lemma {:induction false} QuotaRowsAre(rows: seq<RunRecord>, resumedAt: int, engine: string)
    ensures forall r :: r in QuotaRows(rows, resumedAt, engine) <==> r in rows && IsQuotaRow(r, resumedAt, engine)
  {
    if rows != [] {
      QuotaRowsAre(rows[..|rows| - 1], resumedAt, engine);
      assert rows == rows[..|rows| - 1] + [rows[|rows| - 1]];
    }
  }

  /** Where an engine's QUOTA rows since the resume are. */
  ghost function QuotaAt(rows: seq<RunRecord>, resumedAt: int, engine: string): set<nat> {
    set i: nat | i < |rows| && rows[i].outcome == Quota && rows[i].engine == engine && rows[i].ts > resumedAt
  }

  lemma QuotaAtSnoc(init: seq<RunRecord>, last: RunRecord, resumedAt: int, engine: string)
    ensures QuotaAt(init + [last], resumedAt, engine) ==
            QuotaAt(init, resumedAt, engine) +
            if last.outcome == Quota && last.engine == engine && last.ts > resumedAt then {|init|} else {}
  {
  }

  lemma {:induction false} QuotaRowsCount(rows: seq<RunRecord>, resumedAt: int, engine: string)
    ensures |QuotaRows(rows, resumedAt, engine)| == |QuotaAt(rows, resumedAt, engine)|
  {
    if rows != [] {
      var init, last := rows[..|rows| - 1], rows[|rows| - 1];
      QuotaRowsCount(init, resumedAt, engine);
      QuotaAtSnoc(init, last, resumedAt, engine);
      assert rows == init + [last];
    }
  }

  /** The quota breaker trips exactly when, since the resume, some engine has at least two QUOTA rows,
      whatever their lanes. */
  lemma QuotaTripsMeans(rows: seq<RunRecord>, resumedAt: int)
    ensures QuotaTrips(rows, resumedAt) <==> exists engine :: |QuotaAt(rows, resumedAt, engine)| >= 2
  {
    forall engine ensures |QuotaRows(rows, resumedAt, engine)| == |QuotaAt(rows, resumedAt, engine)| {
      QuotaRowsCount(rows, resumedAt, engine);
    }
    if engine :| |QuotaRows(rows, resumedAt, engine)| >= 2 {
      assert |QuotaAt(rows, resumedAt, engine)| >= 2;
    }
  }

  /** It halts until the latest reset any of that engine's rows reported, or for an hour from now when
      none did. */
  lemma QuotaHaltResumes(rows: seq<RunRecord>, resumedAt: int, now: int, halt: QuotaHalt)
    requires IsQuotaHalt(rows, resumedAt, now, halt)
    ensures ResumesRight(rows, resumedAt, now, halt)
  {
    var mine := QuotaRows(rows, resumedAt, halt.engine);
    QuotaRowsAre(rows, resumedAt, halt.engine);
    LatestResetIsMaximum(mine);
    if LatestReset(mine).Some? {
      var i :| 0 <= i < |mine| && mine[i].quotaResetAt == LatestReset(mine);
      assert mine[i] in mine && Reports(rows, resumedAt, halt.engine, mine[i]);
    }
    forall r | Reports(rows, resumedAt, halt.engine, r) ensures LatestReset(mine).Some? && r.quotaResetAt.value <= LatestReset(mine).value {
      assert r in mine;
    }
  }

  ghost predicate Reports(rows: seq<RunRecord>, resumedAt: int, engine: string, r: RunRecord) {
    r in rows && r.outcome == Quota && r.engine == engine && r.ts > resumedAt && r.quotaResetAt.Some?
  }

  ghost predicate ResumesRight(rows: seq<RunRecord>, resumedAt: int, now: int, halt: QuotaHalt) {
    if exists r :: Reports(rows, resumedAt, halt.engine, r) then
      && (exists r :: Reports(rows, resumedAt, halt.engine, r) && r.quotaResetAt == Some(halt.resumeAt))
      && (forall r :: Reports(rows, resumedAt, halt.engine, r) ==> r.quotaResetAt.value <= halt.resumeAt)
    else halt.resumeAt == now + 3_600_000
  }

  lemma {:induction false} LatestResetIsMaximum(rows: seq<RunRecord>)
    ensures LatestReset(rows).None? <==> forall i :: 0 <= i < |rows| ==> rows[i].quotaResetAt.None?
    ensures LatestReset(rows).Some? ==>
              && (exists i :: 0 <= i < |rows| && rows[i].quotaResetAt == LatestReset(rows))
              && (forall i :: 0 <= i < |rows| && rows[i].quotaResetAt.Some? ==>
                    rows[i].quotaResetAt.value <= LatestReset(rows).value)
  {
    if rows != [] {
      var init := rows[..|rows| - 1];
      LatestResetIsMaximum(init);
      assert forall i :: 0 <= i < |init| ==> rows[i] == init[i];
      if LatestReset(init).Some? {
        var i :| 0 <= i < |init| && init[i].quotaResetAt == LatestReset(init);
        assert rows[i].quotaResetAt == LatestReset(init);
      }
    }
  }

  /** Rows no newer than the resume can trip neither breaker again, at any later time. */
  lemma {:induction false} ResumeForgetsOldRows(rows: seq<RunRecord>, resumedAt: int, engine: string)
    requires forall i :: 0 <= i < |rows| ==> rows[i].ts <= resumedAt
    ensures QuotaRows(rows, resumedAt, engine) == [] && StreakRows(rows, resumedAt) == [] && Streak(rows, resumedAt) == 0
  {
    if rows != [] {
      ResumeForgetsOldRows(rows[..|rows| - 1], resumedAt, engine);
    }
  }

  // ---- Lane cool-down ----

  function LaneQuotaRows(rows: seq<RunRecord>, lane: string): seq<RunRecord> {
    if rows == [] then []
    else
      var last := rows[|rows| - 1];
      LaneQuotaRows(rows[..|rows| - 1], lane) + if last.lane == lane && last.outcome == Quota then [last] else []
  }

  predicate InQuotaCooldown(rows: seq<RunRecord>, lane: string, now: int, limits: Limits) {
    var sorted := NewestFirst(LaneQuotaRows(rows, lane));
    sorted != [] && now - sorted[0].ts < limits.quotaCooldownMs
  }

  lemma {:induction false} LaneQuotaRowsAre(rows: seq<RunRecord>, lane: string, r: RunRecord)
    ensures r in LaneQuotaRows(rows, lane) <==> r in rows && r.lane == lane && r.outcome == Quota
  {
    if rows != [] {
      LaneQuotaRowsAre(rows[..|rows| - 1], lane, r);
      assert rows == rows[..|rows| - 1] + [rows[|rows| - 1]];
    }
  }

  /** A lane cools down exactly while one of its own QUOTA rows is recent; no other row matters. */
  lemma CooldownMeansRecentQuota(rows: seq<RunRecord>, lane: string, now: int, limits: Limits)
    ensures InQuotaCooldown(rows, lane, now, limits) <==>
            exists r :: r in rows && r.lane == lane && r.outcome == Quota && now - r.ts < limits.quotaCooldownMs
  {
    var mine := LaneQuotaRows(rows, lane);
    var sorted := NewestFirst(mine);
    NewestFirstIsStableSort(mine, 0);
    assert forall r :: r in sorted <==> r in multiset(sorted);
    assert forall r :: r in mine <==> r in multiset(mine);
    if sorted != [] {
      LaneQuotaRowsAre(rows, lane, sorted[0]);
      assert sorted[0] in mine;
    }
    forall r | r in rows && r.lane == lane && r.outcome == Quota && now - r.ts < limits.quotaCooldownMs
      ensures InQuotaCooldown(rows, lane, now, limits)
    {
      LaneQuotaRowsAre(rows, lane, r);
      assert r in sorted;
    }
  }
}
