/** The bounded verify, review, revise loop over one pull request. Every dependency may
    throw at every call; the trace says what was reached before it did. */
module Review {
  import opened Options

  datatype Verdict = Pass | Fail | Unreadable

  const MAX_REVIEW_ROUNDS := 2

  datatype ReviewEvent = Verified(passed: bool) | Reviewed(verdict: Verdict) | Tampered | Revised

  /** `passed` is the last mechanical report's outcome. */
  datatype LoopResult = LoopThrew | LoopDone(verdict: Verdict, rounds: nat, passed: bool)

  /** `ev` is what the loop may do from the start of `round` on, ending in `r`. */
  ghost predicate LoopTrace(round: nat, ev: seq<ReviewEvent>, r: LoopResult)
    decreases MAX_REVIEW_ROUNDS - round
  {
    if ev == [] then r == LoopThrew
    else if ev == [Verified(false)] then r == LoopDone(Fail, round, false) || r == LoopThrew
    else if ev[0] != Verified(true) then false
    else if |ev| == 1 then r == LoopThrew
    else if ev[1] == Tampered then |ev| == 2 && (r == LoopDone(Unreadable, round, true) || r == LoopThrew)
    else if !ev[1].Reviewed? then false
    else if |ev| == 2 then
      || r == LoopThrew
      || r == LoopDone(ev[1].verdict, round, true)
    else ev[1].verdict != Pass && round < MAX_REVIEW_ROUNDS && ev[2] == Revised && LoopTrace(round + 1, ev[3..], r)
  }

  /** What the loop's callers rely on: a PASS is the verdict of the round that ended it, on a
      diff that had just passed mechanical verification. */
  lemma {:induction false} PassWasVerifiedAndReviewed(round: nat, ev: seq<ReviewEvent>, r: LoopResult)
    requires LoopTrace(round, ev, r) && r.LoopDone?
    ensures r.verdict == Pass ==> r.passed && |ev| >= 2 && ev[|ev| - 2..] == [Verified(true), Reviewed(Pass)]
    ensures !r.passed ==> ev[|ev| - 1] == Verified(false)
    decreases MAX_REVIEW_ROUNDS - round
  {
    if |ev| > 2 {
      PassWasVerifiedAndReviewed(round + 1, ev[3..], r);
      assert |ev[3..]| >= 2 ==> ev[|ev| - 2..] == ev[3..][|ev[3..]| - 2..];
    }
  }

  function Reviews(ev: seq<ReviewEvent>): nat {
    if ev == [] then 0 else (if ev[0].Reviewed? || ev[0] == Tampered then 1 else 0) + Reviews(ev[1..])
  }

  /** A review is only ever asked for right after a mechanical pass, nothing follows a PASS, a
      failed verification or a tampering reviewer, and there are never more reviews than rounds. */
  lemma {:induction false} LoopIsBounded(round: nat, ev: seq<ReviewEvent>, r: LoopResult)
    requires LoopTrace(round, ev, r) && 1 <= round <= MAX_REVIEW_ROUNDS
    ensures Reviews(ev) <= MAX_REVIEW_ROUNDS + 1 - round
    ensures r.LoopDone? ==> round <= r.rounds <= MAX_REVIEW_ROUNDS
    ensures forall i :: 0 <= i < |ev| && (ev[i].Reviewed? || ev[i] == Tampered) ==> i > 0 && ev[i - 1] == Verified(true)
    ensures forall i :: 0 <= i < |ev| - 1 ==> ev[i] != Reviewed(Pass) && ev[i] != Verified(false) && ev[i] != Tampered
    decreases MAX_REVIEW_ROUNDS - round
  {
    if |ev| > 2 {
      LoopIsBounded(round + 1, ev[3..], r);
      assert ev[1..][1..] == ev[2..] && ev[2..][1..] == ev[3..];
      assert Reviews(ev[2..]) == Reviews(ev[3..]) && Reviews(ev[1..]) == 1 + Reviews(ev[2..]);
      forall i | 3 <= i < |ev| ensures ev[i] == ev[3..][i - 3] {
      }
    } else if |ev| == 2 {
      assert ev[1..] == [ev[1]] && Reviews([ev[1]]) <= 1;
      assert !ev[0].Reviewed? && ev[0] != Tampered;
    } else if |ev| == 1 {
      assert ev[1..] == [];
    }
  }
}
