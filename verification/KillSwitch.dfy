/** Halt reasons: the one the quota breaker writes carries its own resume time, and only that
    one is ever cleared by the scheduler itself. */
module KillSwitch {
  import opened Options

  const QUOTA_HALT_PREFIX := "engine quota exhausted"
  const RETRY_MARKER := "retry after "
  const BEFORE_MARKER := ") \U{2014} "

  /** The reason the quota breaker writes; `resumeText` is the printed resume time. */
  function QuotaReason(engine: string, resumeText: string): string {
    QUOTA_HALT_PREFIX + " (" + engine + BEFORE_MARKER + RETRY_MARKER + resumeText
  }

  predicate LineBreak(c: char) {
    c == '\n' || c == '\r' || c == '\U{2028}' || c == '\U{2029}'
  }

  predicate Unbroken(s: string) {
    forall i :: 0 <= i < |s| ==> !LineBreak(s[i])
  }

  /** `retry after (.+)$` matches `reason` at `i`. */
  predicate MarkerAt(reason: string, i: nat) {
    && i + |RETRY_MARKER| < |reason|
    && reason[i..i + |RETRY_MARKER|] == RETRY_MARKER
    && Unbroken(reason[i + |RETRY_MARKER|..])
  }

  /** The text captured by the leftmost match at or after `i`. */
  function RetryTextFrom(reason: string, i: nat): Option<string>
    requires i <= |reason|
    decreases |reason| - i
  {
    if i == |reason| then None
    else if MarkerAt(reason, i) then Some(reason[i + |RETRY_MARKER|..])
    else RetryTextFrom(reason, i + 1)
  }

  function ParseQuotaResumeAt(reason: string, parse: string -> Option<int>): Option<int> {
    var text := RetryTextFrom(reason, 0);
    if text.Some? then parse(text.value) else None
  }

  predicate IsQuotaHaltReason(reason: string) {
    QUOTA_HALT_PREFIX <= reason
  }

  lemma {:induction false} RetryTextIsLeftmost(reason: string, i: nat, p: nat)
    requires i <= p < |reason| && MarkerAt(reason, p)
    ensures RetryTextFrom(reason, i).Some?
    ensures |RetryTextFrom(reason, i).value| >= |reason| - p - |RETRY_MARKER|
    ensures (forall k :: i <= k < p ==> !MarkerAt(reason, k)) ==>
              RetryTextFrom(reason, i).value == reason[p + |RETRY_MARKER|..]
    decreases p - i
  {
    if !MarkerAt(reason, i) { RetryTextIsLeftmost(reason, i + 1, p); }
  }

  /** An engine name that itself reads as a resume time. */
  ghost predicate Spoofs(engine: string) {
    exists i: nat :: SpoofsAt(engine, i)
  }

  predicate SpoofsAt(engine: string, i: nat) {
    && i + |RETRY_MARKER| <= |engine|
    && engine[i..i + |RETRY_MARKER|] == RETRY_MARKER
    && Unbroken(engine[i + |RETRY_MARKER|..])
  }

  lemma LettersOfConstants()
    ensures forall i :: 0 <= i < |QUOTA_HALT_PREFIX| ==> QUOTA_HALT_PREFIX[i] != 'r'
    ensures forall i :: 0 <= i < |RETRY_MARKER| ==> RETRY_MARKER[i] != ')'
    ensures RETRY_MARKER[0] == 'r' && |RETRY_MARKER| == 12 && |QUOTA_HALT_PREFIX| == 22
    ensures Unbroken(BEFORE_MARKER) && Unbroken(RETRY_MARKER)
  {
  }

  lemma MarkerLetters(reason: string, i: nat)
    requires MarkerAt(reason, i)
    ensures reason[i] == 'r'
    ensures forall j :: i <= j < i + |RETRY_MARKER| ==> reason[j] != ')'
  {
    LettersOfConstants();
    var found := reason[i..i + |RETRY_MARKER|];
    assert found[0] == 'r';
    forall j | i <= j < i + |RETRY_MARKER| ensures reason[j] != ')' {
      assert reason[j] == found[j - i] == RETRY_MARKER[j - i];
    }
  }

  /** A match inside the engine's name means the name spoofs. */
  lemma MarkerInsideEngine(engine: string, resumeText: string, k: nat)
    requires k + |RETRY_MARKER| <= |engine|
    requires MarkerAt(QuotaReason(engine, resumeText), |QUOTA_HALT_PREFIX| + 2 + k)
    ensures SpoofsAt(engine, k)
  {
    LettersOfConstants();
    var r := QuotaReason(engine, resumeText);
    assert engine[k..k + 12] == r[k + 24..k + 36];
    var tail, rest := r[k + 36..], engine[k + 12..];
    forall m | 0 <= m < |rest| ensures !LineBreak(rest[m]) {
      assert rest[m] == tail[m];
    }
  }

  lemma NoEarlierMarker(engine: string, resumeText: string, i: nat)
    requires !Spoofs(engine)
    requires i < |QUOTA_HALT_PREFIX| + 2 + |engine| + |BEFORE_MARKER|
    ensures !MarkerAt(QuotaReason(engine, resumeText), i)
  {
    LettersOfConstants();
    var r, d := QuotaReason(engine, resumeText), 24 + |engine|;
    assert r[d] == ')' && r[d + 1] == ' ' && r[d + 2] == '\U{2014}' && r[d + 3] == ' ' && r[22] == ' ' && r[23] == '(';
    assert i < 22 ==> r[i] == QUOTA_HALT_PREFIX[i];
    if MarkerAt(r, i) {
      MarkerLetters(r, i);
      if 24 <= i && i + 12 <= d { MarkerInsideEngine(engine, resumeText, i - 24); }
    }
  }

  /** The printed reason gives its resume time back exactly when the engine's name does not
      itself contain the marker (with nothing but one line after it). */
  lemma QuotaReasonReadsBack(engine: string, resumeText: string)
    requires resumeText != "" && Unbroken(resumeText)
    ensures RetryTextFrom(QuotaReason(engine, resumeText), 0) == Some(resumeText) <==> !Spoofs(engine)
    ensures IsQuotaHaltReason(QuotaReason(engine, resumeText))
  {
    LettersOfConstants();
    var r, p := QuotaReason(engine, resumeText), 28 + |engine|;
    assert r[p + 12..] == resumeText && MarkerAt(r, p);
    if Spoofs(engine) {
      var i: nat :| SpoofsAt(engine, i);
      var k := 24 + i;
      assert r[k..k + 12] == engine[i..i + 12];
      assert r[k + 12..] == engine[i + 12..] + BEFORE_MARKER + RETRY_MARKER + resumeText;
      assert MarkerAt(r, k);
      RetryTextIsLeftmost(r, 0, k);
    } else {
      forall k | 0 <= k < p ensures !MarkerAt(r, k) {
        NoEarlierMarker(engine, resumeText, k);
      }
      RetryTextIsLeftmost(r, 0, p);
    }
  }

  // ---- What a pass does about a halt it finds ----

  datatype HaltDecision = Proceed | ResumeAndProceed | Stay

  /** `reason` is None when the fleet is not halted. */
  function OnHalt(reason: Option<string>, now: int, parse: string -> Option<int>): HaltDecision {
    if reason.None? then Proceed
    else if !IsQuotaHaltReason(reason.value) then Stay
    else
      var resumeAt := ParseQuotaResumeAt(reason.value, parse);
      if resumeAt.Some? && now >= resumeAt.value then ResumeAndProceed else Stay
  }

  /** When a halt with this reason clears itself, if it ever does. */
  function ClearsAt(reason: string, parse: string -> Option<int>): Option<int> {
    if IsQuotaHaltReason(reason) then ParseQuotaResumeAt(reason, parse) else None
  }

  /** Whoever wrote it, a halt is cleared by some pass exactly when its reason starts like a quota
      halt's and carries a readable time; then every pass from that time on clears it. */
  lemma ClearedFromItsTimeOn(reason: string, parse: string -> Option<int>)
    ensures (exists now :: OnHalt(Some(reason), now, parse) == ResumeAndProceed) <==>
              IsQuotaHaltReason(reason) && ParseQuotaResumeAt(reason, parse).Some?
    ensures forall now :: OnHalt(Some(reason), now, parse) == ResumeAndProceed <==>
              ClearsAt(reason, parse).Some? && now >= ClearsAt(reason, parse).value
    ensures forall now :: OnHalt(Some(reason), now, parse) != Proceed
  {
    var t := ClearsAt(reason, parse);
    if t.Some? { assert OnHalt(Some(reason), t.value, parse) == ResumeAndProceed; }
  }

  /** A clock format that prints every instant on one line and reads it back. */
  ghost predicate RoundTrips(show: int -> string, parse: string -> Option<int>) {
    forall t :: show(t) != "" && Unbroken(show(t)) && parse(show(t)) == Some(t)
  }

  /** The breaker's own halt clears at the time it printed. */
  lemma QuotaHaltClearsAtItsTime(engine: string, resumeAt: int, show: int -> string, parse: string -> Option<int>)
    requires RoundTrips(show, parse) && !Spoofs(engine)
    ensures ClearsAt(QuotaReason(engine, show(resumeAt)), parse) == Some(resumeAt)
  {
    QuotaReasonReadsBack(engine, show(resumeAt));
  }

  /** A quota halt holds every pass before its printed time and is cleared by the first after it. */
  lemma QuotaHaltLifecycle(engine: string, resumeAt: int, now: int, show: int -> string, parse: string -> Option<int>)
    requires RoundTrips(show, parse) && !Spoofs(engine)
    ensures OnHalt(Some(QuotaReason(engine, show(resumeAt))), now, parse) ==
            if now >= resumeAt then ResumeAndProceed else Stay
  {
    QuotaHaltClearsAtItsTime(engine, resumeAt, show, parse);
    ClearedFromItsTimeOn(QuotaReason(engine, show(resumeAt)), parse);
  }

  const RATE_PREFIX := "rate breaker tripped: "
  const FAILURE_PREFIX := "failure breaker tripped: "
  const TAMPER_PREFIX := "non-author verifier tampered"
  const NO_REASON := "halt file present"
  const ISSUE_REASON := "open issue labelled \"halt\""

  /** A reason that starts with another letter than the quota halt's never clears itself. */
  lemma OtherFirstLetterStays(reason: string, parse: string -> Option<int>)
    requires reason != "" && reason[0] != 'e'
    ensures ClearsAt(reason, parse).None?
  {
    assert QUOTA_HALT_PREFIX[0] == 'e';
  }

  /** None of the fleet's other halts ever clears itself: the two other breakers', the tampering
      verifier's, the one a GitHub issue causes, and a halt file without a reason. */
  lemma OtherHaltsNeverCleared(detail: string, parse: string -> Option<int>)
    ensures ClearsAt(RATE_PREFIX + detail, parse).None? && ClearsAt(FAILURE_PREFIX + detail, parse).None?
    ensures ClearsAt(TAMPER_PREFIX + detail, parse).None?
    ensures ClearsAt(ISSUE_REASON, parse).None? && ClearsAt(NO_REASON, parse).None?
  {
    assert (RATE_PREFIX + detail)[0] == 'r' && (FAILURE_PREFIX + detail)[0] == 'f' && (TAMPER_PREFIX + detail)[0] == 'n';
    OtherFirstLetterStays(RATE_PREFIX + detail, parse);
    OtherFirstLetterStays(FAILURE_PREFIX + detail, parse);
    OtherFirstLetterStays(TAMPER_PREFIX + detail, parse);
    OtherFirstLetterStays(ISSUE_REASON, parse);
    OtherFirstLetterStays(NO_REASON, parse);
  }

  /** But a person may type one that does: any reason that reads like the breaker's. */
  lemma TypedReasonIsCleared(text: string, t: int, parse: string -> Option<int>)
    requires text != "" && Unbroken(text) && parse(text) == Some(t)
    ensures ClearsAt(QUOTA_HALT_PREFIX + " " + RETRY_MARKER + text, parse) == Some(t)
  {
    LettersOfConstants();
    var r, p := QUOTA_HALT_PREFIX + " " + RETRY_MARKER + text, |QUOTA_HALT_PREFIX| + 1;
    assert r[p..p + 12] == RETRY_MARKER && r[p + 12..] == text;
    forall k | 0 <= k < p ensures !MarkerAt(r, k) {
      assert k < 22 ==> r[k] == QUOTA_HALT_PREFIX[k];
      assert r[22] == ' ';
      if MarkerAt(r, k) {
        MarkerLetters(r, k);
      }
    }
    RetryTextIsLeftmost(r, 0, p);
  }
}
