/** Whole-run compliance: every run against the independent checker. */
module Compliance {
  import opened Schemas
  import opened Rules
  import opened Engine
  import opened EngineTheorems
  import opened Agent
  import opened Invariants
  import opened LoopTheorems

  // ------------------------------------------------------------------ reading a run by position

  lemma {:induction false} HistoryAt(e: FailureEvent, d: TypedDiagnosis, tl: seq<ExecutionResult>, i: nat)
    requires History(e, d, tl) && i < |tl|
    ensures History(e, d, tl[..i]) && Follows(e, d, tl[..i], tl[i])
  {
    var n := |tl| - 1;
    if i < n {
      HistoryAt(e, d, tl[..n], i);
      assert tl[..n][..i] == tl[..i];
    }
  }

  lemma {:induction false} Grows(decide: Query -> Action, e: FailureEvent, d: TypedDiagnosis, rs: seq<Round>, i: nat,
                                 n: nat)
    requires i <= n <= |rs|
    ensures After(decide, e, d, rs, i).timeline <= After(decide, e, d, rs, n).timeline
  {
    if i < n {
      Grows(decide, e, d, rs, i, n - 1);
      var p := After(decide, e, d, rs, n - 1);
      if p.exit.Running? {
        RoundExtends(decide, e, d, p, rs[n - 1]);
      }
    }
  }

  /** Step i of a timeline is the outcome of round i, played from the steps before it. */
  lemma Replay(decide: Query -> Action, e: FailureEvent, d: TypedDiagnosis, rs: seq<Round>, n: nat, i: nat)
    requires n <= |rs| && i < |After(decide, e, d, rs, n).timeline|
    ensures i < n && After(decide, e, d, rs, i).exit.Running?
    ensures After(decide, e, d, rs, i).timeline == After(decide, e, d, rs, n).timeline[..i]
    ensures After(decide, e, d, rs, n).timeline[i] == ResultOf(decide, e, d, After(decide, e, d, rs, i), rs[i])
  {
    RunLength(decide, e, d, rs, n);
    RunLength(decide, e, d, rs, i);
    if After(decide, e, d, rs, i).exit.Running? {
      RoundExtends(decide, e, d, After(decide, e, d, rs, i), rs[i]);
      Grows(decide, e, d, rs, i, n);
      Grows(decide, e, d, rs, i + 1, n);
    } else {
      StaysLeft(decide, e, d, rs, i, n);
    }
  }

  /** A run that has been left was left by the round played from its last head. */
  lemma {:induction false} LastRound(decide: Query -> Action, e: FailureEvent, d: TypedDiagnosis,
                                     rs: seq<Round>, n: nat)
    returns (m: nat)
    requires n <= |rs| && !After(decide, e, d, rs, n).exit.Running?
    ensures m < n && After(decide, e, d, rs, m).exit.Running?
    ensures After(decide, e, d, rs, n) == Step(decide, e, d, After(decide, e, d, rs, m), rs[m])
  {
    var p := After(decide, e, d, rs, n - 1);
    if p.exit.Running? {
      m := n - 1;
    } else {
      m := LastRound(decide, e, d, rs, n - 1);
      assert After(decide, e, d, rs, n) == p;
    }
  }

  // ------------------------------------------------------------------ all rules but AFA

  lemma {:induction false} HistoryComplies(e: FailureEvent, d: TypedDiagnosis, tl: seq<ExecutionResult>)
    requires History(e, d, tl)
    ensures Compliant(e, tl)
  {
    if tl != [] {
      var n := |tl| - 1;
      var before, x := tl[..n], tl[n];
      HistoryComplies(e, d, before);
      assert tl == before + [x];
      SelectLast(before, x, IsCharge);
      SelectLast(before, x, IsContact);
      forall y | y in tl && IsCharge(y) ensures HasNotice(tl, y) {
        var k :| k in before && IsNotice(k) && NoticeFor(k, y);
        assert k in tl;
      }
    }
  }

  /** Executed actions are scheduled at least 90 minutes apart, in timeline order; so the notice
      that justifies a charge also sits earlier in the timeline. */
  lemma TimeOrder(decide: Query -> Action, e: FailureEvent, d: TypedDiagnosis, rs: seq<Round>)
    requires KeepsTable(decide)
    ensures var tl := Recovery(decide, e, d, rs).timeline;
            && (forall i, j | 0 <= i < j < |tl| && tl[i].executed && tl[j].executed ::
                  tl[i].action.scheduledAt + 90 * MINUTE <= tl[j].action.scheduledAt)
            && (forall j | 0 <= j < |tl| && IsCharge(tl[j]) :: HasNotice(tl[..j], tl[j]))
  {
    EveryRun(decide, e, d, rs, |rs|);
    var tl := Recovery(decide, e, d, rs).timeline;
    forall i, j | 0 <= i < j < |tl| && tl[i].executed && tl[j].executed
      ensures tl[i].action.scheduledAt + 90 * MINUTE <= tl[j].action.scheduledAt
    {
      HistoryAt(e, d, tl, j);
      assert tl[i] in tl[..j];
    }
    forall j | 0 <= j < |tl| && IsCharge(tl[j]) ensures HasNotice(tl[..j], tl[j]) {
      HistoryAt(e, d, tl, j);
    }
  }

  /** Every run, whatever the event, the diagnosis, the advice and the outcomes: the checker finds
      nothing, except possibly a missing re-authorization. */
  lemma EveryRunComplies(e: FailureEvent, d: TypedDiagnosis, rs: seq<Round>)
    ensures var tl := Recovery(Decision, e, d, rs).timeline;
            Compliant(e, tl) && OnlyAfa(Findings(e, tl))
  {
    DecisionKeepsTable();
    EveryRun(Decision, e, d, rs, |rs|);
    var tl := Recovery(Decision, e, d, rs).timeline;
    HistoryComplies(e, d, tl);
    FindingsMean(e, tl);
  }

  // ------------------------------------------------------------------ AFA, run by run

  /** Round n of the run takes the branch that omits the AFA check, and the charge goes out. */
  ghost predicate GapTaken(decide: Query -> Action, e: FailureEvent, d: TypedDiagnosis, rs: seq<Round>, n: nat) {
    && n < |rs|
    && After(decide, e, d, rs, n).exit.Running?
    && AfaGap(Asked(e, d, Head(After(decide, e, d, rs, n)), rs[n]))
    && rs[n].outcome.executed
  }

  // What a taken gap leaves in the timeline: a charge above the ceiling with no re-authorization before it.
  lemma GapCharge(decide: Query -> Action, e: FailureEvent, d: TypedDiagnosis, s: Session, r: Round)
    requires KeepsTable(decide) && Tracks(e, s)
    ensures var q, x := Asked(e, d, Head(s), r), ResultOf(decide, e, d, s, r);
            AfaGap(q) && r.outcome.executed <==>
              IsCharge(x) && AmountOf(x) > AFA_CEILING && Select(s.timeline, IsReauth) == []
  {
    var q := Asked(e, d, Head(s), r);
    assert InTable(q, decide(q)) && Carries(q, decide(q));
    TableAfa(q, decide(q));
  }

  // A charge with no re-authorization before it never gets one: later steps are later in time.
  lemma NeverAuthorized(e: FailureEvent, d: TypedDiagnosis, tl: seq<ExecutionResult>, n: nat)
    requires History(e, d, tl) && n < |tl| && IsCharge(tl[n]) && AmountOf(tl[n]) > AFA_CEILING
    requires Select(tl[..n], IsReauth) == []
    ensures !AfaCompliant(tl)
  {
    var x := tl[n];
    SelectKeeps(tl[..n], IsReauth);
    forall i | 0 <= i < n ensures !IsReauth(tl[i]) {
      assert tl[i] in tl[..n];
    }
    forall i | n < i < |tl| && IsReauth(tl[i]) ensures !ReauthFor(tl[i], x) {
      HistoryAt(e, d, tl, i);
      assert x in tl[..i];
    }
    assert x in tl && !HasReauth(tl, x);
  }

  /** A round that is played leaves its step in every later timeline. */
  lemma {:induction false} Reaches(decide: Query -> Action, e: FailureEvent, d: TypedDiagnosis, rs: seq<Round>,
                                   n: nat, m: nat)
    requires n < m <= |rs| && After(decide, e, d, rs, n).exit.Running?
    ensures |After(decide, e, d, rs, m).timeline| > n
  {
    if n < m - 1 {
      Reaches(decide, e, d, rs, n, m - 1);
    } else {
      RunLength(decide, e, d, rs, n);
    }
    var s := After(decide, e, d, rs, m - 1);
    if s.exit.Running? {
      RoundExtends(decide, e, d, s, rs[m - 1]);
    }
  }

  lemma TakenGapBreaks(decide: Query -> Action, e: FailureEvent, d: TypedDiagnosis, rs: seq<Round>, n: nat)
    requires KeepsTable(decide) && GapTaken(decide, e, d, rs, n)
    ensures !AfaCompliant(Recovery(decide, e, d, rs).timeline)
  {
    var tl := Recovery(decide, e, d, rs).timeline;
    var s := After(decide, e, d, rs, n);
    EveryRun(decide, e, d, rs, n);
    EveryRun(decide, e, d, rs, |rs|);
    RunLength(decide, e, d, rs, n);
    Reaches(decide, e, d, rs, n, |rs|);
    Replay(decide, e, d, rs, |rs|, n);
    GapCharge(decide, e, d, s, rs[n]);
    NeverAuthorized(e, d, tl, n);
  }

  lemma UntakenGapsComply(decide: Query -> Action, e: FailureEvent, d: TypedDiagnosis, rs: seq<Round>)
    requires KeepsTable(decide) && forall n: nat :: !GapTaken(decide, e, d, rs, n)
    ensures AfaCompliant(Recovery(decide, e, d, rs).timeline)
  {
    var tl := Recovery(decide, e, d, rs).timeline;
    forall c | c in tl && IsCharge(c) && AmountOf(c) > AFA_CEILING ensures HasReauth(tl, c) {
      var i :| 0 <= i < |tl| && tl[i] == c;
      Replay(decide, e, d, rs, |rs|, i);
      EveryRun(decide, e, d, rs, i);
      assert !GapTaken(decide, e, d, rs, i);
      GapCharge(decide, e, d, After(decide, e, d, rs, i), rs[i]);
      SelectKeeps(tl[..i], IsReauth);
      var r := Select(tl[..i], IsReauth)[0];
      assert r in Select(tl[..i], IsReauth);
      EveryRun(decide, e, d, rs, |rs|);
      HistoryAt(e, d, tl, i);
      assert r in tl && IsReauth(r) && ReauthFor(r, c);
    }
  }

  /** The AFA rule over one run: it holds exactly when no round takes the unguarded branch. */
  lemma AfaPerRun(decide: Query -> Action, e: FailureEvent, d: TypedDiagnosis, rs: seq<Round>)
    requires KeepsTable(decide)
    ensures AfaCompliant(Recovery(decide, e, d, rs).timeline) <==>
            (forall n: nat :: !GapTaken(decide, e, d, rs, n))
  {
    if n: nat :| GapTaken(decide, e, d, rs, n) {
      TakenGapBreaks(decide, e, d, rs, n);
    } else {
      UntakenGapsComply(decide, e, d, rs);
    }
  }

  // ------------------------------------------------------------------ AFA, event by event

  /** What a caller can see before the run: a live mandate, diagnosed with confidence and not as a
      retry-first cause, that may be debited above the ceiling and has two contacts left. */
  predicate AfaExposed(e: FailureEvent, d: TypedDiagnosis) {
    && e.amount > AFA_CEILING && e.amount <= e.maxAmount
    && Live(e, d) && Confident(d) && !RetryFirst(d.cause)
    && e.contactsThisWeek + 2 <= MAX_CONTACTS
  }

  lemma GapMeansExposed(decide: Query -> Action, e: FailureEvent, d: TypedDiagnosis, rs: seq<Round>, n: nat)
    requires KeepsTable(decide) && GapTaken(decide, e, d, rs, n)
    ensures AfaExposed(e, d)
  {
    var s := After(decide, e, d, rs, n);
    EveryRun(decide, e, d, rs, n);
    SelectKeeps(s.timeline, IsContact);
    LastNoticeIsANotice(s.timeline);
    var k :| k in s.timeline && IsNotice(k);
    assert k in Select(s.timeline, IsContact);
  }

  // A worthwhile link first; then, that arm being used up, a reminder not worth its price.
  const NOTICE_ROUND := Round(RetryAdvice(24.0, 0.5), InterventionAdvice(WhatsappUpiLink, 1.0), false,
                              Outcome(true, Some(false), 0))
  const FALLBACK_ROUND := Round(RetryAdvice(24.0, 0.5), InterventionAdvice(SmsReminder, 0.0), false,
                                Outcome(true, Some(false), 0))

  function Exposing(n: nat): seq<Round> { seq(n, i => if i == 0 then NOTICE_ROUND else FALLBACK_ROUND) }

  lemma ExposingNotice(decide: Query -> Action, e: FailureEvent, d: TypedDiagnosis)
    requires KeepsTable(decide) && AfaExposed(e, d)
    ensures var s := Step(decide, e, d, Start(e), NOTICE_ROUND);
            s.exit.Running? && s.st.lastNotice.Some? && s.st.lastNotice.value <= s.st.now
            && s.st.retriesUsed == s.st.declines == 0 && s.st.contacts == e.contactsThisWeek + 1 && !s.st.reauthDone
  {
    var q := Asked(e, d, Head(Start(e)), NOTICE_ROUND);
    assert InTable(q, decide(q)) && Carries(q, decide(q));
    assert Awake(q) && ForNotice(q) && Economic(1.0, e.amount);
  }

  lemma ExposedRunTakesGap(decide: Query -> Action, e: FailureEvent, d: TypedDiagnosis, n: nat)
    requires KeepsTable(decide) && AfaExposed(e, d) && n >= 2
    ensures GapTaken(decide, e, d, Exposing(n), 1)
  {
    var rs := Exposing(n);
    var s := Step(decide, e, d, Start(e), NOTICE_ROUND);
    ExposingNotice(decide, e, d);
    assert After(decide, e, d, rs, 0) == Start(e);
    assert After(decide, e, d, rs, 1) == s;
    var q := Asked(e, d, Head(s), FALLBACK_ROUND);
    assert FallbackOpen(q) && Uneconomic(q);
  }

  lemma UnexposedRunComplies(e: FailureEvent, d: TypedDiagnosis, rs: seq<Round>)
    requires !AfaExposed(e, d)
    ensures Findings(e, Recovery(Decision, e, d, rs).timeline) == []
  {
    DecisionKeepsTable();
    forall n: nat ensures !GapTaken(Decision, e, d, rs, n) {
      if GapTaken(Decision, e, d, rs, n) {
        GapMeansExposed(Decision, e, d, rs, n);
      }
    }
    UntakenGapsComply(Decision, e, d, rs);
    EveryRunComplies(e, d, rs);
    FindingsMean(e, Recovery(Decision, e, d, rs).timeline);
  }

  /** The engine's AFA promise, exactly: every run on an event passes the whole checker if and only
      if the event is not exposed. */
  lemma AfaExactly(e: FailureEvent, d: TypedDiagnosis)
    ensures (forall rs: seq<Round> | |rs| == MAX_ROUNDS :: Findings(e, Recovery(Decision, e, d, rs).timeline) == [])
            <==> !AfaExposed(e, d)
  {
    DecisionKeepsTable();
    if AfaExposed(e, d) {
      var rs := Exposing(MAX_ROUNDS);
      ExposedRunTakesGap(Decision, e, d, MAX_ROUNDS);
      TakenGapBreaks(Decision, e, d, rs, 1);
      FindingsMean(e, Recovery(Decision, e, d, rs).timeline);
    } else {
      forall rs: seq<Round> | |rs| == MAX_ROUNDS
        ensures Findings(e, Recovery(Decision, e, d, rs).timeline) == []
      {
        UnexposedRunComplies(e, d, rs);
      }
    }
  }
}
