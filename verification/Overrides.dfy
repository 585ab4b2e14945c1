/** Whose advice decides a round: the retry-first override, the economics of an outreach, and the
    alignment of an early ask. */
module Overrides {
  import opened Schemas
  import opened Rules
  import opened Simulation
  import opened Engine
  import opened EngineTheorems
  import opened Agent

  // ------------------------------------------------------------------ the retry-first override

  /** With retries left on a retry-first cause, an arm other than a retry is played as a retry at
      the retry advisor's own odds: the uplift advisor's arm and odds make no difference. */
  lemma RetryFirstIsPlayed(decide: Query -> Action, e: FailureEvent, d: TypedDiagnosis, s: Session, r: Round)
    requires s.st.retriesUsed < 3 && d.cause in {TechDecline, BankDowntime, SuspectedChurn}
    requires r.arm.intervention != RetryOnly
    ensures ResultOf(decide, e, d, s, r)
            == ResultOf(decide, e, d, s, r.(arm := InterventionAdvice(RetryOnly, r.retry.pSuccess)))
  {
  }

  /** Everywhere else the engine is shown the uplift advisor's own advice. */
  lemma ArmIsPlayed(e: FailureEvent, d: TypedDiagnosis, s: Session, r: Round)
    requires || s.st.retriesUsed >= 3
             || d.cause !in {TechDecline, BankDowntime, SuspectedChurn}
             || r.arm.intervention == RetryOnly
    ensures Asked(e, d, Head(s), r).ia == r.arm
  {
  }

  // ------------------------------------------------------------------ whose odds pay for an outreach

  /** A head with retries and contacts left at which no notice has been sent. */
  predicate Unnoticed(d: TypedDiagnosis, s: Session, r: Round) {
    && Confident(d) && !r.raises
    && s.st.retriesUsed < 3 && s.st.declines < 3 && s.st.contacts < 3 && s.st.lastNotice.None?
  }

  /** What a full charge is cut to when the cap demands it. */
  function Due(e: FailureEvent): Paise { if e.amount <= e.maxAmount then e.amount else Partial(e.amount) }

  predicate Worthwhile(p: Probability, e: FailureEvent) { p * (e.amount as real) >= 150.0 }

  lemma NoticeComesFirst(q: Query, a: Action)
    requires InTable(q, a) && Awake(q) && q.ia.intervention == RetryOnly && Live(q.e, q.d)
    requires q.st.retriesUsed < 3 && q.st.contacts < 3 && q.st.lastNotice.None?
    requires Due(q.e) <= q.e.maxAmount && (Due(q.e) <= AFA_CEILING || q.st.reauthDone)
    ensures a.actionType == if Economic(q.ia.pRecover, q.e.amount) then SendNotification else NoAction
  {
    assert Affordable(q) == Some(Due(q.e)) && Payable(q) && !NoticeInTime(q);
    assert ForNotice(q) && !FallsBack(q);
  }

  /** A retry that may be charged but for the notice: the notice goes out exactly when it is worth
      its price at these odds, and the round is idle otherwise. */
  lemma FirstNoticeIsPriced(decide: Query -> Action, e: FailureEvent, d: TypedDiagnosis, s: Session, r: Round)
    requires KeepsTable(decide) && Unnoticed(d, s, r) && Live(e, d)
    requires Due(e) <= e.maxAmount && (Due(e) <= AFA_CEILING || s.st.reauthDone)
    requires r.arm.intervention == RetryOnly || RetryFirst(d.cause)
    ensures var p := if r.arm.intervention == RetryOnly then r.arm.pRecover else r.retry.pSuccess;
            ResultOf(decide, e, d, s, r).action.actionType == if Worthwhile(p, e) then SendNotification else NoAction
  {
    var q := Asked(e, d, Head(s), r);
    assert InTable(q, decide(q));
    NoticeComesFirst(q, decide(q));
  }

  /** An outreach that is proposed as such is priced at the uplift advisor's odds. */
  lemma OutreachIsPriced(decide: Query -> Action, e: FailureEvent, d: TypedDiagnosis, s: Session, r: Round)
    requires KeepsTable(decide) && Unnoticed(d, s, r) && !RetryFirst(d.cause)
    requires r.arm.intervention in {WhatsappUpiLink, SmsReminder}
    ensures ResultOf(decide, e, d, s, r).action.actionType
            == if Worthwhile(r.arm.pRecover, e) then SendNotification else NoAction
  {
    var q := Asked(e, d, Head(s), r);
    assert InTable(q, decide(q));
  }

  // ------------------------------------------------------------------ failing closed

  /** A round in which the engine fails does nothing and hands the mandate to a human at once. */
  lemma FailsClosed(decide: Query -> Action, e: FailureEvent, d: TypedDiagnosis, s: Session, r: Round)
    requires KeepsTable(decide) && r.raises
    ensures var x := ResultOf(decide, e, d, s, r);
            x.action.actionType == NoAction && x.action.requiresHuman && !x.executed
    ensures !Step(decide, e, d, s, r).exit.Running? && Step(decide, e, d, s, r).st == Head(s)
  {
    var q := Asked(e, d, Head(s), r);
    assert InTable(q, decide(q));
  }

  // ------------------------------------------------------------------ the alignment

  /** Before the first notice the engine's decision does not depend on the retry advice at all, so
      moving an early ask to 25 hours changes no decision. */
  lemma DelayIsIdleBeforeNotice(q: Query, ra: RetryAdvice)
    requires q.st.lastNotice.None?
    ensures Decision(q.(ra := ra)) == Decision(q)
  {
  }

  lemma AlignmentChangesNothing(e: FailureEvent, d: TypedDiagnosis, s: Session, r: Round)
    ensures var q := Asked(e, d, Head(s), r);
            Decision(q) == Decision(q.(ra := r.retry))
  {
    var q := Asked(e, d, Head(s), r);
    if s.st.lastNotice.None? {
      DelayIsIdleBeforeNotice(q, r.retry);
    } else {
      assert q.ra == r.retry;
    }
  }
}
