/** The rule trace of every decision: which rules it names, in which order, with which verdicts. */
module EngineTrace {
  import opened Schemas
  import opened Rules
  import opened Simulation
  import opened Engine
  import opened EngineTheorems

  /** The amount that is held against the mandate cap first. */
  function AskedAmount(q: Query): Paise {
    if q.ia.intervention == RetryOnly then q.e.amount else Partial(q.e.amount)
  }

  /** What each rule has to say about a call. A substitution is always recorded as a failed rule. */
  predicate Verdict(q: Query, rule: RuleName) {
    match rule
    case ConfidenceGate => Confident(q.d)
    case StoppingRule => MayContinue(q.st)
    case MandateLiveForCharge => Live(q.e, q.d)
    case NpciRetryCap => RetryBudgetLeft(q.st)
    case AmountWithinCap => WithinCap(AskedAmount(q), q.e)
    case AfaExemption => Affordable(q).Some? && AfaSatisfied(Affordable(q).value, q.st.reauthDone)
    case PredebitNotice24h => NoticeInTime(q)
    case ContactFrequency => ContactBudgetLeft(q.st)
    case OutreachEconomics => !Uneconomic(q)
    case QuietHours => !Quiet(ClampOutOfQuiet(q.st.now + 6 * HOUR))
    case GraceOnce => !q.st.graceUsed
    case ReauthIsAContact => true
    case NoApplicableAction => true
    case _ => false
  }

  function Entry(q: Query, rule: RuleName): seq<RuleEvaluation> { [RuleEvaluation(rule, Verdict(q, rule))] }

  /** The entries of the charging branch, added to those before it. */
  function ChargeEntries(q: Query, t: seq<RuleEvaluation>): seq<RuleEvaluation> {
    if !WantsCharge(q) then t
    else if !Live(q.e, q.d) then t + Entry(q, DeadMandateSubstitution)
    else if !RetryBudgetLeft(q.st) then t + Entry(q, NpciRetryCap) + Entry(q, RetryCapSubstitution)
    else
      var t1 := t + Entry(q, NpciRetryCap) + Entry(q, AmountWithinCap);
      var t2 := if WithinCap(AskedAmount(q), q.e) then t1 else t1 + Entry(q, AmountSubstitution);
      if Affordable(q).None? then t2
      else if !Payable(q) then t2 + Entry(q, AfaExemption) + Entry(q, AfaSubstitution)
      else if NoticeInTime(q) then t2 + Entry(q, AfaExemption) + Entry(q, PredebitNotice24h)
      else t2 + Entry(q, AfaExemption) + Entry(q, PredebitNotice24h) + Entry(q, PredebitNoticeSubstitution)
  }

  function NoticeEntries(q: Query, t: seq<RuleEvaluation>): seq<RuleEvaluation> {
    var t1 := t + Entry(q, ContactFrequency) + Entry(q, OutreachEconomics);
    if !ContactBudgetLeft(q.st) then t1
    else if !Uneconomic(q) then t1 + Entry(q, QuietHours)
    else if FallbackOpen(q) then t1 + Entry(q, EconomicsSubstitution)
    else t1
  }

  function ContactEntries(q: Query, reauth: bool, t: seq<RuleEvaluation>): seq<RuleEvaluation> {
    if !ContactBudgetLeft(q.st) then t + Entry(q, ContactFrequency)
    else if reauth then t + Entry(q, ContactFrequency) + Entry(q, QuietHours) + Entry(q, ReauthIsAContact)
    else t + Entry(q, ContactFrequency) + Entry(q, QuietHours)
  }

  /** The entries of the line of the table that is taken in the end. */
  function ClosingEntries(q: Query, t: seq<RuleEvaluation>): seq<RuleEvaluation> {
    if Direct(q) then t
    else if ForNotice(q) then NoticeEntries(q, t)
    else if ForOffer(q) || ForReauth(q) then ContactEntries(q, ForReauth(q), t)
    else if q.ia.intervention == Grace48h then t + Entry(q, GraceOnce)
    else t + Entry(q, NoApplicableAction)
  }

  function WholeTrace(q: Query): seq<RuleEvaluation> {
    if q.raises then Entry(q, EngineFailClosed)
    else if !Confident(q.d) then Entry(q, ConfidenceGate)
    else if !MayContinue(q.st) then Entry(q, ConfidenceGate) + Entry(q, StoppingRule)
    else
      ClosingEntries(q, ChargeEntries(q, Entry(q, ConfidenceGate) + Entry(q, StoppingRule)
                                         + Entry(q, MandateLiveForCharge)))
  }

  // The caps as they are recorded, up to the AFA check.
  function CapEntries(q: Query, t: seq<RuleEvaluation>): seq<RuleEvaluation> {
    if WithinCap(AskedAmount(q), q.e) then t + Entry(q, NpciRetryCap) + Entry(q, AmountWithinCap)
    else t + Entry(q, NpciRetryCap) + Entry(q, AmountWithinCap) + Entry(q, AmountSubstitution)
  }

  lemma CapTrace(q: Query, p: Plan)
    requires Chargeable(q) && p.amount == q.e.amount
    requires p.at == if q.ia.intervention == RetryOnly then Retry else PartialCharge
    ensures var p' := CapStage(q.e, q.st, p);
            && p'.trace == CapEntries(q, p.trace)
            && (Charging(p'.at) <==> Affordable(q).Some?)
            && (Charging(p'.at) ==> Affordable(q) == Some(p'.amount))
  {
  }

  // From the AFA check on, once an amount is affordable.
  lemma LateTrace(q: Query, p: Plan)
    requires Chargeable(q) && (Charging(p.at) <==> Affordable(q).Some?)
    requires Charging(p.at) ==> Affordable(q) == Some(p.amount)
    ensures NoticeStage(q.ra, q.st, AfaStage(q.st, p)).trace
            == if Affordable(q).None? then p.trace
               else if !Payable(q) then p.trace + Entry(q, AfaExemption) + Entry(q, AfaSubstitution)
               else if NoticeInTime(q) then p.trace + Entry(q, AfaExemption) + Entry(q, PredebitNotice24h)
               else p.trace + Entry(q, AfaExemption) + Entry(q, PredebitNotice24h)
                    + Entry(q, PredebitNoticeSubstitution)
  {
  }

  // The trace as the substitutions leave it.
  lemma PlannedTrace(q: Query)
    requires Awake(q)
    ensures Planned(q.e, q.d, q.ra, q.ia, q.st).trace
            == ChargeEntries(q, Entry(q, ConfidenceGate) + Entry(q, StoppingRule) + Entry(q, MandateLiveForCharge))
  {
    var Query(_, e, d, ra, ia, st) := q;
    var t := Eval(ConfidenceGate, Confident(d)) + Eval(StoppingRule, MayContinue(st));
    var p1 := LivenessStage(e, d, st, Plan(IntentOf(ia.intervention), ia.intervention, e.amount, t));
    if Chargeable(q) {
      CapTrace(q, p1);
      LateTrace(q, CapStage(e, st, p1));
    }
  }

  lemma NotifyTrace(q: Query, p: Plan)
    ensures NotifyStage(q.e, q.d, q.ia, q.st, p).trace == NoticeEntries(q, p.trace)
  {
  }

  lemma ContactTrace(q: Query, p: Plan)
    requires p.at == OfferAlternateMethod || p.at == RequestReauth
    ensures ContactStage(q.e, q.st, p).trace == ContactEntries(q, p.at == RequestReauth, p.trace)
  {
  }

  lemma EmittedTrace(q: Query, p: Plan)
    requires Awake(q) && PlanFits(q, p)
    ensures Emit(q.e, q.d, q.ra, q.ia, q.st, p).trace == ClosingEntries(q, p.trace)
  {
    if p.at == SendNotification {
      NotifyTrace(q, p);
    } else if p.at == OfferAlternateMethod || p.at == RequestReauth {
      ContactTrace(q, p);
    }
  }

  /** The trace of every decision, entry by entry: every rule that is named carries its own verdict,
      and the rules named are exactly those the decision went through, in order. */
  lemma TraceIsExact(q: Query)
    ensures Decision(q).trace == WholeTrace(q)
  {
    if Awake(q) {
      PlannedFits(q);
      PlannedTrace(q);
      EmittedTrace(q, Planned(q.e, q.d, q.ra, q.ia, q.st));
    }
  }

  // What is added keeps every entry honest.
  predicate Honest(q: Query, t: seq<RuleEvaluation>) { forall i | 0 <= i < |t| :: t[i].passed == Verdict(q, t[i].rule) }

  lemma ChargeEntriesHonest(q: Query, t: seq<RuleEvaluation>)
    requires Honest(q, t)
    ensures Honest(q, ChargeEntries(q, t))
  {
  }

  lemma ClosingEntriesHonest(q: Query, t: seq<RuleEvaluation>)
    requires Honest(q, t)
    ensures Honest(q, ClosingEntries(q, t))
  {
  }

  /** No entry of any trace misstates the rule it names. */
  lemma NoEntryLies(q: Query, i: nat)
    requires i < |Decision(q).trace|
    ensures Decision(q).trace[i].passed == Verdict(q, Decision(q).trace[i].rule)
  {
    TraceIsExact(q);
    if Awake(q) {
      var t := Entry(q, ConfidenceGate) + Entry(q, StoppingRule) + Entry(q, MandateLiveForCharge);
      assert Honest(q, t);
      ChargeEntriesHonest(q, t);
      ClosingEntriesHonest(q, ChargeEntries(q, t));
    }
  }

  /** A contact that is emitted has passed the quiet-hours rule. */
  lemma QuietHoursPass(q: Query)
    ensures Verdict(q, QuietHours)
  {
    ClampIsLeast(q.st.now + 6 * HOUR);
  }
}
