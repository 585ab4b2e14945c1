/** The deterministic policy engine: the only place an action is constructed. */
module Engine {
  import opened Schemas
  import opened Rules
  import opened Simulation

  const NOTICE_LEAD: int := 6 * HOUR
  const TERMINAL_ROUND: nat := 999

  // ------------------------------------------------------------------ builders

  function Build(e: FailureEvent, trace: seq<RuleEvaluation>, at: ActionType, scheduledAt: Instant,
                 roundNo: nat, amount: Option<Paise>, bucket: Option<nat>, channel: Option<Channel>,
                 alt: Option<PaymentMethod>): Action
  {
    Action(at, e.mandateId, roundNo, scheduledAt, amount, bucket, channel, alt, trace, at == StopAndEscalate)
  }

  function Terminal(e: FailureEvent, trace: seq<RuleEvaluation>, at: ActionType, human: bool): Action {
    Action(at, e.mandateId, TERMINAL_ROUND, e.occurredAt, None, None, None, None, trace, human)
  }

  function Eval(rule: RuleName, passed: bool): seq<RuleEvaluation> { [RuleEvaluation(rule, passed)] }

  // ------------------------------------------------------------------ the decision, stage by stage

  /** What is carried from stage to stage: the action type, the arm it stands for, the amount a
      charge would take, and the rule trace so far. */
  datatype Plan = Plan(at: ActionType, desired: InterventionType, amount: Paise, trace: seq<RuleEvaluation>)

  /** Dead-mandate substitution. */
  function LivenessStage(e: FailureEvent, d: TypedDiagnosis, st: State, p: Plan): Plan {
    var t := p.trace + Eval(MandateLiveForCharge, Live(e, d));
    if Live(e, d) || !Charging(p.at) then p.(trace := t)
    else if Dead(e.mandateState) && !st.reauthDone then
      Plan(RequestReauth, ReauthLink, p.amount, t + Eval(DeadMandateSubstitution, false))
    else
      Plan(SendNotification, WhatsappUpiLink, p.amount, t + Eval(DeadMandateSubstitution, false))
  }

  /** Retry cap, then amount cap; the amount of a charge is fixed here. */
  function CapStage(e: FailureEvent, st: State, p: Plan): Plan {
    if !Charging(p.at) then p
    else
      var t := p.trace + Eval(NpciRetryCap, RetryBudgetLeft(st));
      if !RetryBudgetLeft(st) then
        Plan(SendNotification, WhatsappUpiLink, p.amount, t + Eval(RetryCapSubstitution, false))
      else
        var amount := if p.at == Retry then e.amount else Partial(e.amount);
        var t' := t + Eval(AmountWithinCap, WithinCap(amount, e));
        if WithinCap(amount, e) then Plan(p.at, p.desired, amount, t')
        else if WithinCap(Partial(e.amount), e) then
          Plan(PartialCharge, p.desired, Partial(e.amount), t' + Eval(AmountSubstitution, false))
        else
          Plan(OfferAlternateMethod, MethodSwitch, amount, t' + Eval(AmountSubstitution, false))
  }

  /** A debit above the AFA ceiling needs a re-authorization in this session first. */
  function AfaStage(st: State, p: Plan): Plan {
    if !Charging(p.at) then p
    else
      var t := p.trace + Eval(AfaExemption, AfaSatisfied(p.amount, st.reauthDone));
      if AfaSatisfied(p.amount, st.reauthDone) then p.(trace := t)
      else Plan(RequestReauth, ReauthLink, p.amount, t + Eval(AfaSubstitution, false))
  }

  function ChargeDelay(ra: RetryAdvice): nat { SnapDelay(ra.delayHours) }

  function ChargeTime(ra: RetryAdvice, st: State): Instant {
    st.now + (if ChargeDelay(ra) >= 1 then ChargeDelay(ra) else 1) * HOUR
  }

  /** The pre-debit notice: what is left of the plan when the charge may not go out yet. */
  function NoticeStage(ra: RetryAdvice, st: State, p: Plan): Plan {
    if !Charging(p.at) then p
    else
      var t := p.trace + Eval(PredebitNotice24h, NoticeGiven(st, ChargeTime(ra, st)));
      if NoticeGiven(st, ChargeTime(ra, st)) then p.(trace := t)
      else Plan(SendNotification, WhatsappUpiLink, p.amount, t + Eval(PredebitNoticeSubstitution, false))
  }

  function FallbackTime(st: State): Instant { st.now + 25 * HOUR }

  /** Whether uneconomic outreach may be replaced by a plain retry. AFA is not among the checks. */
  predicate FallbackAllowed(e: FailureEvent, d: TypedDiagnosis, st: State) {
    Live(e, d) && WithinCap(e.amount, e) && RetryBudgetLeft(st) && NoticeGiven(st, FallbackTime(st))
  }

  function NotifyStage(e: FailureEvent, d: TypedDiagnosis, ia: InterventionAdvice, st: State, p: Plan)
    : Action
  {
    var t := p.trace + Eval(ContactFrequency, ContactBudgetLeft(st))
             + Eval(OutreachEconomics, Economic(ia.pRecover, e.amount));
    if !ContactBudgetLeft(st) then
      if st.retriesUsed < 3 && st.lastNotice.Some? then Terminal(e, t, NoAction, false)
      else Terminal(e, t, StopAndEscalate, true)
    else if !Economic(ia.pRecover, e.amount) then
      if FallbackAllowed(e, d, st) then
        Build(e, t + Eval(EconomicsSubstitution, false), Retry, FallbackTime(st), st.roundNo,
              Some(e.amount), None, None, None)
      else Terminal(e, t, NoAction, false)
    else
      var at := ClampOutOfQuiet(st.now + NOTICE_LEAD);
      Build(e, t + Eval(QuietHours, !Quiet(at)), SendNotification, at, st.roundNo, None, None,
            Some(if p.desired == WhatsappUpiLink then Whatsapp else Sms), None)
  }

  function GraceStage(e: FailureEvent, st: State, p: Plan): Action {
    if st.graceUsed then Terminal(e, p.trace + Eval(GraceOnce, false), NoAction, false)
    else Build(e, p.trace + Eval(GraceOnce, true), GraceExtend, st.now + 48 * HOUR, st.roundNo,
               None, None, None, None)
  }

  /** Alternate-method offers and re-authorization requests: contacts under the weekly cap. */
  function ContactStage(e: FailureEvent, st: State, p: Plan): Action {
    var t := p.trace + Eval(ContactFrequency, ContactBudgetLeft(st));
    if !ContactBudgetLeft(st) then Terminal(e, t, StopAndEscalate, true)
    else
      var at := ClampOutOfQuiet(st.now + NOTICE_LEAD);
      var t' := t + Eval(QuietHours, !Quiet(at));
      if p.at == OfferAlternateMethod then
        Build(e, t', OfferAlternateMethod, at, st.roundNo, None, None, None,
              Some(if e.payMethod == UpiAutopay then CardEmandate else UpiAutopay))
      else
        Build(e, t' + Eval(ReauthIsAContact, true), RequestReauth, at, st.roundNo, None, None,
              Some(Whatsapp), None)
  }

  /** The plan once every substitution that may rewrite it has been applied. */
  function Planned(e: FailureEvent, d: TypedDiagnosis, ra: RetryAdvice, ia: InterventionAdvice, st: State): Plan {
    var t := Eval(ConfidenceGate, Confident(d)) + Eval(StoppingRule, MayContinue(st));
    var p0 := Plan(IntentOf(ia.intervention), ia.intervention, e.amount, t);
    var p1 := LivenessStage(e, d, st, p0);
    var p2 := CapStage(e, st, p1);
    var p3 := AfaStage(st, p2);
    NoticeStage(ra, st, p3)
  }

  function Emit(e: FailureEvent, d: TypedDiagnosis, ra: RetryAdvice, ia: InterventionAdvice, st: State, p: Plan)
    : Action
  {
    if Charging(p.at) then
      Build(e, p.trace, p.at, ChargeTime(ra, st), st.roundNo, Some(p.amount), Some(ChargeDelay(ra)), None, None)
    else if p.at == SendNotification then NotifyStage(e, d, ia, st, p)
    else if p.at == GraceExtend then GraceStage(e, st, p)
    else if p.at == OfferAlternateMethod || p.at == RequestReauth then ContactStage(e, st, p)
    else Terminal(e, p.trace + Eval(NoApplicableAction, true), NoAction, false)
  }

  /** One call of the engine. `raises` says that it hits an unexpected error. */
  datatype Query = Query(
    raises: bool,
    e: FailureEvent,
    d: TypedDiagnosis,
    ra: RetryAdvice,
    ia: InterventionAdvice,
    st: State)

  /** The decision; on an unexpected error the engine fails closed. */
  function Decision(q: Query): Action {
    var Query(raises, e, d, ra, ia, st) := q;
    if raises then Terminal(e, Eval(EngineFailClosed, false), NoAction, true)
    else if !Confident(d) then Terminal(e, Eval(ConfidenceGate, false), NoAction, true)
    else if !MayContinue(st) then
      Terminal(e, Eval(ConfidenceGate, true) + Eval(StoppingRule, false), StopAndEscalate, true)
    else Emit(e, d, ra, ia, st, Planned(e, d, ra, ia, st))
  }

  // ------------------------------------------------------------------ the engine as written

  /** The charging branch up to the AFA check: retry cap, amount cap, re-authorization. */
  method PlanCharge(e: FailureEvent, state: LoopState, at: ActionType, desired: InterventionType,
                    trace: seq<RuleEvaluation>)
    returns (at': ActionType, desired': InterventionType, amount: Paise, trace': seq<RuleEvaluation>)
    requires Charging(at)
    ensures Plan(at', desired', amount, trace')
            == AfaStage(state.View(), CapStage(e, state.View(), Plan(at, desired, e.amount, trace)))
  {
    at', desired', amount := at, desired, e.amount;
    trace' := trace + Eval(NpciRetryCap, RetryBudgetLeft(state.View()));
    if !RetryBudgetLeft(state.View()) {
      at', desired' := SendNotification, WhatsappUpiLink;
      trace' := trace' + Eval(RetryCapSubstitution, false);
    } else {
      amount := if at == Retry then e.amount else Partial(e.amount);
      trace' := trace' + Eval(AmountWithinCap, WithinCap(amount, e));
      if !WithinCap(amount, e) {
        var partial := Partial(e.amount);
        if partial <= e.maxAmount {
          at', amount := PartialCharge, partial;
        } else {
          at', desired' := OfferAlternateMethod, MethodSwitch;
        }
        trace' := trace' + Eval(AmountSubstitution, false);
      }
      if Charging(at') {
        trace' := trace' + Eval(AfaExemption, AfaSatisfied(amount, state.reauthDone));
        if !AfaSatisfied(amount, state.reauthDone) {
          at', desired' := RequestReauth, ReauthLink;
          trace' := trace' + Eval(AfaSubstitution, false);
        }
      }
    }
  }

  /** The engine's own straight-line form: a growing trace and branch-by-branch reassignment. */
  method Decide(raises: bool, e: FailureEvent, d: TypedDiagnosis, ra: RetryAdvice, ia: InterventionAdvice,
                state: LoopState)
    returns (a: Action)
    ensures a == Decision(Query(raises, e, d, ra, ia, state.View()))
  {
    if raises {
      return Terminal(e, Eval(EngineFailClosed, false), NoAction, true);
    }
    ghost var st := state.View();
    var trace := Eval(ConfidenceGate, Confident(d));
    if !Confident(d) {
      return Terminal(e, trace, NoAction, true);
    }
    trace := trace + Eval(StoppingRule, MayContinue(state.View()));
    if !MayContinue(state.View()) {
      return Terminal(e, trace, StopAndEscalate, true);
    }
    var desired := ia.intervention;
    var at := IntentOf(desired);
    var amount := e.amount;

    var live := Live(e, d);
    trace := trace + Eval(MandateLiveForCharge, live);
    if !live && Charging(at) {
      if Dead(e.mandateState) && !state.reauthDone {
        at, desired := RequestReauth, ReauthLink;
      } else {
        at, desired := SendNotification, WhatsappUpiLink;
      }
      trace := trace + Eval(DeadMandateSubstitution, false);
    }
    if Charging(at) {
      at, desired, amount, trace := PlanCharge(e, state, at, desired, trace);
    }
    if Charging(at) {
      var delay := Snap(ra.delayHours);
      var scheduled := state.now + (if delay >= 1 then delay else 1) * HOUR;
      trace := trace + Eval(PredebitNotice24h, NoticeGiven(state.View(), scheduled));
      if !NoticeGiven(state.View(), scheduled) {
        at, desired := SendNotification, WhatsappUpiLink;
        trace := trace + Eval(PredebitNoticeSubstitution, false);
      } else {
        return Build(e, trace, at, scheduled, state.roundNo, Some(amount), Some(delay), None, None);
      }
    }
    assert Plan(at, desired, amount, trace) == Planned(e, d, ra, ia, st);
    a := Emit(e, d, ra, ia, state.View(), Plan(at, desired, amount, trace));
  }
}
