/** What a decision promises, stated over its inputs rather than over its branches. */
module EngineTheorems {
  import opened Schemas
  import opened Rules
  import opened Simulation
  import opened Engine

  // ------------------------------------------------------------------ the decision table

  predicate Awake(q: Query) { !q.raises && Confident(q.d) && MayContinue(q.st) }

  predicate WantsCharge(q: Query) { q.ia.intervention == RetryOnly || q.ia.intervention == PartialChargeArm }

  predicate WantsNotice(q: Query) { q.ia.intervention == WhatsappUpiLink || q.ia.intervention == SmsReminder }

  predicate WantsFullCharge(q: Query) { q.ia.intervention == RetryOnly && WithinCap(q.e.amount, q.e) }

  /** The amount a charge may take under the mandate cap: all of it when that was asked for and
      fits, else six tenths when that fits. */
  function Affordable(q: Query): Option<Paise> {
    if WantsFullCharge(q) then Some(q.e.amount)
    else if WithinCap(Partial(q.e.amount), q.e) then Some(Partial(q.e.amount))
    else None
  }

  predicate Chargeable(q: Query) { WantsCharge(q) && Live(q.e, q.d) && RetryBudgetLeft(q.st) }

  /** A charge that passes every rule but the notice. */
  predicate Payable(q: Query) {
    Chargeable(q) && Affordable(q).Some? && AfaSatisfied(Affordable(q).value, q.st.reauthDone)
  }

  /** A charge goes out at its bucket, an hour from now at the earliest. */
  predicate NoticeInTime(q: Query) {
    var bucket := SnapDelay(q.ra.delayHours);
    NoticeGiven(q.st, q.st.now + (if bucket == 0 then 1 else bucket) * HOUR)
  }

  predicate Direct(q: Query) { Payable(q) && NoticeInTime(q) }

  predicate ForNotice(q: Query) {
    || WantsNotice(q)
    || (WantsCharge(q) && !Live(q.e, q.d) && (q.st.reauthDone || !Dead(q.e.mandateState)))
    || (WantsCharge(q) && Live(q.e, q.d) && !RetryBudgetLeft(q.st))
    || (Payable(q) && !NoticeInTime(q))
  }

  predicate ForReauth(q: Query) {
    || q.ia.intervention == ReauthLink
    || (WantsCharge(q) && Dead(q.e.mandateState) && !q.st.reauthDone)
    || (Chargeable(q) && Affordable(q).Some? && !Payable(q))
  }

  predicate ForOffer(q: Query) {
    q.ia.intervention == MethodSwitch || (Chargeable(q) && Affordable(q).None?)
  }

  predicate Uneconomic(q: Query) { !Economic(q.ia.pRecover, q.e.amount) }

  /** What the economics fallback checks before it retries 25 hours from now; AFA is not among it. */
  predicate FallbackOpen(q: Query) {
    Live(q.e, q.d) && WithinCap(q.e.amount, q.e) && RetryBudgetLeft(q.st) && NoticeGiven(q.st, q.st.now + 25 * HOUR)
  }

  predicate FallsBack(q: Query) {
    ForNotice(q) && ContactBudgetLeft(q.st) && Uneconomic(q) && FallbackOpen(q)
  }

  /** Every action type, and when exactly it is emitted. */
  predicate InTable(q: Query, a: Action) {
    && (Charging(a.actionType) <==> Awake(q) && (Direct(q) || FallsBack(q)))
    && (a.actionType == PartialCharge <==> Awake(q) && Direct(q) && !WantsFullCharge(q))
    && (a.actionType == SendNotification <==>
          Awake(q) && ForNotice(q) && ContactBudgetLeft(q.st) && !Uneconomic(q))
    && (a.actionType == RequestReauth <==> Awake(q) && ForReauth(q) && ContactBudgetLeft(q.st))
    && (a.actionType == OfferAlternateMethod <==> Awake(q) && ForOffer(q) && ContactBudgetLeft(q.st))
    && (a.actionType == GraceExtend <==> Awake(q) && q.ia.intervention == Grace48h && !q.st.graceUsed)
    && (a.actionType == StopAndEscalate <==>
          || (!q.raises && Confident(q.d) && !MayContinue(q.st))
          || (Awake(q) && !ContactBudgetLeft(q.st) && (ForReauth(q) || ForOffer(q)))
          || (Awake(q) && !ContactBudgetLeft(q.st) && ForNotice(q)
              && (!RetryBudgetLeft(q.st) || q.st.lastNotice.None?)))
    && (a.requiresHuman <==> q.raises || !Confident(q.d) || a.actionType == StopAndEscalate)
  }

  /** What each action carries. */
  predicate Carries(q: Query, a: Action) {
    && a.mandateId == q.e.mandateId && a.trace != []
    && a.keyRound == (if a.actionType == NoAction || a.actionType == StopAndEscalate then 999 else q.st.roundNo)
    && (!Money(a.actionType) ==> a.scheduledAt == q.e.occurredAt)
    && (Charging(a.actionType) ==>
          if Direct(q) then
            && a.amount == Affordable(q) && a.bucket == Some(SnapDelay(q.ra.delayHours))
            && a.scheduledAt == q.st.now + (if a.bucket.value == 0 then 1 else a.bucket.value) * HOUR
          else
            a.amount == Some(q.e.amount) && a.bucket == None && a.scheduledAt == q.st.now + 25 * HOUR)
    && (!Charging(a.actionType) ==> a.amount == None && a.bucket == None)
    && (Contacting(a.actionType) ==> a.scheduledAt == ClampOutOfQuiet(q.st.now + 6 * HOUR))
    && a.channel == (match a.actionType
                     case SendNotification => Some(if q.ia.intervention == SmsReminder then Sms else Whatsapp)
                     case RequestReauth => Some(Whatsapp)
                     case _ => None)
    && (a.actionType == GraceExtend ==> a.scheduledAt == q.st.now + 48 * HOUR)
    && (a.actionType == OfferAlternateMethod <==> a.altMethod.Some?)
    && (a.altMethod.Some? ==> a.altMethod.value != q.e.payMethod)
  }

  // Where the substitutions leave the plan.
  predicate PlanFits(q: Query, p: Plan) {
    && (Charging(p.at) <==> Direct(q))
    && (Charging(p.at) ==> Affordable(q) == Some(p.amount) && (p.at == Retry <==> WantsFullCharge(q)))
    && (p.at == SendNotification <==> ForNotice(q))
    && (p.at == RequestReauth <==> ForReauth(q))
    && (p.at == OfferAlternateMethod <==> ForOffer(q))
    && (p.at == GraceExtend <==> q.ia.intervention == Grace48h)
    && p.at != StopAndEscalate
    && (p.at == SendNotification ==> (p.desired == WhatsappUpiLink <==> q.ia.intervention != SmsReminder))
    && p.trace != []
  }

  lemma PlannedFits(q: Query)
    ensures PlanFits(q, Planned(q.e, q.d, q.ra, q.ia, q.st))
  {
    var Query(_, e, d, ra, ia, st) := q;
    var t := Eval(ConfidenceGate, Confident(d)) + Eval(StoppingRule, MayContinue(st));
    var p1 := LivenessStage(e, d, st, Plan(IntentOf(ia.intervention), ia.intervention, e.amount, t));
    assert p1.trace != [] && (Charging(p1.at) <==> WantsCharge(q) && Live(e, d));
    var p2 := CapStage(e, st, p1);
    assert p2.trace != [] && (Charging(p2.at) <==> Chargeable(q) && Affordable(q).Some?);
    assert Charging(p2.at) ==> Affordable(q) == Some(p2.amount);
    var p3 := AfaStage(st, p2);
    assert p3.trace != [] && (Charging(p3.at) <==> Payable(q));
  }

  lemma EmitFits(q: Query, p: Plan)
    requires Awake(q) && PlanFits(q, p)
    ensures InTable(q, Emit(q.e, q.d, q.ra, q.ia, q.st, p)) && Carries(q, Emit(q.e, q.d, q.ra, q.ia, q.st, p))
  {
  }

  lemma DecisionTable(q: Query)
    ensures InTable(q, Decision(q)) && Carries(q, Decision(q))
  {
    if Awake(q) {
      PlannedFits(q);
      EmitFits(q, Planned(q.e, q.d, q.ra, q.ia, q.st));
    }
  }

  /** An engine, as the agent holds one: any function from calls to actions. The loop's theorems
      are about every engine that keeps the table, `Decision` being one. */
  ghost predicate KeepsTable(decide: Query -> Action) {
    forall q: Query :: InTable(q, decide(q)) && Carries(q, decide(q))
  }

  lemma DecisionKeepsTable()
    ensures KeepsTable(Decision)
  {
    forall q: Query ensures InTable(q, Decision(q)) && Carries(q, Decision(q)) {
      DecisionTable(q);
    }
  }

  // ------------------------------------------------------------------ safety of one decision

  /** Everything the recovery loop relies on. */
  predicate Sound(q: Query, a: Action) {
    && a.trace != []
    && a.mandateId == q.e.mandateId
    && (Money(a.actionType) ==>
          && a.keyRound == q.st.roundNo && !a.requiresHuman && a.scheduledAt >= q.st.now + HOUR
          && Confident(q.d) && MayContinue(q.st))
    && (Charging(a.actionType) ==>
          && Live(q.e, q.d) && RetryBudgetLeft(q.st)
          && NoticeGiven(q.st, a.scheduledAt)
          && a.amount.Some? && a.amount.value <= q.e.maxAmount && a.amount.value <= q.e.amount)
    && (Contacting(a.actionType) ==> ContactBudgetLeft(q.st) && !Quiet(a.scheduledAt))
    && (a.actionType == GraceExtend ==> !q.st.graceUsed)
    && (a.actionType == StopAndEscalate ==> a.requiresHuman)
    && (!MayContinue(q.st) ==> a.requiresHuman)
  }

  lemma TableIsSound(q: Query, a: Action)
    requires InTable(q, a) && Carries(q, a)
    ensures Sound(q, a)
  {
    ClampIsLeast(q.st.now + 6 * HOUR);
    PartialIsNearest(q.e.amount, 0);
  }

  // ------------------------------------------------------------------ the AFA rule

  /** The guard of the branch that omits the AFA check. */
  predicate AfaGap(q: Query) {
    && Awake(q)
    && q.e.amount > AFA_CEILING && !q.st.reauthDone
    && FallbackOpen(q)
    && ContactBudgetLeft(q.st) && Uneconomic(q)
    && (|| q.ia.intervention == WhatsappUpiLink
        || q.ia.intervention == SmsReminder
        || (q.ia.intervention == PartialChargeArm && Partial(q.e.amount) <= AFA_CEILING && !NoticeInTime(q)))
  }

  predicate UnauthorizedCharge(q: Query, a: Action) {
    Charging(a.actionType) && a.amount.Some? && a.amount.value > AFA_CEILING && !q.st.reauthDone
  }

  lemma TableAfa(q: Query, a: Action)
    requires InTable(q, a) && Carries(q, a)
    ensures UnauthorizedCharge(q, a) <==> AfaGap(q)
    ensures UnauthorizedCharge(q, a) ==> a.bucket == None && a.amount == Some(q.e.amount)
  {
    PartialIsNearest(q.e.amount, 0);
  }

  /** A charge above the ceiling goes out without a re-authorization exactly in the economics
      fallback: its guard is necessary and sufficient. Such a charge carries no delay bucket. */
  lemma AfaHoldsExactlyOutsideTheFallback(q: Query)
    ensures UnauthorizedCharge(q, Decision(q)) <==> AfaGap(q)
    ensures UnauthorizedCharge(q, Decision(q)) ==> Decision(q).bucket == None
  {
    DecisionTable(q);
    TableAfa(q, Decision(q));
  }
}
