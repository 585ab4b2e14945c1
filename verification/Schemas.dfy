/** The typed contract every component speaks, and the policy constants.

    Money is integer paise. An instant is an integer number of microseconds counted from a
    local midnight, so the hour of day is read off its remainder modulo one day. */
module Schemas {

  datatype Option<+T> = None | Some(value: T) {
    function GetOr(default: T): T { if None? then default else value }
  }

  type Instant = int
  type Paise = n: int | 0 < n witness 1
  type Probability = p: real | 0.0 <= p <= 1.0
  type DelayHours = h: real | 0.0 <= h <= 336.0

  const MINUTE: int := 60_000_000
  const HOUR: int := 60 * MINUTE
  const DAY: int := 24 * HOUR

  // --- policy constants
  const NPCI_MAX_RETRIES: nat := 3
  const PREDEBIT_NOTICE: int := 24 * HOUR
  const AFA_CEILING: int := 1_500_000
  const QUIET_START: nat := 21
  const QUIET_END: nat := 8
  const MAX_CONTACTS: nat := 3
  const OUTREACH_FLOOR: real := 150.0
  const LOW_CONFIDENCE: real := 0.55

  datatype PaymentMethod = UpiAutopay | CardEmandate

  datatype MandateState = Active | Paused | Expired | Revoked

  datatype FailureCause =
    | InsufficientFunds
    | BankDowntime
    | LimitExceeded
    | MandatePaused
    | MandateExpired
    | TechDecline
    | SuspectedChurn
    | UnknownCause

  datatype InterventionType =
    | NoOp
    | RetryOnly
    | WhatsappUpiLink
    | SmsReminder
    | Grace48h
    | PartialChargeArm
    | MethodSwitch
    | ReauthLink

  datatype ActionType =
    | Retry
    | SendNotification
    | OfferAlternateMethod
    | GraceExtend
    | PartialCharge
    | RequestReauth
    | StopAndEscalate
    | NoAction

  datatype Channel = Whatsapp | Sms

  datatype FailureEvent = FailureEvent(
    mandateId: string,
    payMethod: PaymentMethod,
    amount: Paise,
    occurredAt: Instant,
    mandateState: MandateState,
    maxAmount: Paise,
    contactsThisWeek: nat,
    graceUsed: bool)

  datatype TypedDiagnosis = TypedDiagnosis(cause: FailureCause, confidence: Probability)

  datatype RetryAdvice = RetryAdvice(delayHours: DelayHours, pSuccess: Probability)

  datatype InterventionAdvice = InterventionAdvice(intervention: InterventionType, pRecover: Probability)

  datatype RuleName =
    | EngineFailClosed
    | ConfidenceGate
    | StoppingRule
    | MandateLiveForCharge
    | DeadMandateSubstitution
    | NpciRetryCap
    | RetryCapSubstitution
    | AmountWithinCap
    | AmountSubstitution
    | AfaExemption
    | AfaSubstitution
    | PredebitNotice24h
    | PredebitNoticeSubstitution
    | ContactFrequency
    | OutreachEconomics
    | EconomicsSubstitution
    | QuietHours
    | GraceOnce
    | ReauthIsAContact
    | NoApplicableAction

  datatype RuleEvaluation = RuleEvaluation(rule: RuleName, passed: bool)

  /** The only executable thing. `keyRound` is the round number inside the idempotency key;
      the key itself is a function of mandate, round, type and schedule (module IdempotencyKey). */
  datatype Action = Action(
    actionType: ActionType,
    mandateId: string,
    keyRound: nat,
    scheduledAt: Instant,
    amount: Option<Paise>,
    bucket: Option<nat>,
    channel: Option<Channel>,
    altMethod: Option<PaymentMethod>,
    trace: seq<RuleEvaluation>,
    requiresHuman: bool)

  datatype ExecutionResult = ExecutionResult(
    action: Action,
    executed: bool,
    dedupHit: bool,
    success: Option<bool>,
    recovered: int)

  datatype MandateResolution = MandateResolution(
    mandateId: string,
    amountAtRisk: Paise,
    recovered: bool,
    recoveredAmount: int,
    retriesUsed: nat,
    contactsMade: nat,
    terminalAction: ActionType,
    escalated: bool,
    timeline: seq<ExecutionResult>)

  predicate Charging(at: ActionType) { at == Retry || at == PartialCharge }

  predicate Contacting(at: ActionType) {
    at == SendNotification || at == OfferAlternateMethod || at == RequestReauth
  }

  /** Actions the stall-breaker watches. */
  predicate NonCharging(at: ActionType) {
    Contacting(at) || at == GraceExtend || at == NoAction
  }

  /** Everything the executor reserves a key for. */
  predicate Money(at: ActionType) { at != NoAction && at != StopAndEscalate }

  predicate Dead(m: MandateState) { m != Active }

  predicate DeadCause(c: FailureCause) { c == MandatePaused || c == MandateExpired }

  // What the compliance checker counts: a step is a charge, a notice, ... only once executed.
  predicate IsCharge(r: ExecutionResult) { r.executed && Charging(r.action.actionType) }
  predicate IsNotice(r: ExecutionResult) { r.executed && r.action.actionType == SendNotification }
  predicate IsContact(r: ExecutionResult) { r.executed && Contacting(r.action.actionType) }
  predicate IsReauth(r: ExecutionResult) { r.executed && r.action.actionType == RequestReauth }

  function AmountOf(r: ExecutionResult): nat {
    match r.action.amount case None => 0 case Some(a) => a
  }
}
