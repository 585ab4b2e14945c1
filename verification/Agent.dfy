/** The recovery agent: one bounded loop per mandate. */
module Agent {
  import opened Schemas
  import opened Rules
  import opened Simulation
  import opened Engine

  const MAX_ROUNDS: nat := 10

  /** What the executor reports back for an action that touches money or the customer. */
  datatype Outcome = Outcome(executed: bool, success: Option<bool>, recovered: int)

  /** Everything one round takes from outside: both advisors' advice, whether the engine hits an
      unexpected error, and the outcome of the action. Advisors may look at what was tried, so
      a run is quantified over every sequence of rounds. */
  datatype Round = Round(retry: RetryAdvice, arm: InterventionAdvice, raises: bool, outcome: Outcome)

  /** How the loop was left. */
  datatype Exit = Running | Won | ByEngine | Stalled | BudgetsSpent

  datatype Session = Session(
    st: State,
    timeline: seq<ExecutionResult>,
    triedDelays: set<nat>,
    triedArms: set<InterventionType>,
    lastNonCharge: Option<ActionType>,
    repeats: nat,
    exit: Exit)

  // ------------------------------------------------------------------ advice as the loop uses it

  /** The first retry needs a 24h notice first, so an earlier ask is moved to 25h. */
  function AlignDelay(st: State, ra: RetryAdvice): RetryAdvice {
    if st.lastNotice.None? && ra.delayHours < 25.0 then ra.(delayHours := 25.0) else ra
  }

  predicate RetryFirst(c: FailureCause) { c == TechDecline || c == BankDowntime || c == SuspectedChurn }

  /** On retry-first causes the retry budget goes to full retries before any other arm. */
  function PreferRetry(ra: RetryAdvice, ia: InterventionAdvice, d: TypedDiagnosis, retriesUsed: nat)
    : InterventionAdvice
  {
    if retriesUsed >= NPCI_MAX_RETRIES || !RetryFirst(d.cause) || ia.intervention == RetryOnly then ia
    else InterventionAdvice(RetryOnly, ra.pSuccess)
  }

  function ArmOf(at: ActionType, channel: Option<Channel>): Option<InterventionType> {
    match at
    case PartialCharge => Some(PartialChargeArm)
    case GraceExtend => Some(Grace48h)
    case OfferAlternateMethod => Some(MethodSwitch)
    case RequestReauth => Some(ReauthLink)
    case SendNotification => if channel == Some(Sms) then Some(SmsReminder) else Some(WhatsappUpiLink)
    case _ => None
  }

  function Executed(a: Action, o: Outcome): ExecutionResult {
    if Money(a.actionType) then ExecutionResult(a, o.executed, !o.executed, o.success, o.recovered)
    else ExecutionResult(a, false, false, None, 0)
  }

  // ------------------------------------------------------------------ one round

  /** What the engine is asked: both advisors' advice as the loop amends it, and the state. */
  function Asked(e: FailureEvent, d: TypedDiagnosis, st: State, r: Round): Query {
    var ra := AlignDelay(st, r.retry);
    Query(r.raises, e, d, ra, PreferRetry(ra, r.arm, d, st.retriesUsed), st)
  }

  predicate Wins(r: ExecutionResult) { r.executed && r.success == Some(true) }

  /** The executed effects of one step on the loop state. */
  function Applied(st: State, r: ExecutionResult): State {
    if !r.executed then st
    else match r.action.actionType
      case Retry => st.(retriesUsed := st.retriesUsed + 1, declines := if Wins(r) then 0 else st.declines + 1)
      case PartialCharge => st.(retriesUsed := st.retriesUsed + 1, declines := if Wins(r) then 0 else st.declines + 1)
      case SendNotification => st.(contacts := st.contacts + 1, lastNotice := Some(r.action.scheduledAt))
      case GraceExtend => st.(graceUsed := true)
      case OfferAlternateMethod => st.(contacts := st.contacts + 1)
      case RequestReauth => st.(contacts := st.contacts + 1, reauthDone := true)
      case _ => st
  }

  function Advanced(st: State, a: Action): State {
    st.(now := (if st.now >= a.scheduledAt then st.now else a.scheduledAt) + 30 * MINUTE)
  }

  predicate BothBudgetsSpent(st: State) { !RetryBudgetLeft(st) && !ContactBudgetLeft(st) }

  function Repeats(last: Option<ActionType>, repeats: nat, at: ActionType): nat {
    if !NonCharging(at) then 0 else if last == Some(at) then repeats + 1 else 1
  }

  function DelaysTried(tried: set<nat>, r: ExecutionResult): set<nat> {
    if IsCharge(r) && r.action.bucket.Some? then tried + {SnapDelay(r.action.bucket.value as real)} else tried
  }

  function ArmsTried(tried: set<InterventionType>, r: ExecutionResult): set<InterventionType> {
    var arm := ArmOf(r.action.actionType, r.action.channel);
    if r.executed && arm.Some? then tried + {arm.value} else tried
  }

  function LastNonCharge(at: ActionType): Option<ActionType> {
    if NonCharging(at) then Some(at) else None
  }

  predicate EndsByEngine(a: Action) { a.actionType == StopAndEscalate || a.requiresHuman }

  /** What happens once the executor has answered: explicit terminal, stall-breaker, effects,
      success, spent budgets, in that order. */
  function Settle(s: Session, st: State, r: ExecutionResult): Session {
    var a, tl := r.action, s.timeline + [r];
    if EndsByEngine(a) then
      Session(st, tl, s.triedDelays, s.triedArms, s.lastNonCharge, s.repeats, ByEngine)
    else if Repeats(s.lastNonCharge, s.repeats, a.actionType) >= 2 then
      Session(st, tl, s.triedDelays, s.triedArms, LastNonCharge(a.actionType),
              Repeats(s.lastNonCharge, s.repeats, a.actionType), Stalled)
    else if Wins(r) then
      Session(Applied(st, r), tl, DelaysTried(s.triedDelays, r), ArmsTried(s.triedArms, r),
              LastNonCharge(a.actionType), Repeats(s.lastNonCharge, s.repeats, a.actionType), Won)
    else
      var st' := Advanced(Applied(st, r), a);
      Session(st', tl, DelaysTried(s.triedDelays, r), ArmsTried(s.triedArms, r),
              LastNonCharge(a.actionType), Repeats(s.lastNonCharge, s.repeats, a.actionType),
              if BothBudgetsSpent(st') then BudgetsSpent else Running)
  }

  /** The state the engine is shown: the round number is the number of steps taken. */
  function Head(s: Session): State { s.st.(roundNo := |s.timeline|) }

  function ResultOf(decide: Query -> Action, e: FailureEvent, d: TypedDiagnosis, s: Session, r: Round)
    : ExecutionResult
  {
    Executed(decide(Asked(e, d, Head(s), r)), r.outcome)
  }

  function Step(decide: Query -> Action, e: FailureEvent, d: TypedDiagnosis, s: Session, r: Round): Session {
    Settle(s, Head(s), ResultOf(decide, e, d, s, r))
  }

  // ------------------------------------------------------------------ whole runs

  function Start(e: FailureEvent): Session {
    Session(State(e.occurredAt + 5 * MINUTE, 0, 0, e.contactsThisWeek, 0, e.graceUsed, None, false),
            [], {}, {}, None, 0, Running)
  }

  /** The session after at most n rounds. */
  function After(decide: Query -> Action, e: FailureEvent, d: TypedDiagnosis, rs: seq<Round>, n: nat): Session
    requires n <= |rs|
  {
    if n == 0 then Start(e)
    else
      var s := After(decide, e, d, rs, n - 1);
      if s.exit.Running? then Step(decide, e, d, s, rs[n - 1]) else s
  }

  function Resolution(e: FailureEvent, s: Session): MandateResolution {
    var won := s.exit == Won;
    var last := if |s.timeline| > 0 then Some(s.timeline[|s.timeline| - 1]) else None;
    MandateResolution(
      e.mandateId, e.amount, won,
      if won && last.Some? then last.value.recovered else 0,
      s.st.retriesUsed, s.st.contacts,
      if won && last.Some? then last.value.action.actionType else StopAndEscalate,
      !won, s.timeline)
  }

  /** The resolution with a round budget of |rs|; the agent's own budget is MAX_ROUNDS. */
  function Recovery(decide: Query -> Action, e: FailureEvent, d: TypedDiagnosis, rs: seq<Round>): MandateResolution {
    Resolution(e, After(decide, e, d, rs, |rs|))
  }

  // ------------------------------------------------------------------ the loop as written

  lemma StaysLeft(decide: Query -> Action, e: FailureEvent, d: TypedDiagnosis, rs: seq<Round>, n: nat, m: nat)
    requires n <= m <= |rs| && !After(decide, e, d, rs, n).exit.Running?
    ensures After(decide, e, d, rs, m) == After(decide, e, d, rs, n)
  {
  }

  /** The if-chain that turns an executed step into loop state. */
  method ApplyEffects(state: LoopState, result: ExecutionResult) returns (won: bool)
    requires result.executed ==> Money(result.action.actionType)
    modifies state
    ensures state.View() == Applied(old(state.View()), result)
    ensures won == Wins(result)
  {
    var at := result.action.actionType;
    won := result.executed && result.success == Some(true);
    if result.executed && Charging(at) {
      state.retriesUsed := state.retriesUsed + 1;
      if won {
        state.declines := 0;
      } else {
        state.declines := state.declines + 1;
      }
    } else if result.executed && at == SendNotification {
      state.contacts := state.contacts + 1;
      state.lastNotice := Some(result.action.scheduledAt);
    } else if result.executed && at == GraceExtend {
      state.graceUsed := true;
    } else if result.executed && at == OfferAlternateMethod {
      state.contacts := state.contacts + 1;
    } else if result.executed && at == RequestReauth {
      state.contacts := state.contacts + 1;
      state.reauthDone := true;
    }
  }

  /** The stall counter. */
  method CountRepeats(last: Option<ActionType>, repeats: nat, at: ActionType)
    returns (last': Option<ActionType>, repeats': nat)
    ensures last' == LastNonCharge(at) && repeats' == Repeats(last, repeats, at)
  {
    if NonCharging(at) {
      repeats' := if last == Some(at) then repeats + 1 else 1;
      last' := Some(at);
    } else {
      last', repeats' := None, 0;
    }
  }

  /** Round-awareness: what has been tried so far. */
  method MarkTried(delays: set<nat>, arms: set<InterventionType>, result: ExecutionResult)
    returns (delays': set<nat>, arms': set<InterventionType>)
    ensures delays' == DelaysTried(delays, result) && arms' == ArmsTried(arms, result)
  {
    delays', arms' := delays, arms;
    var a := result.action;
    if result.executed {
      if Charging(a.actionType) && a.bucket.Some? {
        var b := Snap(a.bucket.value as real);
        delays' := delays' + {b};
      }
      var arm := ArmOf(a.actionType, a.channel);
      if arm.Some? {
        arms' := arms' + {arm.value};
      }
    }
  }

  /** The clock moves past the action; both budgets spent ends the loop. */
  method CloseRound(state: LoopState, a: Action) returns (spent: bool)
    modifies state
    ensures state.View() == Advanced(old(state.View()), a)
    ensures spent == BothBudgetsSpent(state.View())
  {
    state.now := (if state.now >= a.scheduledAt then state.now else a.scheduledAt) + 30 * MINUTE;
    spent := state.retriesUsed >= NPCI_MAX_RETRIES && state.contacts >= MAX_CONTACTS;
  }

  /** A step's effects; unless it has won, the clock then moves past the action. */
  method FinishRound(state: LoopState, result: ExecutionResult) returns (won: bool, spent: bool)
    requires result.executed ==> Money(result.action.actionType)
    modifies state
    ensures won == Wins(result)
    ensures var st := Applied(old(state.View()), result);
            state.View() == if won then st else Advanced(st, result.action)
    ensures spent == (!won && BothBudgetsSpent(state.View()))
  {
    spent := false;
    won := ApplyEffects(state, result);
    if !won {
      spent := CloseRound(state, result.action);
    }
  }

  /** Both advisors' advice as the loop amends it, then the engine. */
  method Consult(decide: Query -> Action, e: FailureEvent, d: TypedDiagnosis, state: LoopState, r: Round)
    returns (action: Action)
    ensures action == decide(Asked(e, d, state.View(), r))
  {
    var ra := r.retry;
    if state.lastNotice.None? && ra.delayHours < 25.0 {
      ra := ra.(delayHours := 25.0);
    }
    var ia := PreferRetry(ra, r.arm, d, state.retriesUsed);
    action := decide(Query(r.raises, e, d, ra, ia, state.View()));
  }

  /** One round: advice, decision, outcome, and the exit it takes, if any. */
  method PlayRound(decide: Query -> Action, e: FailureEvent, d: TypedDiagnosis, r: Round, state: LoopState,
                   timeline: seq<ExecutionResult>, triedDelays: set<nat>, triedArms: set<InterventionType>,
                   lastNonCharge: Option<ActionType>, repeats: nat, ghost s: Session)
    returns (timeline': seq<ExecutionResult>, triedDelays': set<nat>, triedArms': set<InterventionType>,
             lastNonCharge': Option<ActionType>, repeats': nat, exit: Exit)
    requires s == Session(state.View(), timeline, triedDelays, triedArms, lastNonCharge, repeats, Running)
    modifies state
    ensures Session(state.View(), timeline', triedDelays', triedArms', lastNonCharge', repeats', exit)
            == Step(decide, e, d, s, r)
  {
    state.roundNo := |timeline|;
    assert state.View() == Head(s);
    var action := Consult(decide, e, d, state, r);
    var result := Executed(action, r.outcome);
    var at := action.actionType;
    timeline' := timeline + [result];
    triedDelays', triedArms', lastNonCharge', repeats' := triedDelays, triedArms, lastNonCharge, repeats;
    assert Step(decide, e, d, s, r) == Settle(s, Head(s), result);

    if at == StopAndEscalate || action.requiresHuman {
      exit := ByEngine;
      return;
    }
    lastNonCharge', repeats' := CountRepeats(lastNonCharge, repeats, at);
    if repeats' >= 2 {
      exit := Stalled;
      return;
    }
    triedDelays', triedArms' := MarkTried(triedDelays, triedArms, result);
    var won, spent := FinishRound(state, result);
    exit := if won then Won else if spent then BudgetsSpent else Running;
  }

  lemma NextRound(decide: Query -> Action, e: FailureEvent, d: TypedDiagnosis, rs: seq<Round>, n: nat)
    requires n < |rs| && After(decide, e, d, rs, n).exit.Running?
    ensures After(decide, e, d, rs, n + 1) == Step(decide, e, d, After(decide, e, d, rs, n), rs[n])
  {
  }

  lemma RoundExtends(decide: Query -> Action, e: FailureEvent, d: TypedDiagnosis, s: Session, r: Round)
    ensures Step(decide, e, d, s, r).timeline == s.timeline + [ResultOf(decide, e, d, s, r)]
  {
  }

  /** The loop itself; `s` is the session it has gone through when it is left. */
  method Rounds(decide: Query -> Action, e: FailureEvent, d: TypedDiagnosis, rs: seq<Round>, state: LoopState)
    returns (timeline: seq<ExecutionResult>, recovered: bool, recoveredAmount: int, terminal: ActionType,
             escalated: bool, ghost s: Session)
    requires |rs| == MAX_ROUNDS && state.View() == Start(e).st
    modifies state
    ensures s == After(decide, e, d, rs, MAX_ROUNDS)
    ensures s.st == state.View() && s.timeline == timeline
    ensures recovered <==> s.exit == Won
    ensures recovered ==> timeline != [] && !escalated
    ensures recovered ==> recoveredAmount == timeline[|timeline| - 1].recovered
    ensures recovered ==> terminal == timeline[|timeline| - 1].action.actionType
    ensures escalated ==> terminal == StopAndEscalate
  {
    timeline := [];
    recovered, recoveredAmount, terminal, escalated := false, 0, NoAction, false;
    var lastNonCharge: Option<ActionType>, repeats: nat := None, 0;
    var triedDelays: set<nat>, triedArms: set<InterventionType> := {}, {};
    s := Start(e);

    for rnd := 0 to MAX_ROUNDS
      invariant s == After(decide, e, d, rs, rnd) && |timeline| == rnd
      invariant s == Session(state.View(), timeline, triedDelays, triedArms, lastNonCharge, repeats, Running)
      invariant !recovered && !escalated
    {
      var exit: Exit;
      RoundExtends(decide, e, d, s, rs[rnd]);
      NextRound(decide, e, d, rs, rnd);
      timeline, triedDelays, triedArms, lastNonCharge, repeats, exit :=
        PlayRound(decide, e, d, rs[rnd], state, timeline, triedDelays, triedArms, lastNonCharge, repeats, s);
      s := Session(state.View(), timeline, triedDelays, triedArms, lastNonCharge, repeats, exit);
      if exit == Won {
        var last := timeline[|timeline| - 1];
        recovered, recoveredAmount, terminal := true, last.recovered, last.action.actionType;
      } else if exit != Running {
        terminal, escalated := StopAndEscalate, true;
      }
      if exit != Running {
        StaysLeft(decide, e, d, rs, rnd + 1, MAX_ROUNDS);
        break;
      }
    }
  }

  method Recover(decide: Query -> Action, e: FailureEvent, d: TypedDiagnosis, rs: seq<Round>)
    returns (res: MandateResolution)
    requires |rs| == MAX_ROUNDS
    ensures res == Recovery(decide, e, d, rs)
  {
    var state := new LoopState(e.occurredAt + 5 * MINUTE, e.contactsThisWeek, e.graceUsed);
    var timeline, recovered, recoveredAmount, terminal, escalated, s := Rounds(decide, e, d, rs, state);
    if !recovered && !escalated {
      terminal, escalated := StopAndEscalate, true;
    }
    res := MandateResolution(e.mandateId, e.amount, recovered, if recovered then recoveredAmount else 0,
                             state.retriesUsed, state.contacts, terminal, escalated, timeline);
  }
}
