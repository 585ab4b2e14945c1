/** The 14-round bound is attained: a run that alternates idle rounds with every action there is. */
module LongestRun {
  import opened Schemas
  import opened Rules
  import opened Simulation
  import opened Engine
  import opened EngineTheorems
  import opened Agent
  import opened LoopTheorems
  import opened Outcomes

  const MANDATE := FailureEvent("m", UpiAutopay, 100_000, 0, Active, 100_000, 0, false)
  const DIAGNOSIS := TypedDiagnosis(UnknownCause, 1.0)

  function RoundFor(arm: InterventionType): Round {
    Round(RetryAdvice(48.0, 0.5), InterventionAdvice(arm, 1.0), false, Outcome(true, Some(false), 0))
  }

  // A running head with r retries and c contacts used.
  predicate Between(s: Session, r: nat, c: nat, grace: bool, idle: bool) {
    && s.exit.Running? && s.st.retriesUsed == s.st.declines == r && s.st.contacts == c
    && s.st.graceUsed == grace
    && (s.lastNonCharge == Some(NoAction) <==> idle)
    && (c > 0 ==> s.st.lastNotice.Some? && s.st.lastNotice.value <= s.st.now)
  }

  // What one arm of the script does at a head.
  function Effect(arm: InterventionType, r: nat, c: nat, grace: bool): (nat, nat, bool) {
    match arm
    case RetryOnly => (r + 1, c, grace)
    case Grace48h => (r, c, true)
    case NoOp => (r, c, grace)
    case _ => (r, c + 1, grace)
  }

  lemma ScriptedAction(decide: Query -> Action, s: Session, arm: InterventionType, r: nat, c: nat, grace: bool,
                       idle: bool)
    requires KeepsTable(decide) && Between(s, r, c, grace, idle) && r < 3
    requires arm in {WhatsappUpiLink, MethodSwitch} ==> c < 3
    requires arm in {NoOp, WhatsappUpiLink, Grace48h, MethodSwitch, RetryOnly}
    requires arm == Grace48h ==> !grace
    requires arm == RetryOnly ==> c > 0
    ensures var a := decide(Asked(MANDATE, DIAGNOSIS, Head(s), RoundFor(arm)));
            a.actionType == IntentOf(arm) && !a.requiresHuman
  {
    var q := Asked(MANDATE, DIAGNOSIS, Head(s), RoundFor(arm));
    var a := decide(q);
    assert InTable(q, a) && Carries(q, a);
    assert q.ia.intervention == arm && Economic(1.0, MANDATE.amount);
    if arm == RetryOnly {
      SnapFixesBuckets(48);
      assert 48.0 == 48 as real;
      assert Direct(q);
    }
  }

  // The outcome of a scripted action: executed if it can be, and never a win.
  predicate Plain(x: ExecutionResult, at: ActionType) {
    && x.action.actionType == at && !x.action.requiresHuman
    && (x.executed <==> Money(at)) && !Wins(x)
  }

  lemma IdleStep(s: Session, x: ExecutionResult, r: nat, c: nat, grace: bool)
    requires Plain(x, NoAction) && Between(s, r, c, grace, false) && (r < 3 || c < 3)
    ensures Between(Settle(s, Head(s), x), r, c, grace, true)
  {
  }

  lemma ChargeStep(s: Session, x: ExecutionResult, r: nat, c: nat, grace: bool)
    requires Plain(x, Retry) && Between(s, r, c, grace, true) && (r + 1 < 3 || c < 3)
    ensures Between(Settle(s, Head(s), x), r + 1, c, grace, false)
  {
  }

  lemma NoticeStep(s: Session, x: ExecutionResult, r: nat, c: nat, grace: bool)
    requires Plain(x, SendNotification) && Between(s, r, c, grace, true) && (r < 3 || c + 1 < 3)
    ensures Between(Settle(s, Head(s), x), r, c + 1, grace, false)
  {
  }

  lemma OfferStep(s: Session, x: ExecutionResult, r: nat, c: nat, grace: bool)
    requires Plain(x, OfferAlternateMethod) && Between(s, r, c, grace, true) && (r < 3 || c + 1 < 3) && c > 0
    ensures Between(Settle(s, Head(s), x), r, c + 1, grace, false)
  {
  }

  lemma GraceStep(s: Session, x: ExecutionResult, r: nat, c: nat, grace: bool)
    requires Plain(x, GraceExtend) && Between(s, r, c, grace, true) && (r < 3 || c < 3)
    ensures Between(Settle(s, Head(s), x), r, c, true, false)
  {
  }

  lemma ScriptedRound(decide: Query -> Action, s: Session, arm: InterventionType, r: nat, c: nat, grace: bool)
    requires KeepsTable(decide) && r < 3
    requires arm in {WhatsappUpiLink, MethodSwitch} ==> c < 3
    requires arm in {NoOp, WhatsappUpiLink, Grace48h, MethodSwitch, RetryOnly}
    requires Between(s, r, c, grace, arm != NoOp)
    requires arm == Grace48h ==> !grace
    requires arm in {RetryOnly, MethodSwitch} ==> c > 0
    requires var (r', c', _) := Effect(arm, r, c, grace); r' < 3 || c' < 3
    ensures var (r', c', grace') := Effect(arm, r, c, grace);
            Between(Step(decide, MANDATE, DIAGNOSIS, s, RoundFor(arm)), r', c', grace', arm == NoOp)
  {
    ScriptedAction(decide, s, arm, r, c, grace, arm != NoOp);
    var x := ResultOf(decide, MANDATE, DIAGNOSIS, s, RoundFor(arm));
    match arm {
      case NoOp => IdleStep(s, x, r, c, grace);
      case RetryOnly => ChargeStep(s, x, r, c, grace);
      case WhatsappUpiLink => NoticeStep(s, x, r, c, grace);
      case MethodSwitch => OfferStep(s, x, r, c, grace);
      case Grace48h => GraceStep(s, x, r, c, grace);
    }
  }

  /** A script of arms, one a round. */
  datatype Script = Done | Then(arm: InterventionType, rest: Script)

  function RoundsOf(p: Script): seq<Round> {
    match p case Done => [] case Then(arm, rest) => [RoundFor(arm)] + RoundsOf(rest)
  }

  // Idle rounds alternate with actions, and no action overruns its budget.
  predicate Playable(p: Script, r: nat, c: nat, grace: bool, idle: bool) {
    match p
    case Done => true
    case Then(arm, rest) =>
      var (r', c', grace') := Effect(arm, r, c, grace);
      && arm in {NoOp, WhatsappUpiLink, Grace48h, MethodSwitch, RetryOnly}
      && idle == (arm != NoOp)
      && r < 3
      && (arm in {WhatsappUpiLink, MethodSwitch} ==> c < 3)
      && (arm in {RetryOnly, MethodSwitch} ==> c > 0)
      && (arm == Grace48h ==> !grace)
      && (r' < 3 || c' < 3)
      && Playable(rest, r', c', grace', arm == NoOp)
  }

  lemma {:induction false} PlayableRuns(decide: Query -> Action, rs: seq<Round>, n: nat, p: Script, r: nat, c: nat,
                                        grace: bool, idle: bool)
    requires KeepsTable(decide) && Playable(p, r, c, grace, idle)
    requires n <= |rs| && rs[n..] == RoundsOf(p) && Between(After(decide, MANDATE, DIAGNOSIS, rs, n), r, c, grace, idle)
    ensures After(decide, MANDATE, DIAGNOSIS, rs, |rs|).exit.Running?
    decreases p
  {
    if p.Then? {
      assert rs[n] == rs[n..][0] && rs[n + 1..] == rs[n..][1..];
      ScriptedRound(decide, After(decide, MANDATE, DIAGNOSIS, rs, n), p.arm, r, c, grace);
      var (r', c', grace') := Effect(p.arm, r, c, grace);
      PlayableRuns(decide, rs, n + 1, p.rest, r', c', grace', p.arm == NoOp);
    }
  }

  const THIRTEEN: Script :=
    Then(NoOp, Then(WhatsappUpiLink, Then(NoOp, Then(Grace48h, Then(NoOp, Then(MethodSwitch, Then(NoOp,
    Then(RetryOnly, Then(NoOp, Then(RetryOnly, Then(NoOp, Then(MethodSwitch, Then(NoOp, Done)))))))))))))

  lemma ThirteenIsPlayable()
    ensures Playable(THIRTEEN, 0, 0, false, false) && |RoundsOf(THIRTEEN)| == 13
  {
  }

  lemma {:induction false} PrefixPlays(decide: Query -> Action, rs: seq<Round>, last: Round, n: nat)
    requires n <= |rs|
    ensures After(decide, MANDATE, DIAGNOSIS, rs + [last], n) == After(decide, MANDATE, DIAGNOSIS, rs, n)
    ensures var s := After(decide, MANDATE, DIAGNOSIS, rs, |rs|);
            s.exit.Running? && n == |rs| ==>
              |After(decide, MANDATE, DIAGNOSIS, rs + [last], n + 1).timeline| == |s.timeline| + 1
  {
    if n > 0 {
      PrefixPlays(decide, rs, last, n - 1);
    }
    RoundExtends(decide, MANDATE, DIAGNOSIS, After(decide, MANDATE, DIAGNOSIS, rs, |rs|), last);
  }

  lemma ScriptExecutes(p: Script)
    ensures forall i | 0 <= i < |RoundsOf(p)| :: RoundsOf(p)[i].outcome.executed
  {
  }

  /** A run that takes all 14 rounds: the bound on termination cannot be lowered, and the agent's
      own budget of 10 rounds does cut runs short. */
  lemma FourteenRoundsHappen(decide: Query -> Action, rs: seq<Round>)
    requires KeepsTable(decide) && rs == RoundsOf(THIRTEEN)
    ensures |rs| + 1 == LONGEST_RUN && After(decide, MANDATE, DIAGNOSIS, rs, |rs|).exit.Running?
    ensures |Recovery(decide, MANDATE, DIAGNOSIS, rs + [RoundFor(RetryOnly)]).timeline| == LONGEST_RUN
    ensures AlwaysExecuted(decide, MANDATE, DIAGNOSIS, rs + [RoundFor(RetryOnly)])
  {
    ThirteenIsPlayable();
    assert rs[0..] == rs;
    PlayableRuns(decide, rs, 0, THIRTEEN, 0, 0, false, false);
    PrefixPlays(decide, rs, RoundFor(RetryOnly), |rs|);
    RunLength(decide, MANDATE, DIAGNOSIS, rs, |rs|);
    ScriptExecutes(THIRTEEN);
  }
}
