/** The course of a run, read off its timeline: when exactly it stops, what the clock shows, and what
    counts as tried. */
module Course {
  import opened Schemas
  import opened Rules
  import opened Simulation
  import opened Engine
  import opened EngineTheorems
  import opened Agent
  import opened Invariants
  import opened LoopTheorems
  import opened Compliance
  import opened Outcomes

  // ------------------------------------------------------------------ when the loop stops

  /** The last step gives a reason to stop: the engine escalates, the run stalls, the step wins, or
      both budgets are spent with it. */
  predicate ReasonToStop(e: FailureEvent, tl: seq<ExecutionResult>) {
    && tl != []
    && var x := tl[|tl| - 1];
       || x.action.actionType == StopAndEscalate
       || x.action.requiresHuman
       || StallEnd(tl)
       || (x.executed && x.success == Some(true))
       || (|Select(tl, IsCharge)| >= 3 && e.contactsThisWeek + |Select(tl, IsContact)| >= 3)
  }

  lemma GoesOn(e: FailureEvent, s: Session, x: ExecutionResult)
    requires Tracks(e, s) && s.exit.Running? && (x.executed ==> Money(x.action.actionType))
    requires Settle(s, Head(s), x).exit.Running?
    ensures !ReasonToStop(e, s.timeline + [x])
  {
    StillRunning(s, Head(s), x);
    RoundTracks(e, s, x);
  }

  lemma Stops(e: FailureEvent, s: Session, x: ExecutionResult)
    requires Tracks(e, s) && s.exit.Running? && !Settle(s, Head(s), x).exit.Running?
    ensures ReasonToStop(e, s.timeline + [x])
  {
    StallIsVisible(e, s, x);
    if !EndsByEngine(x.action) && !Wins(x) && Repeats(s.lastNonCharge, s.repeats, x.action.actionType) < 2 {
      AppliedChanges(Head(s), x);
      StepSummary(e, s.timeline, s.st, x, Advanced(Applied(Head(s), x), x.action));
    }
  }

  // One round, whatever the engine.
  lemma RunningGoesOn(decide: Query -> Action, e: FailureEvent, d: TypedDiagnosis, rs: seq<Round>, k: nat)
    requires k < |rs| && Tracks(e, After(decide, e, d, rs, k)) && After(decide, e, d, rs, k + 1).exit.Running?
    ensures !ReasonToStop(e, After(decide, e, d, rs, k + 1).timeline)
  {
    var s := After(decide, e, d, rs, k);
    NextRound(decide, e, d, rs, k);
    RoundExtends(decide, e, d, s, rs[k]);
    GoesOn(e, s, ResultOf(decide, e, d, s, rs[k]));
  }

  /** A run goes on exactly as long as its last step gives no reason to stop. */
  lemma StopsExactly(decide: Query -> Action, e: FailureEvent, d: TypedDiagnosis, rs: seq<Round>, n: nat)
    requires KeepsTable(decide) && n <= |rs|
    ensures var s := After(decide, e, d, rs, n); s.exit.Running? <==> !ReasonToStop(e, s.timeline)
  {
    if After(decide, e, d, rs, n).exit.Running? {
      if n > 0 {
        EveryRun(decide, e, d, rs, n - 1);
        RunningGoesOn(decide, e, d, rs, n - 1);
      }
    } else {
      var m := LastRound(decide, e, d, rs, n);
      var p := After(decide, e, d, rs, m);
      EveryRun(decide, e, d, rs, m);
      RoundExtends(decide, e, d, p, rs[m]);
      Stops(e, p, ResultOf(decide, e, d, p, rs[m]));
    }
  }

  /** The agent's own budget is ten rounds. */
  lemma TenRoundsAtMost(decide: Query -> Action, e: FailureEvent, d: TypedDiagnosis, rs: seq<Round>)
    requires |rs| == MAX_ROUNDS
    ensures |Recovery(decide, e, d, rs).timeline| <= 10
    ensures After(decide, e, d, rs, |rs|).exit.Running? ==> |Recovery(decide, e, d, rs).timeline| == 10
  {
    RunLength(decide, e, d, rs, |rs|);
  }

  // ------------------------------------------------------------------ the clock

  /** Half an hour a step later. */
  function Later(t: Instant, steps: nat): Instant { if steps == 0 then t else Later(t, steps - 1) + 30 * MINUTE }

  predicate NotBefore(tl: seq<ExecutionResult>, now: Instant) {
    forall i | 0 <= i < |tl| :: Later(tl[i].action.scheduledAt, |tl| - i) <= now
  }

  /** The clock is the least instant half an hour a step after the start of the session, five minutes
      after the failure, and half an hour a step after every schedule since. */
  ghost predicate Clock(e: FailureEvent, tl: seq<ExecutionResult>, now: Instant) {
    var first := Later(e.occurredAt + 5 * MINUTE, |tl|);
    && first <= now && NotBefore(tl, now)
    && (now == first || exists i :: 0 <= i < |tl| && now == Later(tl[i].action.scheduledAt, |tl| - i))
  }

  lemma ClockTicks(e: FailureEvent, tl: seq<ExecutionResult>, now: Instant, x: ExecutionResult, now': Instant)
    requires Clock(e, tl, now)
    requires now' == (if now >= x.action.scheduledAt then now else x.action.scheduledAt) + 30 * MINUTE
    ensures Clock(e, tl + [x], now')
  {
    var tl' := tl + [x];
    var n := |tl|;
    assert Later(x.action.scheduledAt, 1) == Later(x.action.scheduledAt, 0) + 30 * MINUTE;
    forall i | 0 <= i < n
      ensures Later(tl'[i].action.scheduledAt, n + 1 - i) == Later(tl[i].action.scheduledAt, n - i) + 30 * MINUTE
    {
    }
    if now < x.action.scheduledAt {
      assert now' == Later(tl'[n].action.scheduledAt, n + 1 - n);
    } else if now != Later(e.occurredAt + 5 * MINUTE, n) {
      var i :| 0 <= i < n && now == Later(tl[i].action.scheduledAt, n - i);
      assert now' == Later(tl'[i].action.scheduledAt, n + 1 - i);
    }
  }

  lemma ClockStep(decide: Query -> Action, e: FailureEvent, d: TypedDiagnosis, s: Session, r: Round)
    requires Clock(e, s.timeline, s.st.now) && Step(decide, e, d, s, r).exit.Running?
    ensures var s' := Step(decide, e, d, s, r); Clock(e, s'.timeline, s'.st.now)
  {
    var x := ResultOf(decide, e, d, s, r);
    StillRunning(s, Head(s), x);
    AppliedKeepsClock(Head(s), x);
    ClockTicks(e, s.timeline, s.st.now, x, Step(decide, e, d, s, r).st.now);
  }

  /** At every head the clock shows exactly that instant. */
  lemma {:induction false} ClockIsExact(decide: Query -> Action, e: FailureEvent, d: TypedDiagnosis,
                                        rs: seq<Round>, n: nat)
    requires n <= |rs| && After(decide, e, d, rs, n).exit.Running?
    ensures var s := After(decide, e, d, rs, n); Clock(e, s.timeline, s.st.now)
  {
    if n > 0 {
      var k := n - 1;
      ClockIsExact(decide, e, d, rs, k);
      ClockStep(decide, e, d, After(decide, e, d, rs, k), rs[k]);
    }
  }

  // ------------------------------------------------------------------ what counts as tried

  /** The action that uses up an arm. A retry uses up none. */
  predicate UsesUp(a: Action, arm: InterventionType) {
    match arm
    case PartialChargeArm => a.actionType == PartialCharge
    case Grace48h => a.actionType == GraceExtend
    case MethodSwitch => a.actionType == OfferAlternateMethod
    case ReauthLink => a.actionType == RequestReauth
    case WhatsappUpiLink => a.actionType == SendNotification && a.channel != Some(Sms)
    case SmsReminder => a.actionType == SendNotification && a.channel == Some(Sms)
    case _ => false
  }

  predicate Tried(tl: seq<ExecutionResult>, arm: InterventionType) {
    exists i :: 0 <= i < |tl| && tl[i].executed && UsesUp(tl[i].action, arm)
  }

  predicate ChargedAt(tl: seq<ExecutionResult>, b: nat) {
    exists i :: 0 <= i < |tl| && IsCharge(tl[i]) && tl[i].action.bucket == Some(b)
  }

  ghost predicate TriedSets(s: Session) {
    && (forall arm: InterventionType :: arm in s.triedArms <==> Tried(s.timeline, arm))
    && (forall b: nat :: b in s.triedDelays <==> ChargedAt(s.timeline, b))
  }

  lemma TriedLast(tl: seq<ExecutionResult>, x: ExecutionResult, arm: InterventionType)
    ensures Tried(tl + [x], arm) <==> Tried(tl, arm) || (x.executed && UsesUp(x.action, arm))
  {
    var tl' := tl + [x];
    assert tl'[|tl|] == x && forall i | 0 <= i < |tl| :: tl'[i] == tl[i];
    if i :| 0 <= i < |tl| && tl[i].executed && UsesUp(tl[i].action, arm) {
      assert tl'[i].executed && UsesUp(tl'[i].action, arm);
    }
  }

  lemma ChargedLast(tl: seq<ExecutionResult>, x: ExecutionResult, b: nat)
    ensures ChargedAt(tl + [x], b) <==> ChargedAt(tl, b) || (IsCharge(x) && x.action.bucket == Some(b))
  {
    var tl' := tl + [x];
    assert tl'[|tl|] == x && forall i | 0 <= i < |tl| :: tl'[i] == tl[i];
    if i :| 0 <= i < |tl| && IsCharge(tl[i]) && tl[i].action.bucket == Some(b) {
      assert IsCharge(tl'[i]) && tl'[i].action.bucket == Some(b);
    }
  }

  lemma ArmsTriedMeans(tried: set<InterventionType>, x: ExecutionResult, arm: InterventionType)
    ensures arm in ArmsTried(tried, x) <==> arm in tried || (x.executed && UsesUp(x.action, arm))
  {
  }

  // A charge's bucket is already a bucket.
  lemma DelaysTriedMeans(tried: set<nat>, x: ExecutionResult, b: nat)
    requires IsCharge(x) && x.action.bucket.Some? ==> x.action.bucket.value in DELAY_BUCKETS
    ensures b in DelaysTried(tried, x) <==> b in tried || (IsCharge(x) && x.action.bucket == Some(b))
  {
    if IsCharge(x) && x.action.bucket.Some? {
      SnapFixesBuckets(x.action.bucket.value);
    }
  }

  lemma StepTriedSets(s: Session, x: ExecutionResult, s': Session)
    requires TriedSets(s) && s'.timeline == s.timeline + [x]
    requires s'.triedArms == ArmsTried(s.triedArms, x) && s'.triedDelays == DelaysTried(s.triedDelays, x)
    requires IsCharge(x) && x.action.bucket.Some? ==> x.action.bucket.value in DELAY_BUCKETS
    ensures TriedSets(s')
  {
    forall arm: InterventionType ensures arm in s'.triedArms <==> Tried(s'.timeline, arm) {
      TriedLast(s.timeline, x, arm);
      ArmsTriedMeans(s.triedArms, x, arm);
    }
    forall b: nat ensures b in s'.triedDelays <==> ChargedAt(s'.timeline, b) {
      ChargedLast(s.timeline, x, b);
      DelaysTriedMeans(s.triedDelays, x, b);
    }
  }

  lemma ChargesNameBuckets(decide: Query -> Action, e: FailureEvent, d: TypedDiagnosis, s: Session, r: Round)
    requires KeepsTable(decide)
    ensures var x := ResultOf(decide, e, d, s, r);
            IsCharge(x) && x.action.bucket.Some? ==> x.action.bucket.value in DELAY_BUCKETS
  {
    var q := Asked(e, d, Head(s), r);
    assert InTable(q, decide(q)) && Carries(q, decide(q));
  }

  lemma GoingOnMarks(s: Session, st: State, x: ExecutionResult)
    requires Settle(s, st, x).exit.Running? || Settle(s, st, x).exit.Won?
    ensures Settle(s, st, x).triedArms == ArmsTried(s.triedArms, x)
    ensures Settle(s, st, x).triedDelays == DelaysTried(s.triedDelays, x)
    ensures Settle(s, st, x).timeline == s.timeline + [x]
  {
  }

  lemma TriedStep(decide: Query -> Action, e: FailureEvent, d: TypedDiagnosis, s: Session, r: Round)
    requires KeepsTable(decide) && TriedSets(s)
    ensures var s' := Step(decide, e, d, s, r); s'.exit.Running? || s'.exit.Won? ==> TriedSets(s')
  {
    var x := ResultOf(decide, e, d, s, r);
    var s' := Step(decide, e, d, s, r);
    if s'.exit.Running? || s'.exit.Won? {
      GoingOnMarks(s, Head(s), x);
      ChargesNameBuckets(decide, e, d, s, r);
      StepTriedSets(s, x, s');
    }
  }

  /** What a run has tried, at every head and once it is won: the arms its executed steps used up, and
      the buckets its executed charges named. */
  lemma {:induction false} TriedIsExecuted(decide: Query -> Action, e: FailureEvent, d: TypedDiagnosis,
                                           rs: seq<Round>, n: nat)
    requires KeepsTable(decide) && n <= |rs|
    ensures var s := After(decide, e, d, rs, n); s.exit.Running? || s.exit.Won? ==> TriedSets(s)
  {
    if n > 0 {
      var k := n - 1;
      TriedIsExecuted(decide, e, d, rs, k);
      var s := After(decide, e, d, rs, k);
      if s.exit.Running? {
        NextRound(decide, e, d, rs, k);
        TriedStep(decide, e, d, s, rs[k]);
      } else {
        StaysLeft(decide, e, d, rs, k, n);
      }
    }
  }
}
