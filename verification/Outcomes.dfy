/** How runs end: exact accounting, termination without the round budget, unreachable branches. */
module Outcomes {
  import opened Schemas
  import opened Rules
  import opened Engine
  import opened EngineTheorems
  import opened Agent
  import opened Invariants
  import opened LoopTheorems
  import opened Compliance

  // ------------------------------------------------------------------ accounting

  /** The run ends on the second of two equal non-charging actions, neither sent to a human: the
      stall-breaker, which leaves before the step's effects are applied. */
  predicate StallEnd(tl: seq<ExecutionResult>) {
    var n := |tl|;
    && n >= 2
    && (var at := tl[n - 1].action.actionType; at != Retry && at != PartialCharge && at != StopAndEscalate)
    && !tl[n - 1].action.requiresHuman
    && tl[n - 2].action.actionType == tl[n - 1].action.actionType
  }

  /** The resolution, read off the timeline alone. */
  predicate Accounts(e: FailureEvent, res: MandateResolution) {
    var tl := res.timeline;
    && res.mandateId == e.mandateId && res.amountAtRisk == e.amount
    && res.escalated == !res.recovered
    && (res.recovered <==> tl != [] && Wins(tl[|tl| - 1]) && !StallEnd(tl))
    && (forall i | 0 <= i < |tl| - 1 :: !Wins(tl[i]))
    && res.recoveredAmount == (if res.recovered then tl[|tl| - 1].recovered else 0)
    && res.terminalAction == (if res.recovered then tl[|tl| - 1].action.actionType else StopAndEscalate)
    && res.retriesUsed == |Select(tl, IsCharge)|
    && res.contactsMade == e.contactsThisWeek + |Select(tl, IsContact)|
                           - (if StallEnd(tl) && IsContact(tl[|tl| - 1]) then 1 else 0)
  }

  lemma NoWins(tl: seq<ExecutionResult>)
    requires Select(tl, Wins) == []
    ensures forall i | 0 <= i < |tl| :: !Wins(tl[i])
  {
    SelectKeeps(tl, Wins);
    forall i | 0 <= i < |tl| ensures !Wins(tl[i]) {
      assert tl[i] in tl;
    }
  }

  // How the last step relates to the stall counter of the head it was played from.
  lemma StallIsVisible(e: FailureEvent, s: Session, x: ExecutionResult)
    requires Tracks(e, s)
    ensures StallEnd(s.timeline + [x]) <==>
            !x.action.requiresHuman && Repeats(s.lastNonCharge, s.repeats, x.action.actionType) >= 2
  {
  }

  lemma EffectCounts(s: Session, x: ExecutionResult)
    requires x.executed ==> Money(x.action.actionType)
    ensures var st := Applied(Head(s), x);
            && st.retriesUsed == s.st.retriesUsed + (if IsCharge(x) then 1 else 0)
            && st.contacts == s.st.contacts + (if IsContact(x) then 1 else 0)
  {
  }

  // The ways out: which one is taken, and what it leaves in the session.
  lemma WaysOut(s: Session, x: ExecutionResult)
    requires s.exit.Running? && !Settle(s, Head(s), x).exit.Running?
    ensures var s' := Settle(s, Head(s), x);
            var stalls := !EndsByEngine(x.action) && Repeats(s.lastNonCharge, s.repeats, x.action.actionType) >= 2;
            && s'.timeline == s.timeline + [x]
            && (s'.exit == Won <==> !EndsByEngine(x.action) && !stalls && Wins(x))
            && s'.st.retriesUsed ==
                 (if EndsByEngine(x.action) || stalls then s.st.retriesUsed else Applied(Head(s), x).retriesUsed)
            && s'.st.contacts ==
                 (if EndsByEngine(x.action) || stalls then s.st.contacts else Applied(Head(s), x).contacts)
  {
  }

  lemma LeavesAccounted(e: FailureEvent, s: Session, x: ExecutionResult, s': Session)
    requires Tracks(e, s) && s'.timeline == s.timeline + [x]
    requires x.executed ==> Money(x.action.actionType) && !EndsByEngine(x.action)
    requires x.action.actionType == StopAndEscalate ==> x.action.requiresHuman
    requires s'.exit == Won <==> !EndsByEngine(x.action) && !StallEnd(s'.timeline) && Wins(x)
    requires s'.st.retriesUsed == s.st.retriesUsed + (if IsCharge(x) then 1 else 0)
    requires s'.st.contacts == s.st.contacts + (if IsContact(x) && !StallEnd(s'.timeline) then 1 else 0)
    ensures Accounts(e, Resolution(e, s'))
  {
    var tl := s'.timeline;
    NoWins(s.timeline);
    SelectLast(s.timeline, x, IsCharge);
    SelectLast(s.timeline, x, IsContact);
    assert tl[|tl| - 1] == x;
    assert forall i | 0 <= i < |tl| - 1 :: tl[i] == s.timeline[i];
  }

  lemma LastRoundAccounted(e: FailureEvent, s: Session, x: ExecutionResult)
    requires Tracks(e, s) && s.exit.Running? && !Settle(s, Head(s), x).exit.Running?
    requires x.executed ==> Money(x.action.actionType) && !EndsByEngine(x.action)
    requires x.action.actionType == StopAndEscalate ==> x.action.requiresHuman
    ensures Accounts(e, Resolution(e, Settle(s, Head(s), x)))
  {
    WaysOut(s, x);
    StallIsVisible(e, s, x);
    EffectCounts(s, x);
    LeavesAccounted(e, s, x, Settle(s, Head(s), x));
  }

  lemma RunningAccounted(e: FailureEvent, s: Session)
    requires Tracks(e, s) && s.exit.Running?
    ensures Accounts(e, Resolution(e, s))
  {
    NoWins(s.timeline);
  }

  /** Every run ends recovered or escalated and never both; at most one step wins and only the last
      can; and the resolution's numbers are the timeline's, except that a stall-break counts neither
      its last contact nor its success. */
  lemma EveryRunAccounted(decide: Query -> Action, e: FailureEvent, d: TypedDiagnosis, rs: seq<Round>)
    requires KeepsTable(decide)
    ensures Accounts(e, Recovery(decide, e, d, rs))
  {
    var s := After(decide, e, d, rs, |rs|);
    if s.exit.Running? {
      EveryRun(decide, e, d, rs, |rs|);
      RunningAccounted(e, s);
    } else {
      var m := LastRound(decide, e, d, rs, |rs|);
      var p := After(decide, e, d, rs, m);
      EveryRun(decide, e, d, rs, m);
      TableSound(decide, Asked(e, d, Head(p), rs[m]));
      LastRoundAccounted(e, p, ResultOf(decide, e, d, p, rs[m]));
    }
  }

  // ------------------------------------------------------------------ termination

  /** A money action taken at this head is executed, not turned away as a duplicate. */
  predicate RoundExecutes(decide: Query -> Action, e: FailureEvent, d: TypedDiagnosis, s: Session, r: Round) {
    var x := ResultOf(decide, e, d, s, r);
    Money(x.action.actionType) ==> x.executed
  }

  predicate ExecutesAt(decide: Query -> Action, e: FailureEvent, d: TypedDiagnosis, rs: seq<Round>, n: nat)
    requires n < |rs|
  {
    var s := After(decide, e, d, rs, n);
    s.exit.Running? ==> RoundExecutes(decide, e, d, s, rs[n])
  }

  ghost predicate AlwaysExecuted(decide: Query -> Action, e: FailureEvent, d: TypedDiagnosis, rs: seq<Round>) {
    forall n: nat | n < |rs| :: ExecutesAt(decide, e, d, rs, n)
  }

  function Left(budget: nat, used: nat): nat { if used >= budget then 0 else budget - used }

  /** An upper bound on the rounds still to come. */
  function Fuel(s: Session): nat {
    if !s.exit.Running? then 0
    else if !RetryBudgetLeft(s.st) then 1
    else
      2 * (Left(NPCI_MAX_RETRIES, s.st.retriesUsed) + Left(MAX_CONTACTS, s.st.contacts)
           + (if s.st.graceUsed then 0 else 1))
      - (if s.lastNonCharge == Some(NoAction) then 1 else 0)
  }

  const LONGEST_RUN: nat := 14

  lemma FuelDrops(s: Session, x: ExecutionResult, s': Session, q: Query)
    requires s.exit.Running? && q.st == Head(s) && Sound(q, x.action) && s.st.declines == s.st.retriesUsed
    requires s.repeats == (if s.lastNonCharge.Some? then 1 else 0)
    requires x.executed <==> Money(x.action.actionType)
    requires !Wins(x) && !EndsByEngine(x.action) && s'.exit.Running?
    requires s'.st == Advanced(Applied(Head(s), x), x.action) && !BothBudgetsSpent(s'.st)
    requires s'.lastNonCharge == LastNonCharge(x.action.actionType)
    requires Repeats(s.lastNonCharge, s.repeats, x.action.actionType) < 2
    ensures Fuel(s') < Fuel(s)
  {
  }

  lemma RoundBurnsFuel(decide: Query -> Action, e: FailureEvent, d: TypedDiagnosis, s: Session, r: Round)
    requires KeepsTable(decide) && Tracks(e, s) && s.exit.Running? && !BothBudgetsSpent(s.st)
    requires RoundExecutes(decide, e, d, s, r)
    ensures var s' := Step(decide, e, d, s, r);
            Fuel(s') < Fuel(s) && (s'.exit.Running? ==> !BothBudgetsSpent(s'.st))
  {
    var q := Asked(e, d, Head(s), r);
    var x := ResultOf(decide, e, d, s, r);
    TableSound(decide, q);
    if Settle(s, Head(s), x).exit.Running? {
      StillRunning(s, Head(s), x);
      FuelDrops(s, x, Settle(s, Head(s), x), q);
    }
  }

  lemma {:induction false} RunBurnsFuel(decide: Query -> Action, e: FailureEvent, d: TypedDiagnosis, rs: seq<Round>,
                                        n: nat)
    requires KeepsTable(decide) && AlwaysExecuted(decide, e, d, rs) && n <= |rs|
    ensures var s := After(decide, e, d, rs, n);
            s.exit.Running? ==> Fuel(s) + n <= LONGEST_RUN && !BothBudgetsSpent(s.st)
  {
    if n > 0 {
      RunBurnsFuel(decide, e, d, rs, n - 1);
      var s := After(decide, e, d, rs, n - 1);
      if s.exit.Running? {
        EveryRun(decide, e, d, rs, n - 1);
        assert ExecutesAt(decide, e, d, rs, n - 1);
        RoundBurnsFuel(decide, e, d, s, rs[n - 1]);
      }
    }
  }

  /** With the round budget removed and every money action executed, the loop is left within 14
      rounds by one of its own exits. */
  lemma TerminatesOnItsOwn(decide: Query -> Action, e: FailureEvent, d: TypedDiagnosis, rs: seq<Round>)
    requires KeepsTable(decide) && AlwaysExecuted(decide, e, d, rs) && |rs| >= LONGEST_RUN
    ensures !After(decide, e, d, rs, LONGEST_RUN).exit.Running?
    ensures |Recovery(decide, e, d, rs).timeline| <= LONGEST_RUN
  {
    RunBurnsFuel(decide, e, d, rs, LONGEST_RUN);
    RunLength(decide, e, d, rs, LONGEST_RUN);
    StaysLeft(decide, e, d, rs, LONGEST_RUN, |rs|);
  }

  // ------------------------------------------------------------------ unreachable branches

  /** At every round head the hard-decline counter equals the retry counter. So a confident round
      after the last retry escalates, and no decision of any run is made by the retry-cap branch. */
  lemma RetryCapBranchUnreachable(decide: Query -> Action, e: FailureEvent, d: TypedDiagnosis, rs: seq<Round>, n: nat)
    requires KeepsTable(decide) && n < |rs| && After(decide, e, d, rs, n).exit.Running?
    ensures var q := Asked(e, d, Head(After(decide, e, d, rs, n)), rs[n]);
            && q.st.declines == q.st.retriesUsed <= NPCI_MAX_RETRIES
            && (Awake(q) ==> RetryBudgetLeft(q.st))
            && (!RetryBudgetLeft(q.st) && Confident(d) && !q.raises ==> decide(q).actionType == StopAndEscalate)
  {
    var s := After(decide, e, d, rs, n);
    EveryRun(decide, e, d, rs, n);
    HistoryComplies(e, d, s.timeline);
    var q := Asked(e, d, Head(s), rs[n]);
    assert InTable(q, decide(q));
  }
}
