/** What the stall-breaker fails to count, and on exactly which events it can. */
module StallBreak {
  import opened Schemas
  import opened Rules
  import opened Simulation
  import opened Engine
  import opened EngineTheorems
  import opened Agent
  import opened Invariants
  import opened LoopTheorems
  import opened Compliance
  import opened Outcomes
  import opened Products

  // ------------------------------------------------------------------ the promises

  /** The contacts reported are those made before the session and those in the timeline. */
  predicate ContactsCounted(e: FailureEvent, res: MandateResolution) {
    res.contactsMade == e.contactsThisWeek + |Select(res.timeline, IsContact)|
  }

  /** A mandate is reported recovered exactly when a step of its timeline won. */
  ghost predicate SuccessCounted(res: MandateResolution) {
    res.recovered <==> exists x :: x in res.timeline && Wins(x)
  }

  // ------------------------------------------------------------------ the events

  /** What a caller can see before the run: a confident diagnosis, a contact left, and something
      that makes the loop contact at all. On a retry-first cause that is a dead mandate, an amount
      worth an outreach, or one that not even a partial charge fits. */
  predicate Contactable(e: FailureEvent, d: TypedDiagnosis) {
    && Confident(d) && e.contactsThisWeek < MAX_CONTACTS
    && (|| !RetryFirst(d.cause)
        || Dead(e.mandateState)
        || Economic(1.0, e.amount)
        || Partial(e.amount) > e.maxAmount)
  }

  /** A grace extension may be granted. */
  predicate Graceable(e: FailureEvent, d: TypedDiagnosis) {
    Confident(d) && !e.graceUsed && !RetryFirst(d.cause)
  }

  // ------------------------------------------------------------------ what is lost is the last step

  lemma LostIsLast(e: FailureEvent, res: MandateResolution)
    requires Accounts(e, res)
    ensures var tl := res.timeline;
            && (ContactsCounted(e, res) <==> !(StallEnd(tl) && IsContact(tl[|tl| - 1])))
            && (SuccessCounted(res) <==> !(StallEnd(tl) && Wins(tl[|tl| - 1])))
  {
    var tl := res.timeline;
    if tl != [] {
      assert tl[|tl| - 1] in tl;
    }
    forall x | x in tl && Wins(x) ensures x == tl[|tl| - 1] {
      var i :| 0 <= i < |tl| && tl[i] == x;
    }
  }

  // ------------------------------------------------------------------ runs that never contact

  lemma WorthAtMost(p: Probability, x: real, worth: real, most: real)
    requires x >= 0.0 && worth == p * x && most == 1.0 * x
    ensures worth <= most
  {
    MulOrder(x, p, 1.0);
  }

  lemma CertaintyIsMostEconomic(p: Probability, amount: Paise)
    ensures Economic(p, amount) ==> Economic(1.0, amount)
  {
    WorthAtMost(p, amount as real, p * (amount as real), 1.0 * (amount as real));
  }

  lemma {:induction false} NoneSelected(tl: seq<ExecutionResult>, keep: ExecutionResult -> bool)
    requires forall x | x in tl :: !keep(x)
    ensures Select(tl, keep) == []
  {
    if tl != [] {
      NoneSelected(tl[..|tl| - 1], keep);
      assert tl[|tl| - 1] in tl;
    }
  }

  lemma NoChargeThere(e: FailureEvent, d: TypedDiagnosis, tl: seq<ExecutionResult>, i: nat)
    requires History(e, d, tl) && i < |tl| && forall x | x in tl :: !IsContact(x)
    ensures !IsCharge(tl[i])
  {
    HistoryAt(e, d, tl, i);
    forall n | n in tl[..i] ensures !IsNotice(n) {
      assert n in tl;
    }
  }

  // Without a contact there is no notice, so no charge either.
  lemma NothingYet(e: FailureEvent, d: TypedDiagnosis, tl: seq<ExecutionResult>)
    requires History(e, d, tl) && Select(tl, IsContact) == []
    ensures LastNotice(tl) == None && Select(tl, IsReauth) == [] && Select(tl, IsCharge) == []
  {
    SelectKeeps(tl, IsContact);
    forall x | x in tl ensures !IsContact(x) {
      assert x !in Select(tl, IsContact);
    }
    forall x | x in tl ensures !IsCharge(x) {
      var i :| 0 <= i < |tl| && tl[i] == x;
      NoChargeThere(e, d, tl, i);
    }
    NoneSelected(tl, IsReauth);
    NoneSelected(tl, IsCharge);
    if LastNotice(tl).Some? {
      LastNoticeIsANotice(tl);
    }
  }

  lemma RoundMakesNoContact(decide: Query -> Action, e: FailureEvent, d: TypedDiagnosis, s: Session, r: Round)
    requires KeepsTable(decide) && Tracks(e, s) && History(e, d, s.timeline)
    requires Select(s.timeline, IsContact) == [] && !Contactable(e, d)
    ensures !IsContact(ResultOf(decide, e, d, s, r))
  {
    var q := Asked(e, d, Head(s), r);
    NothingYet(e, d, s.timeline);
    TableSound(decide, q);
    assert InTable(q, decide(q));
    CertaintyIsMostEconomic(q.ia.pRecover, e.amount);
  }

  lemma {:induction false} NoContacts(decide: Query -> Action, e: FailureEvent, d: TypedDiagnosis,
                                      rs: seq<Round>, n: nat)
    requires KeepsTable(decide) && !Contactable(e, d) && n <= |rs|
    ensures Select(After(decide, e, d, rs, n).timeline, IsContact) == []
  {
    if n > 0 {
      NoContacts(decide, e, d, rs, n - 1);
      var s := After(decide, e, d, rs, n - 1);
      if s.exit.Running? {
        EveryRun(decide, e, d, rs, n - 1);
        RoundMakesNoContact(decide, e, d, s, rs[n - 1]);
        RoundExtends(decide, e, d, s, rs[n - 1]);
        SelectLast(s.timeline, ResultOf(decide, e, d, s, rs[n - 1]), IsContact);
      }
    }
  }

  lemma GraceNeedsGraceable(decide: Query -> Action, e: FailureEvent, d: TypedDiagnosis, s: Session, r: Round)
    requires KeepsTable(decide) && Tracks(e, s) && IsGrace(ResultOf(decide, e, d, s, r))
    ensures Graceable(e, d)
  {
    var q := Asked(e, d, Head(s), r);
    TableSound(decide, q);
    assert InTable(q, decide(q));
  }

  lemma GraceInRun(decide: Query -> Action, e: FailureEvent, d: TypedDiagnosis, rs: seq<Round>, i: nat)
    requires KeepsTable(decide) && i < |Recovery(decide, e, d, rs).timeline|
    requires IsGrace(Recovery(decide, e, d, rs).timeline[i])
    ensures Graceable(e, d)
  {
    Replay(decide, e, d, rs, |rs|, i);
    EveryRun(decide, e, d, rs, i);
    GraceNeedsGraceable(decide, e, d, After(decide, e, d, rs, i), rs[i]);
  }

  // A non-charging step that wins was a contact or a grace extension.
  lemma WinningKinds(e: FailureEvent, d: TypedDiagnosis, tl: seq<ExecutionResult>, i: nat)
    requires History(e, d, tl) && i < |tl| && Wins(tl[i]) && NonCharging(tl[i].action.actionType)
    ensures IsGrace(tl[i]) || (IsContact(tl[i]) && Select(tl, IsContact) != [])
  {
    HistoryAt(e, d, tl, i);
    SelectKeeps(tl, IsContact);
    assert tl[i] in tl;
  }

  // An uncounted success was a contact's or a grace extension's.
  lemma LostSuccess(decide: Query -> Action, e: FailureEvent, d: TypedDiagnosis, rs: seq<Round>,
                    tl: seq<ExecutionResult>)
    requires KeepsTable(decide) && tl == Recovery(decide, e, d, rs).timeline
    requires StallEnd(tl) && Wins(tl[|tl| - 1])
    ensures Contactable(e, d) || Graceable(e, d)
  {
    assert History(e, d, tl) by {
      EveryRun(decide, e, d, rs, |rs|);
    }
    WinningKinds(e, d, tl, |tl| - 1);
    if IsGrace(tl[|tl| - 1]) {
      GraceInRun(decide, e, d, rs, |tl| - 1);
    } else if !Contactable(e, d) {
      NoContacts(decide, e, d, rs, |rs|);
    }
  }

  // ------------------------------------------------------------------ runs that stall

  /** The arm is proposed with certainty; the first time its action is turned away as a duplicate,
      the second time it is executed and pays. */
  function Insisting(arm: InterventionType, n: nat): seq<Round> {
    seq(n, i => Round(RetryAdvice(24.0, 1.0), InterventionAdvice(arm, 1.0), false,
                      if i == 0 then Outcome(false, None, 0) else Outcome(true, Some(true), 1)))
  }

  /** The loop state has not moved but for the clock. */
  predicate Unmoved(e: FailureEvent, st: State) {
    && st.retriesUsed == st.declines == 0 && st.contacts == e.contactsThisWeek && st.graceUsed == e.graceUsed
    && st.lastNotice.None? && !st.reauthDone
  }

  /** What a method switch becomes while nothing has moved. */
  function SwitchAction(e: FailureEvent, d: TypedDiagnosis): ActionType {
    if !RetryFirst(d.cause) then OfferAlternateMethod
    else if Dead(e.mandateState) then RequestReauth
    else if !WithinCap(Partial(e.amount), e) then OfferAlternateMethod
    else if (if WithinCap(e.amount, e) then e.amount else Partial(e.amount)) > AFA_CEILING then RequestReauth
    else SendNotification
  }

  lemma SwitchIsDecided(decide: Query -> Action, e: FailureEvent, d: TypedDiagnosis, s: Session, r: Round)
    requires KeepsTable(decide) && Contactable(e, d) && Unmoved(e, s.st)
    requires r.retry == RetryAdvice(24.0, 1.0) && r.arm == InterventionAdvice(MethodSwitch, 1.0) && !r.raises
    ensures var a := decide(Asked(e, d, Head(s), r)); a.actionType == SwitchAction(e, d) && !a.requiresHuman
  {
    var q := Asked(e, d, Head(s), r);
    assert InTable(q, decide(q));
    PartialIsNearest(e.amount, 0);
  }

  lemma GraceIsDecided(decide: Query -> Action, e: FailureEvent, d: TypedDiagnosis, s: Session, r: Round)
    requires KeepsTable(decide) && Graceable(e, d) && Unmoved(e, s.st)
    requires r.arm == InterventionAdvice(Grace48h, 1.0) && !r.raises
    ensures var a := decide(Asked(e, d, Head(s), r)); a.actionType == GraceExtend && !a.requiresHuman
  {
    var q := Asked(e, d, Head(s), r);
    assert InTable(q, decide(q));
  }

  // A duplicate moves nothing but the clock and the stall counter.
  lemma DuplicateStep(e: FailureEvent, s: Session, x: ExecutionResult)
    requires s == Start(e) && !x.executed && NonCharging(x.action.actionType) && !EndsByEngine(x.action)
    ensures var s' := Settle(s, Head(s), x);
            && s'.exit.Running? && s'.timeline == [x] && Unmoved(e, s'.st)
            && s'.lastNonCharge == Some(x.action.actionType) && s'.repeats == 1
  {
  }

  lemma StallingStep(s: Session, x: ExecutionResult)
    requires NonCharging(x.action.actionType) && !EndsByEngine(x.action)
    requires s.lastNonCharge == Some(x.action.actionType) && s.repeats == 1
    ensures Settle(s, Head(s), x).exit == Stalled && Settle(s, Head(s), x).timeline == s.timeline + [x]
  {
  }

  predicate DecidedAs(decide: Query -> Action, e: FailureEvent, d: TypedDiagnosis, s: Session, r: Round,
                      at: ActionType)
  {
    var a := decide(Asked(e, d, Head(s), r));
    a.actionType == at && !a.requiresHuman
  }

  lemma TwoRounds(decide: Query -> Action, e: FailureEvent, d: TypedDiagnosis, rs: seq<Round>, s1: Session, s2: Session)
    requires |rs| >= 2 && s1.exit.Running? && !s2.exit.Running?
    requires s1 == Step(decide, e, d, Start(e), rs[0]) && s2 == Step(decide, e, d, s1, rs[1])
    ensures Recovery(decide, e, d, rs).timeline == s2.timeline
  {
    assert After(decide, e, d, rs, 0) == Start(e);
    assert After(decide, e, d, rs, 1) == s1;
    assert After(decide, e, d, rs, 2) == s2;
    StaysLeft(decide, e, d, rs, 2, |rs|);
  }

  /** Insisting on an arm that is decided twice ends in a stall that loses its last step. */
  lemma InsistingStalls(decide: Query -> Action, e: FailureEvent, d: TypedDiagnosis, arm: InterventionType,
                        at: ActionType, n: nat)
    requires n >= 2 && NonCharging(at) && Money(at)
    requires forall s: Session, r: Round | Unmoved(e, s.st) && r in Insisting(arm, n) ::
               DecidedAs(decide, e, d, s, r, at)
    ensures var tl := Recovery(decide, e, d, Insisting(arm, n)).timeline;
            StallEnd(tl) && Wins(tl[|tl| - 1]) && tl[|tl| - 1].action.actionType == at
  {
    var rs := Insisting(arm, n);
    assert rs[0] in rs && rs[1] in rs;
    var s0 := Start(e);
    var x0 := ResultOf(decide, e, d, s0, rs[0]);
    assert DecidedAs(decide, e, d, s0, rs[0], at);
    DuplicateStep(e, s0, x0);
    var s1 := Settle(s0, Head(s0), x0);
    var x1 := ResultOf(decide, e, d, s1, rs[1]);
    assert DecidedAs(decide, e, d, s1, rs[1], at);
    StallingStep(s1, x1);
    TwoRounds(decide, e, d, rs, s1, Settle(s1, Head(s1), x1));
  }

  lemma SwitchStalls(decide: Query -> Action, e: FailureEvent, d: TypedDiagnosis, n: nat)
    requires KeepsTable(decide) && Contactable(e, d) && n >= 2
    ensures var tl := Recovery(decide, e, d, Insisting(MethodSwitch, n)).timeline;
            StallEnd(tl) && Wins(tl[|tl| - 1]) && IsContact(tl[|tl| - 1])
  {
    forall s: Session, r: Round | Unmoved(e, s.st) && r in Insisting(MethodSwitch, n)
      ensures DecidedAs(decide, e, d, s, r, SwitchAction(e, d))
    {
      SwitchIsDecided(decide, e, d, s, r);
    }
    InsistingStalls(decide, e, d, MethodSwitch, SwitchAction(e, d), n);
  }

  lemma GraceStalls(decide: Query -> Action, e: FailureEvent, d: TypedDiagnosis, n: nat)
    requires KeepsTable(decide) && Graceable(e, d) && n >= 2
    ensures var tl := Recovery(decide, e, d, Insisting(Grace48h, n)).timeline; StallEnd(tl) && Wins(tl[|tl| - 1])
  {
    forall s: Session, r: Round | Unmoved(e, s.st) && r in Insisting(Grace48h, n)
      ensures DecidedAs(decide, e, d, s, r, GraceExtend)
    {
      GraceIsDecided(decide, e, d, s, r);
    }
    InsistingStalls(decide, e, d, Grace48h, GraceExtend, n);
  }

  // ------------------------------------------------------------------ exactly

  lemma QuietRunsCount(decide: Query -> Action, e: FailureEvent, d: TypedDiagnosis, rs: seq<Round>)
    requires KeepsTable(decide) && !Contactable(e, d)
    ensures ContactsCounted(e, Recovery(decide, e, d, rs))
  {
    var tl := Recovery(decide, e, d, rs).timeline;
    EveryRunAccounted(decide, e, d, rs);
    LostIsLast(e, Recovery(decide, e, d, rs));
    NoContacts(decide, e, d, rs, |rs|);
    SelectKeeps(tl, IsContact);
    if StallEnd(tl) {
      assert tl[|tl| - 1] in tl;
    }
  }

  /** Every run of an event counts all of its contacts if and only if the event is not contactable. */
  lemma ContactsCountedExactly(e: FailureEvent, d: TypedDiagnosis)
    ensures (forall rs: seq<Round> | |rs| == MAX_ROUNDS :: ContactsCounted(e, Recovery(Decision, e, d, rs)))
            <==> !Contactable(e, d)
  {
    DecisionKeepsTable();
    if Contactable(e, d) {
      var rs := Insisting(MethodSwitch, MAX_ROUNDS);
      SwitchStalls(Decision, e, d, MAX_ROUNDS);
      EveryRunAccounted(Decision, e, d, rs);
      LostIsLast(e, Recovery(Decision, e, d, rs));
    } else {
      forall rs: seq<Round> | |rs| == MAX_ROUNDS ensures ContactsCounted(e, Recovery(Decision, e, d, rs)) {
        QuietRunsCount(Decision, e, d, rs);
      }
    }
  }

  /** Every run of an event reports a recovery exactly when a step won, if and only if the event is
      neither contactable nor open to a grace extension. */
  lemma SuccessCountedExactly(e: FailureEvent, d: TypedDiagnosis)
    ensures (forall rs: seq<Round> | |rs| == MAX_ROUNDS :: SuccessCounted(Recovery(Decision, e, d, rs)))
            <==> !Contactable(e, d) && !Graceable(e, d)
  {
    DecisionKeepsTable();
    if Contactable(e, d) || Graceable(e, d) {
      var arm := if Contactable(e, d) then MethodSwitch else Grace48h;
      var rs := Insisting(arm, MAX_ROUNDS);
      if Contactable(e, d) {
        SwitchStalls(Decision, e, d, MAX_ROUNDS);
      } else {
        GraceStalls(Decision, e, d, MAX_ROUNDS);
      }
      EveryRunAccounted(Decision, e, d, rs);
      LostIsLast(e, Recovery(Decision, e, d, rs));
    } else {
      forall rs: seq<Round> | |rs| == MAX_ROUNDS ensures SuccessCounted(Recovery(Decision, e, d, rs)) {
        EveryRunAccounted(Decision, e, d, rs);
        LostIsLast(e, Recovery(Decision, e, d, rs));
        var tl := Recovery(Decision, e, d, rs).timeline;
        if StallEnd(tl) && Wins(tl[|tl| - 1]) {
          LostSuccess(Decision, e, d, rs, tl);
        }
      }
    }
  }
}
