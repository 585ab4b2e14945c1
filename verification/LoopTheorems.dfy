/** What every round of the recovery loop keeps, for every engine that keeps the decision table. */
module LoopTheorems {
  import opened Schemas
  import opened Rules
  import opened Engine
  import opened EngineTheorems
  import opened Agent
  import opened Invariants

  // ------------------------------------------------------------------ the timeline, step by step

  /** The schedule of the latest executed notice. */
  function LastNotice(tl: seq<ExecutionResult>): Option<Instant> {
    if tl == [] then None
    else if IsNotice(tl[|tl| - 1]) then Some(tl[|tl| - 1].action.scheduledAt)
    else LastNotice(tl[..|tl| - 1])
  }

  lemma {:induction false} LastNoticeIsANotice(tl: seq<ExecutionResult>)
    requires LastNotice(tl).Some?
    ensures exists n :: n in tl && IsNotice(n) && n.action.scheduledAt == LastNotice(tl).value
  {
    var n := |tl| - 1;
    if IsNotice(tl[n]) {
      assert tl[n] in tl;
    } else {
      LastNoticeIsANotice(tl[..n]);
      var k :| k in tl[..n] && IsNotice(k) && k.action.scheduledAt == LastNotice(tl).value;
      assert k in tl;
    }
  }

  predicate IsGrace(r: ExecutionResult) { r.executed && r.action.actionType == GraceExtend }

  const STEP_GAP: int := 90 * MINUTE

  ghost predicate After90(before: seq<ExecutionResult>, x: ExecutionResult) {
    forall y | y in before && y.executed :: y.action.scheduledAt + STEP_GAP <= x.action.scheduledAt
  }

  /** A step that may follow the steps before it. */
  ghost predicate Follows(e: FailureEvent, d: TypedDiagnosis, before: seq<ExecutionResult>, x: ExecutionResult) {
    var a := x.action;
    && a.trace != [] && a.mandateId == e.mandateId
    && (!Money(a.actionType) ==> !x.executed)
    && (Money(a.actionType) ==> a.keyRound == |before| && After90(before, x) && Confident(d) && !a.requiresHuman)
    && (Charging(a.actionType) ==>
          && HasNotice(before, x) && Live(e, d)
          && a.amount.Some? && a.amount.value <= e.maxAmount && a.amount.value <= e.amount
          && |Select(before, IsCharge)| < NPCI_MAX_RETRIES)
    && (Contacting(a.actionType) ==>
          !Quiet(a.scheduledAt) && e.contactsThisWeek + |Select(before, IsContact)| < MAX_CONTACTS)
    && (a.actionType == GraceExtend ==> !e.graceUsed && Select(before, IsGrace) == [])
  }

  ghost predicate History(e: FailureEvent, d: TypedDiagnosis, tl: seq<ExecutionResult>) {
    tl != [] ==> History(e, d, tl[..|tl| - 1]) && Follows(e, d, tl[..|tl| - 1], tl[|tl| - 1])
  }

  /** The loop state is a summary of the timeline. */
  ghost predicate Summary(e: FailureEvent, tl: seq<ExecutionResult>, st: State) {
    && st.retriesUsed == st.declines == |Select(tl, IsCharge)|
    && st.contacts == e.contactsThisWeek + |Select(tl, IsContact)|
    && (st.graceUsed <==> e.graceUsed || Select(tl, IsGrace) != [])
    && (st.reauthDone <==> Select(tl, IsReauth) != [])
    && st.lastNotice == LastNotice(tl)
  }

  function LastAction(tl: seq<ExecutionResult>): Option<ActionType> {
    if tl == [] then None else LastNonCharge(tl[|tl| - 1].action.actionType)
  }

  /** The timeline does not end in two equal non-charging actions: that would have ended the run. */
  predicate Unstalled(tl: seq<ExecutionResult>) {
    |tl| >= 2 && NonCharging(tl[|tl| - 1].action.actionType) ==>
      tl[|tl| - 2].action.actionType != tl[|tl| - 1].action.actionType
  }

  ghost predicate Past(tl: seq<ExecutionResult>, now: Instant) {
    forall y | y in tl && y.executed :: y.action.scheduledAt + 30 * MINUTE <= now
  }

  /** At a round head the loop state summarises the timeline, and nothing has won yet. */
  ghost predicate Tracks(e: FailureEvent, s: Session) {
    && Summary(e, s.timeline, s.st)
    && s.lastNonCharge == LastAction(s.timeline)
    && s.repeats == (if s.lastNonCharge.Some? then 1 else 0)
    && Select(s.timeline, Wins) == []
    && Past(s.timeline, s.st.now)
    && Unstalled(s.timeline)
  }

  // ------------------------------------------------------------------ one round

  lemma SelectLast(tl: seq<ExecutionResult>, x: ExecutionResult, keep: ExecutionResult -> bool)
    ensures Select(tl + [x], keep) == Select(tl, keep) + (if keep(x) then [x] else [])
  {
    assert (tl + [x])[..|tl|] == tl;
  }

  lemma RoundFollows(e: FailureEvent, d: TypedDiagnosis, s: Session, q: Query, a: Action, o: Outcome)
    requires Tracks(e, s) && q.e == e && q.d == d && q.st == Head(s) && Sound(q, a)
    ensures Follows(e, d, s.timeline, Executed(a, o))
  {
    var x := Executed(a, o);
    if Charging(a.actionType) {
      LastNoticeIsANotice(s.timeline);
      var n :| n in s.timeline && IsNotice(n) && n.action.scheduledAt == s.st.lastNotice.value;
      assert NoticeFor(n, x);
    }
  }

  lemma RoundHistory(e: FailureEvent, d: TypedDiagnosis, tl: seq<ExecutionResult>, x: ExecutionResult)
    requires History(e, d, tl) && Follows(e, d, tl, x)
    ensures History(e, d, tl + [x])
  {
    assert (tl + [x])[..|tl|] == tl;
  }

  lemma SelectCount(tl: seq<ExecutionResult>, x: ExecutionResult, keep: ExecutionResult -> bool)
    ensures |Select(tl + [x], keep)| == |Select(tl, keep)| + (if keep(x) then 1 else 0)
    ensures Select(tl + [x], keep) != [] <==> Select(tl, keep) != [] || keep(x)
  {
    SelectLast(tl, x, keep);
  }

  lemma LastNoticeOf(tl: seq<ExecutionResult>, x: ExecutionResult)
    ensures LastNotice(tl + [x]) == if IsNotice(x) then Some(x.action.scheduledAt) else LastNotice(tl)
  {
    assert (tl + [x])[..|tl|] == tl;
  }

  /** What one step changes in the loop state. */
  predicate Changes(st: State, x: ExecutionResult, st': State) {
    && st'.retriesUsed == st.retriesUsed + (if IsCharge(x) then 1 else 0)
    && st'.declines == st.declines + (if IsCharge(x) then 1 else 0)
    && st'.contacts == st.contacts + (if IsContact(x) then 1 else 0)
    && (st'.graceUsed <==> st.graceUsed || IsGrace(x))
    && (st'.reauthDone <==> st.reauthDone || IsReauth(x))
    && st'.lastNotice == if IsNotice(x) then Some(x.action.scheduledAt) else st.lastNotice
  }

  lemma AppliedChanges(st: State, x: ExecutionResult)
    requires !Wins(x)
    ensures Changes(st, x, Advanced(Applied(st, x), x.action))
  {
  }

  // A step's effect on the state is its effect on the summary.
  lemma StepSummary(e: FailureEvent, tl: seq<ExecutionResult>, st: State, x: ExecutionResult, st': State)
    requires Summary(e, tl, st) && Changes(st, x, st')
    ensures Summary(e, tl + [x], st')
  {
    SelectCount(tl, x, IsCharge);
    SelectCount(tl, x, IsContact);
    SelectCount(tl, x, IsGrace);
    SelectCount(tl, x, IsReauth);
    LastNoticeOf(tl, x);
  }

  // What a step that does not end the run leaves behind.
  lemma StillRunning(s: Session, st: State, x: ExecutionResult)
    requires Settle(s, st, x).exit.Running?
    ensures var s' := Settle(s, st, x);
            && !Wins(x) && !EndsByEngine(x.action)
            && s'.timeline == s.timeline + [x]
            && s'.st == Advanced(Applied(st, x), x.action)
            && s'.lastNonCharge == LastNonCharge(x.action.actionType)
            && s'.repeats == Repeats(s.lastNonCharge, s.repeats, x.action.actionType) < 2
            && !BothBudgetsSpent(s'.st)
  {
  }

  lemma AppliedKeepsClock(st: State, x: ExecutionResult)
    ensures Applied(st, x).now == st.now
  {
  }

  lemma StepPast(tl: seq<ExecutionResult>, st: State, x: ExecutionResult)
    requires Past(tl, st.now)
    ensures Past(tl + [x], Advanced(st, x.action).now)
  {
  }

  lemma StepUnstalled(tl: seq<ExecutionResult>, last: Option<ActionType>, repeats: nat, x: ExecutionResult)
    requires last == LastAction(tl) && repeats == (if last.Some? then 1 else 0)
    requires Repeats(last, repeats, x.action.actionType) < 2
    ensures Unstalled(tl + [x]) && LastAction(tl + [x]) == LastNonCharge(x.action.actionType)
    ensures Repeats(last, repeats, x.action.actionType) == (if LastNonCharge(x.action.actionType).Some? then 1 else 0)
  {
  }

  lemma StepTracks(e: FailureEvent, s: Session, x: ExecutionResult, s': Session, tl': seq<ExecutionResult>)
    requires Tracks(e, s) && !Wins(x)
    requires s'.timeline == tl' == s.timeline + [x]
    requires s'.st == Advanced(Applied(Head(s), x), x.action)
    requires s'.lastNonCharge == LastNonCharge(x.action.actionType)
    requires s'.repeats == Repeats(s.lastNonCharge, s.repeats, x.action.actionType) < 2
    ensures Tracks(e, s')
  {
    assert Summary(e, tl', s'.st) by {
      AppliedChanges(Head(s), x);
      StepSummary(e, s.timeline, s.st, x, s'.st);
    }
    assert Select(tl', Wins) == [] by {
      SelectCount(s.timeline, x, Wins);
    }
    assert Past(tl', s'.st.now) by {
      AppliedKeepsClock(Head(s), x);
      StepPast(s.timeline, Applied(Head(s), x), x);
    }
    StepUnstalled(s.timeline, s.lastNonCharge, s.repeats, x);
  }

  lemma RoundTracks(e: FailureEvent, s: Session, x: ExecutionResult)
    requires Tracks(e, s) && s.exit.Running? && (x.executed ==> Money(x.action.actionType))
    requires Settle(s, Head(s), x).exit.Running?
    ensures Tracks(e, Settle(s, Head(s), x))
  {
    StillRunning(s, Head(s), x);
    StepTracks(e, s, x, Settle(s, Head(s), x), s.timeline + [x]);
  }

  // ------------------------------------------------------------------ every run

  lemma TableSound(decide: Query -> Action, q: Query)
    requires KeepsTable(decide)
    ensures Sound(q, decide(q))
  {
    TableIsSound(q, decide(q));
  }

  lemma RoundKeeps(decide: Query -> Action, e: FailureEvent, d: TypedDiagnosis, s: Session, r: Round)
    requires KeepsTable(decide) && s.exit.Running? && Tracks(e, s) && History(e, d, s.timeline)
    ensures History(e, d, s.timeline + [ResultOf(decide, e, d, s, r)])
    ensures var s' := Step(decide, e, d, s, r); s'.exit.Running? ==> Tracks(e, s')
  {
    var q := Asked(e, d, Head(s), r);
    var x := ResultOf(decide, e, d, s, r);
    assert History(e, d, s.timeline + [x]) by {
      TableSound(decide, q);
      RoundFollows(e, d, s, q, decide(q), r.outcome);
      RoundHistory(e, d, s.timeline, x);
    }
    if Settle(s, Head(s), x).exit.Running? {
      RoundTracks(e, s, x);
    }
  }

  /** Every prefix of every run: the timeline is a history of permitted steps, and while the loop
      runs its state tracks that timeline. */
  lemma {:induction false} EveryRun(decide: Query -> Action, e: FailureEvent, d: TypedDiagnosis, rs: seq<Round>, n: nat)
    requires KeepsTable(decide) && n <= |rs|
    ensures var s := After(decide, e, d, rs, n);
            && History(e, d, s.timeline)
            && (s.exit.Running? ==> Tracks(e, s))
  {
    if n > 0 {
      EveryRun(decide, e, d, rs, n - 1);
      var s := After(decide, e, d, rs, n - 1);
      if s.exit.Running? {
        RoundKeeps(decide, e, d, s, rs[n - 1]);
        RoundExtends(decide, e, d, s, rs[n - 1]);
      }
    }
  }

  /** While the loop runs, every round has left one step; afterwards the timeline stands still. */
  lemma {:induction false} RunLength(decide: Query -> Action, e: FailureEvent, d: TypedDiagnosis,
                                     rs: seq<Round>, n: nat)
    requires n <= |rs|
    ensures var s := After(decide, e, d, rs, n); |s.timeline| <= n && (s.exit.Running? ==> |s.timeline| == n)
  {
    if n > 0 {
      RunLength(decide, e, d, rs, n - 1);
      var s := After(decide, e, d, rs, n - 1);
      if s.exit.Running? {
        RoundExtends(decide, e, d, s, rs[n - 1]);
      }
    }
  }

  /** The two sequences start with the same n elements. */
  ghost predicate SameStart<T>(a: seq<T>, b: seq<T>, n: nat) {
    n <= |a| && n <= |b| && forall i | 0 <= i < n :: a[i] == b[i]
  }

  // A run looks at no round it has not played.
  lemma {:induction false} AfterLooksBack(decide: Query -> Action, e: FailureEvent, d: TypedDiagnosis, rs: seq<Round>,
                                          rs': seq<Round>, n: nat)
    requires SameStart(rs, rs', n)
    ensures After(decide, e, d, rs, n) == After(decide, e, d, rs', n)
  {
    if n > 0 {
      AfterLooksBack(decide, e, d, rs, rs', n - 1);
    }
  }
}
