/** The loop's greedy walk down the hazard curve, against the schedule of a single sort. */
module Schedule {
  import opened Schemas
  import opened Rules
  import opened Simulation
  import opened Engine
  import opened EngineTheorems
  import opened Agent
  import opened Invariants
  import opened LoopTheorems
  import opened Compliance
  import opened Advisors
  import opened Ranking
  import opened RetryTiming

  // ------------------------------------------------------------------ the loop

  function BucketOf(x: ExecutionResult): seq<nat> {
    if IsCharge(x) && x.action.bucket.Some? then [x.action.bucket.value] else []
  }

  /** The delay buckets of the executed charges that carry one, in timeline order. */
  function Buckets(tl: seq<ExecutionResult>): seq<nat> {
    if tl == [] then [] else Buckets(tl[..|tl| - 1]) + BucketOf(tl[|tl| - 1])
  }

  ghost predicate AdvisedAt(decide: Query -> Action, e: FailureEvent, d: TypedDiagnosis, rs: seq<Round>, c: Curve,
                            n: int) {
    0 <= n < |rs| && Advises(rs[n].retry, c, After(decide, e, d, rs, n).triedDelays)
  }

  /** Every round's retry advice is the trained advisor's, for what the run has tried by then. */
  ghost predicate Advised(decide: Query -> Action, e: FailureEvent, d: TypedDiagnosis, rs: seq<Round>, c: Curve) {
    forall n | 0 <= n < |rs| :: AdvisedAt(decide, e, d, rs, c, n)
  }

  /** The run has charged the first k ranks, in rank order, and tried exactly those. */
  ghost predicate Walked(r: Curve, k: nat, tl: seq<ExecutionResult>, tried: set<nat>) {
    k <= |r| && Buckets(tl) == Delays(r)[..k] && tried == TriedUpTo(r, k)
  }

  lemma BucketsLast(tl: seq<ExecutionResult>, x: ExecutionResult)
    ensures Buckets(tl + [x]) == Buckets(tl) + BucketOf(x)
  {
    assert (tl + [x])[..|tl|] == tl;
  }

  lemma {:induction false} NoMoreBucketsThanCharges(tl: seq<ExecutionResult>)
    ensures |Buckets(tl)| <= |Select(tl, IsCharge)|
  {
    if tl != [] {
      NoMoreBucketsThanCharges(tl[..|tl| - 1]);
    }
  }

  lemma WalkOn(r: Curve, k: nat, tl: seq<ExecutionResult>, tried: set<nat>, x: ExecutionResult)
    requires Walked(r, k, tl, tried) && k < |r| && BucketOf(x) == [r[k].delay]
    ensures Walked(r, k + 1, tl + [x], tried + {r[k].delay})
  {
    BucketsLast(tl, x);
    DelaysAt(r, k);
  }

  lemma WalkStays(r: Curve, k: nat, tl: seq<ExecutionResult>, tried: set<nat>, x: ExecutionResult)
    requires Walked(r, k, tl, tried) && BucketOf(x) == []
    ensures Walked(r, k, tl + [x], tried)
  {
    BucketsLast(tl, x);
  }

  // The advisor's choice is a bucket, and the next rank.
  lemma NextBucket(c: Curve, k: nat, tl: seq<ExecutionResult>, tried: set<nat>) returns (b: nat)
    requires IsHazardCurve(c) && Walked(Ranked(c), k, tl, tried)
    ensures b in DELAY_BUCKETS && b == Pick(c, tried).delay
    ensures k < |Ranked(c)| ==> b == Ranked(c)[k].delay
  {
    RankedHazardCurve(c, k);
    PickIsOnCurve(c, tried);
    DelaysAreBuckets(c, Pick(c, tried));
    b := Pick(c, tried).delay;
    if k < |Ranked(c)| {
      GreedyPicksNextRank(c, k);
    }
  }

  lemma WalkStep(r: Curve, k: nat, tl: seq<ExecutionResult>, tried: set<nat>, x: ExecutionResult,
                 tl': seq<ExecutionResult>, tried': set<nat>, b: nat) returns (k': nat)
    requires Walked(r, k, tl, tried) && tl' == tl + [x]
    requires tried' == if BucketOf(x) == [] then tried else tried + {b}
    requires BucketOf(x) != [] ==> k < |r| && BucketOf(x) == [b] && b == r[k].delay
    ensures Walked(r, k', tl', tried')
  {
    if BucketOf(x) == [] {
      WalkStays(r, k, tl, tried, x);
      k' := k;
    } else {
      WalkOn(r, k, tl, tried, x);
      k' := k + 1;
    }
  }

  // A charge that carries a bucket carries the advisor's choice.
  lemma ChargedBucket(decide: Query -> Action, e: FailureEvent, d: TypedDiagnosis, s: Session, r: Round, b: nat)
    requires KeepsTable(decide) && b in DELAY_BUCKETS && r.retry.delayHours == b as real
    ensures var x := ResultOf(decide, e, d, s, r);
            BucketOf(x) == [] || (BucketOf(x) == [b] && RetryBudgetLeft(s.st))
  {
    var q := Asked(e, d, Head(s), r);
    assert InTable(q, decide(q)) && Carries(q, decide(q));
    SnapFixesBuckets(b);
  }

  // What a step adds to the tried buckets, whichever way it ends.
  lemma StepTries(decide: Query -> Action, e: FailureEvent, d: TypedDiagnosis, s: Session, r: Round, b: nat)
    requires KeepsTable(decide) && b in DELAY_BUCKETS && r.retry.delayHours == b as real
    ensures var x := ResultOf(decide, e, d, s, r);
            Step(decide, e, d, s, r).triedDelays == if BucketOf(x) == [] then s.triedDelays else s.triedDelays + {b}
  {
    var q := Asked(e, d, Head(s), r);
    var x := ResultOf(decide, e, d, s, r);
    ChargedBucket(decide, e, d, s, r, b);
    TableSound(decide, q);
    SnapFixesBuckets(b);
  }

  // While there is retry budget there are ranks left.
  lemma RanksLeft(e: FailureEvent, s: Session, c: Curve, k: nat)
    requires Tracks(e, s) && IsHazardCurve(c) && Walked(Ranked(c), k, s.timeline, s.triedDelays)
    ensures RetryBudgetLeft(s.st) ==> k < |Ranked(c)|
  {
    NoMoreBucketsThanCharges(s.timeline);
    RankedHazardCurve(c, k);
  }

  lemma RoundWalks(decide: Query -> Action, e: FailureEvent, d: TypedDiagnosis, s: Session, r: Round, c: Curve, k: nat)
    returns (k': nat)
    requires KeepsTable(decide) && IsHazardCurve(c) && Advises(r.retry, c, s.triedDelays)
    requires Walked(Ranked(c), k, s.timeline, s.triedDelays)
    requires Tracks(e, s)
    ensures Walked(Ranked(c), k', Step(decide, e, d, s, r).timeline, Step(decide, e, d, s, r).triedDelays)
  {
    var x := ResultOf(decide, e, d, s, r);
    RanksLeft(e, s, c, k);
    RoundExtends(decide, e, d, s, r);
    var b := NextBucket(c, k, s.timeline, s.triedDelays);
    ChargedBucket(decide, e, d, s, r, b);
    StepTries(decide, e, d, s, r, b);
    var s' := Step(decide, e, d, s, r);
    k' := WalkStep(Ranked(c), k, s.timeline, s.triedDelays, x, s'.timeline, s'.triedDelays, b);
  }

  lemma {:induction false} EveryRunWalks(decide: Query -> Action, e: FailureEvent, d: TypedDiagnosis, rs: seq<Round>,
                                         c: Curve, n: nat)
    returns (k: nat)
    requires KeepsTable(decide) && IsHazardCurve(c) && Advised(decide, e, d, rs, c) && n <= |rs|
    ensures var s := After(decide, e, d, rs, n); Walked(Ranked(c), k, s.timeline, s.triedDelays)
  {
    if n == 0 {
      k := 0;
    } else {
      k := EveryRunWalks(decide, e, d, rs, c, n - 1);
      var s := After(decide, e, d, rs, n - 1);
      if s.exit.Running? {
        EveryRun(decide, e, d, rs, n - 1);
        assert AdvisedAt(decide, e, d, rs, c, n - 1);
        k := RoundWalks(decide, e, d, s, rs[n - 1], c, k);
      }
    }
  }

  /** Advised runs exist, whatever else the rounds bring: the advisor has an answer for each. */
  lemma {:induction false} AdvisedRunsExist(decide: Query -> Action, e: FailureEvent, d: TypedDiagnosis,
                                            rs: seq<Round>, c: Curve)
    returns (rs': seq<Round>)
    requires IsHazardCurve(c)
    ensures |rs'| == |rs| && Advised(decide, e, d, rs', c)
    ensures forall i | 0 <= i < |rs| :: rs'[i].(retry := rs[i].retry) == rs[i]
  {
    if rs == [] {
      rs' := [];
    } else {
      var n := |rs| - 1;
      var before := AdvisedRunsExist(decide, e, d, rs[..n], c);
      var best := Pick(c, After(decide, e, d, before, n).triedDelays);
      PickIsOnCurve(c, After(decide, e, d, before, n).triedDelays);
      DelaysAreBuckets(c, best);
      rs' := before + [rs[n].(retry := RetryAdvice(best.delay as real, best.p))];
      forall i | 0 <= i < |rs'| ensures AdvisedAt(decide, e, d, rs', c, i) {
        AfterLooksBack(decide, e, d, rs', before, i);
        assert i < n ==> AdvisedAt(decide, e, d, before, c, i);
      }
    }
  }

  lemma EveryWalk(e: FailureEvent, d: TypedDiagnosis, rs: seq<Round>, c: Curve) returns (k: nat)
    requires IsHazardCurve(c) && Advised(Decision, e, d, rs, c)
    ensures k <= |Ranked(c)| && k <= NPCI_MAX_RETRIES
    ensures Buckets(Recovery(Decision, e, d, rs).timeline) == Delays(Ranked(c))[..k]
  {
    DecisionKeepsTable();
    k := EveryRunWalks(Decision, e, d, rs, c, |rs|);
    EveryRunComplies(e, d, rs);
    NoMoreBucketsThanCharges(Recovery(Decision, e, d, rs).timeline);
  }

  /** The greedy walk refines sorting: with the trained retry advisor, the buckets a run charges,
      in order, are a prefix of the evaluation's schedule; hence no bucket is charged twice. */
  lemma WalkRefinesSorting(e: FailureEvent, d: TypedDiagnosis, rs: seq<Round>, c: Curve)
    requires IsHazardCurve(c) && Advised(Decision, e, d, rs, c)
    ensures var bs := Buckets(Recovery(Decision, e, d, rs).timeline); bs <= ModelSchedule(c) && Distinct(bs)
  {
    var k := EveryWalk(e, d, rs, c);
    RanksAreDistinct(c, k);
    RankedHazardCurve(c, 0);
  }

  /** And it is the best walk of its length: as many distinct buckets, chosen in any other way,
      are not expected to recover more. */
  lemma WalkIsOptimal(e: FailureEvent, d: TypedDiagnosis, rs: seq<Round>, c: Curve, s: seq<nat>)
    requires IsHazardCurve(c) && Advised(Decision, e, d, rs, c)
    requires Distinct(s) && |s| == |Buckets(Recovery(Decision, e, d, rs).timeline)|
    ensures Recovered(HazardsOf(c), s) <= Recovered(HazardsOf(c), Buckets(Recovery(Decision, e, d, rs).timeline))
  {
    var k := EveryWalk(e, d, rs, c);
    RankedHazardCurve(c, 0);
    TopRanksAreBest(c, k, s);
  }
}
