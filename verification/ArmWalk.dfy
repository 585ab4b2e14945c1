/** The trained uplift advisor over whole runs: it walks down its ranking as arms are used up. */
module ArmWalk {
  import opened Schemas
  import opened Engine
  import opened EngineTheorems
  import opened Agent
  import opened LoopTheorems
  import opened Compliance
  import opened Advisors
  import opened Course

  /** Round n brings the trained advisor's arm, entry i of the ranking. */
  ghost predicate ArmAt(decide: Query -> Action, e: FailureEvent, d: TypedDiagnosis, rs: seq<Round>, ranked: seq<Arm>,
                        n: int, i: nat)
  {
    0 <= n < |rs| && BestUntried(rs[n].arm, ranked, After(decide, e, d, rs, n).triedArms, i)
  }

  ghost predicate ArmRanked(decide: Query -> Action, e: FailureEvent, d: TypedDiagnosis, rs: seq<Round>,
                            ranked: seq<Arm>, n: int)
  {
    exists i: nat :: ArmAt(decide, e, d, rs, ranked, n, i)
  }

  /** Every round's arm is the trained advisor's, for what the run has used up by then. */
  ghost predicate ArmAdvised(decide: Query -> Action, e: FailureEvent, d: TypedDiagnosis, rs: seq<Round>,
                             ranked: seq<Arm>)
  {
    forall n | 0 <= n < |rs| :: ArmRanked(decide, e, d, rs, ranked, n)
  }

  lemma StepKeepsTried(decide: Query -> Action, e: FailureEvent, d: TypedDiagnosis, s: Session, r: Round)
    ensures s.triedArms <= Step(decide, e, d, s, r).triedArms
  {
  }

  lemma {:induction false} TriedGrows(decide: Query -> Action, e: FailureEvent, d: TypedDiagnosis, rs: seq<Round>,
                                      n: nat, m: nat)
    requires n <= m <= |rs|
    ensures After(decide, e, d, rs, n).triedArms <= After(decide, e, d, rs, m).triedArms
  {
    if n < m {
      var k := m - 1;
      TriedGrows(decide, e, d, rs, n, k);
      StepKeepsTried(decide, e, d, After(decide, e, d, rs, k), rs[k]);
    }
  }

  // The same walk on the two sets of tried arms.
  lemma RanksFall(ranked: seq<Arm>, before: set<InterventionType>, after: set<InterventionType>,
                  x: InterventionAdvice, i: nat, y: InterventionAdvice, j: nat, free: nat)
    requires before <= after && BestUntried(x, ranked, before, i) && BestUntried(y, ranked, after, j)
    requires free < |ranked| && ranked[free].arm !in after
    ensures i <= j && y.intervention !in after
    ensures x.intervention in after ==> i < j
  {
    assert ranked[free].arm !in before;
  }

  /** While an arm of the ranking is left, the advisor only moves down its ranking from round to round,
      moves on once an executed step has used up what it proposed, and never proposes an arm that an
      executed step has already used up. */
  lemma ArmsWalkDown(decide: Query -> Action, e: FailureEvent, d: TypedDiagnosis, rs: seq<Round>, ranked: seq<Arm>,
                     n: nat, i: nat, m: nat, j: nat, free: nat)
    requires KeepsTable(decide) && n < m
    requires ArmAt(decide, e, d, rs, ranked, n, i) && ArmAt(decide, e, d, rs, ranked, m, j)
    requires After(decide, e, d, rs, m).exit.Running?
    requires free < |ranked| && !Tried(After(decide, e, d, rs, m).timeline, ranked[free].arm)
    ensures i <= j && !Tried(After(decide, e, d, rs, m).timeline, rs[m].arm.intervention)
    ensures Tried(After(decide, e, d, rs, m).timeline, rs[n].arm.intervention) ==> i < j
  {
    TriedGrows(decide, e, d, rs, n, m);
    TriedIsExecuted(decide, e, d, rs, m);
    RanksFall(ranked, After(decide, e, d, rs, n).triedArms, After(decide, e, d, rs, m).triedArms,
              rs[n].arm, i, rs[m].arm, j, free);
  }

  /** Such runs exist for every ranking, whatever else the rounds bring. */
  lemma {:induction false} ArmAdvisedRunsExist(decide: Query -> Action, e: FailureEvent, d: TypedDiagnosis,
                                               rs: seq<Round>, ranked: seq<Arm>)
    returns (rs': seq<Round>)
    requires ranked != []
    ensures |rs'| == |rs| && ArmAdvised(decide, e, d, rs', ranked)
    ensures forall i | 0 <= i < |rs| :: rs'[i].(arm := rs[i].arm) == rs[i]
  {
    if rs == [] {
      rs' := [];
    } else {
      var n := |rs| - 1;
      var before := ArmAdvisedRunsExist(decide, e, d, rs[..n], ranked);
      var tried := After(decide, e, d, before, n).triedArms;
      var top := TopArm(ranked, tried);
      var k := TopArmIsBestUntried(ranked, tried);
      rs' := before + [rs[n].(arm := InterventionAdvice(top.arm, top.pRecover))];
      forall m | 0 <= m < |rs'| ensures ArmRanked(decide, e, d, rs', ranked, m) {
        AfterLooksBack(decide, e, d, rs', before, m);
        if m < n {
          assert ArmRanked(decide, e, d, before, ranked, m);
          var i: nat :| ArmAt(decide, e, d, before, ranked, m, i);
          assert ArmAt(decide, e, d, rs', ranked, m, i);
        } else {
          assert ArmAt(decide, e, d, rs', ranked, m, k);
        }
      }
    }
  }
}
