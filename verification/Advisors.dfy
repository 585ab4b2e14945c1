/** The trained advisors: pick the best untried entry of a fixed ranking, behind two caches. */
module Advisors {
  import opened Schemas
  import opened Simulation

  /** One bucket of a hazard curve. */
  datatype Point = Point(delay: nat, p: Probability)

  type Curve = seq<Point>

  function Delays(c: Curve): (ds: seq<nat>)
    ensures |ds| == |c|
  {
    if c == [] then [] else [c[0].delay] + Delays(c[1..])
  }

  /** What the hazard model returns: one point a bucket, in bucket order. */
  predicate IsHazardCurve(c: Curve) { Delays(c) == DELAY_BUCKETS }

  function Untried(c: Curve, tried: set<nat>): Curve {
    if c == [] then []
    else if c[0].delay in tried then Untried(c[1..], tried)
    else [c[0]] + Untried(c[1..], tried)
  }

  /** `max(..., key=p)`: the first of the points with the highest probability. */
  function FirstMax(c: Curve): Point
    requires c != []
  {
    if |c| == 1 then c[0]
    else
      var rest := FirstMax(c[1..]);
      if c[0].p >= rest.p then c[0] else rest
  }

  function Pick(c: Curve, tried: set<nat>): Point
    requires c != []
  {
    if Untried(c, tried) != [] then FirstMax(Untried(c, tried)) else FirstMax(c)
  }

  /** The advice is point i of the curve: eligible, with no eligible point above it and none as good
      before it. The untried buckets are eligible, or all once every bucket was tried. */
  predicate BestPoint(ra: RetryAdvice, c: Curve, tried: set<nat>, i: nat) {
    && i < |c| && ra.delayHours == c[i].delay as real && ra.pSuccess == c[i].p
    && var all := forall j | 0 <= j < |c| :: c[j].delay in tried;
       && (all || c[i].delay !in tried)
       && (forall j | 0 <= j < |c| && (all || c[j].delay !in tried) :: c[j].p <= c[i].p && (j < i ==> c[j].p < c[i].p))
  }

  lemma {:induction false} FirstMaxAt(c: Curve) returns (i: nat)
    requires c != []
    ensures i < |c| && c[i] == FirstMax(c)
    ensures forall j | 0 <= j < |c| :: c[j].p <= c[i].p && (j < i ==> c[j].p < c[i].p)
  {
    i := 0;
    if |c| > 1 {
      var k := FirstMaxAt(c[1..]);
      forall j | 1 <= j < |c| ensures c[j] == c[1..][j - 1] {
      }
      i := if c[0].p >= c[k + 1].p then 0 else k + 1;
    }
  }

  lemma {:induction false} NoneUntried(c: Curve, tried: set<nat>)
    ensures Untried(c, tried) == [] <==> forall j | 0 <= j < |c| :: c[j].delay in tried
  {
    if c != [] {
      NoneUntried(c[1..], tried);
      assert forall j | 1 <= j < |c| :: c[j] == c[1..][j - 1];
      assert forall j | 0 <= j < |c[1..]| :: c[1..][j] == c[j + 1];
    }
  }

  lemma {:induction false} UntriedMaxAt(c: Curve, tried: set<nat>) returns (i: nat)
    requires Untried(c, tried) != []
    ensures i < |c| && c[i] == FirstMax(Untried(c, tried)) && c[i].delay !in tried
    ensures forall j | 0 <= j < |c| && c[j].delay !in tried :: c[j].p <= c[i].p && (j < i ==> c[j].p < c[i].p)
  {
    var t := c[1..];
    assert forall j | 1 <= j < |c| :: c[j] == t[j - 1];
    i := 0;
    if Untried(t, tried) == [] {
      NoneUntried(t, tried);
    } else {
      var k := UntriedMaxAt(t, tried);
      if c[0].delay in tried {
        i := k + 1;
      } else {
        assert Untried(c, tried)[1..] == Untried(t, tried);
        i := if c[0].p >= t[k].p then 0 else k + 1;
      }
    }
  }

  /** The best untried point of the curve, or the best of all once every bucket was tried. */
  predicate Advises(ra: RetryAdvice, c: Curve, tried: set<nat>) {
    c != [] && ra.delayHours == Pick(c, tried).delay as real && ra.pSuccess == Pick(c, tried).p
  }

  lemma PickIsBestPoint(ra: RetryAdvice, c: Curve, tried: set<nat>) returns (i: nat)
    requires Advises(ra, c, tried)
    ensures BestPoint(ra, c, tried, i)
  {
    NoneUntried(c, tried);
    if Untried(c, tried) != [] {
      i := UntriedMaxAt(c, tried);
    } else {
      i := FirstMaxAt(c);
    }
  }

  /** One arm of an uplift ranking, best uplift first. */
  datatype Arm = Arm(arm: InterventionType, pRecover: Probability, uplift: real)

  function UntriedArms(ranked: seq<Arm>, tried: set<InterventionType>): seq<Arm> {
    if ranked == [] then []
    else if ranked[0].arm in tried then UntriedArms(ranked[1..], tried)
    else [ranked[0]] + UntriedArms(ranked[1..], tried)
  }

  function TopArm(ranked: seq<Arm>, tried: set<InterventionType>): Arm
    requires ranked != []
  {
    if UntriedArms(ranked, tried) != [] then UntriedArms(ranked, tried)[0] else ranked[0]
  }

  /** The advice is entry i of the ranking: the first arm not tried, or the first of all once every
      arm was tried. */
  predicate BestUntried(ia: InterventionAdvice, ranked: seq<Arm>, tried: set<InterventionType>, i: nat) {
    && i < |ranked| && ia == InterventionAdvice(ranked[i].arm, ranked[i].pRecover)
    && (|| (ranked[i].arm !in tried && forall j | 0 <= j < i :: ranked[j].arm in tried)
        || (i == 0 && forall j | 0 <= j < |ranked| :: ranked[j].arm in tried))
  }

  lemma {:induction false} UntriedArmsHead(ranked: seq<Arm>, tried: set<InterventionType>) returns (i: nat)
    ensures UntriedArms(ranked, tried) == [] ==> forall j | 0 <= j < |ranked| :: ranked[j].arm in tried
    ensures UntriedArms(ranked, tried) != [] ==>
              && i < |ranked| && ranked[i] == UntriedArms(ranked, tried)[0] && ranked[i].arm !in tried
              && forall j | 0 <= j < i :: ranked[j].arm in tried
  {
    i := 0;
    if ranked != [] && ranked[0].arm in tried {
      var k := UntriedArmsHead(ranked[1..], tried);
      i := k + 1;
      forall j | 0 <= j < |ranked| && (UntriedArms(ranked, tried) == [] || j < i) ensures ranked[j].arm in tried {
        if j > 0 {
          assert ranked[1..][j - 1] == ranked[j];
        }
      }
    }
  }

  lemma TopArmIsBestUntried(ranked: seq<Arm>, tried: set<InterventionType>) returns (i: nat)
    requires ranked != []
    ensures BestUntried(InterventionAdvice(TopArm(ranked, tried).arm, TopArm(ranked, tried).pRecover), ranked, tried, i)
  {
    i := UntriedArmsHead(ranked, tried);
    if UntriedArms(ranked, tried) == [] {
      i := 0;
    }
  }

  // ------------------------------------------------------------------ the caches

  /** What one mandate's inference depends on. */
  datatype Subject = Subject(e: FailureEvent, d: TypedDiagnosis)

  datatype Memo<V> = Memo(mandateId: string, value: V)

  /** The batch map after a batch is precomputed into it, row by row. */
  function Precomputed<V>(model: Subject -> V, warm: map<string, V>, rows: seq<Subject>): map<string, V> {
    if rows == [] then warm
    else
      var r := rows[|rows| - 1];
      Precomputed(model, warm, rows[..|rows| - 1])[r.e.mandateId := model(r)]
  }

  lemma {:induction false} PrecomputedKeys<V>(model: Subject -> V, warm: map<string, V>, rows: seq<Subject>)
    ensures Precomputed(model, warm, rows).Keys == warm.Keys + (set r | r in rows :: r.e.mandateId)
  {
    if rows != [] {
      var n := |rows| - 1;
      PrecomputedKeys(model, warm, rows[..n]);
      assert rows == rows[..n] + [rows[n]];
    }
  }

  lemma {:induction false} PrecomputedRow<V>(model: Subject -> V, warm: map<string, V>, rows: seq<Subject>, i: nat)
    requires i < |rows| && forall j | i < j < |rows| :: rows[j].e.mandateId != rows[i].e.mandateId
    ensures var id := rows[i].e.mandateId;
            id in Precomputed(model, warm, rows) && Precomputed(model, warm, rows)[id] == model(rows[i])
  {
    var n := |rows| - 1;
    if i < n {
      PrecomputedRow(model, warm, rows[..n], i);
    }
  }

  lemma {:induction false} PrecomputedOther<V>(model: Subject -> V, warm: map<string, V>, rows: seq<Subject>,
                                               id: string)
    requires id in warm && forall r | r in rows :: r.e.mandateId != id
    ensures id in Precomputed(model, warm, rows) && Precomputed(model, warm, rows)[id] == warm[id]
  {
    if rows != [] {
      assert rows[|rows| - 1] in rows;
      PrecomputedOther(model, warm, rows[..|rows| - 1], id);
    }
  }

  lemma {:induction false} PrecomputedFaithful<V>(model: Subject -> V, warm: map<string, V>, rows: seq<Subject>,
                                                  subjectOf: string -> Subject)
    requires forall id | id in warm :: warm[id] == model(subjectOf(id))
    requires forall r | r in rows :: subjectOf(r.e.mandateId) == r
    ensures forall id | id in Precomputed(model, warm, rows) ::
              Precomputed(model, warm, rows)[id] == model(subjectOf(id))
  {
    if rows != [] {
      assert rows[|rows| - 1] in rows;
      PrecomputedFaithful(model, warm, rows[..|rows| - 1], subjectOf);
    }
  }

  /** The warm batch map and the one-entry memo that both trained advisors keep before their model. */
  class ModelCache<V> {
    const model: Subject -> V
    var warm: map<string, V>
    var memo: Option<Memo<V>>

    constructor (model: Subject -> V)
      ensures this.model == model && warm == map[] && memo == None
      ensures forall subjectOf: string -> Subject :: Faithful(subjectOf)
    {
      this.model := model;
      warm, memo := map[], None;
    }

    /** Every cached value is the model's value for the subject that its mandate id stands for. */
    ghost predicate Faithful(subjectOf: string -> Subject)
      reads this
    {
      && (forall id | id in warm :: warm[id] == model(subjectOf(id)))
      && (memo.Some? ==> memo.value.value == model(subjectOf(memo.value.mandateId)))
    }

    /** Batch precomputation; the last row of a mandate id wins, other ids keep what they had. */
    method Warm(rows: seq<Subject>, ghost subjectOf: string -> Subject)
      modifies this
      ensures memo == old(memo)
      ensures warm.Keys == old(warm.Keys) + (set r | r in rows :: r.e.mandateId)
      ensures forall i | 0 <= i < |rows| && (forall j | i < j < |rows| :: rows[j].e.mandateId != rows[i].e.mandateId) ::
                warm[rows[i].e.mandateId] == model(rows[i])
      ensures forall id | id in old(warm) && (forall r | r in rows :: r.e.mandateId != id) :: warm[id] == old(warm)[id]
      ensures old(Faithful(subjectOf)) && (forall r | r in rows :: subjectOf(r.e.mandateId) == r) ==>
                Faithful(subjectOf)
    {
      ghost var before := warm;
      for i := 0 to |rows|
        invariant memo == old(memo)
        invariant warm == Precomputed(model, before, rows[..i])
      {
        assert rows[..i + 1][..i] == rows[..i];
        warm := warm[rows[i].e.mandateId := model(rows[i])];
      }
      assert rows[..|rows|] == rows;
      PrecomputedKeys(model, before, rows);
      forall i | 0 <= i < |rows| && (forall j | i < j < |rows| :: rows[j].e.mandateId != rows[i].e.mandateId)
        ensures warm[rows[i].e.mandateId] == model(rows[i])
      {
        PrecomputedRow(model, before, rows, i);
      }
      forall id | id in before && (forall r | r in rows :: r.e.mandateId != id) ensures warm[id] == before[id] {
        PrecomputedOther(model, before, rows, id);
      }
      if old(Faithful(subjectOf)) && (forall r | r in rows :: subjectOf(r.e.mandateId) == r) {
        PrecomputedFaithful(model, before, rows, subjectOf);
      }
    }

    /** The caches are transparent: while every mandate id keeps standing for one event and one
        diagnosis, a lookup returns exactly what the model would. The last clauses say what it
        returns in any case, so a mandate id that changes its subject is answered from the past. */
    method Lookup(s: Subject, ghost subjectOf: string -> Subject) returns (v: V)
      modifies this
      ensures old(Faithful(subjectOf)) && subjectOf(s.e.mandateId) == s ==> v == model(s) && Faithful(subjectOf)
      ensures warm == old(warm)
      ensures s.e.mandateId in warm ==> v == warm[s.e.mandateId] && memo == old(memo)
      ensures s.e.mandateId !in warm ==> memo == Some(Memo(s.e.mandateId, v))
      ensures s.e.mandateId !in warm && old(memo).Some? && old(memo).value.mandateId == s.e.mandateId ==>
                v == old(memo).value.value
      ensures s.e.mandateId !in warm && (old(memo).None? || old(memo).value.mandateId != s.e.mandateId) ==>
                v == model(s)
    {
      if s.e.mandateId in warm {
        v := warm[s.e.mandateId];
      } else {
        if memo.None? || memo.value.mandateId != s.e.mandateId {
          memo := Some(Memo(s.e.mandateId, model(s)));
        }
        v := memo.value.value;
      }
    }
  }

  lemma {:induction false} FirstMaxIsOnCurve(c: Curve)
    requires c != []
    ensures FirstMax(c) in c
    ensures forall x | x in c :: x.p <= FirstMax(c).p
  {
    assert c == [c[0]] + c[1..];
    if |c| > 1 {
      FirstMaxIsOnCurve(c[1..]);
    }
  }

  lemma {:induction false} UntriedMeans(c: Curve, tried: set<nat>)
    ensures forall x :: x in Untried(c, tried) <==> x in c && x.delay !in tried
  {
    if c != [] {
      UntriedMeans(c[1..], tried);
      assert c == [c[0]] + c[1..];
    }
  }

  lemma PickIsOnCurve(c: Curve, tried: set<nat>)
    requires c != []
    ensures Pick(c, tried) in c
  {
    UntriedMeans(c, tried);
    FirstMaxIsOnCurve(c);
    if Untried(c, tried) != [] {
      FirstMaxIsOnCurve(Untried(c, tried));
    }
  }

  lemma {:induction false} DelayIsListed(c: Curve, x: Point)
    requires x in c
    ensures x.delay in Delays(c)
  {
    assert c == [c[0]] + c[1..];
    if x != c[0] {
      DelayIsListed(c[1..], x);
    }
  }

  lemma DelaysAreBuckets(c: Curve, x: Point)
    requires IsHazardCurve(c) && x in c
    ensures x.delay in DELAY_BUCKETS && x.delay <= 168
  {
    DelayIsListed(c, x);
  }

  /** `SurvivalRetryAdvisor.advise`. */
  method SurvivalAdvise(cache: ModelCache<Curve>, s: Subject, tried: set<nat>, ghost subjectOf: string -> Subject)
    returns (advice: RetryAdvice)
    requires cache.Faithful(subjectOf) && subjectOf(s.e.mandateId) == s && IsHazardCurve(cache.model(s))
    modifies cache
    ensures cache.Faithful(subjectOf) && cache.warm == old(cache.warm)
    ensures Advises(advice, cache.model(s), tried)
    ensures exists i :: BestPoint(advice, cache.model(s), tried, i)
  {
    var curve := cache.Lookup(s, subjectOf);
    var best := Pick(curve, tried);
    PickIsOnCurve(curve, tried);
    DelaysAreBuckets(curve, best);
    advice := RetryAdvice(best.delay as real, best.p);
    ghost var i := PickIsBestPoint(advice, curve, tried);
  }

  /** `TLearnerUpliftAdvisor.advise`. */
  method UpliftAdvise(cache: ModelCache<seq<Arm>>, s: Subject, tried: set<InterventionType>,
                      ghost subjectOf: string -> Subject)
    returns (advice: InterventionAdvice)
    requires cache.Faithful(subjectOf) && subjectOf(s.e.mandateId) == s && cache.model(s) != []
    modifies cache
    ensures cache.Faithful(subjectOf) && cache.warm == old(cache.warm)
    ensures exists i :: BestUntried(advice, cache.model(s), tried, i)
  {
    var ranked := cache.Lookup(s, subjectOf);
    var top := TopArm(ranked, tried);
    advice := InterventionAdvice(top.arm, top.pRecover);
    ghost var i := TopArmIsBestUntried(ranked, tried);
  }
}
