/** Discrete-time survival over a hazard curve, and the value of a retry schedule. */
module RetryTiming {
  import opened Schemas
  import opened Simulation
  import opened Advisors
  import opened Ranking
  import opened Products

  /** One entry of a survival or a recovery curve. */
  datatype Level = Level(delay: nat, value: real)

  function Failing(c: Curve): (xs: seq<real>) { seq(|c|, i requires 0 <= i < |c| => 1.0 - c[i].p) }

  /** The probability that the payment is still out after every bucket of a curve. */
  function Survival(c: Curve): real { Product(Failing(c)) }

  /** `dict(curve).get(bucket, 0.0)`: the last point of a bucket wins, other buckets never recover. */
  function HazardAt(c: Curve, bucket: nat): Probability {
    if c == [] then 0.0
    else if c[|c| - 1].delay == bucket then c[|c| - 1].p
    else HazardAt(c[..|c| - 1], bucket)
  }

  /** A hazard for every bucket. */
  type Hazards = nat -> Probability

  function HazardsOf(c: Curve): Hazards { b => HazardAt(c, b) }

  function Misses(h: Hazards, schedule: seq<nat>): seq<real> {
    seq(|schedule|, i requires 0 <= i < |schedule| => 1.0 - h(schedule[i]))
  }

  /** One minus the probability that every retry of a schedule fails. */
  function Recovered(h: Hazards, schedule: seq<nat>): real { 1.0 - Product(Misses(h, schedule)) }

  lemma SurvivalStep(c: Curve, i: nat)
    requires i < |c|
    ensures Survival(c[..i + 1]) == Survival(c[..i]) * (1.0 - c[i].p)
  {
    assert Failing(c[..i + 1]) == Failing(c[..i]) + [1.0 - c[i].p];
    ProductLast(Failing(c[..i]), 1.0 - c[i].p);
  }

  lemma MissStep(h: Hazards, s: seq<nat>, i: nat)
    requires i < |s|
    ensures Product(Misses(h, s[..i + 1])) == Product(Misses(h, s[..i])) * (1.0 - h(s[i]))
  {
    assert Misses(h, s[..i + 1]) == Misses(h, s[..i]) + [1.0 - h(s[i])];
    ProductLast(Misses(h, s[..i]), 1.0 - h(s[i]));
  }

  // ------------------------------------------------------------------ the curves as written

  method SurvivalCurve(c: Curve) returns (out: seq<Level>)
    ensures |out| == |c|
    ensures forall i | 0 <= i < |c| :: out[i] == Level(c[i].delay, Survival(c[..i + 1]))
  {
    var s := 1.0;
    out := [];
    for i := 0 to |c|
      invariant s == Survival(c[..i]) && |out| == i
      invariant forall j | 0 <= j < i :: out[j] == Level(c[j].delay, Survival(c[..j + 1]))
    {
      SurvivalStep(c, i);
      s := s * (1.0 - c[i].p);
      out := out + [Level(c[i].delay, s)];
    }
  }

  method RecoveryCurve(c: Curve) returns (out: seq<Level>)
    ensures |out| == |c|
    ensures forall i | 0 <= i < |c| :: out[i] == Level(c[i].delay, 1.0 - Survival(c[..i + 1]))
  {
    var levels := SurvivalCurve(c);
    out := seq(|levels|, i requires 0 <= i < |levels| => levels[i].(value := 1.0 - levels[i].value));
  }

  function Get(hz: map<nat, Probability>, b: nat): real { if b in hz then hz[b] else 0.0 }

  ghost predicate Holds(hz: map<nat, Probability>, h: Hazards) { forall b :: Get(hz, b) == h(b) }

  lemma HazardStep(c: Curve, i: nat, before: map<nat, Probability>, hz: map<nat, Probability>)
    requires i < |c| && Holds(before, HazardsOf(c[..i])) && hz == before[c[i].delay := c[i].p]
    ensures Holds(hz, HazardsOf(c[..i + 1]))
  {
    assert c[..i + 1][..i] == c[..i];
    forall b ensures Get(hz, b) == HazardsOf(c[..i + 1])(b) {
      assert Get(before, b) == HazardsOf(c[..i])(b);
    }
  }

  method HazardMap(c: Curve) returns (hz: map<nat, Probability>)
    ensures Holds(hz, HazardsOf(c))
  {
    hz := map[];
    for i := 0 to |c|
      invariant Holds(hz, HazardsOf(c[..i]))
    {
      ghost var before := hz;
      hz := hz[c[i].delay := c[i].p];
      HazardStep(c, i, before, hz);
    }
    assert c[..|c|] == c;
  }

  method Compose(hz: map<nat, Probability>, ghost h: Hazards, schedule: seq<nat>) returns (surv: real)
    requires Holds(hz, h)
    ensures surv == Product(Misses(h, schedule))
  {
    surv := 1.0;
    for i := 0 to |schedule|
      invariant surv == Product(Misses(h, schedule[..i]))
    {
      MissStep(h, schedule, i);
      surv := surv * (1.0 - Get(hz, schedule[i]));
    }
    assert schedule[..|schedule|] == schedule;
  }

  method ExpectedRecovery(c: Curve, schedule: seq<nat>) returns (r: real)
    ensures r == Recovered(HazardsOf(c), schedule)
  {
    var hz := HazardMap(c);
    var surv := Compose(hz, HazardsOf(c), schedule);
    r := 1.0 - surv;
  }

  // ------------------------------------------------------------------ survival

  /** Survival stays in [0, 1] and never rises: the recovery curve is a distribution function. */
  lemma {:induction false} SurvivalFalls(c: Curve, i: nat)
    requires i <= |c|
    ensures 0.0 <= Survival(c) <= Survival(c[..i]) <= 1.0
    decreases |c| - i
  {
    ProductIsUnit(Failing(c[..i]));
    if i == |c| {
      assert c[..i] == c;
    } else {
      SurvivalFalls(c, i + 1);
      SurvivalStep(c, i);
      MulUnit(Survival(c[..i]), 1.0 - c[i].p);
    }
  }

  lemma {:induction false} AscendingAt(c: Curve, i: nat, j: nat)
    requires Ascending(c) && i < j < |c|
    ensures c[i].delay < c[j].delay
  {
    if i > 0 {
      AscendingAt(c[1..], i - 1, j - 1);
    }
  }

  lemma {:induction false} HazardOnCurve(c: Curve, i: nat, n: nat)
    requires Ascending(c) && i < n <= |c|
    ensures HazardAt(c[..n], c[i].delay) == c[i].p
  {
    if i < n - 1 {
      AscendingAt(c, i, n - 1);
      HazardOnCurve(c, i, n - 1);
      assert c[..n][..n - 1] == c[..n - 1];
    }
  }

  lemma HazardOfPoint(c: Curve, i: nat)
    requires Ascending(c) && i < |c|
    ensures HazardAt(c, c[i].delay) == c[i].p
  {
    HazardOnCurve(c, i, |c|);
    assert c[..|c|] == c;
  }

  /** Retrying every bucket is worth the last point of the recovery curve. */
  lemma FullScheduleIsLastPoint(c: Curve)
    requires IsHazardCurve(c)
    ensures Recovered(HazardsOf(c), DELAY_BUCKETS) == 1.0 - Survival(c)
  {
    RankedHazardCurve(c, 0);
    var b := Delays(c);
    forall i | 0 <= i < |c| ensures Misses(HazardsOf(c), b)[i] == Failing(c)[i] {
      DelaysAt(c, i);
      HazardOfPoint(c, i);
    }
    assert Misses(HazardsOf(c), b) == Failing(c);
  }

  // ------------------------------------------------------------------ schedules as multisets

  lemma MissesWithout(h: Hazards, s: seq<nat>, i: nat)
    requires i < |s|
    ensures Misses(h, Without(s, i)) == Without(Misses(h, s), i)
  {
    var t := Without(s, i);
    forall k | 0 <= k < |t| ensures Misses(h, t)[k] == Without(Misses(h, s), i)[k] {
      assert t[k] == if k < i then s[k] else s[k + 1];
    }
  }

  // Taking the same retry out of two schedules keeps their order.
  lemma SameRetryOut(h: Hazards, s: seq<nat>, i: nat, t: seq<nat>, j: nat)
    requires i < |s| && j < |t| && s[i] == t[j]
    requires Recovered(h, Without(s, i)) <= Recovered(h, Without(t, j))
    ensures Recovered(h, s) <= Recovered(h, t)
  {
    MissesWithout(h, s, i);
    MissesWithout(h, t, j);
    SameFactorOut(Misses(h, s), i, Misses(h, t), j, 1.0 - h(s[i]));
  }

  lemma WithoutCounts(s: seq<nat>, i: nat)
    requires i < |s|
    ensures multiset(s) == multiset(Without(s, i)) + multiset{s[i]}
  {
    assert s == s[..i] + ([s[i]] + s[i + 1..]);
  }

  lemma SharedRetry(s: seq<nat>, t: seq<nat>) returns (j: nat)
    requires s != [] && multiset(s) <= multiset(t)
    ensures j < |t| && t[j] == s[0] && multiset(Without(s, 0)) <= multiset(Without(t, j))
  {
    WithoutCounts(s, 0);
    assert s[0] in multiset(t);
    j :| 0 <= j < |t| && t[j] == s[0];
    WithoutCounts(t, j);
    var a, b := multiset(Without(s, 0)), multiset(Without(t, j));
    assert multiset(s) == a + multiset{s[0]} && multiset(t) == b + multiset{s[0]};
    forall x ensures a[x] <= b[x] {
      assert multiset(s)[x] <= multiset(t)[x];
    }
  }

  /** More retries never recover less, wherever they are inserted. */
  lemma {:induction false} MoreRetriesRecoverMore(h: Hazards, s: seq<nat>, t: seq<nat>)
    requires multiset(s) <= multiset(t)
    ensures Recovered(h, s) <= Recovered(h, t)
  {
    if s == [] {
      ProductIsUnit(Misses(h, t));
    } else {
      var j := SharedRetry(s, t);
      MoreRetriesRecoverMore(h, Without(s, 0), Without(t, j));
      SameRetryOut(h, s, 0, t, j);
    }
  }

  /** Reordering a schedule does not change its expected recovery. */
  lemma OrderDoesNotMatter(h: Hazards, s: seq<nat>, t: seq<nat>)
    requires multiset(s) == multiset(t)
    ensures Recovered(h, s) == Recovered(h, t)
  {
    MoreRetriesRecoverMore(h, s, t);
    MoreRetriesRecoverMore(h, t, s);
  }

  function TotalHazard(h: Hazards, s: seq<nat>): real {
    if s == [] then 0.0 else TotalHazard(h, s[..|s| - 1]) + h(s[|s| - 1])
  }

  lemma OneRetry(h: Hazards, b: nat)
    ensures Recovered(h, [b]) == h(b)
  {
    MissStep(h, [b], 0);
  }

  lemma UnionBound(m: real, h: real)
    requires 0.0 <= m <= 1.0 && 0.0 <= h
    ensures 1.0 - m * (1.0 - h) <= (1.0 - m) + h
  {
    MulOrder(h, m, 1.0);
  }

  lemma {:induction false} AtMostTheSum(h: Hazards, s: seq<nat>)
    ensures Recovered(h, s) <= TotalHazard(h, s)
  {
    if s != [] {
      var n := |s| - 1;
      AtMostTheSum(h, s[..n]);
      MissStep(h, s, n);
      assert s[..n + 1] == s;
      ProductIsUnit(Misses(h, s[..n]));
      UnionBound(Product(Misses(h, s[..n])), h(s[n]));
    }
  }

  /** A schedule is worth at least its best retry and at most the sum of its retries. */
  lemma RecoveryBounds(h: Hazards, s: seq<nat>)
    ensures forall b | b in s :: h(b) <= Recovered(h, s)
    ensures Recovered(h, s) <= TotalHazard(h, s)
  {
    forall b | b in s ensures h(b) <= Recovered(h, s) {
      OneRetry(h, b);
      assert b in multiset(s);
      MoreRetriesRecoverMore(h, [b], s);
    }
    AtMostTheSum(h, s);
  }

  // ------------------------------------------------------------------ the best schedule

  predicate Distinct(s: seq<nat>) { forall i, j | 0 <= i < j < |s| :: s[i] != s[j] }

  lemma {:induction false} DistinctSize(s: seq<nat>, inside: set<nat>)
    requires Distinct(s) && forall b | b in s :: b in inside
    ensures |s| <= |inside|
  {
    if s != [] {
      var x := s[|s| - 1];
      DistinctSize(s[..|s| - 1], inside - {x});
    }
  }

  lemma {:induction false} TriedSize(r: Curve, k: nat)
    requires k <= |r|
    ensures |TriedUpTo(r, k)| <= k
  {
    if k > 0 {
      TriedSize(r, k - 1);
      assert TriedUpTo(r, k) == TriedUpTo(r, k - 1) + {r[k - 1].delay};
    }
  }

  // Among k distinct buckets one is ranked k-th or later, so is no better than the k-th.
  lemma SomeoneRanksLow(r: Curve, k: nat, s: seq<nat>) returns (i: nat)
    requires 1 <= k <= |r| && |s| == k && Distinct(s)
    ensures i < |s| && s[i] !in TriedUpTo(r, k - 1)
  {
    if forall b | b in s :: b in TriedUpTo(r, k - 1) {
      DistinctSize(s, TriedUpTo(r, k - 1));
      TriedSize(r, k - 1);
      assert false;
    }
    var b :| b in s && b !in TriedUpTo(r, k - 1);
    i :| 0 <= i < |s| && s[i] == b;
  }

  lemma {:induction false} HazardOffCurve(c: Curve, b: nat)
    requires forall x | x in c :: x.delay != b
    ensures HazardAt(c, b) == 0.0
  {
    if c != [] {
      HazardOffCurve(c[..|c| - 1], b);
    }
  }

  lemma RankHazard(c: Curve, k: nat)
    requires Ascending(c) && k < |Ranked(c)|
    ensures HazardAt(c, Ranked(c)[k].delay) == Ranked(c)[k].p
  {
    RankingSorts(c);
    assert Ranked(c)[k] in multiset(c);
    var i :| 0 <= i < |c| && c[i] == Ranked(c)[k];
    HazardOfPoint(c, i);
  }

  // A bucket outside the first k ranks is no better than rank k.
  lemma LowRankIsNoBetter(c: Curve, k: nat, b: nat)
    requires Ascending(c) && k < |Ranked(c)| && b !in TriedUpTo(Ranked(c), k)
    ensures HazardAt(c, b) <= Ranked(c)[k].p
  {
    RankingSorts(c);
    if x :| x in c && x.delay == b {
      assert x in multiset(Ranked(c));
      var j :| 0 <= j < |Ranked(c)| && Ranked(c)[j] == x;
      RankHazard(c, j);
      assert j >= k;
      if j > k {
        OrderedAt(Ranked(c), k, j);
      }
    } else {
      HazardOffCurve(c, b);
    }
  }

  lemma TopMissed(h: Hazards, top: seq<nat>, k: nat, s: seq<nat>, i: nat)
    requires i < |s| && k < |top| && h(s[i]) <= h(top[k])
    requires Recovered(h, Without(s, i)) <= Recovered(h, top[..k])
    ensures Recovered(h, s) <= Recovered(h, top[..k + 1])
  {
    MissesWithout(h, s, i);
    assert Misses(h, top[..k + 1]) == Misses(h, top[..k]) + [1.0 - h(top[k])];
    ProductIsUnit(Misses(h, top[..k]));
    SmallerLast(Misses(h, s), i, Misses(h, top[..k]), 1.0 - h(s[i]), 1.0 - h(top[k]));
  }

  /** No k distinct buckets recover more than the k best-ranked ones. */
  lemma {:induction false} TopRanksAreBest(c: Curve, k: nat, s: seq<nat>)
    requires Ascending(c) && k <= |Ranked(c)| && |s| == k && Distinct(s)
    ensures Recovered(HazardsOf(c), s) <= Recovered(HazardsOf(c), Delays(Ranked(c))[..k])
  {
    if k > 0 {
      var r := Ranked(c);
      var i := SomeoneRanksLow(r, k, s);
      TopRanksAreBest(c, k - 1, Without(s, i));
      DelaysAt(r, k - 1);
      RankHazard(c, k - 1);
      LowRankIsNoBetter(c, k - 1, s[i]);
      TopMissed(HazardsOf(c), Delays(r), k - 1, s, i);
    }
  }

  lemma RanksAreDistinct(c: Curve, k: nat)
    requires IsHazardCurve(c) && k <= |Ranked(c)|
    ensures Distinct(Delays(Ranked(c))[..k])
  {
    var r := Ranked(c);
    RankedHazardCurve(c, 0);
    forall i, j | 0 <= i < j < k ensures Delays(r)[i] != Delays(r)[j] {
      OrderedAt(r, i, j);
      DelaysAt(r, i);
      DelaysAt(r, j);
    }
  }

  /** The model schedule is three distinct buckets, and optimal: no schedule of distinct buckets within
      the retry cap is expected to recover more. */
  lemma ModelScheduleIsBest(c: Curve, s: seq<nat>)
    requires IsHazardCurve(c) && |s| <= NPCI_MAX_RETRIES && Distinct(s)
    ensures |ModelSchedule(c)| == 3 && Distinct(ModelSchedule(c))
    ensures Recovered(HazardsOf(c), s) <= Recovered(HazardsOf(c), ModelSchedule(c))
  {
    RankedHazardCurve(c, 0);
    RanksAreDistinct(c, NPCI_MAX_RETRIES);
    TopRanksAreBest(c, |s|, s);
    var all := Delays(Ranked(c));
    assert all[..NPCI_MAX_RETRIES] == all[..|s|] + all[|s|..NPCI_MAX_RETRIES];
    MoreRetriesRecoverMore(HazardsOf(c), all[..|s|], ModelSchedule(c));
  }
}
