/** The hazard curve ranked: the schedule a sort would give, and the greedy choice that follows it. */
module Ranking {
  import opened Schemas
  import opened Simulation
  import opened Advisors

  // ------------------------------------------------------------------ the model schedule

  /** `sorted(curve, key=p, reverse=True)`, which keeps the order of equal keys. */
  function Insert(x: Point, c: Curve): Curve {
    if c == [] || x.p >= c[0].p then [x] + c else [c[0]] + Insert(x, c[1..])
  }

  function Ranked(c: Curve): Curve { if c == [] then [] else Insert(c[0], Ranked(c[1..])) }

  /** The schedule the offline evaluation scores: the buckets of the best points, one a retry. */
  function ModelSchedule(c: Curve): seq<nat> {
    if |Ranked(c)| <= NPCI_MAX_RETRIES then Delays(Ranked(c)) else Delays(Ranked(c))[..NPCI_MAX_RETRIES]
  }

  /** Ranks ahead of: a higher probability, or the same one in an earlier bucket. */
  predicate Ahead(x: Point, y: Point) {
    x.delay != y.delay && (x.p > y.p || (x.p == y.p && x.delay < y.delay))
  }

  ghost predicate Ordered(c: Curve) {
    c == [] || ((forall y | y in c[1..] :: Ahead(c[0], y)) && Ordered(c[1..]))
  }

  ghost predicate Ascending(c: Curve) {
    c == [] || ((forall y | y in c[1..] :: c[0].delay < y.delay) && Ascending(c[1..]))
  }

  lemma {:induction false} InsertAdds(x: Point, c: Curve)
    ensures multiset(Insert(x, c)) == multiset([x]) + multiset(c)
  {
    if c != [] && x.p < c[0].p {
      InsertAdds(x, c[1..]);
      assert c == [c[0]] + c[1..];
    }
  }

  lemma {:induction false} InsertOrders(x: Point, c: Curve)
    requires Ordered(c) && forall y | y in c :: x.delay < y.delay
    ensures Ordered(Insert(x, c))
  {
    var r := Insert(x, c);
    if c == [] || x.p >= c[0].p {
      assert r[1..] == c;
      forall y | y in c ensures Ahead(x, y) {
        assert y == c[0] || y in c[1..];
      }
    } else {
      assert r[1..] == Insert(x, c[1..]);
      InsertOrders(x, c[1..]);
      InsertAdds(x, c[1..]);
      forall y | y in r[1..] ensures Ahead(c[0], y) {
        assert y in multiset(r[1..]);
      }
    }
  }

  /** Ranking permutes the curve into the one order in which higher probabilities come first and
      ties keep their bucket order. */
  lemma {:induction false} RankingSorts(c: Curve)
    requires Ascending(c)
    ensures Ordered(Ranked(c)) && multiset(Ranked(c)) == multiset(c)
  {
    if c != [] {
      var r := Ranked(c[1..]);
      RankingSorts(c[1..]);
      InsertAdds(c[0], r);
      assert c == [c[0]] + c[1..];
      forall y | y in r ensures c[0].delay < y.delay {
        assert y in multiset(r);
      }
      InsertOrders(c[0], r);
    }
  }

  lemma {:induction false} OrderedAt(c: Curve, i: nat, j: nat)
    requires Ordered(c) && i < j < |c|
    ensures Ahead(c[i], c[j])
  {
    if i > 0 {
      OrderedAt(c[1..], i - 1, j - 1);
    }
  }

  // ------------------------------------------------------------------ the greedy choice is the next rank

  lemma {:induction false} FirstMaxIsFirstRank(c: Curve)
    requires c != []
    ensures Ranked(c) != [] && FirstMax(c) == Ranked(c)[0]
  {
    if |c| > 1 {
      FirstMaxIsFirstRank(c[1..]);
    } else {
      assert c[1..] == [];
    }
  }

  lemma UntriedHead(x: Point, c: Curve, tried: set<nat>)
    ensures Untried([x] + c, tried) == if x.delay in tried then Untried(c, tried) else [x] + Untried(c, tried)
  {
    assert ([x] + c)[1..] == c;
  }

  lemma InsertBelow(x: Point, y: Point, c: Curve)
    requires x.p < y.p
    ensures Insert(x, [y] + c) == [y] + Insert(x, c)
  {
    assert ([y] + c)[1..] == c;
  }

  lemma InsertAbove(x: Point, c: Curve, tried: set<nat>)
    requires Ordered(c) && c != [] && x.p >= c[0].p
    ensures Insert(x, Untried(c, tried)) == [x] + Untried(c, tried)
  {
    UntriedMeans(c, tried);
    var u := Untried(c, tried);
    if u != [] {
      assert u[0] in u;
      assert u[0] == c[0] || u[0] in c[1..];
    }
  }

  lemma {:induction false} InsertCommutes(x: Point, c: Curve, tried: set<nat>)
    requires Ordered(c)
    ensures Untried(Insert(x, c), tried) == if x.delay in tried then Untried(c, tried) else Insert(x, Untried(c, tried))
  {
    if c == [] {
      UntriedHead(x, c, tried);
    } else if x.p >= c[0].p {
      UntriedHead(x, c, tried);
      InsertAbove(x, c, tried);
    } else {
      UntriedHead(c[0], Insert(x, c[1..]), tried);
      InsertCommutes(x, c[1..], tried);
      InsertBelow(x, c[0], Untried(c[1..], tried));
    }
  }

  lemma RankedHead(x: Point, c: Curve)
    ensures Ranked([x] + c) == Insert(x, Ranked(c))
  {
    assert ([x] + c)[1..] == c;
  }

  /** Leaving out tried buckets before or after sorting makes no difference. */
  lemma {:induction false} RankingCommutes(c: Curve, tried: set<nat>)
    requires Ascending(c)
    ensures Ranked(Untried(c, tried)) == Untried(Ranked(c), tried)
  {
    if c != [] {
      RankingCommutes(c[1..], tried);
      RankingSorts(c[1..]);
      InsertCommutes(c[0], Ranked(c[1..]), tried);
      RankedHead(c[0], Untried(c[1..], tried));
    }
  }

  function TriedUpTo(c: Curve, k: nat): set<nat>
    requires k <= |c|
  {
    set i | 0 <= i < k :: c[i].delay
  }

  lemma {:induction false} UntriedSplit(a: Curve, b: Curve, tried: set<nat>)
    ensures Untried(a + b, tried) == Untried(a, tried) + Untried(b, tried)
  {
    if a == [] {
      assert a + b == b;
    } else {
      UntriedSplit(a[1..], b, tried);
      assert a + b == [a[0]] + (a[1..] + b);
      UntriedHead(a[0], a[1..] + b, tried);
      if a[0].delay !in tried {
        assert Untried(a, tried) + Untried(b, tried) == [a[0]] + (Untried(a[1..], tried) + Untried(b, tried));
      }
    }
  }

  lemma {:induction false} AllTried(c: Curve, tried: set<nat>)
    requires forall x | x in c :: x.delay in tried
    ensures Untried(c, tried) == []
  {
    if c != [] {
      AllTried(c[1..], tried);
    }
  }

  lemma {:induction false} NoneTried(c: Curve, tried: set<nat>)
    requires forall x | x in c :: x.delay !in tried
    ensures Untried(c, tried) == c
  {
    if c != [] {
      NoneTried(c[1..], tried);
      assert c == [c[0]] + c[1..];
    }
  }

  lemma UntriedOfPrefix(c: Curve, k: nat)
    requires Ordered(c) && k <= |c|
    ensures Untried(c, TriedUpTo(c, k)) == c[k..]
  {
    var tried := TriedUpTo(c, k);
    forall x | x in c[k..] ensures x.delay !in tried {
      var j :| k <= j < |c| && c[j] == x;
      forall i | 0 <= i < k ensures c[i].delay != x.delay {
        OrderedAt(c, i, j);
      }
    }
    assert c == c[..k] + c[k..];
    UntriedSplit(c[..k], c[k..], tried);
    AllTried(c[..k], tried);
    NoneTried(c[k..], tried);
  }

  /** With the first k ranks tried, the advisor's choice is rank k. */
  lemma GreedyPicksNextRank(c: Curve, k: nat)
    requires Ascending(c) && k < |Ranked(c)|
    ensures c != [] && Pick(c, TriedUpTo(Ranked(c), k)) == Ranked(c)[k]
  {
    var tried := TriedUpTo(Ranked(c), k);
    RankingSorts(c);
    UntriedOfPrefix(Ranked(c), k);
    RankingCommutes(c, tried);
    assert Untried(c, tried) != [];
    FirstMaxIsFirstRank(Untried(c, tried));
  }

  // ------------------------------------------------------------------ hazard curves

  lemma {:induction false} DelaysAt(c: Curve, i: nat)
    requires i < |c|
    ensures Delays(c)[i] == c[i].delay
  {
    if i > 0 {
      DelaysAt(c[1..], i - 1);
    }
  }

  lemma {:induction false} AscendingDelays(c: Curve)
    requires forall i, j | 0 <= i < j < |c| :: Delays(c)[i] < Delays(c)[j]
    ensures Ascending(c)
  {
    if c != [] {
      forall y | y in c[1..] ensures c[0].delay < y.delay {
        var j :| 1 <= j < |c| && c[j] == y;
        DelaysAt(c, 0);
        DelaysAt(c, j);
        assert Delays(c)[0] < Delays(c)[j];
      }
      var t := Delays(c[1..]);
      forall i, j | 0 <= i < j < |t| ensures t[i] < t[j] {
        assert Delays(c)[i + 1] < Delays(c)[j + 1];
      }
      AscendingDelays(c[1..]);
    }
  }

  lemma RankedHazardCurve(c: Curve, k: nat)
    requires IsHazardCurve(c)
    ensures Ascending(c) && |Ranked(c)| == |DELAY_BUCKETS| && Ordered(Ranked(c))
    ensures k < |Ranked(c)| ==> Ranked(c)[k].delay in DELAY_BUCKETS
  {
    AscendingDelays(c);
    RankingSorts(c);
    assert |Ranked(c)| == |multiset(Ranked(c))| == |c|;
    if k < |Ranked(c)| {
      assert Ranked(c)[k] in multiset(c);
      DelaysAreBuckets(c, Ranked(c)[k]);
    }
  }
}
