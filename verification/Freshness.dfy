/** The loop and the executor together: keys never collide within a run. */
module Freshness {
  import opened Schemas
  import opened Engine
  import opened EngineTheorems
  import opened Agent
  import opened LoopTheorems
  import opened Outcomes
  import opened IdempotencyKey
  import opened Executor

  /** The table holds no key of this mandate. */
  ghost predicate NoKeysOf(rows: Table, mandateId: string) {
    forall r: nat, at, t :: Key(mandateId, r, at, t) !in rows
  }

  /** The table after a round, the gateway answering `g`. */
  function RowsNext(decide: Query -> Action, e: FailureEvent, d: TypedDiagnosis, s: Session, r: Round, held: Table,
                    g: Reply): Table
  {
    if s.exit.Running? then TableAfter(held, decide(Asked(e, d, Head(s), r)), g) else held
  }

  /** The table after n rounds, the gateway answering `gs`. */
  function RowsAfter(decide: Query -> Action, e: FailureEvent, d: TypedDiagnosis, rs: seq<Round>, rows: Table,
                     gs: seq<Reply>, n: nat): Table
    requires n <= |rs| == |gs|
  {
    if n == 0 then rows
    else RowsNext(decide, e, d, After(decide, e, d, rs, n - 1), rs[n - 1],
                  RowsAfter(decide, e, d, rs, rows, gs, n - 1), gs[n - 1])
  }

  /** The round's outcome is the executor's, over the table `held`. */
  ghost predicate Answers(decide: Query -> Action, e: FailureEvent, d: TypedDiagnosis, s: Session, r: Round,
                          held: Table, g: Reply)
  {
    s.exit.Running? ==> ResultOf(decide, e, d, s, r) == ResultAfter(held, decide(Asked(e, d, Head(s), r)), g)
  }

  ghost predicate BackedAt(decide: Query -> Action, e: FailureEvent, d: TypedDiagnosis, rs: seq<Round>, rows: Table,
                           gs: seq<Reply>, n: int)
    requires |rs| == |gs|
  {
    0 <= n < |rs| &&
    Answers(decide, e, d, After(decide, e, d, rs, n), rs[n], RowsAfter(decide, e, d, rs, rows, gs, n), gs[n])
  }

  predicate AllTo(at: nat -> bool, n: nat) { n > 0 ==> AllTo(at, n - 1) && at(n - 1) }

  lemma {:induction false} AllToAt(at: nat -> bool, n: nat, i: nat)
    requires AllTo(at, n) && i < n
    ensures at(i)
  {
    if i < n - 1 {
      AllToAt(at, n - 1, i);
    }
  }

  ghost function BackedBy(decide: Query -> Action, e: FailureEvent, d: TypedDiagnosis, rs: seq<Round>, rows: Table,
                          gs: seq<Reply>): nat -> bool
    requires |rs| == |gs|
  {
    n => BackedAt(decide, e, d, rs, rows, gs, n)
  }

  /** The run's outcomes are the executor's own, over a table that starts as `rows`. */
  ghost predicate Backed(decide: Query -> Action, e: FailureEvent, d: TypedDiagnosis, rs: seq<Round>, rows: Table,
                         gs: seq<Reply>)
    requires |rs| == |gs|
  {
    AllTo(BackedBy(decide, e, d, rs, rows, gs), |rs|)
  }

  lemma SameRowsNext(decide: Query -> Action, e: FailureEvent, d: TypedDiagnosis, rs: seq<Round>, rs': seq<Round>,
                     rows: Table, gs: seq<Reply>, gs': seq<Reply>, n: nat)
    requires n < |rs| == |gs| && n < |rs'| == |gs'| && rs[n] == rs'[n] && gs[n] == gs'[n]
    requires After(decide, e, d, rs, n) == After(decide, e, d, rs', n)
    requires RowsAfter(decide, e, d, rs, rows, gs, n) == RowsAfter(decide, e, d, rs', rows, gs', n)
    ensures RowsAfter(decide, e, d, rs, rows, gs, n + 1) == RowsAfter(decide, e, d, rs', rows, gs', n + 1)
  {
  }

  lemma {:induction false} RowsLookBack(decide: Query -> Action, e: FailureEvent, d: TypedDiagnosis, rs: seq<Round>,
                                        rs': seq<Round>, rows: Table, gs: seq<Reply>, gs': seq<Reply>, n: nat)
    requires |rs| == |gs| && |rs'| == |gs'| && SameStart(rs, rs', n) && SameStart(gs, gs', n)
    ensures RowsAfter(decide, e, d, rs, rows, gs, n) == RowsAfter(decide, e, d, rs', rows, gs', n)
  {
    if n > 0 {
      var k := n - 1;
      RowsLookBack(decide, e, d, rs, rs', rows, gs, gs', k);
      AfterLooksBack(decide, e, d, rs, rs', k);
      assert rs[k] == rs'[k] && gs[k] == gs'[k];
      SameRowsNext(decide, e, d, rs, rs', rows, gs, gs', k);
    }
  }

  lemma OutcomeOf(a: Action, rows: Table, g: Reply)
    ensures var r := ResultAfter(rows, a, g); Executed(a, Outcome(r.executed, r.success, r.recovered)) == r
  {
  }

  lemma SameBacking(decide: Query -> Action, e: FailureEvent, d: TypedDiagnosis, rs: seq<Round>, rs': seq<Round>,
                    rows: Table, gs: seq<Reply>, gs': seq<Reply>, n: nat)
    requires |rs| == |gs| && |rs'| == |gs'| && SameStart(rs, rs', n + 1) && SameStart(gs, gs', n + 1)
    requires BackedAt(decide, e, d, rs, rows, gs, n)
    ensures BackedAt(decide, e, d, rs', rows, gs', n)
  {
    AfterLooksBack(decide, e, d, rs, rs', n);
    RowsLookBack(decide, e, d, rs, rs', rows, gs, gs', n);
  }

  lemma BackedLast(decide: Query -> Action, e: FailureEvent, d: TypedDiagnosis, before: seq<Round>, rows: Table,
                   gs: seq<Reply>, rs: seq<Round>, gs': seq<Reply>, n: nat)
    requires n == |before| == |gs| && |rs| == |gs'| == n + 1 && SameStart(rs, before, n) && SameStart(gs', gs, n)
    requires Answers(decide, e, d, After(decide, e, d, before, n), rs[n],
                     RowsAfter(decide, e, d, before, rows, gs, n), gs'[n])
    ensures BackedAt(decide, e, d, rs, rows, gs', n)
  {
    AfterLooksBack(decide, e, d, rs, before, n);
    RowsLookBack(decide, e, d, rs, before, rows, gs', gs, n);
  }

  // One more round keeps the earlier ones backed.
  lemma {:induction false} BackedOn(decide: Query -> Action, e: FailureEvent, d: TypedDiagnosis, before: seq<Round>,
                                    rows: Table, gs: seq<Reply>, rs: seq<Round>, gs': seq<Reply>, n: nat)
    requires |before| == |gs| && |rs| == |gs'| && SameStart(before, rs, n) && SameStart(gs, gs', n)
    requires AllTo(BackedBy(decide, e, d, before, rows, gs), n)
    ensures AllTo(BackedBy(decide, e, d, rs, rows, gs'), n)
  {
    if n > 0 {
      BackedOn(decide, e, d, before, rows, gs, rs, gs', n - 1);
      SameBacking(decide, e, d, before, rs, rows, gs, gs', n - 1);
    }
  }

  /** Backed runs exist over every table, whatever the advisors say and the gateway answers. */
  lemma {:induction false} BackedRunsExist(decide: Query -> Action, e: FailureEvent, d: TypedDiagnosis, rs: seq<Round>,
                                           rows: Table, gs: seq<Reply>)
    returns (rs': seq<Round>)
    requires |rs| == |gs|
    ensures |rs'| == |rs| && Backed(decide, e, d, rs', rows, gs)
    ensures forall i | 0 <= i < |rs| :: rs'[i].(outcome := rs[i].outcome) == rs[i]
  {
    if rs == [] {
      rs' := [];
    } else {
      var n := |rs| - 1;
      var before := BackedRunsExist(decide, e, d, rs[..n], rows, gs[..n]);
      var a := decide(Asked(e, d, Head(After(decide, e, d, before, n)), rs[n]));
      var held := RowsAfter(decide, e, d, before, rows, gs[..n], n);
      var x := ResultAfter(held, a, gs[n]);
      var r := rs[n].(outcome := Outcome(x.executed, x.success, x.recovered));
      OutcomeOf(a, held, gs[n]);
      rs' := before + [r];
      BackedLast(decide, e, d, before, rows, gs[..n], rs', gs, n);
      BackedOn(decide, e, d, before, rows, gs[..n], rs', gs, n);
    }
  }

  lemma {:induction false} KeysSoFar(decide: Query -> Action, e: FailureEvent, d: TypedDiagnosis, rs: seq<Round>,
                                     rows: Table, gs: seq<Reply>, n: nat, key: string)
    requires KeepsTable(decide) && n <= |rs| == |gs| && key in RowsAfter(decide, e, d, rs, rows, gs, n)
    ensures key in rows || exists i: nat, at, t :: i < n && key == Key(e.mandateId, i, at, t)
  {
    if n > 0 {
      var s := After(decide, e, d, rs, n - 1);
      var q := Asked(e, d, Head(s), rs[n - 1]);
      if key in RowsAfter(decide, e, d, rs, rows, gs, n - 1) {
        KeysSoFar(decide, e, d, rs, rows, gs, n - 1, key);
      } else {
        TableSound(decide, q);
        RunLength(decide, e, d, rs, n - 1);
        assert key == Key(e.mandateId, n - 1, decide(q).actionType, decide(q).scheduledAt);
      }
    }
  }

  lemma RoundKeyIsNew(decide: Query -> Action, e: FailureEvent, d: TypedDiagnosis, rs: seq<Round>, rows: Table,
                      gs: seq<Reply>, n: nat)
    requires KeepsTable(decide) && n < |rs| == |gs| && NoKeysOf(rows, e.mandateId)
    requires After(decide, e, d, rs, n).exit.Running?
    ensures var a := decide(Asked(e, d, Head(After(decide, e, d, rs, n)), rs[n]));
            Money(a.actionType) ==> KeyOf(a) !in RowsAfter(decide, e, d, rs, rows, gs, n)
  {
    var q := Asked(e, d, Head(After(decide, e, d, rs, n)), rs[n]);
    var a := decide(q);
    if Money(a.actionType) && KeyOf(a) in RowsAfter(decide, e, d, rs, rows, gs, n) {
      TableSound(decide, q);
      RunLength(decide, e, d, rs, n);
      assert KeyOf(a) == Key(e.mandateId, n, a.actionType, a.scheduledAt);
      KeysSoFar(decide, e, d, rs, rows, gs, n, KeyOf(a));
      var i: nat, at, t :| i < n && KeyOf(a) == Key(e.mandateId, i, at, t);
      KeyDetermines(e.mandateId, n, a.actionType, a.scheduledAt, e.mandateId, i, at, t);
    }
  }

  /** From a table without this mandate's keys no money action of a run is ever deduplicated. */
  lemma FreshRunsExecute(decide: Query -> Action, e: FailureEvent, d: TypedDiagnosis, rs: seq<Round>, rows: Table,
                         gs: seq<Reply>)
    requires KeepsTable(decide) && |rs| == |gs| && NoKeysOf(rows, e.mandateId) && Backed(decide, e, d, rs, rows, gs)
    ensures AlwaysExecuted(decide, e, d, rs)
  {
    forall n: nat | n < |rs| && After(decide, e, d, rs, n).exit.Running?
      ensures RoundExecutes(decide, e, d, After(decide, e, d, rs, n), rs[n])
    {
      RoundKeyIsNew(decide, e, d, rs, rows, gs, n);
      AllToAt(BackedBy(decide, e, d, rs, rows, gs), |rs|, n);
    }
  }

  /** So the agent over its own executor always stops on its own within 14 rounds, on a table that
      has not seen the mandate: the round budget is never what termination rests on. */
  lemma FreshRunsTerminate(e: FailureEvent, d: TypedDiagnosis, rs: seq<Round>, rows: Table, gs: seq<Reply>)
    requires |rs| == |gs| && NoKeysOf(rows, e.mandateId) && Backed(Decision, e, d, rs, rows, gs)
    requires |rs| >= LONGEST_RUN
    ensures !After(Decision, e, d, rs, LONGEST_RUN).exit.Running?
  {
    DecisionKeepsTable();
    FreshRunsExecute(Decision, e, d, rs, rows, gs);
    TerminatesOnItsOwn(Decision, e, d, rs);
  }

  // ------------------------------------------------------------------ many mandates over one table

  /** One mandate recovered over the shared table. */
  datatype Turn = Turn(e: FailureEvent, d: TypedDiagnosis, rs: seq<Round>, gs: seq<Reply>)

  /** One mandate's recovery turns the table it finds into the table it leaves. */
  ghost predicate Leaves(decide: Query -> Action, t: Turn, before: Table, after: Table) {
    && |t.rs| == |t.gs|
    && Backed(decide, t.e, t.d, t.rs, before, t.gs)
    && after == RowsAfter(decide, t.e, t.d, t.rs, before, t.gs, |t.rs|)
  }

  /** The mandates are recovered one after the other, `tables` being what each of them finds. */
  ghost predicate InTurn(decide: Query -> Action, ts: seq<Turn>, tables: seq<Table>) {
    |tables| == |ts| + 1 && forall i | 0 <= i < |ts| :: Leaves(decide, ts[i], tables[i], tables[i + 1])
  }

  predicate DistinctMandates(ts: seq<Turn>) {
    forall i, j | 0 <= i < j < |ts| :: ts[i].e.mandateId != ts[j].e.mandateId
  }

  lemma OthersKeysStayAway(decide: Query -> Action, t: Turn, before: Table, after: Table, mandateId: string)
    requires KeepsTable(decide) && Leaves(decide, t, before, after)
    requires t.e.mandateId != mandateId && NoKeysOf(before, mandateId)
    ensures NoKeysOf(after, mandateId)
  {
    forall r: nat, at, time ensures Key(mandateId, r, at, time) !in after {
      var key := Key(mandateId, r, at, time);
      if key in after {
        KeysSoFar(decide, t.e, t.d, t.rs, before, t.gs, |t.rs|, key);
        var i: nat, bt, u :| i < |t.rs| && key == Key(t.e.mandateId, i, bt, u);
        KeyDetermines(mandateId, r, at, time, t.e.mandateId, i, bt, u);
      }
    }
  }

  lemma {:induction false} NotYetSeen(decide: Query -> Action, ts: seq<Turn>, tables: seq<Table>, k: nat,
                                      mandateId: string)
    requires KeepsTable(decide) && InTurn(decide, ts, tables) && k <= |ts| && NoKeysOf(tables[0], mandateId)
    requires forall i | 0 <= i < k :: ts[i].e.mandateId != mandateId
    ensures NoKeysOf(tables[k], mandateId)
  {
    if k > 0 {
      NotYetSeen(decide, ts, tables, k - 1, mandateId);
      assert Leaves(decide, ts[k - 1], tables[k - 1], tables[k - 1 + 1]);
      OthersKeysStayAway(decide, ts[k - 1], tables[k - 1], tables[k], mandateId);
    }
  }

  /** Mandates with different ids, recovered in turn over one table that has seen none of them,
      never have a money action deduplicated. */
  lemma BatchesExecute(decide: Query -> Action, ts: seq<Turn>, tables: seq<Table>, m: nat)
    requires KeepsTable(decide) && InTurn(decide, ts, tables) && DistinctMandates(ts) && m < |ts|
    requires NoKeysOf(tables[0], ts[m].e.mandateId)
    ensures AlwaysExecuted(decide, ts[m].e, ts[m].d, ts[m].rs)
  {
    var t := ts[m];
    NotYetSeen(decide, ts, tables, m, t.e.mandateId);
    assert Leaves(decide, t, tables[m], tables[m + 1]);
    FreshRunsExecute(decide, t.e, t.d, t.rs, tables[m], t.gs);
  }
}
