/** A batch run: totals over every mandate, broken down by true cause. */
module Batch {
  import opened Schemas
  import opened Engine
  import opened EngineTheorems
  import opened Agent
  import opened Invariants
  import opened Compliance
  import opened Outcomes
  import Ledger
  import LedgerTheorems

  /** One mandate of a batch: its event, its diagnosis, everything its rounds take from outside,
      the cause its label names, and the audit entries its recovery appends. */
  datatype Case = Case(e: FailureEvent, d: TypedDiagnosis, rs: seq<Round>, cause: FailureCause, notes: seq<Ledger.Note>)

  /** What the batch loop learns about one mandate. */
  datatype Seen = Seen(cause: FailureCause, r: MandateResolution, violations: nat)

  datatype Cell = Cell(n: nat, recovered: nat, risk: nat, amount: int, escalated: nat)

  datatype Totals = Totals(all: Cell, retries: nat, violations: nat, wasted: nat, harm: nat)

  const NOTHING := Cell(0, 0, 0, 0, 0)

  predicate WellFormed(cases: seq<Case>) { forall c | c in cases :: |c.rs| == MAX_ROUNDS }

  function SeenOf(decide: Query -> Action, c: Case): Seen {
    var r := Recovery(decide, c.e, c.d, c.rs);
    Seen(c.cause, r, |Findings(c.e, r.timeline)|)
  }

  function SeenBy(decide: Query -> Action): Case -> Seen { (c: Case) => SeenOf(decide, c) }

  /** What the loop has learnt after n mandates. */
  function Watched(view: Case -> Seen, cases: seq<Case>, n: nat): (xs: seq<Seen>)
    requires n <= |cases|
    ensures |xs| == n
  {
    if n == 0 then [] else Watched(view, cases, n - 1) + [view(cases[n - 1])]
  }

  function AllSeen(decide: Query -> Action, cases: seq<Case>): seq<Seen> { Watched(SeenBy(decide), cases, |cases|) }

  lemma {:induction false} WatchedAt(view: Case -> Seen, cases: seq<Case>, n: nat, i: nat)
    requires i < n <= |cases|
    ensures Watched(view, cases, n)[i] == view(cases[i])
  {
    if i < n - 1 {
      WatchedAt(view, cases, n - 1, i);
    }
  }

  function Counted(cell: Cell, r: MandateResolution): Cell {
    Cell(cell.n + 1, cell.recovered + (if r.recovered then 1 else 0), cell.risk + r.amountAtRisk,
         cell.amount + (if r.recovered then r.recoveredAmount else 0), cell.escalated + (if r.escalated then 1 else 0))
  }

  function Added(t: Totals, x: Seen, cost: nat): Totals {
    var wasted := if x.r.recovered then 0 else x.r.contactsMade;
    Totals(Counted(t.all, x.r), t.retries + x.r.retriesUsed, t.violations + x.violations,
           t.wasted + wasted, t.harm + wasted * cost)
  }

  /** The totals of a batch, in which every mandate is seen once, in order. */
  function Sum(xs: seq<Seen>, cost: nat): Totals {
    if xs == [] then Totals(NOTHING, 0, 0, 0, 0) else Added(Sum(xs[..|xs| - 1], cost), xs[|xs| - 1], cost)
  }

  /** The row of one cause. */
  function CellOf(xs: seq<Seen>, cause: FailureCause): Cell {
    if xs == [] then NOTHING
    else
      var cell, x := CellOf(xs[..|xs| - 1], cause), xs[|xs| - 1];
      if x.cause == cause then Counted(cell, x.r) else cell
  }

  function Row(rows: map<FailureCause, Cell>, cause: FailureCause): Cell {
    if cause in rows then rows[cause] else NOTHING
  }

  ghost predicate Tallied(t: Totals, rows: map<FailureCause, Cell>, xs: seq<Seen>, cost: nat) {
    t == Sum(xs, cost) && forall cause :: Row(rows, cause) == CellOf(xs, cause)
  }

  /** One mandate of the batch: recover it, then check the finished timeline. */
  method Watch(decide: Query -> Action, c: Case) returns (x: Seen)
    requires |c.rs| == MAX_ROUNDS
    ensures x == SeenOf(decide, c)
  {
    var res := Recover(decide, c.e, c.d, c.rs);
    var v := CheckResolution(c.e, res.timeline);
    x := Seen(c.cause, res, |v|);
  }

  /** What the loop adds to its totals for one mandate. */
  method Tally(t: Totals, rows: map<FailureCause, Cell>, x: Seen, cost: nat, ghost xs: seq<Seen>)
    returns (t': Totals, rows': map<FailureCause, Cell>)
    requires Tallied(t, rows, xs, cost)
    ensures Tallied(t', rows', xs + [x], cost)
  {
    assert (xs + [x])[..|xs|] == xs;
    t' := Added(t, x, cost);
    rows' := rows[x.cause := Counted(Row(rows, x.cause), x.r)];
  }

  // ------------------------------------------------------------------ the figures, off the timelines

  /** What a finished timeline says about its mandate. */
  datatype Reading = Reading(won: bool, amount: int, charges: nat, contacts: int, findings: nat)

  /** Recovered is a last step that won and did not stall; a stall-break hides its last contact. */
  function ReadingOf(e: FailureEvent, tl: seq<ExecutionResult>): Reading {
    var won := tl != [] && Wins(tl[|tl| - 1]) && !StallEnd(tl);
    var hidden := if StallEnd(tl) && IsContact(tl[|tl| - 1]) then 1 else 0;
    Reading(won, if won then tl[|tl| - 1].recovered else 0, |Select(tl, IsCharge)|,
            e.contactsThisWeek + |Select(tl, IsContact)| - hidden, |Findings(e, tl)|)
  }

  function Read(decide: Query -> Action): Case -> Reading {
    (c: Case) => ReadingOf(c.e, Recovery(decide, c.e, c.d, c.rs).timeline)
  }

  /** The sum of a figure over the first n cases. */
  function Total(cases: seq<Case>, n: nat, figure: Case -> int): int
    requires n <= |cases|
  {
    if n == 0 then 0 else Total(cases, n - 1, figure) + figure(cases[n - 1])
  }

  function Kept(keep: Case -> bool): Case -> int { (c: Case) => if keep(c) then 1 else 0 }

  function Won(keep: Case -> bool, read: Case -> Reading): Case -> int {
    (c: Case) => if keep(c) && read(c).won then 1 else 0
  }

  function Lost(keep: Case -> bool, read: Case -> Reading): Case -> int {
    (c: Case) => if keep(c) && !read(c).won then 1 else 0
  }

  function AtRisk(keep: Case -> bool): Case -> int { (c: Case) => if keep(c) then c.e.amount else 0 }

  function Paid(keep: Case -> bool, read: Case -> Reading): Case -> int {
    (c: Case) => if keep(c) then read(c).amount else 0
  }

  function Charged(read: Case -> Reading): Case -> int { (c: Case) => read(c).charges }

  function Wasted(read: Case -> Reading): Case -> int { (c: Case) => if read(c).won then 0 else read(c).contacts }

  function Found(read: Case -> Reading): Case -> int { (c: Case) => read(c).findings }

  function Everything(): Case -> bool { (c: Case) => true }

  function Labelled(cause: FailureCause): Case -> bool { (c: Case) => c.cause == cause }

  /** A row counts the cases it is kept for: how many, how many recovered and how many not, the money
      at risk, and the money their last steps brought in. */
  ghost predicate RowReads(cell: Cell, cases: seq<Case>, n: nat, keep: Case -> bool, read: Case -> Reading)
    requires n <= |cases|
  {
    && cell.n == Total(cases, n, Kept(keep))
    && cell.recovered == Total(cases, n, Won(keep, read))
    && cell.escalated == Total(cases, n, Lost(keep, read))
    && cell.risk == Total(cases, n, AtRisk(keep))
    && cell.amount == Total(cases, n, Paid(keep, read))
  }

  ghost predicate TotalsRead(t: Totals, cases: seq<Case>, n: nat, read: Case -> Reading)
    requires n <= |cases|
  {
    && RowReads(t.all, cases, n, Everything(), read)
    && t.retries == Total(cases, n, Charged(read))
    && t.wasted == Total(cases, n, Wasted(read))
    && t.violations == Total(cases, n, Found(read))
  }

  /** What was learnt about a case is what its timeline says. */
  predicate Agrees(c: Case, x: Seen, y: Reading) {
    && x.cause == c.cause && x.r.amountAtRisk == c.e.amount
    && x.r.recovered == y.won && x.r.escalated == !y.won && (y.won ==> x.r.recoveredAmount == y.amount)
    && (!y.won ==> y.amount == 0)
    && x.r.retriesUsed == y.charges && x.r.contactsMade == y.contacts && x.violations == y.findings
  }

  lemma SumLast(xs: seq<Seen>, x: Seen, cost: nat)
    ensures Sum(xs + [x], cost) == Added(Sum(xs, cost), x, cost)
  {
    assert (xs + [x])[..|xs|] == xs;
  }

  lemma {:induction false} SumReads(view: Case -> Seen, read: Case -> Reading, cases: seq<Case>, n: nat, cost: nat)
    requires n <= |cases| && forall i | 0 <= i < n :: Agrees(cases[i], view(cases[i]), read(cases[i]))
    ensures TotalsRead(Sum(Watched(view, cases, n), cost), cases, n, read)
  {
    if n > 0 {
      var k := n - 1;
      SumReads(view, read, cases, k, cost);
      SumLast(Watched(view, cases, k), view(cases[k]), cost);
      assert Agrees(cases[k], view(cases[k]), read(cases[k]));
    }
  }

  lemma CellOfLast(xs: seq<Seen>, x: Seen, cause: FailureCause)
    ensures CellOf(xs + [x], cause) == if x.cause == cause then Counted(CellOf(xs, cause), x.r) else CellOf(xs, cause)
  {
    assert (xs + [x])[..|xs|] == xs;
  }

  lemma {:induction false} RowsRead(view: Case -> Seen, read: Case -> Reading, cases: seq<Case>, n: nat,
                                    cause: FailureCause)
    requires n <= |cases| && forall i | 0 <= i < n :: Agrees(cases[i], view(cases[i]), read(cases[i]))
    ensures RowReads(CellOf(Watched(view, cases, n), cause), cases, n, Labelled(cause), read)
  {
    if n > 0 {
      var k := n - 1;
      RowsRead(view, read, cases, k, cause);
      CellOfLast(Watched(view, cases, k), view(cases[k]), cause);
      assert Agrees(cases[k], view(cases[k]), read(cases[k]));
    }
  }

  lemma SeenAgrees(decide: Query -> Action, c: Case)
    requires KeepsTable(decide)
    ensures Agrees(c, SeenBy(decide)(c), Read(decide)(c))
  {
    EveryRunAccounted(decide, c.e, c.d, c.rs);
  }

  /** The totals of a batch and every row of its breakdown are sums read off the cases and their
      finished timelines. */
  lemma BatchReads(decide: Query -> Action, cases: seq<Case>, cost: nat, cause: FailureCause)
    requires KeepsTable(decide)
    ensures TotalsRead(Sum(AllSeen(decide, cases), cost), cases, |cases|, Read(decide))
    ensures RowReads(CellOf(AllSeen(decide, cases), cause), cases, |cases|, Labelled(cause), Read(decide))
  {
    forall i | 0 <= i < |cases| ensures Agrees(cases[i], SeenBy(decide)(cases[i]), Read(decide)(cases[i])) {
      SeenAgrees(decide, cases[i]);
    }
    SumReads(SeenBy(decide), Read(decide), cases, |cases|, cost);
    RowsRead(SeenBy(decide), Read(decide), cases, |cases|, cause);
  }

  // ------------------------------------------------------------------ the ledger beside the loop

  /** The chain that the first n mandates' entries make. */
  function Audited(h: Ledger.Hash, cases: seq<Case>, n: nat): seq<Ledger.Row>
    requires n <= |cases|
  {
    if n == 0 then [] else LedgerTheorems.Extended(h, Audited(h, cases, n - 1), cases[n - 1].notes)
  }

  lemma {:induction false} AuditedIsChain(h: Ledger.Hash, cases: seq<Case>, n: nat)
    requires n <= |cases|
    ensures Ledger.Chain(h, Audited(h, cases, n))
  {
    if n > 0 {
      AuditedIsChain(h, cases, n - 1);
      LedgerTheorems.ExtendedIsChain(h, Audited(h, cases, n - 1), cases[n - 1].notes);
    }
  }

  /** A buffered ledger over an empty table, holding exactly these rows. */
  ghost predicate Buffers(h: Ledger.Hash, s: Ledger.State, rows: seq<Ledger.Row>) {
    s.table == [] && s.buffer == Some(rows) && LedgerTheorems.Good(h, s)
  }

  lemma BufferedAppend(h: Ledger.Hash, s: Ledger.State, rows: seq<Ledger.Row>, n: Ledger.Note)
    requires LedgerTheorems.FixedWidth(h) && Buffers(h, s, rows)
    ensures Buffers(h, Ledger.Appended(h, s, n, false).0, rows + [Ledger.Linked(h, Ledger.Tip(rows), n)])
  {
    assert Ledger.All(s) == rows;
    LedgerTheorems.AppendKeepsGood(h, s, n, false);
    LedgerTheorems.PrevIsTip(h, s);
  }

  method AppendAll(ledger: Ledger.AuditLedger, notes: seq<Ledger.Note>, ghost rows: seq<Ledger.Row>)
    requires LedgerTheorems.FixedWidth(ledger.h) && Buffers(ledger.h, ledger.View(), rows)
    modifies ledger
    ensures Buffers(ledger.h, ledger.View(), LedgerTheorems.Extended(ledger.h, rows, notes))
  {
    for i := 0 to |notes|
      invariant Buffers(ledger.h, ledger.View(), LedgerTheorems.Extended(ledger.h, rows, notes[..i]))
    {
      assert notes[..i + 1][..i] == notes[..i];
      BufferedAppend(ledger.h, ledger.View(), LedgerTheorems.Extended(ledger.h, rows, notes[..i]), notes[i]);
      var entry := ledger.Append(notes[i], false);
    }
    assert notes[..|notes|] == notes;
  }

  /** The flush at the end of the batch, and what the chain then verifies to. */
  method CloseLedger(ledger: Ledger.AuditLedger, dbFails: bool, ghost rows: seq<Ledger.Row>)
    returns (written: bool, chainOk: bool)
    requires Buffers(ledger.h, ledger.View(), rows)
    modifies ledger
    ensures written <==> rows == [] || (!dbFails && Ledger.Distinct(rows))
    ensures written ==> (chainOk <==> Ledger.Chain(ledger.h, rows))
  {
    assert Ledger.All(ledger.View()) == rows;
    var n := ledger.FlushBuffer(dbFails);
    written := n.Some?;
    var v := ledger.VerifyChain();
    chainOk := v.ChainOk?;
  }

  // ------------------------------------------------------------------ the batch as written

  method Next(decide: Query -> Action, cases: seq<Case>, i: nat, t: Totals, rows: map<FailureCause, Cell>, cost: nat)
    returns (t': Totals, rows': map<FailureCause, Cell>)
    requires i < |cases| && |cases[i].rs| == MAX_ROUNDS
    requires Tallied(t, rows, Watched(SeenBy(decide), cases, i), cost)
    ensures Tallied(t', rows', Watched(SeenBy(decide), cases, i + 1), cost)
  {
    var x := Watch(decide, cases[i]);
    t', rows' := Tally(t, rows, x, cost, Watched(SeenBy(decide), cases, i));
  }

  /** A new ledger, reset and buffered. */
  method OpenLedger(h: Ledger.Hash) returns (ledger: Ledger.AuditLedger)
    ensures fresh(ledger) && ledger.h == h && Buffers(h, ledger.View(), [])
  {
    ledger := new Ledger.AuditLedger(h);
    ledger.ResetCache();
    ledger.BeginBuffer();
    assert Ledger.All(ledger.View()) == [];
  }

  /** The batch loop. */
  method RecoverAll(decide: Query -> Action, cases: seq<Case>, cost: nat, ledger: Ledger.AuditLedger)
    returns (t: Totals, rows: map<FailureCause, Cell>)
    requires WellFormed(cases) && LedgerTheorems.FixedWidth(ledger.h) && Buffers(ledger.h, ledger.View(), [])
    modifies ledger
    ensures Tallied(t, rows, AllSeen(decide, cases), cost)
    ensures Buffers(ledger.h, ledger.View(), Audited(ledger.h, cases, |cases|))
  {
    t, rows := Totals(NOTHING, 0, 0, 0, 0), map[];
    for i := 0 to |cases|
      invariant Tallied(t, rows, Watched(SeenBy(decide), cases, i), cost)
      invariant Buffers(ledger.h, ledger.View(), Audited(ledger.h, cases, i))
    {
      assert cases[i] in cases;
      t, rows := Next(decide, cases, i, t, rows, cost);
      AppendAll(ledger, cases[i].notes, Audited(ledger.h, cases, i));
    }
  }

  /** What a batch reports. */
  datatype Report = Report(t: Totals, rows: map<FailureCause, Cell>)

  /** The totals reported: a chain that does not verify is one more violation. */
  function Reported(h: Ledger.Hash, xs: seq<Seen>, audit: seq<Ledger.Row>, cost: nat): Totals {
    var s := Sum(xs, cost);
    s.(violations := s.violations + (if Ledger.Chain(h, audit) then 0 else 1))
  }

  // ------------------------------------------------------------------ conservation

  function Plus(a: Cell, b: Cell): Cell {
    Cell(a.n + b.n, a.recovered + b.recovered, a.risk + b.risk, a.amount + b.amount, a.escalated + b.escalated)
  }

  const CAUSES: seq<FailureCause> :=
    [InsufficientFunds, BankDowntime, LimitExceeded, MandatePaused, MandateExpired, TechDecline,
     SuspectedChurn, UnknownCause]

  lemma EveryCauseOnce(cause: FailureCause)
    ensures cause in CAUSES
    ensures forall i, j | 0 <= i < j < |CAUSES| :: CAUSES[i] != CAUSES[j]
  {
    match cause {
      case InsufficientFunds => assert CAUSES[0] == cause;
      case BankDowntime => assert CAUSES[1] == cause;
      case LimitExceeded => assert CAUSES[2] == cause;
      case MandatePaused => assert CAUSES[3] == cause;
      case MandateExpired => assert CAUSES[4] == cause;
      case TechDecline => assert CAUSES[5] == cause;
      case SuspectedChurn => assert CAUSES[6] == cause;
      case UnknownCause => assert CAUSES[7] == cause;
    }
  }

  /** The rows of these causes, added up. */
  function Rows(xs: seq<Seen>, causes: seq<FailureCause>): Cell {
    if causes == [] then NOTHING
    else Plus(Rows(xs, causes[..|causes| - 1]), CellOf(xs, causes[|causes| - 1]))
  }

  lemma CountedIn(a: Cell, b: Cell, r: MandateResolution)
    ensures Plus(Counted(a, r), b) == Counted(Plus(a, b), r) == Plus(a, Counted(b, r))
  {
  }

  lemma {:induction false} RowsLast(xs: seq<Seen>, x: Seen, causes: seq<FailureCause>)
    requires forall i, j | 0 <= i < j < |causes| :: causes[i] != causes[j]
    ensures Rows(xs + [x], causes) == if x.cause in causes then Counted(Rows(xs, causes), x.r) else Rows(xs, causes)
  {
    if causes != [] {
      var init, last := causes[..|causes| - 1], causes[|causes| - 1];
      assert causes == init + [last];
      RowsLast(xs, x, init);
      CellOfLast(xs, x, last);
      CountedIn(Rows(xs, init), CellOf(xs, last), x.r);
    }
  }

  lemma {:induction false} RowsOfNone(xs: seq<Seen>, causes: seq<FailureCause>)
    requires xs == []
    ensures Rows(xs, causes) == NOTHING
  {
    if causes != [] {
      RowsOfNone(xs, causes[..|causes| - 1]);
    }
  }

  lemma Priced(a: nat, b: nat, cost: nat)
    ensures (a + b) * cost == a * cost + b * cost
  {
  }

  /** The breakdown loses nothing: its rows add up to the totals, and the harm is the contacts
      wasted at the price of a contact. */
  lemma {:induction false} NothingIsLost(xs: seq<Seen>, cost: nat)
    ensures Rows(xs, CAUSES) == Sum(xs, cost).all && Sum(xs, cost).all.n == |xs|
    ensures Sum(xs, cost).harm == Sum(xs, cost).wasted * cost
  {
    if xs == [] {
      RowsOfNone(xs, CAUSES);
    } else {
      var init, x := xs[..|xs| - 1], xs[|xs| - 1];
      assert xs == init + [x];
      NothingIsLost(init, cost);
      EveryCauseOnce(x.cause);
      RowsLast(init, x, CAUSES);
      Priced(Sum(init, cost).wasted, if x.r.recovered then 0 else x.r.contactsMade, cost);
    }
  }

  lemma {:induction false} OneOrTheOther(xs: seq<Seen>, cost: nat)
    requires forall x | x in xs :: x.r.escalated == !x.r.recovered
    ensures Sum(xs, cost).all.recovered + Sum(xs, cost).all.escalated == |xs|
  {
    if xs != [] {
      OneOrTheOther(xs[..|xs| - 1], cost);
    }
  }

  /** Every mandate of a batch is either recovered or handed to a human. */
  lemma NobodyIsForgotten(decide: Query -> Action, cases: seq<Case>, cost: nat)
    requires KeepsTable(decide)
    ensures var t := Sum(AllSeen(decide, cases), cost); t.all.recovered + t.all.escalated == |cases|
  {
    var xs := AllSeen(decide, cases);
    forall i | 0 <= i < |xs| ensures xs[i].r.escalated == !xs[i].r.recovered {
      WatchedAt(SeenBy(decide), cases, |cases|, i);
      EveryRunAccounted(decide, cases[i].e, cases[i].d, cases[i].rs);
    }
    OneOrTheOther(xs, cost);
  }

  // ------------------------------------------------------------------ the report

  /** Every figure of the report, read off the cases and their finished timelines. */
  ghost predicate ReportReads(decide: Query -> Action, cases: seq<Case>, cost: nat, report: Report) {
    && TotalsRead(report.t, cases, |cases|, Read(decide))
    && report.t.harm == report.t.wasted * cost
    && forall cause :: RowReads(Row(report.rows, cause), cases, |cases|, Labelled(cause), Read(decide))
  }

  lemma {:induction false} ReportIsRead(h: Ledger.Hash, decide: Query -> Action, cases: seq<Case>, cost: nat,
                                        report: Report)
    requires KeepsTable(decide)
    requires report.t == Reported(h, AllSeen(decide, cases), Audited(h, cases, |cases|), cost)
    requires forall cause :: Row(report.rows, cause) == CellOf(AllSeen(decide, cases), cause)
    ensures ReportReads(decide, cases, cost, report)
  {
    AuditedIsChain(h, cases, |cases|);
    NothingIsLost(AllSeen(decide, cases), cost);
    BatchReads(decide, cases, cost, UnknownCause);
    forall cause ensures RowReads(Row(report.rows, cause), cases, |cases|, Labelled(cause), Read(decide)) {
      BatchReads(decide, cases, cost, cause);
    }
  }

  /** The batch: recover and check every mandate with the ledger buffered, flush, verify, report.
      There is no report when the final flush is rejected. */
  method Run(h: Ledger.Hash, decide: Query -> Action, cases: seq<Case>, cost: nat, dbFails: bool)
    returns (report: Option<Report>)
    requires LedgerTheorems.FixedWidth(h) && WellFormed(cases)
    ensures var audit := Audited(h, cases, |cases|);
            && (report.Some? <==> audit == [] || (!dbFails && Ledger.Distinct(audit)))
            && (report.Some? ==> report.value.t == Reported(h, AllSeen(decide, cases), audit, cost))
    ensures report.Some? ==>
              forall cause :: Row(report.value.rows, cause) == CellOf(AllSeen(decide, cases), cause)
    ensures report.Some? && KeepsTable(decide) ==> ReportReads(decide, cases, cost, report.value)
  {
    var ledger := OpenLedger(h);
    var t, rows := RecoverAll(decide, cases, cost, ledger);
    var written, chainOk := CloseLedger(ledger, dbFails, Audited(h, cases, |cases|));
    if !written {
      return None;
    }
    if !chainOk {
      t := t.(violations := t.violations + 1);
    }
    report := Some(Report(t, rows));
    ghost var keeps := KeepsTable(decide);
    if keeps {
      ReportIsRead(h, decide, cases, cost, report.value);
    }
  }

  // ------------------------------------------------------------------ compliance of a batch

  lemma {:induction false} NoViolations(xs: seq<Seen>, cost: nat)
    ensures Sum(xs, cost).violations == 0 <==> forall x | x in xs :: x.violations == 0
  {
    if xs != [] {
      var init, x := xs[..|xs| - 1], xs[|xs| - 1];
      assert xs == init + [x];
      NoViolations(init, cost);
    }
  }

  /** Without a hash collision the final flush is accepted. */
  lemma ReportIsMade(h: Ledger.Hash, cases: seq<Case>)
    requires LedgerTheorems.FixedWidth(h)
    requires LedgerTheorems.NoClash(h, LedgerTheorems.Hashed(Audited(h, cases, |cases|)))
    ensures Ledger.Distinct(Audited(h, cases, |cases|))
  {
    AuditedIsChain(h, cases, |cases|);
    LedgerTheorems.ChainIsDistinct(h, Audited(h, cases, |cases|));
  }

  /** A mandate of the batch as it is known beforehand. */
  datatype Known = Known(e: FailureEvent, d: TypedDiagnosis, cause: FailureCause)

  /** What any rounds may make of a batch. */
  ghost predicate Plays(ks: seq<Known>, cases: seq<Case>) {
    |cases| == |ks| && WellFormed(cases)
    && forall i | 0 <= i < |ks| :: cases[i].e == ks[i].e && cases[i].d == ks[i].d && cases[i].cause == ks[i].cause
  }

  /** The violations a batch reports. */
  function Violations(h: Ledger.Hash, cases: seq<Case>, cost: nat): nat {
    Reported(h, AllSeen(Decision, cases), Audited(h, cases, |cases|), cost).violations
  }

  function ExposingCases(ks: seq<Known>): (cases: seq<Case>)
    ensures Plays(ks, cases) && forall c | c in cases :: c.rs == Exposing(MAX_ROUNDS)
  {
    seq(|ks|, j requires 0 <= j < |ks| => Case(ks[j].e, ks[j].d, Exposing(MAX_ROUNDS), ks[j].cause, []))
  }

  lemma ExposedBatch(h: Ledger.Hash, cases: seq<Case>, i: nat, cost: nat)
    requires i < |cases| && AfaExposed(cases[i].e, cases[i].d) && cases[i].rs == Exposing(MAX_ROUNDS)
    ensures Violations(h, cases, cost) != 0
  {
    var c := cases[i];
    DecisionKeepsTable();
    ExposedRunTakesGap(Decision, c.e, c.d, MAX_ROUNDS);
    TakenGapBreaks(Decision, c.e, c.d, c.rs, 1);
    FindingsMean(c.e, Recovery(Decision, c.e, c.d, c.rs).timeline);
    WatchedAt(SeenBy(Decision), cases, |cases|, i);
    NoViolations(AllSeen(Decision, cases), cost);
  }

  lemma UnexposedBatch(h: Ledger.Hash, cases: seq<Case>, cost: nat)
    requires forall c | c in cases :: !AfaExposed(c.e, c.d)
    ensures Violations(h, cases, cost) == 0
  {
    var xs := AllSeen(Decision, cases);
    forall i | 0 <= i < |xs| ensures xs[i].violations == 0 {
      WatchedAt(SeenBy(Decision), cases, |cases|, i);
      UnexposedRunComplies(cases[i].e, cases[i].d, cases[i].rs);
    }
    NoViolations(xs, cost);
    AuditedIsChain(h, cases, |cases|);
  }

  /** A batch that reports zero violations whatever its rounds bring and whatever they append to the
      ledger is exactly one without an exposed mandate. */
  lemma ZeroViolationsExactly(h: Ledger.Hash, ks: seq<Known>, cost: nat)
    ensures (forall cases | Plays(ks, cases) :: Violations(h, cases, cost) == 0)
            <==> (forall i | 0 <= i < |ks| :: !AfaExposed(ks[i].e, ks[i].d))
  {
    if i :| 0 <= i < |ks| && AfaExposed(ks[i].e, ks[i].d) {
      var cases := ExposingCases(ks);
      ExposedBatch(h, cases, i, cost);
      assert Plays(ks, cases);
    } else {
      forall cases | Plays(ks, cases) ensures Violations(h, cases, cost) == 0 {
        UnexposedBatch(h, cases, cost);
      }
    }
  }
}
