/** What the hash chain proves, and what every sequence of ledger operations keeps. */
module LedgerTheorems {
  import opened Schemas
  import opened Ledger

  // ------------------------------------------------------------------ assumptions on the hash

  /** A hex digest has a fixed width. */
  ghost predicate FixedWidth(h: Hash) { forall x :: |h(x)| == HASH_WIDTH }

  /** The strings a chain has hashed. */
  function Hashed(rows: seq<Row>): set<string> {
    if rows == [] then {}
    else Hashed(rows[..|rows| - 1]) + {Tip(rows[..|rows| - 1]) + rows[|rows| - 1].payload}
  }

  /** No collision among these strings, and none of them hashes to the genesis value. */
  ghost predicate NoClash(h: Hash, xs: set<string>) {
    && (forall x, y | x in xs && y in xs && h(x) == h(y) :: x == y)
    && (forall x | x in xs :: h(x) != GENESIS)
  }

  /** The history a chain records. */
  function Payloads(rows: seq<Row>): (ps: seq<string>)
    ensures |ps| == |rows|
  {
    if rows == [] then [] else Payloads(rows[..|rows| - 1]) + [rows[|rows| - 1].payload]
  }

  // ------------------------------------------------------------------ tamper evidence

  lemma {:induction false} HashedOfPrefix(rows: seq<Row>, i: nat)
    requires i <= |rows|
    ensures Hashed(rows[..i]) <= Hashed(rows)
  {
    var n := |rows| - 1;
    if i <= n {
      HashedOfPrefix(rows[..n], i);
      assert rows[..n][..i] == rows[..i];
    } else {
      assert rows[..i] == rows;
    }
  }

  lemma {:induction false} TipWidth(h: Hash, rows: seq<Row>)
    requires FixedWidth(h) && Chain(h, rows)
    ensures |Tip(rows)| == HASH_WIDTH
  {
  }

  lemma SplitPreimage(a: string, p: string, b: string, q: string)
    requires a + p == b + q && |a| == |b|
    ensures a == b && p == q
  {
    assert a == (a + p)[..|a|] && b == (b + q)[..|b|];
    assert p == (a + p)[|a|..] && q == (b + q)[|b|..];
  }

  lemma TipIsNotGenesis(h: Hash, rows: seq<Row>)
    requires rows != [] && Chain(h, rows) && NoClash(h, Hashed(rows))
    ensures Tip(rows) != GENESIS
  {
    assert Tip(rows[..|rows| - 1]) + rows[|rows| - 1].payload in Hashed(rows);
  }

  /** A chain's tip determines its history: two chains that verify and end in the same hash record
      the same payloads in the same order. */
  lemma {:induction false} TipDeterminesHistory(h: Hash, a: seq<Row>, b: seq<Row>)
    requires FixedWidth(h) && Chain(h, a) && Chain(h, b) && Tip(a) == Tip(b)
    requires NoClash(h, Hashed(a) + Hashed(b))
    ensures Payloads(a) == Payloads(b)
    decreases |a|
  {
    if a != [] && b != [] {
      var a', b' := a[..|a| - 1], b[..|b| - 1];
      var p, q := a[|a| - 1].payload, b[|b| - 1].payload;
      TipWidth(h, a');
      TipWidth(h, b');
      assert Tip(a') + p in Hashed(a) && Tip(b') + q in Hashed(b);
      SplitPreimage(Tip(a'), p, Tip(b'), q);
      TipDeterminesHistory(h, a', b');
    } else if a != [] {
      TipIsNotGenesis(h, a);
    } else if b != [] {
      TipIsNotGenesis(h, b);
    }
  }

  /** All tips along a chain differ, even when payloads repeat: no entry hash equals another or the
      genesis value, so the UNIQUE column never rejects a serialised append. */
  lemma TipsDiffer(h: Hash, rows: seq<Row>, i: nat, j: nat)
    requires FixedWidth(h) && Chain(h, rows) && NoClash(h, Hashed(rows)) && i < j <= |rows|
    ensures Tip(rows[..i]) != Tip(rows[..j])
  {
    assert |Payloads(rows[..i])| == i && |Payloads(rows[..j])| == j;
    if Tip(rows[..i]) == Tip(rows[..j]) {
      ChainAt(h, rows, i);
      ChainAt(h, rows, j);
      HashedOfPrefix(rows, i);
      HashedOfPrefix(rows, j);
      TipDeterminesHistory(h, rows[..i], rows[..j]);
    }
  }

  lemma TipAt(rows: seq<Row>, i: nat)
    requires i < |rows|
    ensures Tip(rows[..i + 1]) == rows[i].entryHash
  {
  }

  lemma ChainIsDistinct(h: Hash, rows: seq<Row>)
    requires FixedWidth(h) && Chain(h, rows) && NoClash(h, Hashed(rows))
    ensures Distinct(rows)
  {
    forall i, j | 0 <= i < j < |rows| ensures rows[i].entryHash != rows[j].entryHash {
      TipsDiffer(h, rows, i + 1, j + 1);
      TipAt(rows, i);
      TipAt(rows, j);
    }
  }

  /** Altering one payload in place is reported at that very row. */
  lemma EditIsLocated(h: Hash, rows: seq<Row>, i: nat, p: string, v: Verdict)
    requires Chain(h, rows) && i < |rows| && p != rows[i].payload
    requires h(Tip(rows[..i]) + p) != h(Tip(rows[..i]) + rows[i].payload)
    requires VerdictFits(h, rows[i := rows[i].(payload := p)], v)
    ensures v == PayloadAltered(i)
  {
    var rows' := rows[i := rows[i].(payload := p)];
    ChainAt(h, rows, i);
    assert rows'[..i] == rows[..i];
    BrokenStaysBroken(h, rows', i);
    var at := match v case ChainOk(n) => n case PrevMismatch(k) => k case PayloadAltered(k) => k;
    if at < i {
      assert rows'[..at] == rows[..at] && rows'[at] == rows[at];
      ChainAt(h, rows, at);
    } else if i < at {
      assert rows'[..at][i] == rows'[i] && rows'[..at][..i] == rows'[..i];
      BrokenStaysBroken(h, rows'[..at], i);
    }
  }

  function Without(rows: seq<Row>, i: nat): seq<Row>
    requires i < |rows|
  {
    rows[..i] + rows[i + 1..]
  }

  /** Deleting one row breaks the chain exactly when it is not the last: cutting the tail is the
      one deletion the chain does not show. */
  lemma DeletionShows(h: Hash, rows: seq<Row>, i: nat)
    requires FixedWidth(h) && Chain(h, rows) && NoClash(h, Hashed(rows)) && i < |rows|
    ensures Chain(h, Without(rows, i)) <==> i == |rows| - 1
    ensures i < |rows| - 1 ==> VerdictFits(h, Without(rows, i), PrevMismatch(i))
  {
    var cut := Without(rows, i);
    ChainAt(h, rows, i);
    assert cut[..i] == rows[..i];
    if i < |rows| - 1 {
      ChainAt(h, rows, i + 1);
      TipsDiffer(h, rows, i, i + 1);
      assert cut[i] == rows[i + 1];
      BrokenStaysBroken(h, cut, i);
    } else {
      assert cut == rows[..i];
    }
  }

  // Only the next row links to a prefix.
  lemma NextOfPrefix(h: Hash, rows: seq<Row>, n: nat, j: nat)
    requires FixedWidth(h) && Chain(h, rows) && NoClash(h, Hashed(rows)) && n <= |rows| && j < |rows|
    ensures LinksTo(h, rows[..n], rows[j]) ==> j == n
  {
    ChainAt(h, rows, j);
    if j < n {
      TipsDiffer(h, rows, j, n);
    } else if n < j {
      TipsDiffer(h, rows, n, j);
    }
  }

  lemma PrefixGrows(rows: seq<Row>, picked: seq<Row>, n: nat)
    requires |picked| == n + 1 && n < |rows| && picked[..n] <= rows && picked[n] == rows[n]
    ensures picked <= rows
  {
    assert forall i | 0 <= i < n :: picked[i] == picked[..n][i] == rows[i];
  }

  lemma NextIsNext(h: Hash, rows: seq<Row>, init: seq<Row>, last: Row)
    requires FixedWidth(h) && Chain(h, rows) && NoClash(h, Hashed(rows))
    requires init <= rows && last in rows && LinksTo(h, init, last)
    ensures |init| < |rows| && rows[|init|] == last
  {
    var j :| 0 <= j < |rows| && rows[j] == last;
    assert rows[..|init|] == init;
    NextOfPrefix(h, rows, |init|, j);
  }

  lemma {:induction false} VerifiedIsPrefix(h: Hash, rows: seq<Row>, picked: seq<Row>)
    requires FixedWidth(h) && Chain(h, rows) && NoClash(h, Hashed(rows)) && forall r | r in picked :: r in rows
    requires Chain(h, picked)
    ensures picked <= rows
  {
    if picked != [] {
      var n := |picked| - 1;
      VerifiedIsPrefix(h, rows, picked[..n]);
      assert picked[n] in picked;
      NextIsNext(h, rows, picked[..n], picked[n]);
      PrefixGrows(rows, picked, n);
    }
  }

  /** Of a chain's own rows, picked in any order, any number of times, only a prefix verifies: every
      deletion but of a tail, every reordering and every duplication shows. */
  lemma OnlyPrefixesVerify(h: Hash, rows: seq<Row>, picked: seq<Row>)
    requires FixedWidth(h) && Chain(h, rows) && NoClash(h, Hashed(rows)) && forall r | r in picked :: r in rows
    ensures Chain(h, picked) <==> picked <= rows
  {
    if Chain(h, picked) {
      VerifiedIsPrefix(h, rows, picked);
    }
    if picked <= rows {
      ChainAt(h, rows, |picked|);
      assert rows[..|picked|] == picked;
    }
  }

  // ------------------------------------------------------------------ operations

  /** The table and the buffer form one chain, and a warm cache holds its tip; the cache is cold
      inside a buffer only while nothing has been written at all. */
  ghost predicate Good(h: Hash, s: State) {
    && Chain(h, All(s))
    && (s.last.Some? ==> s.last.value == Tip(All(s)))
    && (s.last.None? && s.buffer.Some? ==> All(s) == [])
  }

  lemma ChainExtends(h: Hash, rows: seq<Row>, n: Note)
    requires Chain(h, rows)
    ensures Chain(h, rows + [Linked(h, Tip(rows), n)])
  {
    assert (rows + [Linked(h, Tip(rows), n)])[..|rows|] == rows;
  }

  lemma PrevIsTip(h: Hash, s: State)
    requires FixedWidth(h) && Good(h, s)
    ensures PrevFor(s) == Tip(All(s))
  {
    TipWidth(h, All(s));
  }

  /** `append` keeps the chain, whether the row goes to the table, to the buffer, or nowhere. */
  lemma AppendKeepsGood(h: Hash, s: State, n: Note, dbFails: bool)
    requires FixedWidth(h) && Good(h, s)
    ensures var (s', entry) := Appended(h, s, n, dbFails);
            && Good(h, s')
            && (entry.Some? ==> All(s') == All(s) + [Linked(h, Tip(All(s)), n)] && entry.value == Tip(All(s')))
            && (entry.Some? ==>
                  var row := All(s')[|All(s)|];
                  && row.mandateId == n.mandateId && row.kind == n.kind && row.payload == n.payload
                  && row.prevHash == Tip(All(s)) && row.entryHash == h(Tip(All(s)) + n.payload) == entry.value)
            && (entry.None? ==> All(s') == All(s) && s'.table == s.table)
            && (s.buffer.Some? ==> entry.Some? && s'.table == s.table)
            && s'.buffer.Some? == s.buffer.Some?
  {
    var row := Linked(h, PrevFor(s), n);
    PrevIsTip(h, s);
    ChainExtends(h, All(s), n);
    assert All(s) + [row] == s.table + (Pending(s) + [row]);
    assert s.buffer.None? ==> All(s) == s.table;
    assert s.table + [row] + [] == s.table + [row];
  }

  lemma FlushKeepsGood(h: Hash, s: State, dbFails: bool)
    requires Good(h, s)
    ensures var (s', n) := Flushed(s, dbFails);
            Good(h, s') && All(s') == All(s) && (n.Some? ==> s'.table == All(s) && Chain(h, s'.table))
  {
    assert Pending(s) == [] ==> All(s) == s.table;
    assert All(s) + [] == All(s);
  }

  /** `reset_cache` always leaves a good state; what it loses is exactly the unflushed rows. */
  lemma ResetKeepsGood(h: Hash, s: State)
    requires Good(h, s)
    ensures Good(h, ResetState(s)) && All(ResetState(s)) == s.table
    ensures All(ResetState(s)) == All(s) <==> Pending(s) == []
  {
    assert s.table == All(s)[..|s.table|];
    ChainAt(h, All(s), |s.table|);
    assert All(ResetState(s)) == s.table;
  }

  /** What a caller can check before `begin_buffer`. */
  predicate SafeToBegin(s: State) { Pending(s) == [] && (s.last.Some? || s.table == []) }

  /** `begin_buffer` keeps the chain exactly when nothing is pending and the cache is warm or the
      table empty. */
  lemma BeginKeepsGoodExactly(h: Hash, s: State)
    requires FixedWidth(h) && Good(h, s) && NoClash(h, Hashed(All(s)))
    ensures Good(h, Begun(s)) <==> SafeToBegin(s)
  {
    assert All(Begun(s)) == s.table;
    assert s.table == All(s)[..|s.table|] && All(s) == All(s)[..|All(s)|];
    ChainAt(h, All(s), |s.table|);
    if s.last.Some? && Pending(s) != [] {
      TipsDiffer(h, All(s), |s.table|, |All(s)|);
    }
  }

  // At an unsafe point the next row would not be linked to the last row of the table.
  lemma UnsafePrev(h: Hash, s: State)
    requires FixedWidth(h) && Good(h, s) && NoClash(h, Hashed(All(s))) && !SafeToBegin(s)
    ensures Chain(h, s.table) && PrevFor(Begun(s)) != Tip(s.table)
  {
    assert s.table == All(s)[..|s.table|] && All(s) == All(s)[..|All(s)|];
    ChainAt(h, All(s), |s.table|);
    TipWidth(h, All(s));
    if Pending(s) != [] {
      TipsDiffer(h, All(s), |s.table|, |All(s)|);
    } else {
      TipsDiffer(h, All(s), 0, |s.table|);
      assert All(s)[..0] == [];
    }
  }

  /** Beginning a buffer at an unsafe point is fatal: the next entry's flush is rejected, or what
      it writes does not verify. */
  lemma UnsafeBeginBreaks(h: Hash, s: State, n: Note)
    requires FixedWidth(h) && Good(h, s) && NoClash(h, Hashed(All(s))) && !SafeToBegin(s)
    ensures var (s', written) := Flushed(Appended(h, Begun(s), n, false).0, false);
            written.None? || !Chain(h, s'.table)
  {
    var s1 := Appended(h, Begun(s), n, false).0;
    assert All(s1) == s.table + [Linked(h, PrevFor(Begun(s)), n)];
    assert All(s1)[..|s.table|] == s.table;
    UnsafePrev(h, s);
    BrokenStaysBroken(h, All(s1), |s.table|);
  }

  // ------------------------------------------------------------------ operation sequences

  datatype Op = Append(note: Note, dbFails: bool) | Begin | Flush(dbFails: bool) | Reset

  function Applied(h: Hash, s: State, op: Op): State {
    match op
    case Append(n, fails) => Appended(h, s, n, fails).0
    case Begin => Begun(s)
    case Flush(fails) => Flushed(s, fails).0
    case Reset => ResetState(s)
  }

  function Run(h: Hash, s: State, ops: seq<Op>): State {
    if ops == [] then s else Applied(h, Run(h, s, ops[..|ops| - 1]), ops[|ops| - 1])
  }

  /** Every buffer is begun at a safe point. */
  predicate Careful(h: Hash, s: State, ops: seq<Op>) {
    ops != [] ==>
      var n := |ops| - 1;
      Careful(h, s, ops[..n]) && (ops[n].Begin? ==> SafeToBegin(Run(h, s, ops[..n])))
  }

  lemma {:induction false} EveryCarefulRunIsGood(h: Hash, s: State, ops: seq<Op>)
    requires FixedWidth(h) && Good(h, s) && Careful(h, s, ops)
    ensures Good(h, Run(h, s, ops))
  {
    if ops != [] {
      var n := |ops| - 1;
      EveryCarefulRunIsGood(h, s, ops[..n]);
      var t := Run(h, s, ops[..n]);
      match ops[n] {
        case Append(note, fails) => AppendKeepsGood(h, t, note, fails);
        case Begin => assert All(Begun(t)) == All(t);
        case Flush(fails) => FlushKeepsGood(h, t, fails);
        case Reset => ResetKeepsGood(h, t);
      }
    }
  }

  const EMPTY: State := State([], None, None)

  /** From an empty ledger, after any sequence of appends, failed inserts, begins at safe points,
      flushes, failed flushes and resets, the table verifies at every moment, and still does
      once whatever is pending is flushed. */
  lemma LedgerAlwaysVerifies(h: Hash, ops: seq<Op>)
    requires FixedWidth(h) && Careful(h, EMPTY, ops)
    ensures var s := Run(h, EMPTY, ops);
            Chain(h, s.table) && Chain(h, Flushed(s, false).0.table)
  {
    assert All(EMPTY) == [];
    EveryCarefulRunIsGood(h, EMPTY, ops);
    var s := Run(h, EMPTY, ops);
    FlushKeepsGood(h, s, false);
    assert s.table == All(s)[..|s.table|];
    ChainAt(h, All(s), |s.table|);
  }

  lemma RunSnoc(h: Hash, s: State, ops: seq<Op>, op: Op)
    ensures Run(h, s, ops + [op]) == Applied(h, Run(h, s, ops), op)
  {
    assert (ops + [op])[..|ops|] == ops;
  }

  lemma RunTwo(h: Hash, s: State, a: Op, b: Op)
    ensures Run(h, s, [a, b]) == Applied(h, Applied(h, s, a), b)
  {
    RunSnoc(h, s, [], a);
    RunSnoc(h, s, [a], b);
    assert [] + [a] == [a] && [a] + [b] == [a, b];
  }

  lemma OneRow(h: Hash, n: Note)
    requires FixedWidth(h) && h(GENESIS + n.payload) != GENESIS
    ensures var rows := [Linked(h, GENESIS, n)]; Chain(h, rows) && NoClash(h, Hashed(rows))
  {
    var rows := [Linked(h, GENESIS, n)];
    assert rows[..0] == [];
    assert Hashed(rows) == {GENESIS + n.payload};
  }

  /** Unsafe points are reached by ordinary use: by a reset after an entry, and in the middle of a
      buffer. */
  lemma UnsafePointsHappen(h: Hash, n: Note)
    requires FixedWidth(h) && h(GENESIS + n.payload) != GENESIS
    ensures var cold := Run(h, EMPTY, [Append(n, false), Reset]);
            Good(h, cold) && NoClash(h, Hashed(All(cold))) && !SafeToBegin(cold)
    ensures var pending := Run(h, EMPTY, [Begin, Append(n, false)]);
            Good(h, pending) && NoClash(h, Hashed(All(pending))) && !SafeToBegin(pending)
  {
    var row := Linked(h, GENESIS, n);
    RunTwo(h, EMPTY, Append(n, false), Reset);
    RunTwo(h, EMPTY, Begin, Append(n, false));
    OneRow(h, n);
    assert All(Run(h, EMPTY, [Append(n, false), Reset])) == [row];
    assert All(Run(h, EMPTY, [Begin, Append(n, false)])) == [row];
  }

  // ------------------------------------------------------------------ buffered and unbuffered

  function Appends(notes: seq<Note>): seq<Op> { seq(|notes|, i requires 0 <= i < |notes| => Append(notes[i], false)) }

  /** The rows a chain gains when these notes are appended to it. */
  function Extended(h: Hash, rows: seq<Row>, notes: seq<Note>): seq<Row> {
    if notes == [] then rows
    else
      var before := Extended(h, rows, notes[..|notes| - 1]);
      before + [Linked(h, Tip(before), notes[|notes| - 1])]
  }

  lemma {:induction false} ExtendedIsChain(h: Hash, rows: seq<Row>, notes: seq<Note>)
    requires Chain(h, rows)
    ensures Chain(h, Extended(h, rows, notes)) && |Extended(h, rows, notes)| == |rows| + |notes|
  {
    if notes != [] {
      var n := |notes| - 1;
      ExtendedIsChain(h, rows, notes[..n]);
      ChainExtends(h, Extended(h, rows, notes[..n]), notes[n]);
    }
  }

  lemma ExtendedLast(h: Hash, rows: seq<Row>, notes: seq<Note>)
    requires FixedWidth(h) && Chain(h, rows) && notes != [] && NoClash(h, Hashed(Extended(h, rows, notes)))
    ensures var before := Extended(h, rows, notes[..|notes| - 1]);
            && Extended(h, rows, notes) == before + [Linked(h, Tip(before), notes[|notes| - 1])]
            && NoClash(h, Hashed(before))
            && Distinct(Extended(h, rows, notes))
  {
    var all := Extended(h, rows, notes);
    assert all[..|all| - 1] == Extended(h, rows, notes[..|notes| - 1]);
    HashedOfPrefix(all, |all| - 1);
    ExtendedIsChain(h, rows, notes);
    ChainIsDistinct(h, all);
  }

  lemma RunOfLast(h: Hash, s: State, notes: seq<Note>)
    requires notes != []
    ensures var n := |notes| - 1;
            Run(h, s, Appends(notes)) == Appended(h, Run(h, s, Appends(notes[..n])), notes[n], false).0
  {
    assert Appends(notes)[..|notes| - 1] == Appends(notes[..|notes| - 1]);
  }

  lemma NotTaken(rows: seq<Row>, row: Row)
    requires Distinct(rows + [row])
    ensures !Taken(rows, row.entryHash)
  {
    var all := rows + [row];
    forall i | 0 <= i < |rows| ensures rows[i].entryHash != row.entryHash {
      assert all[i] == rows[i] && all[|rows|] == row;
    }
  }

  lemma AppendIsAccepted(h: Hash, t: State, n: Note, all: seq<Row>)
    requires FixedWidth(h) && Good(h, t)
    requires all == All(t) + [Linked(h, Tip(All(t)), n)] && Distinct(all)
    ensures var (t', entry) := Appended(h, t, n, false);
            Good(h, t') && All(t') == all && entry == Some(Tip(all)) && t'.last == entry
    ensures var t' := Appended(h, t, n, false).0;
            t'.buffer.Some? == t.buffer.Some? && (t.buffer.Some? ==> t'.table == t.table)
  {
    AppendKeepsGood(h, t, n, false);
    PrevIsTip(h, t);
    if t.buffer.None? {
      assert All(t) == t.table;
      NotTaken(t.table, Linked(h, Tip(All(t)), n));
    }
  }

  lemma {:induction false} AppendsExtend(h: Hash, s: State, notes: seq<Note>)
    requires FixedWidth(h) && Good(h, s)
    requires NoClash(h, Hashed(Extended(h, All(s), notes)))
    ensures var s' := Run(h, s, Appends(notes));
            && Good(h, s') && All(s') == Extended(h, All(s), notes) && s'.buffer.Some? == s.buffer.Some?
            && (s.buffer.Some? ==> s'.table == s.table)
            && (notes != [] ==> s'.last == Some(Tip(All(s'))))
  {
    if notes != [] {
      var n := |notes| - 1;
      ExtendedLast(h, All(s), notes);
      AppendsExtend(h, s, notes[..n]);
      RunOfLast(h, s, notes);
      AppendIsAccepted(h, Run(h, s, Appends(notes[..n])), notes[n], Extended(h, All(s), notes));
    }
  }

  // A flush writes exactly what the buffer holds, when nothing in it clashes with the table.
  lemma FlushWrites(s: State, rows: seq<Row>, k: nat)
    requires s.buffer.Some? && All(s) == rows && Distinct(rows) && |rows| == |s.table| + k
    ensures var (s', written) := Flushed(s, false);
            written == Some(k) && s'.table == rows && s'.last == s.last && s'.buffer.None?
  {
    assert |Pending(s)| == k;
  }

  /** Buffered and unbuffered runs of the same notes give the same table and the same tip. */
  lemma BufferingChangesNothing(h: Hash, s: State, notes: seq<Note>)
    requires FixedWidth(h) && Good(h, s) && s.buffer.None? && SafeToBegin(s)
    requires NoClash(h, Hashed(Extended(h, s.table, notes)))
    ensures var direct := Run(h, s, Appends(notes));
            var (flushed, written) := Flushed(Run(h, Begun(s), Appends(notes)), false);
            && direct.table == flushed.table == Extended(h, s.table, notes)
            && written == Some(|notes|)
            && (notes != [] ==> direct == flushed)
  {
    var rows := Extended(h, s.table, notes);
    assert All(s) == s.table && All(Begun(s)) == s.table;
    assert Distinct(rows) && |rows| == |s.table| + |notes| by {
      ExtendedIsChain(h, s.table, notes);
      ChainIsDistinct(h, rows);
    }
    AppendsExtend(h, s, notes);
    AppendsExtend(h, Begun(s), notes);
    FlushWrites(Run(h, Begun(s), Appends(notes)), rows, |notes|);
    assert All(Run(h, s, Appends(notes))) == Run(h, s, Appends(notes)).table;
  }
}
