/** The tamper-evident audit ledger. The hash is any function from text to 64 characters; where
    a claim needs it to be collision-free, it needs it only on the strings actually hashed. */
module Ledger {
  import opened Schemas

  type Hash = string -> string

  const HASH_WIDTH: nat := 64

  function Zeros(n: nat): (z: string)
    ensures |z| == n
  {
    if n == 0 then "" else Zeros(n - 1) + "0"
  }

  const GENESIS: string := Zeros(HASH_WIDTH)

  /** What a caller hands in: the payload already in canonical JSON. */
  datatype Note = Note(mandateId: string, kind: string, payload: string)

  datatype Row = Row(mandateId: string, kind: string, payload: string, prevHash: string, entryHash: string)

  function Tip(rows: seq<Row>): string { if rows == [] then GENESIS else rows[|rows| - 1].entryHash }

  function Linked(h: Hash, prev: string, n: Note): Row {
    Row(n.mandateId, n.kind, n.payload, prev, h(prev + n.payload))
  }

  /** One row after the rows before it. */
  predicate LinksTo(h: Hash, before: seq<Row>, r: Row) {
    r.prevHash == Tip(before) && r.entryHash == h(Tip(before) + r.payload)
  }

  predicate Chain(h: Hash, rows: seq<Row>) {
    rows != [] ==> Chain(h, rows[..|rows| - 1]) && LinksTo(h, rows[..|rows| - 1], rows[|rows| - 1])
  }

  predicate Taken(rows: seq<Row>, entryHash: string) { exists r :: r in rows && r.entryHash == entryHash }

  /** The UNIQUE column. */
  predicate Distinct(rows: seq<Row>) {
    forall i, j | 0 <= i < j < |rows| :: rows[i].entryHash != rows[j].entryHash
  }

  // ------------------------------------------------------------------ the module state and its operations

  /** The table, the tip cache and the optional write buffer. */
  datatype State = State(table: seq<Row>, last: Option<string>, buffer: Option<seq<Row>>)

  function Pending(s: State): seq<Row> { s.buffer.GetOr([]) }

  function All(s: State): seq<Row> { s.table + Pending(s) }

  /** The tip cache as `append` sees it: read from the table only when unbuffered and cold. */
  function Warmed(s: State): Option<string> {
    if s.last.None? && s.buffer.None? then Some(Tip(s.table)) else s.last
  }

  function PrevFor(s: State): string {
    if Warmed(s).Some? && Warmed(s).value != "" then Warmed(s).value else GENESIS
  }

  /** `dbFails` says that the insert fails for a reason of the database's own. */
  function Appended(h: Hash, s: State, n: Note, dbFails: bool): (State, Option<string>) {
    var row := Linked(h, PrevFor(s), n);
    if s.buffer.Some? then
      (State(s.table, Some(row.entryHash), Some(s.buffer.value + [row])), Some(row.entryHash))
    else if dbFails || Taken(s.table, row.entryHash) then (s.(last := Warmed(s)), None)
    else (State(s.table + [row], Some(row.entryHash), None), Some(row.entryHash))
  }

  function Begun(s: State): State { s.(buffer := Some([])) }

  /** The number of rows written, or nothing when the transaction fails and the buffer stays. */
  function Flushed(s: State, dbFails: bool): (State, Option<nat>) {
    if Pending(s) == [] then (s.(buffer := None), Some(0))
    else if dbFails || !Distinct(All(s)) then (s, None)
    else (State(All(s), s.last, None), Some(|Pending(s)|))
  }

  function ResetState(s: State): State { State(s.table, None, None) }

  /** What `verify_chain` reports. */
  datatype Verdict = ChainOk(n: nat) | PrevMismatch(at: nat) | PayloadAltered(at: nat)

  predicate VerdictFits(h: Hash, rows: seq<Row>, v: Verdict) {
    match v
    case ChainOk(n) => n == |rows| && Chain(h, rows)
    case PrevMismatch(i) => i < |rows| && Chain(h, rows[..i]) && rows[i].prevHash != Tip(rows[..i])
    case PayloadAltered(i) =>
      && i < |rows| && Chain(h, rows[..i]) && rows[i].prevHash == Tip(rows[..i])
      && rows[i].entryHash != h(Tip(rows[..i]) + rows[i].payload)
  }

  lemma {:induction false} ChainAt(h: Hash, rows: seq<Row>, i: nat)
    requires Chain(h, rows) && i <= |rows|
    ensures Chain(h, rows[..i]) && (i < |rows| ==> LinksTo(h, rows[..i], rows[i]))
  {
    var n := |rows| - 1;
    if i < n {
      ChainAt(h, rows[..n], i);
      assert rows[..n][..i] == rows[..i];
    } else if i == |rows| {
      assert rows[..i] == rows;
    }
  }

  lemma BrokenStaysBroken(h: Hash, rows: seq<Row>, i: nat)
    requires i < |rows| && !LinksTo(h, rows[..i], rows[i])
    ensures !Chain(h, rows)
  {
    if Chain(h, rows) {
      ChainAt(h, rows, i);
    }
  }

  class AuditLedger {
    const h: Hash
    var table: seq<Row>
    var last: Option<string>
    var buffer: Option<seq<Row>>

    constructor (h: Hash)
      ensures this.h == h && View() == State([], None, None)
    {
      this.h := h;
      table, last, buffer := [], None, None;
    }

    function View(): State
      reads this
    {
      State(table, last, buffer)
    }

    method ResetCache()
      modifies this
      ensures View() == ResetState(old(View()))
    {
      last, buffer := None, None;
    }

    method BeginBuffer()
      modifies this
      ensures View() == Begun(old(View()))
    {
      buffer := Some([]);
    }

    method FlushBuffer(dbFails: bool) returns (n: Option<nat>)
      modifies this
      ensures (View(), n) == Flushed(old(View()), dbFails)
    {
      if buffer.None? || buffer.value == [] {
        buffer := None;
        return Some(0);
      }
      if dbFails || !Distinct(table + buffer.value) {
        return None;
      }
      n := Some(|buffer.value|);
      table, buffer := table + buffer.value, None;
    }

    method Append(n: Note, dbFails: bool) returns (entry: Option<string>)
      modifies this
      ensures (View(), entry) == Appended(h, old(View()), n, dbFails)
    {
      if last.None? && buffer.None? {
        last := Some(Tip(table));
      }
      var prev := if last.Some? && last.value != "" then last.value else GENESIS;
      var row := Linked(h, prev, n);
      if buffer.Some? {
        buffer := Some(buffer.value + [row]);
      } else {
        if dbFails || Taken(table, row.entryHash) {
          return None;
        }
        table := table + [row];
      }
      last := Some(row.entryHash);
      entry := Some(row.entryHash);
    }

    /** Recompute the whole chain and report the first break, if any. */
    method VerifyChain() returns (v: Verdict)
      ensures VerdictFits(h, table, v)
      ensures v.ChainOk? <==> Chain(h, table)
    {
      var prev := GENESIS;
      for i := 0 to |table|
        invariant Chain(h, table[..i]) && prev == Tip(table[..i])
      {
        assert table[..i + 1][..i] == table[..i];
        if table[i].prevHash != prev {
          BrokenStaysBroken(h, table, i);
          return PrevMismatch(i);
        }
        if table[i].entryHash != h(prev + table[i].payload) {
          BrokenStaysBroken(h, table, i);
          return PayloadAltered(i);
        }
        prev := table[i].entryHash;
      }
      assert table[..|table|] == table;
      v := ChainOk(|table|);
    }
  }
}
