/** The idempotent executor: reserve, execute, finalize over a table with a UNIQUE key. */
module Executor {
  import opened Schemas
  import opened IdempotencyKey

  /** A row of the executed-action table. It is reserved until an outcome is written to it. */
  datatype Row = Row(mandateId: string, actionType: ActionType, amount: Option<Paise>, scheduledAt: Instant,
                     success: Option<bool>, recovered: int)

  /** The table: the UNIQUE column is the map's key. */
  type Table = map<string, Row>

  /** What the gateway does with an attempt. */
  datatype Reply = Reply(success: Option<bool>, recovered: int) | Raised

  /** The kinds of audit entry the executor appends. */
  datatype Audit = Noop | Error | Execution | Dedup

  function Reserved(a: Action): Row {
    Row(a.mandateId, a.actionType, a.amount, a.scheduledAt, None, 0)
  }

  function Finalized(a: Action, g: Reply): Row
    requires g.Reply?
  {
    Reserved(a).(success := g.success, recovered := g.recovered)
  }

  function NoopResult(a: Action): ExecutionResult { ExecutionResult(a, false, false, None, 0) }

  function DedupResult(a: Action, row: Row): ExecutionResult {
    ExecutionResult(a, false, true, row.success, row.recovered)
  }

  function ReplyResult(a: Action, g: Reply): ExecutionResult {
    match g
    case Raised => ExecutionResult(a, true, false, Some(false), 0)
    case Reply(success, recovered) =>
      ExecutionResult(a, true, false, success, if success == Some(true) then recovered else 0)
  }

  function TableAfter(rows: Table, a: Action, g: Reply): Table {
    if !Money(a.actionType) || KeyOf(a) in rows then rows
    else rows[KeyOf(a) := if g.Raised? then Reserved(a) else Finalized(a, g)]
  }

  function ResultAfter(rows: Table, a: Action, g: Reply): ExecutionResult {
    if !Money(a.actionType) then NoopResult(a)
    else if KeyOf(a) in rows then DedupResult(a, rows[KeyOf(a)])
    else ReplyResult(a, g)
  }

  function AuditOf(rows: Table, a: Action, g: Reply): Audit {
    if !Money(a.actionType) then Noop
    else if KeyOf(a) in rows then Dedup
    else if g.Raised? then Error
    else Execution
  }

  // ------------------------------------------------------------------ what is reported and recorded

  /** The first call with a key reports what the gateway did: a raising gateway is a failure, and
      money is reported only on a success. */
  predicate FirstCall(a: Action, g: Reply, r: ExecutionResult) {
    && r.action == a && r.executed && !r.dedupHit
    && (g.Raised? ==> r.success == Some(false))
    && (g.Reply? ==> r.success == g.success)
    && (g.Reply? && g.success == Some(true) ==> r.recovered == g.recovered)
    && (g.Raised? || g.success != Some(true) ==> r.recovered == 0)
  }

  /** A later call reports the columns of the row, and that nothing was executed. */
  predicate LaterCall(a: Action, row: Row, r: ExecutionResult) {
    && r.action == a && !r.executed && r.dedupHit
    && r.success == row.success && r.recovered == row.recovered
  }

  predicate NoCall(a: Action, r: ExecutionResult) {
    r.action == a && !r.executed && !r.dedupHit && r.success == None && r.recovered == 0
  }

  /** The row a first call leaves: the action's own columns, and the reply as it came; a raising
      gateway leaves the row as it was reserved. */
  predicate Records(a: Action, g: Reply, row: Row) {
    && row.mandateId == a.mandateId && row.actionType == a.actionType
    && row.amount == a.amount && row.scheduledAt == a.scheduledAt
    && (g.Reply? ==> row.success == g.success && row.recovered == g.recovered)
    && (g.Raised? ==> row.success == None && row.recovered == 0)
  }

  /** Result, table and audit entry of one execution, case by case. */
  lemma ExecutionMeans(rows: Table, a: Action, g: Reply)
    ensures var r, rows', entry := ResultAfter(rows, a, g), TableAfter(rows, a, g), AuditOf(rows, a, g);
            && (Money(a.actionType) && KeyOf(a) !in rows ==>
                  && FirstCall(a, g, r)
                  && rows' == rows[KeyOf(a) := rows'[KeyOf(a)]] && Records(a, g, rows'[KeyOf(a)])
                  && entry == if g.Raised? then Error else Execution)
            && (Money(a.actionType) && KeyOf(a) in rows ==>
                  LaterCall(a, rows[KeyOf(a)], r) && rows' == rows && entry == Dedup)
            && (!Money(a.actionType) ==> NoCall(a, r) && rows' == rows && entry == Noop)
  {
  }

  /** The executor over its database, one call at a time. */
  class Database {
    var rows: Table
    var audit: seq<Audit>
    var attempts: seq<string> // the keys the gateway has been called with

    constructor ()
      ensures rows == map[] && audit == [] && attempts == []
    {
      rows, audit, attempts := map[], [], [];
    }

    /** The UNIQUE insert: false is the integrity error. */
    method Insert(key: string, row: Row) returns (ok: bool)
      modifies this`rows
      ensures ok <==> key !in old(rows)
      ensures rows == if ok then old(rows)[key := row] else old(rows)
    {
      ok := key !in rows;
      if ok {
        rows := rows[key := row];
      }
    }

    /** `g` is what the gateway would do if it were called. */
    method Execute(a: Action, g: Reply) returns (r: ExecutionResult)
      modifies this
      ensures rows == TableAfter(old(rows), a, g)
      ensures r == ResultAfter(old(rows), a, g)
      ensures audit == old(audit) + [AuditOf(old(rows), a, g)]
      ensures attempts == old(attempts) + (if Money(a.actionType) && KeyOf(a) !in old(rows) then [KeyOf(a)] else [])
      ensures Money(a.actionType) && KeyOf(a) !in old(rows) ==>
                && FirstCall(a, g, r)
                && rows == old(rows)[KeyOf(a) := rows[KeyOf(a)]] && Records(a, g, rows[KeyOf(a)])
                && audit == old(audit) + [if g.Raised? then Error else Execution]
      ensures Money(a.actionType) && KeyOf(a) in old(rows) ==>
                && LaterCall(a, old(rows)[KeyOf(a)], r) && rows == old(rows) && audit == old(audit) + [Dedup]
      ensures !Money(a.actionType) ==> NoCall(a, r) && rows == old(rows) && audit == old(audit) + [Noop]
    {
      ExecutionMeans(rows, a, g);
      if !Money(a.actionType) {
        audit := audit + [Noop];
        return NoopResult(a);
      }
      var key := KeyOf(a);
      var reserved := Insert(key, Reserved(a));
      if !reserved {
        audit := audit + [Dedup];
        return DedupResult(a, rows[key]);
      }
      attempts := attempts + [key];
      if g.Raised? {
        audit := audit + [Error];
        return ReplyResult(a, g);
      }
      rows := rows[key := rows[key].(success := g.success, recovered := g.recovered)];
      audit := audit + [Execution];
      r := ReplyResult(a, g);
    }
  }

  /** Executing the same action again finds the row, calls no gateway, and reports the outcome
      the first call left, whatever the gateway would now do. The two calls agree on the outcome and
      on the money of a win; a raising gateway is reported as a failure once and as unknown after. */
  lemma SecondCallIsDeduplicated(rows: Table, a: Action, g: Reply, g': Reply)
    requires Money(a.actionType) && KeyOf(a) !in rows
    ensures var rows' := TableAfter(rows, a, g);
            var first, second := ResultAfter(rows, a, g), ResultAfter(rows', a, g');
            && first.executed && !first.dedupHit && second.dedupHit && !second.executed
            && TableAfter(rows', a, g') == rows'
            && (g.Reply? ==> second.success == first.success == g.success)
            && (g.Raised? ==> first.success == Some(false) && second.success == None)
            && (first.success == Some(true) ==> second.recovered == first.recovered == g.recovered)
  {
    ExecutionMeans(rows, a, g);
    ExecutionMeans(TableAfter(rows, a, g), a, g');
  }
}
