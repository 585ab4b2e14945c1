/** The executor under concurrency: any number of calls, interleaved step by step over one table,
    each of which may crash anywhere. Only single database transactions are atomic. */
module ExecutorProtocol {
  import opened Schemas
  import opened IdempotencyKey
  import opened Executor

  /** Where a call stands. */
  datatype Pc =
    | Entered
    | HasReserved
    | InGateway
    | Answered(reply: Reply)
    | Recorded(result: ExecutionResult)
    | SawDuplicate
    | Returned(result: ExecutionResult)
    | Crashed

  datatype Call = Call(action: Action, pc: Pc)

  datatype Event =
    | Reserve(key: string, id: nat)
    | Attempt(key: string, id: nat)
    | Answer(key: string, id: nat, reply: Reply)

  /** The table as it was found, the shared table, every call ever made, and the history of
      reserves and gateway calls. */
  datatype World = World(initial: Table, rows: Table, calls: map<nat, Call>, log: seq<Event>)

  datatype Move =
    | Enter(action: Action)
    | SkipMoney
    | InsertKey
    | HitUnique
    | CallGateway
    | GatewayAnswers(reply: Reply)
    | Finalize
    | ReadPrior
    | Return
    | Crash

  function At(w: World, id: nat, pc: Pc): map<nat, Call>
    requires id in w.calls
  {
    w.calls[id := w.calls[id].(pc := pc)]
  }

  /** One atomic move of one call. */
  predicate Moves(w: World, id: nat, m: Move, w': World) {
    if m.Enter? then id !in w.calls && w' == w.(calls := w.calls[id := Call(m.action, Entered)])
    else
      && id in w.calls
      && var a, pc := w.calls[id].action, w.calls[id].pc;
      var key := KeyOf(a);
      match m
      case Enter(_) => false
      case SkipMoney =>
        pc == Entered && !Money(a.actionType) && w' == w.(calls := At(w, id, Recorded(NoopResult(a))))
      case InsertKey =>
        && pc == Entered && Money(a.actionType) && key !in w.rows
        && w' == World(w.initial, w.rows[key := Reserved(a)], At(w, id, HasReserved), w.log + [Reserve(key, id)])
      case HitUnique =>
        pc == Entered && Money(a.actionType) && key in w.rows && w' == w.(calls := At(w, id, SawDuplicate))
      case CallGateway =>
        pc == HasReserved && w' == World(w.initial, w.rows, At(w, id, InGateway), w.log + [Attempt(key, id)])
      case GatewayAnswers(g) =>
        pc == InGateway && w' == World(w.initial, w.rows, At(w, id, Answered(g)), w.log + [Answer(key, id, g)])
      case Finalize =>
        && pc.Answered?
        && (pc.reply.Reply? ==> key in w.rows)
        && w' == World(
             w.initial,
             if pc.reply.Raised? then w.rows
             else w.rows[key := w.rows[key].(success := pc.reply.success, recovered := pc.reply.recovered)],
             At(w, id, Recorded(ReplyResult(a, pc.reply))), w.log)
      case ReadPrior =>
        && pc == SawDuplicate && key in w.rows
        && w' == w.(calls := At(w, id, Recorded(DedupResult(a, w.rows[key]))))
      case Return => pc.Recorded? && w' == w.(calls := At(w, id, Returned(pc.result)))
      case Crash => !pc.Returned? && w' == w.(calls := At(w, id, Crashed))
  }

  // ------------------------------------------------------------------ what every move keeps

  ghost predicate Owns(log: seq<Event>, key: string, id: nat) { Reserve(key, id) in log }

  ghost predicate Attempted(log: seq<Event>, key: string) { exists id :: Attempt(key, id) in log }

  ghost predicate Replied(log: seq<Event>, key: string) { exists id, g :: Answer(key, id, g) in log }

  /** An event that may follow the events before it: a key is reserved once, attempted once and by
      its owner only, and answered once, after the attempt. */
  ghost predicate MayFollow(log: seq<Event>, x: Event) {
    match x
    case Reserve(key, _) => forall id :: !Owns(log, key, id)
    case Attempt(key, id) => Owns(log, key, id) && !Attempted(log, key)
    case Answer(key, id, _) => Attempt(key, id) in log && !Replied(log, key)
  }

  ghost predicate Ordered(log: seq<Event>) {
    log != [] ==> Ordered(log[..|log| - 1]) && MayFollow(log[..|log| - 1], log[|log| - 1])
  }

  /** An outcome read from the table: nothing yet, or the gateway's own answer for that key, or
      what the table held before this history began. */
  ghost predicate Vouched(w: World, key: string, success: Option<bool>, recovered: int) {
    || (success == None && recovered == 0)
    || (exists id :: Answer(key, id, Reply(success, recovered)) in w.log)
    || (key in w.initial && w.initial[key].success == success && w.initial[key].recovered == recovered)
  }

  /** Where a result handed to a caller comes from. */
  ghost predicate ResultOk(w: World, a: Action, id: nat, r: ExecutionResult) {
    var key := KeyOf(a);
    && r.action == a
    && (r.executed ==>
          && Money(a.actionType) && Owns(w.log, key, id)
          && exists g :: Answer(key, id, g) in w.log && FirstCall(a, g, r))
    && (!r.executed && !r.dedupHit ==> r.success == None && r.recovered == 0)
    && (!r.executed ==> (r.dedupHit <==> Money(a.actionType)))
    && (r.dedupHit ==> !r.executed && key in w.rows && !Owns(w.log, key, id) && Vouched(w, key, r.success, r.recovered))
  }

  /** What the position of a call says about the table and the history. */
  ghost predicate CallOk(w: World, id: nat, c: Call) {
    var key := KeyOf(c.action);
    match c.pc
    case Entered => forall k :: !Owns(w.log, k, id)
    case HasReserved => Money(c.action.actionType) && Owns(w.log, key, id) && !Attempted(w.log, key)
    case InGateway =>
      Money(c.action.actionType) && Owns(w.log, key, id) && Attempt(key, id) in w.log && !Replied(w.log, key)
    case Answered(g) =>
      Money(c.action.actionType) && Owns(w.log, key, id) && Attempt(key, id) in w.log && Answer(key, id, g) in w.log
    case SawDuplicate => Money(c.action.actionType) && key in w.rows && forall k :: !Owns(w.log, k, id)
    case Recorded(r) => ResultOk(w, c.action, id, r)
    case Returned(r) => ResultOk(w, c.action, id, r)
    case Crashed => true
  }

  /** Every row's outcome is vouched for. */
  ghost predicate RowOk(w: World, key: string) {
    key in w.rows && Vouched(w, key, w.rows[key].success, w.rows[key].recovered)
  }

  ghost predicate Inv(w: World) {
    && Ordered(w.log)
    && (forall id | id in w.calls :: CallOk(w, id, w.calls[id]))
    && (forall x | x in w.log :: x.id in w.calls)
    && (forall key | key in w.rows :: RowOk(w, key))
    && (forall key, id | Owns(w.log, key, id) :: key in w.rows && KeyOf(w.calls[id].action) == key)
  }

  // ------------------------------------------------------------------ reading the history

  lemma {:induction false} OneOwner(log: seq<Event>, key: string, i: nat, j: nat)
    requires Ordered(log) && Owns(log, key, i) && Owns(log, key, j)
    ensures i == j
  {
    var before, x := log[..|log| - 1], log[|log| - 1];
    assert log == before + [x];
    assert i != j ==> Owns(before, key, i) || Owns(before, key, j);
    if x != Reserve(key, i) && x != Reserve(key, j) {
      OneOwner(before, key, i, j);
    }
  }

  lemma {:induction false} AttemptIsOwned(log: seq<Event>, key: string, id: nat)
    requires Ordered(log) && Attempt(key, id) in log
    ensures Owns(log, key, id)
  {
    var before, x := log[..|log| - 1], log[|log| - 1];
    assert log == before + [x];
    if x != Attempt(key, id) {
      AttemptIsOwned(before, key, id);
    }
  }

  lemma {:induction false} AnswerIsAttempted(log: seq<Event>, key: string, id: nat, g: Reply)
    requires Ordered(log) && Answer(key, id, g) in log
    ensures Attempt(key, id) in log
  {
    var before, x := log[..|log| - 1], log[|log| - 1];
    assert log == before + [x];
    if x != Answer(key, id, g) {
      AnswerIsAttempted(before, key, id, g);
    }
  }

  // ------------------------------------------------------------------ one move

  /** The history grows by at most one event, of the call that moves. */
  ghost predicate Grows(log: seq<Event>, log': seq<Event>, id: nat) {
    || log' == log
    || exists x: Event :: x.id == id && MayFollow(log, x) && log' == log + [x]
  }

  lemma MoveGrows(w: World, id: nat, m: Move, w': World)
    requires Inv(w) && Moves(w, id, m, w')
    ensures Grows(w.log, w'.log, id)
  {
    if w'.log != w.log {
      var x := w'.log[|w.log|];
      assert x.id == id && w'.log == w.log + [x];
      assert CallOk(w, id, w.calls[id]);
      assert MayFollow(w.log, x);
    }
  }

  lemma MoveKeepsOrder(w: World, id: nat, m: Move, w': World)
    requires Inv(w) && Moves(w, id, m, w')
    ensures Ordered(w'.log)
  {
    MoveGrows(w, id, m, w');
    if w'.log != w.log {
      var x: Event :| x.id == id && MayFollow(w.log, x) && w'.log == w.log + [x];
      assert w'.log[..|w.log|] == w.log;
    }
  }

  lemma MoveIsLocal(w: World, id: nat, m: Move, w': World)
    requires Moves(w, id, m, w')
    ensures w.rows.Keys <= w'.rows.Keys && w'.initial == w.initial
    ensures w'.calls.Keys == w.calls.Keys + {id}
    ensures forall i | i in w.calls && i != id :: w'.calls[i] == w.calls[i]
  {
  }

  // Growth by another call does not disturb this one.
  lemma Undisturbed(log: seq<Event>, log': seq<Event>, id: nat, i: nat, key: string)
    requires Ordered(log) && Grows(log, log', id) && id != i
    ensures forall k :: Owns(log', k, i) <==> Owns(log, k, i)
    ensures Attempt(key, i) in log' <==> Attempt(key, i) in log
    ensures forall g :: Answer(key, i, g) in log' <==> Answer(key, i, g) in log
    ensures Owns(log, key, i) ==>
              (Attempted(log', key) <==> Attempted(log, key)) && (Replied(log', key) <==> Replied(log, key))
  {
    if log' != log {
      var x: Event :| x.id == id && MayFollow(log, x) && log' == log + [x];
      if Owns(log, key, i) && x.key == key {
        if x.Answer? {
          AttemptIsOwned(log, key, id);
        }
        assert !x.Reserve?;
        OneOwner(log, key, i, id);
      }
      assert forall y :: y in log' <==> y in log || y == x;
    }
  }

  lemma OthersKept(w: World, w': World, id: nat, i: nat, c: Call)
    requires Ordered(w.log) && Grows(w.log, w'.log, id) && w.rows.Keys <= w'.rows.Keys
    requires w'.initial == w.initial && id != i
    requires CallOk(w, i, c)
    ensures CallOk(w', i, c)
  {
    Undisturbed(w.log, w'.log, id, i, KeyOf(c.action));
  }

  // The mover's next position is justified by the one before it.
  lemma MoverKept(w: World, id: nat, m: Move, w': World)
    requires Moves(w, id, m, w')
    requires if m.Enter? then forall k :: !Owns(w.log, k, id) else CallOk(w, id, w.calls[id])
    requires m.InsertKey? || m.CallGateway? ==> !Attempted(w.log, KeyOf(w.calls[id].action))
    requires m.CallGateway? ==> !Replied(w.log, KeyOf(w.calls[id].action))
    requires m.ReadPrior? ==> RowOk(w, KeyOf(w.calls[id].action))
    ensures CallOk(w', id, w'.calls[id])
  {
    if m.InsertKey? || m.CallGateway? || m.GatewayAnswers? {
      var x := w'.log[|w.log|];
      assert forall y :: y in w'.log <==> y in w.log || y == x;
    }
  }

  // A key that is not attempted has no answer; a key without a row has no attempt.
  lemma Unattempted(w: World, key: string)
    requires Inv(w)
    ensures key !in w.rows ==> !Attempted(w.log, key)
    ensures !Attempted(w.log, key) ==> !Replied(w.log, key)
  {
    if id :| Attempt(key, id) in w.log {
      AttemptIsOwned(w.log, key, id);
      assert RowOk(w, key);
    }
    if id, g :| Answer(key, id, g) in w.log {
      AnswerIsAttempted(w.log, key, id, g);
    }
  }

  lemma MoveKeepsCalls(w: World, id: nat, m: Move, w': World)
    requires Inv(w) && Moves(w, id, m, w')
    ensures forall i | i in w'.calls :: CallOk(w', i, w'.calls[i])
  {
    MoveGrows(w, id, m, w');
    MoveIsLocal(w, id, m, w');
    if id in w.calls {
      Unattempted(w, KeyOf(w.calls[id].action));
    }
    MoverKept(w, id, m, w');
    forall i | i in w'.calls && i != id ensures CallOk(w', i, w'.calls[i]) {
      OthersKept(w, w', id, i, w.calls[i]);
    }
  }

  lemma MoveKeepsRows(w: World, id: nat, m: Move, w': World, key: string)
    requires Moves(w, id, m, w') && key in w'.rows
    requires key in w.rows ==> RowOk(w, key)
    requires id in w.calls ==> CallOk(w, id, w.calls[id])
    ensures RowOk(w', key)
  {
  }

  lemma MoveKeepsActions(w: World, id: nat, m: Move, w': World)
    requires Moves(w, id, m, w')
    ensures forall i | i in w.calls :: i in w'.calls && w'.calls[i].action == w.calls[i].action
  {
  }

  lemma NewOwner(w: World, id: nat, m: Move, w': World, key: string, i: nat)
    requires Moves(w, id, m, w') && w'.log == w.log + [Reserve(key, i)]
    ensures i in w'.calls && key in w'.rows && KeyOf(w'.calls[i].action) == key
  {
    assert w'.log[|w.log|] == Reserve(key, i);
  }

  lemma MoveKeepsOwners(w: World, id: nat, m: Move, w': World, key: string, i: nat)
    requires Inv(w) && Moves(w, id, m, w') && Owns(w'.log, key, i)
    ensures i in w'.calls && key in w'.rows && KeyOf(w'.calls[i].action) == key
  {
    if Owns(w.log, key, i) {
      MoveKeepsActions(w, id, m, w');
      MoveIsLocal(w, id, m, w');
    } else {
      MoveGrows(w, id, m, w');
      var x: Event :| x.id == id && w'.log == w.log + [x];
      assert x == Reserve(key, i);
      NewOwner(w, id, m, w', key, i);
    }
  }

  lemma MoveKeepsIds(w: World, id: nat, m: Move, w': World)
    requires Inv(w) && Moves(w, id, m, w')
    ensures forall x | x in w'.log :: x.id in w'.calls
  {
    MoveGrows(w, id, m, w');
    MoveIsLocal(w, id, m, w');
  }

  lemma MoveKeepsInv(w: World, id: nat, m: Move, w': World)
    requires Inv(w) && Moves(w, id, m, w')
    ensures Inv(w')
  {
    MoveKeepsOrder(w, id, m, w');
    MoveKeepsCalls(w, id, m, w');
    MoveKeepsIds(w, id, m, w');
    forall key | key in w'.rows ensures RowOk(w', key) {
      MoveKeepsRows(w, id, m, w', key);
    }
    forall key, i | Owns(w'.log, key, i) ensures key in w'.rows && KeyOf(w'.calls[i].action) == key {
      MoveKeepsOwners(w, id, m, w', key, i);
    }
  }

  // ------------------------------------------------------------------ every run

  ghost predicate CanMove(w: World, w': World) { exists id, m :: Moves(w, id, m, w') }

  /** A run from any table: an arbitrary interleaving of the moves of arbitrarily many calls. */
  ghost predicate IsRun(rows: Table, ws: seq<World>) {
    && ws != [] && ws[0] == World(rows, rows, map[], [])
    && forall i | 0 <= i < |ws| - 1 :: CanMove(ws[i], ws[i + 1])
  }

  lemma {:induction false} RunKeepsInv(rows: Table, ws: seq<World>, n: nat)
    requires IsRun(rows, ws) && n < |ws|
    ensures Inv(ws[n])
  {
    if n > 0 {
      RunKeepsInv(rows, ws, n - 1);
      assert CanMove(ws[n - 1], ws[n - 1 + 1]);
      var id, m :| Moves(ws[n - 1], id, m, ws[n]);
      MoveKeepsInv(ws[n - 1], id, m, ws[n]);
    }
  }

  lemma {:induction false} OrderedAt(log: seq<Event>, j: nat)
    requires Ordered(log) && j < |log|
    ensures MayFollow(log[..j], log[j])
  {
    var n := |log| - 1;
    if j < n {
      OrderedAt(log[..n], j);
      assert log[..n][..j] == log[..j];
    }
  }

  lemma OnePerKey(log: seq<Event>, i: nat, j: nat)
    requires Ordered(log) && i < j < |log| && log[i].key == log[j].key
    ensures log[i].Reserve? ==> !log[j].Reserve?
    ensures log[i].Attempt? ==> !log[j].Attempt?
  {
    OrderedAt(log, j);
    assert log[i] in log[..j];
    assert log[i].Reserve? ==> Owns(log[..j], log[i].key, log[i].id);
  }

  /** Exactly once, in every interleaving: each key is reserved at most once and the gateway is
      called at most once for it, by the call whose reserve is already committed; no two calls
      with the same key both report that they executed; and every returned result is either the
      answer the gateway gave to that very call, or an outcome vouched for by the table. */
  lemma ExactlyOnce(rows: Table, ws: seq<World>, n: nat)
    requires IsRun(rows, ws) && n < |ws|
    ensures var log := ws[n].log;
            && (forall i, j | 0 <= i < j < |log| && log[i].key == log[j].key ::
                  (log[i].Reserve? ==> !log[j].Reserve?) && (log[i].Attempt? ==> !log[j].Attempt?))
            && (forall j | 0 <= j < |log| && log[j].Attempt? :: Reserve(log[j].key, log[j].id) in log[..j])
    ensures forall i, j | i in ws[n].calls && j in ws[n].calls && i != j && ws[n].calls[i].pc.Returned?
                          && ws[n].calls[j].pc.Returned?
                          && KeyOf(ws[n].calls[i].action) == KeyOf(ws[n].calls[j].action) ::
              !(ws[n].calls[i].pc.result.executed && ws[n].calls[j].pc.result.executed)
    ensures forall i | i in ws[n].calls && ws[n].calls[i].pc.Returned? ::
              ResultOk(ws[n], ws[n].calls[i].action, i, ws[n].calls[i].pc.result)
  {
    RunKeepsInv(rows, ws, n);
    var w := ws[n];
    forall j | 0 <= j < |w.log| && w.log[j].Attempt? ensures Reserve(w.log[j].key, w.log[j].id) in w.log[..j] {
      OrderedAt(w.log, j);
    }
    forall i, j | 0 <= i < j < |w.log| && w.log[i].key == w.log[j].key
      ensures (w.log[i].Reserve? ==> !w.log[j].Reserve?) && (w.log[i].Attempt? ==> !w.log[j].Attempt?)
    {
      OnePerKey(w.log, i, j);
    }
    forall i | i in w.calls && w.calls[i].pc.Returned?
      ensures ResultOk(w, w.calls[i].action, i, w.calls[i].pc.result)
    {
      assert CallOk(w, i, w.calls[i]);
    }
    forall i, j | i in w.calls && j in w.calls && i != j && w.calls[i].pc.Returned? && w.calls[j].pc.Returned?
                  && KeyOf(w.calls[i].action) == KeyOf(w.calls[j].action)
      ensures !(w.calls[i].pc.result.executed && w.calls[j].pc.result.executed)
    {
      if w.calls[i].pc.result.executed && w.calls[j].pc.result.executed {
        OneOwner(w.log, KeyOf(w.calls[i].action), i, j);
      }
    }
  }

  ghost predicate Steps(ws: seq<World>) {
    ws != [] && forall i | 0 <= i < |ws| - 1 :: CanMove(ws[i], ws[i + 1])
  }

  // One call, from entry to return, with nothing in between.
  ghost predicate Uninterrupted(w: World, id: nat, a: Action, g: Reply, ws: seq<World>) {
    && Steps(ws) && ws[0] == w
    && var w' := ws[|ws| - 1];
       && w'.rows == TableAfter(w.rows, a, g)
       && id in w'.calls && w'.calls[id] == Call(a, Returned(ResultAfter(w.rows, a, g)))
  }

  lemma Moved(w: World, id: nat, m: Move, w': World)
    requires Moves(w, id, m, w')
    ensures CanMove(w, w')
  {
  }

  lemma UninterruptedNoop(w: World, id: nat, a: Action, g: Reply) returns (ws: seq<World>)
    requires id !in w.calls && !Money(a.actionType)
    ensures Uninterrupted(w, id, a, g, ws)
  {
    var r := ResultAfter(w.rows, a, g);
    var w1 := w.(calls := w.calls[id := Call(a, Entered)]);
    var w2 := w1.(calls := At(w1, id, Recorded(r)));
    var w3 := w2.(calls := At(w2, id, Returned(r)));
    Moved(w, id, Enter(a), w1);
    Moved(w1, id, SkipMoney, w2);
    Moved(w2, id, Return, w3);
    ws := [w, w1, w2, w3];
  }

  lemma UninterruptedDuplicate(w: World, id: nat, a: Action, g: Reply) returns (ws: seq<World>)
    requires id !in w.calls && Money(a.actionType) && KeyOf(a) in w.rows
    ensures Uninterrupted(w, id, a, g, ws)
  {
    var r := ResultAfter(w.rows, a, g);
    var w1 := w.(calls := w.calls[id := Call(a, Entered)]);
    var w2 := w1.(calls := At(w1, id, SawDuplicate));
    var w3 := w2.(calls := At(w2, id, Recorded(r)));
    var w4 := w3.(calls := At(w3, id, Returned(r)));
    Moved(w, id, Enter(a), w1);
    Moved(w1, id, HitUnique, w2);
    Moved(w2, id, ReadPrior, w3);
    Moved(w3, id, Return, w4);
    ws := [w, w1, w2, w3, w4];
  }

  lemma Join(a: seq<World>, b: seq<World>) returns (ws: seq<World>)
    requires Steps(a) && Steps(b) && a[|a| - 1] == b[0]
    ensures Steps(ws) && ws[0] == a[0] && ws[|ws| - 1] == b[|b| - 1]
  {
    ws := a + b[1..];
    forall i | 0 <= i < |ws| - 1 ensures CanMove(ws[i], ws[i + 1]) {
      if i >= |a| - 1 {
        var k := i - (|a| - 1);
        assert ws[i] == b[k] && ws[i + 1] == b[k + 1];
        assert CanMove(b[k], b[k + 1]);
      }
    }
    assert ws[|ws| - 1] == b[|b| - 1];
  }

  lemma UninterruptedReserve(w: World, id: nat, a: Action) returns (ws: seq<World>)
    requires id !in w.calls && Money(a.actionType) && KeyOf(a) !in w.rows
    ensures Steps(ws) && ws[0] == w
    ensures var w' := ws[|ws| - 1];
            w'.rows == w.rows[KeyOf(a) := Reserved(a)] && id in w'.calls && w'.calls[id] == Call(a, InGateway)
  {
    var w1 := w.(calls := w.calls[id := Call(a, Entered)]);
    var w2 := World(w.initial, w.rows[KeyOf(a) := Reserved(a)], At(w1, id, HasReserved),
                    w.log + [Reserve(KeyOf(a), id)]);
    var w3 := World(w.initial, w2.rows, At(w2, id, InGateway), w2.log + [Attempt(KeyOf(a), id)]);
    Moved(w, id, Enter(a), w1);
    Moved(w1, id, InsertKey, w2);
    Moved(w2, id, CallGateway, w3);
    ws := [w, w1, w2, w3];
  }

  // Finalizing turns the reserved row into the row the sequential executor leaves.
  lemma FinalizedRows(held: Table, rows: Table, a: Action, g: Reply)
    requires Money(a.actionType) && KeyOf(a) !in rows && held == rows[KeyOf(a) := Reserved(a)]
    ensures TableAfter(rows, a, g) ==
            if g.Raised? then held
            else held[KeyOf(a) := held[KeyOf(a)].(success := g.success, recovered := g.recovered)]
  {
  }

  lemma UninterruptedAnswer(w: World, id: nat, a: Action, g: Reply, rows: Table) returns (ws: seq<World>)
    requires id in w.calls && w.calls[id] == Call(a, InGateway) && KeyOf(a) !in rows && Money(a.actionType)
    requires w.rows == rows[KeyOf(a) := Reserved(a)]
    ensures Steps(ws) && ws[0] == w
    ensures var w' := ws[|ws| - 1];
            w'.rows == TableAfter(rows, a, g) && id in w'.calls && w'.calls[id] == Call(a, Returned(ReplyResult(a, g)))
  {
    var key, r := KeyOf(a), ReplyResult(a, g);
    var w1 := World(w.initial, w.rows, At(w, id, Answered(g)), w.log + [Answer(key, id, g)]);
    var w2 := World(w.initial, TableAfter(rows, a, g), At(w1, id, Recorded(r)), w1.log);
    var w3 := w2.(calls := At(w2, id, Returned(r)));
    Moved(w, id, GatewayAnswers(g), w1);
    FinalizedRows(w1.rows, rows, a, g);
    Moved(w1, id, Finalize, w2);
    Moved(w2, id, Return, w3);
    ws := [w, w1, w2, w3];
  }

  lemma UninterruptedMoney(w: World, id: nat, a: Action, g: Reply) returns (ws: seq<World>)
    requires id !in w.calls && Money(a.actionType) && KeyOf(a) !in w.rows
    ensures Uninterrupted(w, id, a, g, ws)
  {
    var first := UninterruptedReserve(w, id, a);
    var rest := UninterruptedAnswer(first[|first| - 1], id, a, g, w.rows);
    ws := Join(first, rest);
  }

  /** The sequential executor is the protocol run without interruption. */
  lemma UninterruptedCall(w: World, id: nat, a: Action, g: Reply) returns (ws: seq<World>)
    requires id !in w.calls
    ensures Steps(ws) && ws[0] == w
    ensures var w' := ws[|ws| - 1];
            && w'.rows == TableAfter(w.rows, a, g)
            && id in w'.calls && w'.calls[id] == Call(a, Returned(ResultAfter(w.rows, a, g)))
  {
    if !Money(a.actionType) {
      ws := UninterruptedNoop(w, id, a, g);
    } else if KeyOf(a) in w.rows {
      ws := UninterruptedDuplicate(w, id, a, g);
    } else {
      ws := UninterruptedMoney(w, id, a, g);
    }
  }
}
