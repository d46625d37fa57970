/**
Booking under concurrency: every command on an order runs as one transaction --
read `order_state`, decide, guarded UPDATE, position write, stream lock, version
check, append, commit, publish -- and any number of them interleave, step by
step (src/execution.rs, src/event_store.rs, src/order_entry.rs).

A transaction's writes are private until it commits. What Postgres provides is
modelled as the guard of a step: an UPDATE waits for the row lock and re-reads
the committed row, `FOR UPDATE` locks a row only if there is one, an insert
waits for an uncommitted insert of the same key, an advisory lock is held to
the end of its transaction.
*/
module Booking {
  import opened Wrappers
  import opened Orders
  import opened Positions

  type CallId = nat

  // execution.rs:48 and order_entry.rs:222
  const MAX_ATTEMPTS: nat := 5

  // One committed log entry: the event, the command it came from, and the call
  // that wrote it (`None` for the events an order is created with).
  datatype Entry = Entry(event: Event, cmd: Command, writer: Option<CallId>)

  // One fill as the position projection booked it.
  datatype Booked = Booked(order: OrderId, version: nat, fill: Fill)

  datatype BusEvent =
    | Appended(order: OrderId, version: nat)
    | PositionChanged(key: Key)

  // What is committed. `booked` is a history of the position writes per row, in
  // commit order; `queued` holds what the outbox trigger enqueued.
  datatype Db = Db(
    rows: map<OrderId, OrderState>,
    log: map<OrderId, seq<Entry>>,
    positions: map<Key, Position>,
    booked: map<Key, seq<Booked>>,
    queued: seq<(OrderId, nat)>,
    bus: seq<BusEvent>)

  datatype Stage = SDecided | SUpdated | SLoaded | SWritten | SLocked | SAppended {
    function Rank(): nat {
      match this
      case SDecided => 0 case SUpdated => 1 case SLoaded => 2
      case SWritten => 3 case SLocked => 4 case SAppended => 5
    }
  }

  // An open transaction: the row it read, the event it decided, whether its
  // guarded UPDATE matched the row, and the position it loaded.
  datatype Tx = Tx(base: OrderState, event: Event, stage: Stage, matched: bool, loaded: Option<Position>)

  datatype Outcome = Succeeded | Skipped | Conflict | Failed

  datatype Phase =
    | Ready
    | Open(tx: Tx)
    | Committed(event: Event)
    | Done(outcome: Outcome)

  // `wrote` records the version the call committed, if it did.
  datatype Call = Call(order: OrderId, cmd: Command, attempt: nat, phase: Phase, wrote: Option<nat>, key: Option<Key>)

  datatype State = State(db: Db, calls: map<CallId, Call>)

  const INIT := State(Db(map[], map[], map[], map[], [], []), map[])

  // ---- locks a transaction holds ---------------------------------------------

  predicate HoldsRow(c: Call, o: OrderId) {
    c.phase.Open? && c.order == o && c.phase.tx.stage.Rank() >= 1 && c.phase.tx.matched
  }

  predicate HoldsPosition(c: Call, k: Key) {
    && c.phase.Open? && c.phase.tx.event.OrderFill? && c.phase.tx.base.key == k
    && (c.phase.tx.stage.Rank() >= 3 || (c.phase.tx.stage.SLoaded? && c.phase.tx.loaded.Some?))
  }

  predicate HoldsStream(c: Call, o: OrderId) {
    c.phase.Open? && c.order == o && c.phase.tx.stage.Rank() >= 4
  }

  ghost predicate RowFree(s: State, c: CallId, o: OrderId) {
    forall d | d in s.calls && d != c :: !HoldsRow(s.calls[d], o)
  }

  ghost predicate PositionFree(s: State, c: CallId, k: Key) {
    forall d | d in s.calls && d != c :: !HoldsPosition(s.calls[d], k)
  }

  ghost predicate StreamFree(s: State, c: CallId, o: OrderId) {
    forall d | d in s.calls && d != c :: !HoldsStream(s.calls[d], o)
  }

  // ---- what one call does ----------------------------------------------------

  // The read and the decision (execution.rs:94-160, order_entry.rs:275-312, 960-1074):
  // an error is the outcome the call ends with.
  function ReadAndDecide(rows: map<OrderId, OrderState>, o: OrderId, cmd: Command)
      : Result<(OrderState, Event), Outcome> {
    if o !in rows then Err(if cmd.Receive? then Skipped else Failed)
    else
      var row := rows[o];
      if row.status.IsTerminal() then Err(if cmd.Cancel? then Failed else Skipped)
      else if cmd.Route? && row.status != Submitted then Err(Skipped)
      else
        match Decide(Some(row), cmd)
        case Err(_) => Err(if cmd.Receive? then Skipped else Failed)
        case Ok(e) => Ok((row, e))
  }

  // The columns each path's UPDATE sets. A local cancel leaves `leaves_qty` alone
  // (order_entry.rs:1093-1103).
  function RowWrite(cmd: Command, row: OrderState, next: OrderState): OrderState {
    match cmd
    case Receive(_) => row.(status := next.status, leavesQty := next.leavesQty, cumQty := next.cumQty,
                            avgPx := next.avgPx, version := next.version)
    case _ => row.(status := next.status, version := next.version)
  }

  // A version conflict: execution reports and routing try again, a cancel fails.
  function AfterConflict(c: Call): Call {
    if c.cmd.Cancel? then c.(phase := Done(Failed))
    else if c.attempt >= MAX_ATTEMPTS then c.(phase := Done(Conflict))
    else c.(phase := Ready, attempt := c.attempt + 1)
  }

  function FillOf(side: Side, e: Event): Fill
    requires e.OrderFill?
  {
    Fill(side, e.qty, e.price)
  }

  // The committed effects of a transaction whose events are appended.
  function CommitDb(db: Db, id: CallId, c: Call): Db
    requires c.phase.Open?
  {
    var tx, o := c.phase.tx, c.order;
    var next := Apply(Some(tx.base), tx.event).value;
    var db1 := db.(
      rows := if tx.matched && o in db.rows then db.rows[o := RowWrite(c.cmd, db.rows[o], next)] else db.rows,
      log := db.log[o := Get(db.log, o) + [Entry(tx.event, c.cmd, Some(id))]],
      queued := db.queued + [(o, tx.event.version)]);
    if !tx.event.OrderFill? then db1
    else
      var k, f := tx.base.key, FillOf(tx.base.side, tx.event);
      db1.(positions := db.positions[k := ApplyFill(tx.loaded.GetOr(FLAT), f)],
           booked := db.booked[k := Get(db.booked, k) + [Booked(o, tx.event.version, f)]])
  }

  function Events(log: seq<Entry>): seq<Event> {
    seq(|log|, i requires 0 <= i < |log| => log[i].event)
  }

  datatype Step =
    | Create(order: OrderId, submit: Command, second: Option<Command>)
    | Begin(id: CallId, order: OrderId, cmd: Command)
    | Read(id: CallId)
    | Update(id: CallId)
    | LoadPosition(id: CallId)
    | WritePosition(id: CallId)
    | LockStream(id: CallId)
    | Append(id: CallId)
    | Commit(id: CallId, answered: bool)
    | Publish(id: CallId)
    | Abort(id: CallId)

  predicate InTx(s: State, id: CallId, stage: Stage) {
    id in s.calls && s.calls[id].phase.Open? && s.calls[id].phase.tx.stage == stage
  }

  // The events an order is created with: a submit, and at most one more decided
  // on top of it in the same transaction (a refusal on record, an external route).
  function CreationEvents(submit: Command, second: Option<Command>): Option<seq<Entry>> {
    match Decide(None, submit)
    case Err(_) => None
    case Ok(e) =>
      match second
      case None => Some([Entry(e, submit, None)])
      case Some(cmd) =>
        match Decide(Apply(None, e), cmd)
        case Err(_) => None
        case Ok(e2) => Some([Entry(e, submit, None), Entry(e2, cmd, None)])
  }

  ghost predicate Enabled(s: State, step: Step) {
    match step
    case Create(o, submit, second) =>
      && o !in s.db.rows && o !in s.db.log
      && CreationEvents(submit, second).Some?
      && (second.Some? ==> second.value.Route? || (second.value.Receive? && second.value.report.ReportReject?))
    case Begin(id, _, cmd) => id !in s.calls && !cmd.Submit?
    case Read(id) => id in s.calls && s.calls[id].phase.Ready?
    case Update(id) => InTx(s, id, SDecided) && RowFree(s, id, s.calls[id].order)
    case LoadPosition(id) =>
      && InTx(s, id, SUpdated) && s.calls[id].phase.tx.event.OrderFill?
      && (s.calls[id].phase.tx.base.key in s.db.positions ==> PositionFree(s, id, s.calls[id].phase.tx.base.key))
    case WritePosition(id) =>
      InTx(s, id, SLoaded) && PositionFree(s, id, s.calls[id].phase.tx.base.key)
    case LockStream(id) =>
      && (InTx(s, id, SWritten) || (InTx(s, id, SUpdated) && !s.calls[id].phase.tx.event.OrderFill?))
      && StreamFree(s, id, s.calls[id].order)
    case Append(id) => InTx(s, id, SLocked)
    case Commit(id, _) => InTx(s, id, SAppended)
    case Publish(id) => id in s.calls && s.calls[id].phase.Committed?
    case Abort(id) => id in s.calls && (s.calls[id].phase.Ready? || s.calls[id].phase.Open?)
  }

  function SetPhase(s: State, id: CallId, p: Phase): State
    requires id in s.calls
  {
    s.(calls := s.calls[id := s.calls[id].(phase := p)])
  }

  function AtStage(s: State, id: CallId, stage: Stage): State
    requires id in s.calls && s.calls[id].phase.Open?
  {
    SetPhase(s, id, Open(s.calls[id].phase.tx.(stage := stage)))
  }

  // The call after its read.
  function AfterRead(db: Db, c: Call): Call {
    match ReadAndDecide(db.rows, c.order, c.cmd)
    case Err(outcome) => c.(phase := Done(outcome))
    case Ok((base, e)) => c.(phase := Open(Tx(base, e, SDecided, false, None)))
  }

  // The call after its guarded UPDATE, which re-reads the committed row.
  function AfterUpdate(db: Db, c: Call): Call
    requires c.phase.Open?
  {
    var tx := c.phase.tx;
    var matched := c.order in db.rows && db.rows[c.order].version == tx.base.version;
    if c.cmd.Cancel? && !matched then c.(phase := Done(Failed))
    else c.(phase := Open(tx.(stage := SUpdated, matched := matched)))
  }

  // The call after the append's version check (event_store.rs:165-171).
  function AfterAppend(db: Db, c: Call): Call
    requires c.phase.Open?
  {
    if |Get(db.log, c.order)| != c.phase.tx.base.version then AfterConflict(c)
    else c.(phase := Open(c.phase.tx.(stage := SAppended)))
  }

  // The call after a commit, which the client may or may not hear of.
  function AfterCommit(c: Call, answered: bool): Call
    requires c.phase.Open?
  {
    c.(phase := if answered then Committed(c.phase.tx.event) else Done(Failed),
       wrote := Some(c.phase.tx.event.version),
       key := Some(c.phase.tx.base.key))
  }

  function Published(c: Call): seq<BusEvent>
    requires c.phase.Committed?
  {
    [Appended(c.order, c.phase.event.version)]
    + (if c.phase.event.OrderFill? && c.key.Some? then [PositionChanged(c.key.value)] else [])
  }

  ghost function Do(s: State, step: Step): State
    requires Enabled(s, step)
  {
    match step
    case Create(o, submit, second) =>
      var es := CreationEvents(submit, second).value;
      var row := Fold(Events(es));
      if row.None? then s
      else s.(db := s.db.(rows := s.db.rows[o := row.value], log := s.db.log[o := es],
                          queued := s.db.queued + seq(|es|, i => (o, i + 1))))
    case Begin(id, o, cmd) => s.(calls := s.calls[id := Call(o, cmd, 1, Ready, None, None)])
    case Read(id) => s.(calls := s.calls[id := AfterRead(s.db, s.calls[id])])
    case Update(id) => s.(calls := s.calls[id := AfterUpdate(s.db, s.calls[id])])
    case LoadPosition(id) =>
      var tx := s.calls[id].phase.tx;
      SetPhase(s, id, Open(tx.(stage := SLoaded, loaded := Lookup(s.db.positions, tx.base.key))))
    case WritePosition(id) => AtStage(s, id, SWritten)
    case LockStream(id) => AtStage(s, id, SLocked)
    case Append(id) => s.(calls := s.calls[id := AfterAppend(s.db, s.calls[id])])
    case Commit(id, answered) =>
      State(CommitDb(s.db, id, s.calls[id]), s.calls[id := AfterCommit(s.calls[id], answered)])
    case Publish(id) =>
      SetPhase(s.(db := s.db.(bus := s.db.bus + Published(s.calls[id]))), id, Done(Succeeded))
    case Abort(id) => SetPhase(s, id, Done(Failed))
  }
}
