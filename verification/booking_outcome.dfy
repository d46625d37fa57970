/**
What comes of a command, in terms of the order's row and the command alone: whether
it is booked, the one event it books, the row it leaves, and that a transaction with
no other open gets there (src/execution.rs:41-256, src/order_entry.rs:960-1103,
src/domain/orders/aggregate.rs:47-320).
*/
module BookingOutcome {
  import opened Wrappers
  import opened Orders
  import opened Positions
  import opened Booking
  import opened BookingSafety
  import BookingHistory

  // The order is there and open, and the command is one it takes: a fill at a price,
  // of no more than is left; a route of an order not yet routed.
  predicate Takes(rows: map<OrderId, OrderState>, o: OrderId, cmd: Command) {
    && o in rows && rows[o].status in {Submitted, Routed, PartiallyFilled, Suspended}
    && match cmd
       case Receive(report) =>
         (match report
          case ReportFill(_, qty, price) => qty > 0.0 && price > 0.0 && rows[o].cumQty + qty <= rows[o].originalQty
          case _ => true)
       case Cancel => true
       case Route(_) => rows[o].status == Submitted
       case Submit(_, _, _) => false
  }

  predicate IsFillReport(cmd: Command) {
    cmd.Receive? && cmd.report.ReportFill?
  }

  // The average over what was filled and what is filled now.
  function AverageWith(row: OrderState, qty: Positive, price: real): real {
    (row.cumQty * row.avgPx.GetOr(0.0) + qty * price) / (row.cumQty + qty)
  }

  function EventFor(row: OrderState, cmd: Command): Event
    requires !cmd.Submit? && (IsFillReport(cmd) ==> cmd.report.qty > 0.0)
  {
    match cmd
    case Route(id) => OrderRouted(row.version + 1, id)
    case Cancel => OrderCanceled(row.version + 1)
    case Receive(report) =>
      match report
      case ReportCanceled => OrderCanceled(row.version + 1)
      case ReportReject(reason) => OrderRejected(row.version + 1, reason)
      case ReportFill(id, qty, price) =>
        OrderFill(row.version + 1, id, qty, price,
                  row.cumQty + qty, row.originalQty - (row.cumQty + qty), AverageWith(row, qty, price))
  }

  // A venue's cancel closes what was open; a local one leaves the column alone.
  function RowFor(row: OrderState, cmd: Command): OrderState
    requires !cmd.Submit? && (IsFillReport(cmd) ==> cmd.report.qty > 0.0)
  {
    match cmd
    case Route(_) => row.(status := Routed, version := row.version + 1)
    case Cancel => row.(status := Canceled, version := row.version + 1)
    case Receive(report) =>
      match report
      case ReportCanceled => row.(status := Canceled, leavesQty := 0.0, version := row.version + 1)
      case ReportReject(_) => row.(status := Rejected, version := row.version + 1)
      case ReportFill(_, qty, price) =>
        row.(status := if row.cumQty + qty < row.originalQty then PartiallyFilled else Filled,
             cumQty := row.cumQty + qty,
             leavesQty := row.originalQty - (row.cumQty + qty),
             avgPx := Some(AverageWith(row, qty, price)),
             version := row.version + 1)
  }

  /** A command is decided exactly when its order takes it, on the row as it is and
      into its one event. What is not ends as it should: a report skipped, a local
      cancel failed, a route of an order that has moved on skipped. */
  lemma DecidedIff(rows: map<OrderId, OrderState>, o: OrderId, cmd: Command)
    requires !cmd.Submit?
    ensures var d := ReadAndDecide(rows, o, cmd);
            && (d.Ok? <==> Takes(rows, o, cmd))
            && (d.Ok? ==> d.value == (rows[o], EventFor(rows[o], cmd)))
            && (d.Err? ==> d.error == if cmd.Receive? || (cmd.Route? && o in rows) then Skipped else Failed)
  {}

  // An order's row after its own event, column by column.
  lemma AppliedRow(row: OrderState, cmd: Command)
    requires !cmd.Submit? && (IsFillReport(cmd) ==> cmd.report.qty > 0.0)
    ensures var next := Apply(Some(row), EventFor(row, cmd));
            next.Some? && RowWrite(cmd, row, next.value) == RowFor(row, cmd)
  {}

  // ---- what a committed command leaves -------------------------------------------------

  // The rows as they are when it commits; those of a transaction that read an older
  // row are left alone.
  function RowsAfter(rows: map<OrderId, OrderState>, read: OrderState, o: OrderId, cmd: Command)
      : map<OrderId, OrderState>
    requires !cmd.Submit? && (IsFillReport(cmd) ==> cmd.report.qty > 0.0)
  {
    if o in rows && rows[o].version == read.version then
      var n := RowFor(read, cmd);
      rows[o := rows[o].(status := n.status,
                         leavesQty := if cmd.Receive? then n.leavesQty else rows[o].leavesQty,
                         cumQty := if cmd.Receive? then n.cumQty else rows[o].cumQty,
                         avgPx := if cmd.Receive? then n.avgPx else rows[o].avgPx,
                         version := n.version)]
    else rows
  }

  function ReportedFill(row: OrderState, cmd: Command): Fill
    requires IsFillReport(cmd) && cmd.report.qty > 0.0
  {
    Fill(row.side, cmd.report.qty, cmd.report.price)
  }

  // One event on the order's log and in the queue, its row moved, and for a fill its
  // position, all from the row that was read; everything else as it was.
  ghost predicate Books(db: Db, db': Db, id: CallId, o: OrderId, cmd: Command, read: OrderState)
    requires !cmd.Submit? && (IsFillReport(cmd) ==> cmd.report.qty > 0.0)
  {
    && db'.log == db.log[o := Get(db.log, o) + [Entry(EventFor(read, cmd), cmd, Some(id))]]
    && db'.rows == RowsAfter(db.rows, read, o, cmd)
    && db'.queued == db.queued + [(o, read.version + 1)]
    && (if IsFillReport(cmd) then
          var fill := ReportedFill(read, cmd);
          && db'.positions == db.positions[read.key := ApplyFill(Lookup(db.positions, read.key).GetOr(FLAT), fill)]
          && db'.booked == db.booked[read.key := Get(db.booked, read.key) + [Booked(o, read.version + 1, fill)]]
        else db'.positions == db.positions && db'.booked == db.booked)
  }

  // A transaction about to commit, its position loaded from the table it commits to.
  lemma CommitBooks(db: Db, id: CallId, c: Call, read: OrderState, matched: bool)
    requires !c.cmd.Submit? && (IsFillReport(c.cmd) ==> c.cmd.report.qty > 0.0)
    requires matched <==> c.order in db.rows && db.rows[c.order].version == read.version
    requires var loaded := if IsFillReport(c.cmd) then Lookup(db.positions, read.key) else None;
             c.phase == Open(Tx(read, EventFor(read, c.cmd), SAppended, matched, loaded))
    ensures Books(db, CommitDb(db, id, c), id, c.order, c.cmd, read) && CommitDb(db, id, c).bus == db.bus
  {
    hide ApplyFill;
    AppliedRow(read, c.cmd);
  }

  // ---- a transaction with no other open --------------------------------------------------

  ghost predicate NoneOpen(calls: map<CallId, Call>) {
    forall d | d in calls :: !calls[d].phase.Open?
  }

  function Announced(o: OrderId, read: OrderState, cmd: Command): seq<BusEvent> {
    [Appended(o, read.version + 1)] + (if IsFillReport(cmd) then [PositionChanged(read.key)] else [])
  }

  lemma OtherLocksFree(s: State, id: CallId, o: OrderId, k: Key)
    requires forall d | d in s.calls && d != id :: !s.calls[d].phase.Open?
    ensures RowFree(s, id, o) && StreamFree(s, id, o) && PositionFree(s, id, k)
  {}

  lemma WritesItsPosition(steps: seq<Step>, s: State, id: CallId) returns (steps': seq<Step>, s': State)
    requires After(steps) == Some(s) && InTx(s, id, SUpdated) && s.calls[id].phase.tx.event.OrderFill?
    requires forall d | d in s.calls && d != id :: !s.calls[d].phase.Open?
    ensures After(steps') == Some(s')
    ensures var tx := s.calls[id].phase.tx;
            s' == SetPhase(s, id, Open(tx.(stage := SWritten, loaded := Lookup(s.db.positions, tx.base.key))))
  {
    hide After, Lookup;
    var o, k := s.calls[id].order, s.calls[id].phase.tx.base.key;
    OtherLocksFree(s, id, o, k);
    BookingHistory.Then(steps, s, LoadPosition(id));
    var p, mid := steps + [LoadPosition(id)], Do(s, LoadPosition(id));
    OtherLocksFree(mid, id, o, k);
    BookingHistory.Then(p, mid, WritePosition(id));
    steps', s' := p + [WritePosition(id)], Do(mid, WritePosition(id));
  }

  // From a decided event to the point where it may commit.
  lemma RunsToAppend(steps: seq<Step>, s: State, id: CallId) returns (steps': seq<Step>, s': State)
    requires After(steps) == Some(s) && InTx(s, id, SDecided)
    requires forall d | d in s.calls && d != id :: !s.calls[d].phase.Open?
    requires var c := s.calls[id];
             && c.order in s.db.rows && s.db.rows[c.order] == c.phase.tx.base
             && |Get(s.db.log, c.order)| == c.phase.tx.base.version && c.phase.tx.loaded.None?
    ensures After(steps') == Some(s') && s'.db == s.db
    ensures var c := s.calls[id];
            var tx := c.phase.tx;
            var loaded := if tx.event.OrderFill? then Lookup(s.db.positions, tx.base.key) else None;
            s'.calls == s.calls[id := c.(phase := Open(Tx(tx.base, tx.event, SAppended, true, loaded)))]
  {
    hide After, Lookup, Get, Decide;
    var o, k := s.calls[id].order, s.calls[id].phase.tx.base.key;
    OtherLocksFree(s, id, o, k);
    BookingHistory.Then(steps, s, Update(id));
    var p1, s1 := steps + [Update(id)], Do(s, Update(id));
    OtherLocksFree(s1, id, o, k);
    var p2, s2 := p1, s1;
    if s.calls[id].phase.tx.event.OrderFill? {
      p2, s2 := WritesItsPosition(p1, s1, id);
    }
    OtherLocksFree(s2, id, o, k);
    BookingHistory.Then(p2, s2, LockStream(id));
    var p3, s3 := p2 + [LockStream(id)], Do(s2, LockStream(id));
    BookingHistory.Then(p3, s3, Append(id));
    steps', s' := p3 + [Append(id)], Do(s3, Append(id));
  }

  /** From any point of any run at which no transaction is open, a call about to read
      gets through: if its order takes the command, it succeeds with that event booked,
      queued and announced; if not, it ends skipped or failed with nothing changed. */
  lemma LoneCall(steps: seq<Step>, s: State, id: CallId) returns (steps': seq<Step>, s': State)
    requires After(steps) == Some(s) && NoneOpen(s.calls) && id in s.calls && s.calls[id].phase.Ready?
    ensures After(steps') == Some(s') && !s.calls[id].cmd.Submit?
    ensures var c := s.calls[id];
            if Takes(s.db.rows, c.order, c.cmd) then
              var row := s.db.rows[c.order];
              && Books(s.db, s'.db, id, c.order, c.cmd, row)
              && s'.db.rows == s.db.rows[c.order := RowFor(row, c.cmd)]
              && s'.db.bus == s.db.bus + Announced(c.order, row, c.cmd)
              && s'.calls
                 == s.calls[id := c.(phase := Done(Succeeded), wrote := Some(row.version + 1), key := Some(row.key))]
            else
              && s'.db == s.db
              && s'.calls == s.calls[id := c.(phase := Done(
                   if c.cmd.Receive? || (c.cmd.Route? && c.order in s.db.rows) then Skipped else Failed))]
  {
    CallFacts(steps, s, id);
    var c := s.calls[id];
    DecidedIff(s.db.rows, c.order, c.cmd);
    hide After, Inv, TxInv, Takes, ReadAndDecide, EventFor, RowFor, Lookup, Get, Books, Announced;
    BookingHistory.Then(steps, s, Read(id));
    var p1, s1 := steps + [Read(id)], Do(s, Read(id));
    if !Takes(s.db.rows, c.order, c.cmd) {
      return p1, s1;
    }
    TakenThere(s.db.rows, c.order, c.cmd);
    var row := s.db.rows[c.order];
    var p2, s2 := RunsToAppend(p1, s1, id);
    steps', s' := RunsToTheEnd(p2, s2, id, row);
  }

  lemma RunsToTheEnd(steps: seq<Step>, s: State, id: CallId, read: OrderState)
    returns (steps': seq<Step>, s': State)
    requires After(steps) == Some(s) && id in s.calls && s.calls[id].order in s.db.rows
    requires !s.calls[id].cmd.Submit? && (IsFillReport(s.calls[id].cmd) ==> s.calls[id].cmd.report.qty > 0.0)
    requires read == s.db.rows[s.calls[id].order]
    requires var cmd := s.calls[id].cmd;
             var loaded := if EventFor(read, cmd).OrderFill? then Lookup(s.db.positions, read.key) else None;
             s.calls[id].phase == Open(Tx(read, EventFor(read, cmd), SAppended, true, loaded))
    ensures After(steps') == Some(s')
    ensures var c := s.calls[id];
            && Books(s.db, s'.db, id, c.order, c.cmd, read)
            && s'.db.rows == s.db.rows[c.order := RowFor(read, c.cmd)]
            && s'.db.bus == s.db.bus + Announced(c.order, read, c.cmd)
            && s'.calls
               == s.calls[id := c.(phase := Done(Succeeded), wrote := Some(read.version + 1), key := Some(read.key))]
  {
    var c := s.calls[id];
    OnlyFillsFill(read, c.cmd);
    MatchedRows(s.db.rows, c.order, c.cmd);
    CommitBooks(s.db, id, c, read, true);
    hide After, Lookup, Get, CommitDb, RowFor, RowsAfter, EventFor;
    BookingHistory.Then(steps, s, Commit(id, true));
    var p, mid := steps + [Commit(id, true)], Do(s, Commit(id, true));
    BookingHistory.Then(p, mid, Publish(id));
    steps', s' := p + [Publish(id)], Do(mid, Publish(id));
  }

  lemma OnlyFillsFill(row: OrderState, cmd: Command)
    requires !cmd.Submit? && (IsFillReport(cmd) ==> cmd.report.qty > 0.0)
    ensures EventFor(row, cmd).OrderFill? <==> IsFillReport(cmd)
    ensures EventFor(row, cmd).version == row.version + 1
  {}

  lemma MatchedRows(rows: map<OrderId, OrderState>, o: OrderId, cmd: Command)
    requires !cmd.Submit? && (IsFillReport(cmd) ==> cmd.report.qty > 0.0) && o in rows
    ensures RowsAfter(rows, rows[o], o, cmd) == rows[o := RowFor(rows[o], cmd)]
  {}

  lemma TakenThere(rows: map<OrderId, OrderState>, o: OrderId, cmd: Command)
    requires Takes(rows, o, cmd)
    ensures o in rows && !cmd.Submit? && (IsFillReport(cmd) ==> cmd.report.qty > 0.0)
  {}

  lemma CallFacts(steps: seq<Step>, s: State, id: CallId)
    requires After(steps) == Some(s) && id in s.calls
    ensures !s.calls[id].cmd.Submit?
    ensures var o := s.calls[id].order; o in s.db.rows ==> |Get(s.db.log, o)| == s.db.rows[o].version
  {
    RunKeepsInv(steps);
    assert TxInv(s.db, s.calls[id]);
    if s.calls[id].order in s.db.rows {
      RowAtItsLog(s.db, s.calls[id].order);
    }
  }

  lemma RowAtItsLog(db: Db, o: OrderId)
    requires LogInv(db) && o in db.rows
    ensures |Get(db.log, o)| == db.rows[o].version
  {
    assert RowIsFold(db.rows[o], db.log[o]);
  }

  // ---- a call that is outrun --------------------------------------------------------------

  /** An append the log has outrun writes nothing: a report or a route tries again, five
      times in all, and a local cancel fails. So it does when its update finds the row
      moved on. */
  lemma OutrunCall(s: State, id: CallId)
    requires id in s.calls && s.calls[id].phase.Open?
    requires |Get(s.db.log, s.calls[id].order)| != s.calls[id].phase.tx.base.version
    ensures var c := s.calls[id];
            Enabled(s, Append(id)) ==>
              && Do(s, Append(id)).db == s.db
              && Do(s, Append(id)).calls == s.calls[id :=
                   if c.cmd.Cancel? then c.(phase := Done(Failed))
                   else if c.attempt < 5 then c.(phase := Ready, attempt := c.attempt + 1)
                   else c.(phase := Done(Conflict))]
    ensures var c := s.calls[id];
            Enabled(s, Update(id)) && c.cmd.Cancel?
            && (c.order in s.db.rows ==> s.db.rows[c.order].version != c.phase.tx.base.version) ==>
              Do(s, Update(id)) == s.(calls := s.calls[id := c.(phase := Done(Failed))])
  {}

  /** A commit whose answer is lost writes what it would have, is reported as failed, and
      is never announced. */
  lemma LostAnswer(s: State, id: CallId)
    requires Enabled(s, Commit(id, false))
    ensures var s' := Do(s, Commit(id, false));
            && s'.db == Do(s, Commit(id, true)).db && s'.calls[id].phase == Done(Failed)
            && s'.calls[id].wrote == Some(s.calls[id].phase.tx.event.version) && !Enabled(s', Publish(id))
  {}

  // ---- a new order -----------------------------------------------------------------------

  /** An order not there can be created for any quantity but none, by itself, with a route
      or with a refusal, and with nothing else. */
  lemma CreatableIff(s: State, o: OrderId, key: Key, side: Side, quantity: real, second: Option<Command>)
    ensures Enabled(s, Create(o, Submit(key, side, quantity), second)) <==>
              && o !in s.db.rows && o !in s.db.log && quantity > 0.0
              && match second
                 case None => true
                 case Some(Route(_)) => true
                 case Some(Receive(ReportReject(_))) => true
                 case _ => false
  {}

  /** A call given up before it commits fails and leaves nothing behind, its locks included. */
  lemma GivenUpCall(s: State, id: CallId, o: OrderId, k: Key)
    requires id in s.calls && (s.calls[id].phase.Ready? || s.calls[id].phase.Open?)
    ensures Enabled(s, Abort(id))
    ensures var s' := Do(s, Abort(id));
            && s'.db == s.db && s'.calls == s.calls[id := s.calls[id].(phase := Done(Failed))]
            && !HoldsRow(s'.calls[id], o) && !HoldsStream(s'.calls[id], o) && !HoldsPosition(s'.calls[id], k)
  {}

  /** An order begins as it was submitted, all of it open, at version 1; refused or
      routed in the same transaction, at version 2. */
  lemma CreationRecords(s: State, o: OrderId, key: Key, side: Side, quantity: real, second: Option<Command>)
    requires Enabled(s, Create(o, Submit(key, side, quantity), second))
    ensures quantity > 0.0
    ensures var db' := Do(s, Create(o, Submit(key, side, quantity), second)).db;
            var row := OrderState(key, side, quantity, quantity, 0.0, None, Submitted, 1);
            var entry := Entry(OrderSubmitted(1, key, side, quantity), Submit(key, side, quantity), None);
            if second.Some? then
              && db'.rows == s.db.rows[o := RowFor(row, second.value)]
              && db'.queued == s.db.queued + [(o, 1), (o, 2)]
              && db'.log == s.db.log[o := [entry, Entry(EventFor(row, second.value), second.value, None)]]
            else
              && db'.rows == s.db.rows[o := row]
              && db'.queued == s.db.queued + [(o, 1)]
              && db'.log == s.db.log[o := [entry]]
  {
    var submit := Submit(key, side, quantity);
    var first := OrderSubmitted(1, key, side, quantity);
    var es := CreationEvents(submit, second).value;
    FoldSnoc([], first);
    assert [] + [first] == [first];
    if second.Some? {
      FoldSnoc([first], es[1].event);
      assert Events(es) == [first] + [es[1].event];
    } else {
      assert Events(es) == [first];
    }
  }
}
