/**
What every interleaving of the booking transactions keeps: the log's versions
are 1..n and its fold is the row, an UPDATE that matched nothing never commits,
and a closed order is final.
*/
module BookingSafety {
  import opened Wrappers
  import opened Orders
  import opened Positions
  import opened Booking

  // ---- the invariant -----------------------------------------------------------

  // The row is the fold of the log, except that a local cancel leaves the row's
  // open quantity as it was.
  ghost predicate RowIsFold(row: OrderState, log: seq<Entry>) {
    && |log| > 0
    && var f := Fold(Events(log));
    && f.Some? && Sound(f.value) && f.value.version == |log|
    && (if log[|log| - 1].cmd.Cancel?
        then log[|log| - 1].event.OrderCanceled? && row == f.value.(leavesQty := row.leavesQty) && row.leavesQty > 0.0
        else row == f.value)
  }

  ghost predicate VersionsGapFree(log: seq<Entry>) {
    forall i | 0 <= i < |log| :: log[i].event.version == i + 1
  }

  ghost predicate LogInv(db: Db) {
    && db.rows.Keys == db.log.Keys
    && (forall o | o in db.log :: VersionsGapFree(db.log[o]) && RowIsFold(db.rows[o], db.log[o]))
  }

  // An open transaction decided its event on the row it read.
  ghost predicate Decided(c: Call) {
    && !c.cmd.Submit?
    && (c.phase.Open? ==> Sound(c.phase.tx.base) && Decide(Some(c.phase.tx.base), c.cmd) == Ok(c.phase.tx.event))
  }

  // What it knows about the committed row: never older than what it read, equal
  // if no newer; its UPDATE's match is still true, and so is its mismatch.
  ghost predicate SeesRow(rows: map<OrderId, OrderState>, c: Call) {
    c.phase.Open? ==>
      var tx := c.phase.tx;
      && c.order in rows
      && var row := rows[c.order];
      && tx.base.version <= row.version
      && (tx.base.version == row.version ==> tx.base == row)
      && tx.base.key == row.key && tx.base.side == row.side
      && (tx.stage.Rank() >= 1 && !tx.matched ==> tx.base.version < row.version)
      && (tx.stage.Rank() >= 1 && tx.matched ==> tx.base.version == row.version)
      && (tx.stage.SAppended? ==> tx.base.version == row.version)
  }

  // A position row it read is still what it read.
  ghost predicate SeesPosition(positions: map<Key, Position>, c: Call) {
    c.phase.Open? ==>
      var tx := c.phase.tx;
      && (tx.loaded.Some? ==> Lookup(positions, tx.base.key) == tx.loaded)
      && (tx.stage in {SLoaded, SWritten} ==> tx.event.OrderFill?)
      && (tx.stage.Rank() < 2 || !tx.event.OrderFill? ==> tx.loaded.None?)
  }

  ghost predicate TxInv(db: Db, c: Call) {
    Decided(c) && SeesRow(db.rows, c) && SeesPosition(db.positions, c)
  }

  // At most one open transaction holds each lock.
  ghost predicate LockInv(calls: map<CallId, Call>) {
    forall c, d | c in calls && d in calls && c != d && calls[c].phase.Open? ::
      && (HoldsRow(calls[c], calls[c].order) ==> !HoldsRow(calls[d], calls[c].order))
      && (HoldsStream(calls[c], calls[c].order) ==> !HoldsStream(calls[d], calls[c].order))
      && (HoldsPosition(calls[c], calls[c].phase.tx.base.key) ==> !HoldsPosition(calls[d], calls[c].phase.tx.base.key))
  }

  ghost predicate Inv(s: State) {
    && LogInv(s.db)
    && LockInv(s.calls)
    && forall id | id in s.calls :: TxInv(s.db, s.calls[id])
  }

  // ---- steps that touch one call only ----------------------------------------

  // The lock facts a step has to establish for the call it moves.
  ghost predicate LocksFree(s: State, id: CallId, c: Call) {
    c.phase.Open? ==>
      && (HoldsRow(c, c.order) ==> RowFree(s, id, c.order))
      && (HoldsStream(c, c.order) ==> StreamFree(s, id, c.order))
      && (HoldsPosition(c, c.phase.tx.base.key) ==> PositionFree(s, id, c.phase.tx.base.key))
  }

  lemma OneCallKeepsInv(s: State, id: CallId, c: Call)
    requires Inv(s) && TxInv(s.db, c) && LocksFree(s, id, c)
    ensures Inv(s.(calls := s.calls[id := c]))
  {}

  // A call that keeps its locks where it had them still excludes the others.
  lemma KeptLocks(s: State, id: CallId, c: Call)
    requires Inv(s) && id in s.calls && s.calls[id].phase.Open? && c.phase.Open?
    requires c.order == s.calls[id].order && c.phase.tx.base == s.calls[id].phase.tx.base
    requires HoldsRow(c, c.order) ==> HoldsRow(s.calls[id], c.order) || RowFree(s, id, c.order)
    requires HoldsStream(c, c.order) ==> HoldsStream(s.calls[id], c.order) || StreamFree(s, id, c.order)
    requires HoldsPosition(c, c.phase.tx.base.key)
             ==> HoldsPosition(s.calls[id], c.phase.tx.base.key) || PositionFree(s, id, c.phase.tx.base.key)
    ensures LocksFree(s, id, c)
  {}

  lemma ClosedTx(db: Db, c: Call)
    requires !c.phase.Open? && !c.cmd.Submit?
    ensures TxInv(db, c)
  {}

  lemma ReadKeepsInv(s: State, id: CallId)
    requires Inv(s) && Enabled(s, Read(id))
    ensures Inv(Do(s, Read(id)))
  {
    assert TxInv(s.db, s.calls[id]);
    var c := AfterRead(s.db, s.calls[id]);
    if c.phase.Open? {
      var row := s.db.rows[c.order];
      LastCancelIsTerminal(row, s.db.log[c.order]);
      DecideKeepsSound(row, c.cmd);
    }
    OneCallKeepsInv(s, id, c);
  }

  lemma UpdateKeepsInv(s: State, id: CallId)
    requires Inv(s) && Enabled(s, Update(id))
    ensures Inv(Do(s, Update(id)))
  {
    var c := AfterUpdate(s.db, s.calls[id]);
    assert TxInv(s.db, s.calls[id]);
    if c.phase.Open? { KeptLocks(s, id, c); }
    OneCallKeepsInv(s, id, c);
  }

  lemma LoadKeepsInv(s: State, id: CallId)
    requires Inv(s) && Enabled(s, LoadPosition(id))
    ensures Inv(Do(s, LoadPosition(id)))
  {
    var c := Do(s, LoadPosition(id)).calls[id];
    assert TxInv(s.db, s.calls[id]);
    KeptLocks(s, id, c);
    OneCallKeepsInv(s, id, c);
  }

  lemma WriteKeepsInv(s: State, id: CallId)
    requires Inv(s) && Enabled(s, WritePosition(id))
    ensures Inv(Do(s, WritePosition(id)))
  {
    hide Decide, Sound, LogInv, LockInv, LocksFree;
    var c := AtStage(s, id, SWritten).calls[id];
    assert TxInv(s.db, s.calls[id]);
    KeptLocks(s, id, c);
    OneCallKeepsInv(s, id, c);
  }

  lemma LockKeepsInv(s: State, id: CallId)
    requires Inv(s) && Enabled(s, LockStream(id))
    ensures Inv(Do(s, LockStream(id)))
  {
    hide Decide, Sound, LogInv, LockInv, LocksFree;
    var c := AtStage(s, id, SLocked).calls[id];
    assert TxInv(s.db, s.calls[id]);
    KeptLocks(s, id, c);
    OneCallKeepsInv(s, id, c);
  }

  lemma AppendedTx(db: Db, c: Call)
    requires TxInv(db, c) && c.phase.Open? && c.phase.tx.stage.SLocked?
    requires c.order in db.rows && c.phase.tx.base.version == db.rows[c.order].version
    ensures TxInv(db, c.(phase := Open(c.phase.tx.(stage := SAppended))))
  {
    hide Decide, Sound;
  }

  lemma AppendKeepsInv(s: State, id: CallId)
    requires Inv(s) && Enabled(s, Append(id))
    ensures Inv(Do(s, Append(id)))
  {
    hide Decide, Sound, LockInv, LocksFree;
    var c := AfterAppend(s.db, s.calls[id]);
    assert TxInv(s.db, s.calls[id]);
    assert RowIsFold(s.db.rows[c.order], s.db.log[c.order]);
    if c.phase.Open? {
      AppendedTx(s.db, s.calls[id]);
      KeptLocks(s, id, c);
    } else {
      ClosedTx(s.db, c);
    }
    OneCallKeepsInv(s, id, c);
  }

  // ---- commit ------------------------------------------------------------------

  lemma EventsSnoc(log: seq<Entry>, e: Entry)
    ensures Events(log + [e]) == Events(log) + [e.event]
  {}

  // What the UPDATE of each path writes, against what the event does to the state.
  lemma RowWriteIsApply(row: OrderState, cmd: Command, e: Event, next: OrderState)
    requires Decide(Some(row), cmd) == Ok(e) && Apply(Some(row), e) == Some(next)
    ensures !cmd.Cancel? ==> RowWrite(cmd, row, next) == next
    ensures cmd.Cancel? ==> e.OrderCanceled? && RowWrite(cmd, row, next) == next.(leavesQty := row.leavesQty)
    ensures var w := RowWrite(cmd, row, next); w.version == next.version && w.key == row.key && w.side == row.side
  {}

  lemma DecideStep(row: OrderState, cmd: Command, e: Event, next: OrderState)
    requires Sound(row) && Decide(Some(row), cmd) == Ok(e) && Apply(Some(row), e) == Some(next)
    ensures Sound(next) && next.version == e.version == row.version + 1
    ensures !row.status.IsTerminal() && row.leavesQty > 0.0
  {
    DecideKeepsSound(row, cmd);
  }

  // Appending the decided event to a row's log, and writing the row.
  lemma AppendedRow(row: OrderState, log: seq<Entry>, entry: Entry, next: OrderState, row': OrderState)
    requires RowIsFold(row, log) && VersionsGapFree(log)
    requires Fold(Events(log)) == Some(row)
    requires Apply(Some(row), entry.event) == Some(next)
    requires Sound(next) && next.version == entry.event.version == |log| + 1
    requires if entry.cmd.Cancel?
              then entry.event.OrderCanceled? && row' == next.(leavesQty := row'.leavesQty) && row'.leavesQty > 0.0
             else row' == next
    ensures RowIsFold(row', log + [entry]) && VersionsGapFree(log + [entry])
  {
    EventsSnoc(log, entry);
    FoldSnoc(Events(log), entry.event);
  }

  // What a commit does to the one order it is about.
  ghost predicate Extends(db: Db, db': Db, o: OrderId, entry: Entry) {
    && o in db.rows && o in db.log
    && db'.rows.Keys == db.rows.Keys && db'.log.Keys == db.log.Keys
    && db'.log == db.log[o := db.log[o] + [entry]]
    && db'.rows == db.rows[o := db'.rows[o]]
    && VersionsGapFree(db'.log[o]) && RowIsFold(db'.rows[o], db'.log[o])
    && db'.rows[o].version == db.rows[o].version + 1
    && db'.rows[o].key == db.rows[o].key && db'.rows[o].side == db.rows[o].side
  }

  lemma CommitWrites(db: Db, id: CallId, c: Call, next: OrderState)
    requires c.phase.Open? && c.phase.tx.matched && LogInv(db) && c.order in db.rows
    requires Apply(Some(c.phase.tx.base), c.phase.tx.event) == Some(next)
    ensures var db' := CommitDb(db, id, c);
            && db'.rows == db.rows[c.order := RowWrite(c.cmd, db.rows[c.order], next)]
            && db'.log == db.log[c.order := db.log[c.order] + [Entry(c.phase.tx.event, c.cmd, Some(id))]]
  {}

  lemma ExtendsFrom(db: Db, db': Db, o: OrderId, entry: Entry, row': OrderState)
    requires o in db.rows && o in db.log
    requires db'.rows == db.rows[o := row'] && db'.log == db.log[o := db.log[o] + [entry]]
    requires VersionsGapFree(db.log[o] + [entry]) && RowIsFold(row', db.log[o] + [entry])
    requires row'.version == db.rows[o].version + 1 && row'.key == db.rows[o].key && row'.side == db.rows[o].side
    ensures Extends(db, db', o, entry)
  {}

  // The row a commit writes is the fold of the log it writes; in particular an
  // UPDATE that matched no row is never followed by a commit.
  lemma CommitRow(db: Db, id: CallId, c: Call)
    requires LogInv(db) && TxInv(db, c) && c.phase.Open? && c.phase.tx.stage.SAppended?
    ensures c.phase.tx.matched
    ensures Extends(db, CommitDb(db, id, c), c.order, Entry(c.phase.tx.event, c.cmd, Some(id)))
  {
    hide DecideFill, CommitDb, RowWrite, Extends, VersionsGapFree;
    var o, tx := c.order, c.phase.tx;
    var row, log := db.rows[o], db.log[o];
    var next := Apply(Some(tx.base), tx.event).value;
    DecideStep(row, c.cmd, tx.event, next);
    // the order was open, so its row is the fold itself
    LastCancelIsTerminal(row, log);
    RowWriteIsApply(row, c.cmd, tx.event, next);
    AppendedRow(row, log, Entry(tx.event, c.cmd, Some(id)), next, RowWrite(c.cmd, row, next));
    CommitWrites(db, id, c, next);
    ExtendsFrom(db, CommitDb(db, id, c), o, Entry(tx.event, c.cmd, Some(id)), RowWrite(c.cmd, row, next));
  }

  // An order whose last event is a local cancel is closed.
  lemma LastCancelIsTerminal(row: OrderState, log: seq<Entry>)
    requires RowIsFold(row, log) && !row.status.IsTerminal()
    ensures row == Fold(Events(log)).value
  {
  }

  lemma CommitKeepsLogInv(s: State, id: CallId)
    requires Inv(s) && InTx(s, id, SAppended)
    ensures LogInv(CommitDb(s.db, id, s.calls[id]))
  {
    var c := s.calls[id];
    assert TxInv(s.db, c);
    CommitRow(s.db, id, c);
  }

  // A commit leaves every other transaction's knowledge intact: those that hold a
  // lock it needs do not exist, and those that read the row before are outdated.
  lemma CommitKeepsRows(db: Db, db': Db, c: Call, d: Call, entry: Entry)
    requires SeesRow(db.rows, c) && SeesRow(db.rows, d) && HoldsRow(c, c.order) && HoldsStream(c, c.order)
    requires !HoldsRow(d, c.order) && !HoldsStream(d, c.order)
    requires Extends(db, db', c.order, entry)
    ensures SeesRow(db'.rows, d)
  {}

  lemma CommitKeepsPositions(db: Db, id: CallId, c: Call, d: Call)
    requires c.phase.Open? && c.phase.tx.stage.SAppended?
    requires SeesPosition(db.positions, d)
    requires HoldsPosition(c, c.phase.tx.base.key) ==> !HoldsPosition(d, c.phase.tx.base.key)
    ensures SeesPosition(CommitDb(db, id, c).positions, d)
  {}

  // Nobody else holds a lock of a transaction about to commit.
  lemma Exclusive(calls: map<CallId, Call>, id: CallId, d: CallId)
    requires LockInv(calls) && id in calls && d in calls && d != id
    requires calls[id].phase.Open? && calls[id].phase.tx.stage.SAppended? && calls[id].phase.tx.matched
    ensures HoldsRow(calls[id], calls[id].order) && HoldsStream(calls[id], calls[id].order)
    ensures !HoldsRow(calls[d], calls[id].order) && !HoldsStream(calls[d], calls[id].order)
    ensures HoldsPosition(calls[id], calls[id].phase.tx.base.key)
            ==> !HoldsPosition(calls[d], calls[id].phase.tx.base.key)
  {}

  lemma CommitKeepsOthers(s: State, id: CallId, d: CallId)
    requires Inv(s) && InTx(s, id, SAppended) && d in s.calls && d != id
    ensures TxInv(CommitDb(s.db, id, s.calls[id]), s.calls[d])
  {
    var c := s.calls[id];
    assert TxInv(s.db, c) && TxInv(s.db, s.calls[d]);
    CommitRow(s.db, id, c);
    Exclusive(s.calls, id, d);
    CommitKeepsRows(s.db, CommitDb(s.db, id, c), c, s.calls[d], Entry(c.phase.tx.event, c.cmd, Some(id)));
    CommitKeepsPositions(s.db, id, c, s.calls[d]);
  }

  // A call that is no longer in a transaction holds nothing.
  lemma ClosedKeepsLocks(calls: map<CallId, Call>, id: CallId, c: Call)
    requires LockInv(calls) && !c.phase.Open?
    ensures LockInv(calls[id := c])
  {}

  lemma Assembled(calls: map<CallId, Call>, id: CallId, c: Call, db': Db)
    requires LogInv(db') && LockInv(calls[id := c]) && TxInv(db', c)
    requires forall d | d in calls && d != id :: TxInv(db', calls[d])
    ensures Inv(State(db', calls[id := c]))
  {}

  lemma CommitKeepsInv(s: State, id: CallId, answered: bool)
    requires Inv(s) && Enabled(s, Commit(id, answered))
    ensures Inv(Do(s, Commit(id, answered)))
  {
    var c, db' := AfterCommit(s.calls[id], answered), CommitDb(s.db, id, s.calls[id]);
    assert TxInv(s.db, s.calls[id]);
    CommitKeepsLogInv(s, id);
    ClosedKeepsLocks(s.calls, id, c);
    ClosedTx(db', c);
    forall d | d in s.calls && d != id ensures TxInv(db', s.calls[d]) {
      CommitKeepsOthers(s, id, d);
    }
    Assembled(s.calls, id, c, db');
  }

  lemma CreatedRow(submit: Command, second: Option<Command>)
    requires CreationEvents(submit, second).Some?
    requires second.Some? ==> second.value.Route? || (second.value.Receive? && second.value.report.ReportReject?)
    ensures var es := CreationEvents(submit, second).value;
            && VersionsGapFree(es) && Fold(Events(es)).Some? && RowIsFold(Fold(Events(es)).value, es)
  {
    var es := CreationEvents(submit, second).value;
    var e := Decide(None, submit).value;
    var row := Apply(None, e).value;
    assert Sound(row);
    assert Events(es)[..1] == [e];
    FoldSnoc([], e);
    assert [] + [e] == [e];
    if second.Some? {
      var e2 := Decide(Some(row), second.value).value;
      DecideStep(row, second.value, e2, Apply(Some(row), e2).value);
      FoldSnoc([e], e2);
      assert Events(es) == [e] + [e2];
    } else {
      assert Events(es) == [e];
    }
  }

  lemma CreateKeepsInv(s: State, step: Step)
    requires Inv(s) && step.Create? && Enabled(s, step)
    ensures Inv(Do(s, step))
  {
    CreatedRow(step.submit, step.second);
    var s' := Do(s, step);
    forall d | d in s'.calls ensures TxInv(s'.db, s'.calls[d]) {
      assert TxInv(s.db, s.calls[d]);
    }
  }

  lemma StepKeepsInv(s: State, step: Step)
    requires Inv(s) && Enabled(s, step)
    ensures Inv(Do(s, step))
  {
    match step
    case Create(_, _, _) => CreateKeepsInv(s, step);
    case Begin(id, o, cmd) => OneCallKeepsInv(s, id, Call(o, cmd, 1, Ready, None, None));
    case Read(id) => ReadKeepsInv(s, id);
    case Update(id) => UpdateKeepsInv(s, id);
    case LoadPosition(id) => LoadKeepsInv(s, id);
    case WritePosition(id) => WriteKeepsInv(s, id);
    case LockStream(id) => LockKeepsInv(s, id);
    case Append(id) => AppendKeepsInv(s, id);
    case Commit(id, answered) => CommitKeepsInv(s, id, answered);
    case Publish(id) =>
      var s' := Do(s, step);
      forall d | d in s'.calls ensures TxInv(s'.db, s'.calls[d]) {
        assert TxInv(s.db, s.calls[d]);
      }
    case Abort(id) =>
      assert TxInv(s.db, s.calls[id]);
      OneCallKeepsInv(s, id, s.calls[id].(phase := Done(Failed)));
  }

  // ---- runs --------------------------------------------------------------------

  // The state a sequence of steps leads to, `None` if some step was not possible.
  ghost function After(steps: seq<Step>): Option<State>
    decreases |steps|
  {
    if steps == [] then Some(INIT)
    else
      var before := After(steps[..|steps| - 1]);
      if before.Some? && Enabled(before.value, steps[|steps| - 1])
      then Some(Do(before.value, steps[|steps| - 1])) else None
  }

  lemma {:induction false} RunKeepsInv(steps: seq<Step>)
    requires After(steps).Some?
    ensures Inv(After(steps).value)
    decreases |steps|
  {
    if steps != [] {
      RunKeepsInv(steps[..|steps| - 1]);
      StepKeepsInv(After(steps[..|steps| - 1]).value, steps[|steps| - 1]);
    }
  }

  lemma RowAgainstFold(row: OrderState, log: seq<Entry>)
    requires RowIsFold(row, log)
    ensures row.version == |log|
    ensures var f := Fold(Events(log)).value;
            row == f.(leavesQty := row.leavesQty) && (row == f <==> !log[|log| - 1].cmd.Cancel?)
  {
    var init, e := Events(log)[..|log| - 1], log[|log| - 1].event;
    assert Events(log) == init + [e];
    FoldSnoc(init, e);
  }

  /** In every run, for every order: the log's versions are 1..n, the row is at
      version n, and the row is the fold of the log -- if and only if the last
      event is not a local cancel, which leaves the row's open quantity behind. */
  lemma LogAndRowAgree(steps: seq<Step>, o: OrderId)
    requires After(steps).Some? && o in After(steps).value.db.log
    ensures var db := After(steps).value.db;
            && o in db.rows && |db.log[o]| > 0 && VersionsGapFree(db.log[o])
            && db.rows[o].version == |db.log[o]|
            && var f := Fold(Events(db.log[o]));
            && f.Some? && Sound(f.value)
            && db.rows[o] == f.value.(leavesQty := db.rows[o].leavesQty)
            && (db.rows[o] == f.value <==> !db.log[o][|db.log[o]| - 1].cmd.Cancel?)
  {
    RunKeepsInv(steps);
    var db := After(steps).value.db;
    RowAgainstFold(db.rows[o], db.log[o]);
  }

  /** In every run, a transaction whose guarded UPDATE matched no row is refused
      by the append's version check: the unchecked row count commits nothing. */
  lemma UnmatchedUpdateIsRefused(steps: seq<Step>, id: CallId)
    requires After(steps).Some?
    requires var s := After(steps).value;
             id in s.calls && s.calls[id].phase.Open? && s.calls[id].phase.tx.stage.Rank() >= 1
             && !s.calls[id].phase.tx.matched
    ensures var s := After(steps).value;
            && !Enabled(s, Commit(id, true)) && !Enabled(s, Commit(id, false))
            && AfterAppend(s.db, s.calls[id]) == AfterConflict(s.calls[id])
  {
    RunKeepsInv(steps);
    var s := After(steps).value;
    assert TxInv(s.db, s.calls[id]);
    assert RowIsFold(s.db.rows[s.calls[id].order], s.db.log[s.calls[id].order]);
  }

  // An order about to be committed on is open.
  lemma CommitterSawOpen(db: Db, c: Call)
    requires TxInv(db, c) && c.phase.Open? && c.phase.tx.stage.SAppended?
    ensures c.order in db.rows && !db.rows[c.order].status.IsTerminal()
  {
    hide Sound, Apply;
    DecideKeepsSound(c.phase.tx.base, c.cmd);
  }

  lemma CommitSparesClosed(s: State, id: CallId, o: OrderId)
    requires Inv(s) && InTx(s, id, SAppended) && o in s.db.rows && s.db.rows[o].status.IsTerminal()
    ensures var db' := CommitDb(s.db, id, s.calls[id]);
            o in db'.rows && db'.rows[o] == s.db.rows[o] && o in db'.log && db'.log[o] == s.db.log[o]
  {
    hide TxInv, CommitDb;
    assert TxInv(s.db, s.calls[id]);
    CommitterSawOpen(s.db, s.calls[id]);
    CommitRow(s.db, id, s.calls[id]);
  }

  /** A closed order is final: no step of any transaction, however early it read
      the order, changes its row or its log again. */
  lemma ClosedIsFinal(s: State, step: Step, o: OrderId)
    requires Inv(s) && Enabled(s, step) && o in s.db.rows && s.db.rows[o].status.IsTerminal()
    ensures var db' := Do(s, step).db;
            o in db'.rows && db'.rows[o] == s.db.rows[o] && o in db'.log && db'.log[o] == s.db.log[o]
  {
    hide TxInv, LockInv, CommitDb, Apply, Decide, Fold;
    if step.Commit? {
      CommitSparesClosed(s, step.id, o);
    } else if step.Create? {
      assert step.order != o;
    }
  }
}
