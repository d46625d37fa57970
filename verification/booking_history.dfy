/**
Who wrote what: a call books at most once whatever its retries, a call that
ended in a conflict left no trace, and every fill of a committed log is booked
on its position exactly once. Positions equal the fold of what was booked in
every run without a stale first fill, and one stale first fill breaks it.
*/
module BookingHistory {
  import opened Wrappers
  import opened Orders
  import opened Positions
  import opened Booking
  import opened BookingSafety

  // ---- calls and log entries -----------------------------------------------------

  ghost predicate WroteEntry(db: Db, id: CallId, c: Call) {
    && (c.wrote.Some? ==>
          && c.order in db.log && 1 <= c.wrote.value <= |db.log[c.order]|
          && db.log[c.order][c.wrote.value - 1].writer == Some(id)
          && db.log[c.order][c.wrote.value - 1].cmd == c.cmd
          && (c.phase.Committed? || c.phase == Done(Succeeded) || c.phase == Done(Failed)))
    && (c.phase.Committed? || c.phase == Done(Succeeded) ==> c.wrote.Some?)
    && (c.phase.Committed? ==> c.phase.event == db.log[c.order][c.wrote.value - 1].event
                               && c.order in db.rows && c.key == Some(db.rows[c.order].key))
  }

  ghost predicate WrittenBy(calls: map<CallId, Call>, o: OrderId, v: nat, e: Entry) {
    e.writer.Some? ==>
      e.writer.value in calls
      && var c := calls[e.writer.value];
      c.order == o && c.wrote == Some(v)
  }

  ghost predicate WriterInv(s: State) {
    && (forall id | id in s.calls :: WroteEntry(s.db, id, s.calls[id]))
    && (forall o, i | o in s.db.log && 0 <= i < |s.db.log[o]| :: WrittenBy(s.calls, o, i + 1, s.db.log[o][i]))
  }

  // ---- fills and positions ---------------------------------------------------------

  ghost predicate IsFill(db: Db, o: OrderId, v: nat) {
    o in db.log && o in db.rows && 1 <= v <= |db.log[o]| && db.log[o][v - 1].event.OrderFill?
  }

  // How the fill at version v of an order is booked.
  ghost function BookedAs(db: Db, o: OrderId, v: nat): Booked
    requires IsFill(db, o, v)
  {
    Booked(o, v, FillOf(db.rows[o].side, db.log[o][v - 1].event))
  }

  ghost predicate BookedInv(db: Db) {
    && db.positions.Keys == db.booked.Keys
    && (forall k, i | k in db.booked && 0 <= i < |db.booked[k]| ::
          var b := db.booked[k][i];
          IsFill(db, b.order, b.version) && db.rows[b.order].key == k && b == BookedAs(db, b.order, b.version))
    && (forall k, i, j | k in db.booked && 0 <= i < j < |db.booked[k]| ::
          (db.booked[k][i].order, db.booked[k][i].version) != (db.booked[k][j].order, db.booked[k][j].version))
    && (forall o, v | IsFill(db, o, v) :: BookedAs(db, o, v) in Get(db.booked, db.rows[o].key))
  }

  // ---- outbox and bus ------------------------------------------------------------

  ghost predicate InLog(db: Db, o: OrderId, v: nat) {
    o in db.log && 1 <= v <= |db.log[o]|
  }

  ghost predicate QueueInv(db: Db) {
    && (forall q <- db.queued :: InLog(db, q.0, q.1))
    && (forall o: OrderId, v: nat | InLog(db, o, v) :: (o, v) in db.queued)
    && (forall i, j | 0 <= i < j < |db.queued| :: db.queued[i] != db.queued[j])
  }

  ghost predicate BusInv(db: Db) {
    forall m <- db.bus ::
      match m
      case Appended(o, v) => InLog(db, o, v)
      case PositionChanged(k) => k in db.positions
  }

  ghost predicate History(s: State) {
    WriterInv(s) && BookedInv(s.db) && QueueInv(s.db) && BusInv(s.db)
  }

  // ---- steps that write nothing ----------------------------------------------------

  /** Only a creation, a commit and a publish change anything another transaction
      or a subscriber can see. In particular an attempt that ends in a version
      conflict leaves log, rows, positions, outbox and bus as they were. */
  lemma OnlyCommitsWrite(s: State, step: Step)
    requires Enabled(s, step) && !step.Create? && !step.Commit? && !step.Publish?
    ensures Do(s, step).db == s.db
  {}

  // Moving one call without touching what it wrote.
  lemma MovedCallKeepsWriters(s: State, id: CallId, c: Call)
    requires WriterInv(s) && WroteEntry(s.db, id, c)
    requires id in s.calls ==> c.order == s.calls[id].order && c.wrote == s.calls[id].wrote
    ensures WriterInv(s.(calls := s.calls[id := c]))
  {
    var s' := s.(calls := s.calls[id := c]);
    forall d | d in s'.calls ensures WroteEntry(s'.db, d, s'.calls[d]) {
      if d != id { assert WroteEntry(s.db, d, s.calls[d]); }
    }
    forall o, i | o in s'.db.log && 0 <= i < |s'.db.log[o]| ensures WrittenBy(s'.calls, o, i + 1, s'.db.log[o][i]) {
      assert WrittenBy(s.calls, o, i + 1, s.db.log[o][i]);
    }
  }

  // Before its commit a call has written nothing, and these steps come before it.
  lemma UnwrittenCall(s: State, step: Step, id: CallId)
    requires WriterInv(s) && Enabled(s, step)
    requires step in {Read(id), Update(id), LoadPosition(id), WritePosition(id), LockStream(id), Append(id), Abort(id)}
    ensures id in s.calls && id in Do(s, step).calls
    ensures var c := Do(s, step).calls[id];
            && Do(s, step) == s.(calls := s.calls[id := c])
            && c.order == s.calls[id].order && c.wrote == s.calls[id].wrote && WroteEntry(s.db, id, c)
  {
    assert WroteEntry(s.db, id, s.calls[id]);
  }

  lemma QuietKeepsHistory(s: State, step: Step)
    requires History(s) && Enabled(s, step)
    requires !step.Create? && !step.Commit? && !step.Publish?
    ensures History(Do(s, step))
  {
    if step.Begin? {
      var c := Call(step.order, step.cmd, 1, Ready, None, None);
      assert WroteEntry(s.db, step.id, c);
      assert Do(s, step) == s.(calls := s.calls[step.id := c]);
      MovedCallKeepsWriters(s, step.id, c);
    } else {
      UnwrittenCall(s, step, step.id);
      MovedCallKeepsWriters(s, step.id, Do(s, step).calls[step.id]);
    }
  }

  // ---- commit ------------------------------------------------------------------

  ghost function CommitEntry(id: CallId, c: Call): Entry
    requires c.phase.Open?
  {
    Entry(c.phase.tx.event, c.cmd, Some(id))
  }

  // What is known of a committing transaction.
  ghost predicate Committing(s: State, id: CallId) {
    && InTx(s, id, SAppended)
    && var c, db' := s.calls[id], CommitDb(s.db, id, s.calls[id]);
    && Extends(s.db, db', c.order, CommitEntry(id, c))
    && c.wrote.None?
    && c.phase.tx.event.version == |s.db.log[c.order]| + 1
    && c.phase.tx.base.key == s.db.rows[c.order].key
    && c.phase.tx.base.side == s.db.rows[c.order].side
  }

  lemma CommittingFacts(s: State, id: CallId)
    requires Inv(s) && WriterInv(s) && InTx(s, id, SAppended)
    ensures Committing(s, id)
  {
    var c := s.calls[id];
    assert TxInv(s.db, c) && WroteEntry(s.db, id, c);
    CommitRow(s.db, id, c);
    var log' := CommitDb(s.db, id, c).log[c.order];
    assert log'[|log'| - 1].event.version == |log'|;
  }

  lemma CommitKeepsWriters(s: State, id: CallId, answered: bool)
    requires WriterInv(s) && Committing(s, id)
    ensures WriterInv(Do(s, Commit(id, answered)))
  {
    var c, s' := s.calls[id], Do(s, Commit(id, answered));
    forall d | d in s'.calls ensures WroteEntry(s'.db, d, s'.calls[d]) {
      if d != id { assert WroteEntry(s.db, d, s.calls[d]); }
    }
    forall o, i | o in s'.db.log && 0 <= i < |s'.db.log[o]| ensures WrittenBy(s'.calls, o, i + 1, s'.db.log[o][i]) {
      if o != c.order || i < |s.db.log[o]| { assert WrittenBy(s.calls, o, i + 1, s.db.log[o][i]); }
    }
  }

  // One more booked fill on its key, and nothing else booked.
  lemma CommitBooks(db: Db, id: CallId, c: Call)
    requires c.phase.Open?
    ensures var db', tx := CommitDb(db, id, c), c.phase.tx;
            if tx.event.OrderFill? then
              && db'.booked == db.booked[tx.base.key :=
                   Get(db.booked, tx.base.key) + [Booked(c.order, tx.event.version, FillOf(tx.base.side, tx.event))]]
              && db'.positions.Keys == db.positions.Keys + {tx.base.key}
            else db'.booked == db.booked && db'.positions == db.positions
  {}

  // What was a fill still is, booked as it was.
  lemma FillsStay(db: Db, db': Db, o: OrderId, entry: Entry, o': OrderId, v: nat)
    requires Extends(db, db', o, entry)
    ensures IsFill(db, o', v) ==> IsFill(db', o', v) && BookedAs(db', o', v) == BookedAs(db, o', v)
                                  && db'.rows[o'].key == db.rows[o'].key
    ensures IsFill(db', o', v) && !(o' == o && v == |db'.log[o]|) ==> IsFill(db, o', v)
  {}

  lemma CommitKeepsBooked(s: State, id: CallId)
    requires BookedInv(s.db) && Committing(s, id)
    ensures BookedInv(CommitDb(s.db, id, s.calls[id]))
  {
    var c := s.calls[id];
    var db, db', tx, k := s.db, CommitDb(s.db, id, c), c.phase.tx, c.phase.tx.base.key;
    CommitBooks(db, id, c);
    var n := |db'.log[c.order]|;
    forall k', i | k' in db'.booked && 0 <= i < |db'.booked[k']|
      ensures var b := db'.booked[k'][i];
              IsFill(db', b.order, b.version) && db'.rows[b.order].key == k' && b == BookedAs(db', b.order, b.version)
      ensures !(k' == k && tx.event.OrderFill? && i == |Get(db.booked, k)|) ==>
                k' in db.booked && i < |db.booked[k']| && db.booked[k'][i] == db'.booked[k'][i]
                && IsFill(db, db.booked[k'][i].order, db.booked[k'][i].version)
    {
      if !(k' == k && tx.event.OrderFill? && i == |Get(db.booked, k)|) {
        var b := db.booked[k'][i];
        FillsStay(db, db', c.order, CommitEntry(id, c), b.order, b.version);
      }
    }
    forall o, v | IsFill(db', o, v) ensures BookedAs(db', o, v) in Get(db'.booked, db'.rows[o].key) {
      FillsStay(db, db', c.order, CommitEntry(id, c), o, v);
      if o == c.order && v == n {
        assert Get(db'.booked, k)[|Get(db.booked, k)|] == BookedAs(db', o, v);
      } else {
        assert BookedAs(db, o, v) in Get(db.booked, db.rows[o].key);
      }
    }
  }

  lemma CommitKeepsQueue(s: State, id: CallId)
    requires QueueInv(s.db) && Committing(s, id)
    ensures QueueInv(CommitDb(s.db, id, s.calls[id]))
  {
    var c, db, db' := s.calls[id], s.db, CommitDb(s.db, id, s.calls[id]);
    var q := (c.order, c.phase.tx.event.version);
    assert db'.queued == db.queued + [q];
    forall o: OrderId, v: nat | InLog(db', o, v) ensures (o, v) in db'.queued {
      if o == c.order && v == |db'.log[o]| {
        assert db'.queued[|db.queued|] == (o, v);
      } else {
        assert InLog(db, o, v);
      }
    }
  }

  lemma CommitKeepsBus(s: State, id: CallId)
    requires BusInv(s.db) && Committing(s, id)
    ensures BusInv(CommitDb(s.db, id, s.calls[id]))
  {
    CommitBooks(s.db, id, s.calls[id]);
  }

  lemma CommitKeepsHistory(s: State, id: CallId, answered: bool)
    requires Inv(s) && History(s) && Enabled(s, Commit(id, answered))
    ensures History(Do(s, Commit(id, answered)))
  {
    CommittingFacts(s, id);
    CommitKeepsWriters(s, id, answered);
    CommitKeepsBooked(s, id);
    CommitKeepsQueue(s, id);
    CommitKeepsBus(s, id);
  }

  // ---- creation and publication --------------------------------------------------

  lemma CreationWritesNoFill(submit: Command, second: Option<Command>)
    requires CreationEvents(submit, second).Some?
    requires second.Some? ==> second.value.Route? || (second.value.Receive? && second.value.report.ReportReject?)
    ensures forall e <- CreationEvents(submit, second).value :: !e.event.OrderFill? && e.writer.None?
  {}

  lemma CreateKeepsWriters(s: State, step: Step)
    requires WriterInv(s) && step.Create? && Enabled(s, step)
    ensures WriterInv(Do(s, step))
  {
    CreatedRow(step.submit, step.second);
    CreationWritesNoFill(step.submit, step.second);
    var s' := Do(s, step);
    forall id | id in s'.calls ensures WroteEntry(s'.db, id, s'.calls[id]) {
      assert WroteEntry(s.db, id, s.calls[id]);
    }
    forall o, i | o in s'.db.log && 0 <= i < |s'.db.log[o]| ensures WrittenBy(s'.calls, o, i + 1, s'.db.log[o][i]) {
      if o != step.order { assert WrittenBy(s.calls, o, i + 1, s.db.log[o][i]); }
    }
  }

  lemma CreateKeepsBooked(s: State, step: Step)
    requires BookedInv(s.db) && step.Create? && Enabled(s, step)
    ensures BookedInv(Do(s, step).db)
  {
    CreatedRow(step.submit, step.second);
    CreationWritesNoFill(step.submit, step.second);
    var db, db' := s.db, Do(s, step).db;
    forall o, v | IsFill(db', o, v) ensures BookedAs(db', o, v) in Get(db'.booked, db'.rows[o].key) {
      assert IsFill(db, o, v);
    }
    forall k, i | k in db'.booked && 0 <= i < |db'.booked[k]|
      ensures var b := db'.booked[k][i];
              IsFill(db', b.order, b.version) && db'.rows[b.order].key == k && b == BookedAs(db', b.order, b.version)
    {
      assert IsFill(db, db.booked[k][i].order, db.booked[k][i].version);
    }
  }

  lemma CreateKeepsQueue(s: State, step: Step)
    requires QueueInv(s.db) && BusInv(s.db) && step.Create? && Enabled(s, step)
    ensures QueueInv(Do(s, step).db) && BusInv(Do(s, step).db)
  {
    CreatedRow(step.submit, step.second);
    var db, db', o := s.db, Do(s, step).db, step.order;
    var es := CreationEvents(step.submit, step.second).value;
    var new_ := seq(|es|, i => (o, i + 1));
    assert db'.queued == db.queued + new_;
    forall o': OrderId, v: nat | InLog(db', o', v) ensures (o', v) in db'.queued {
      if o' == o {
        assert new_[v - 1] == (o, v);
        assert db'.queued[|db.queued| + v - 1] == (o, v);
      } else {
        assert InLog(db, o', v);
      }
    }
    forall i, j | 0 <= i < j < |db'.queued| ensures db'.queued[i] != db'.queued[j] {
      if i < |db.queued| { assert InLog(db, db.queued[i].0, db.queued[i].1); }
    }
  }

  // Nothing but the bus's own entries depends on the bus.
  lemma BusIsApart(db: Db, bus: seq<BusEvent>)
    requires BookedInv(db) && QueueInv(db)
    ensures BookedInv(db.(bus := bus)) && QueueInv(db.(bus := bus))
  {
    var db' := db.(bus := bus);
    forall o, v | IsFill(db', o, v) ensures BookedAs(db', o, v) in Get(db'.booked, db'.rows[o].key) {
      assert IsFill(db, o, v);
    }
    forall k, i | k in db'.booked && 0 <= i < |db'.booked[k]|
      ensures var b := db'.booked[k][i];
              IsFill(db', b.order, b.version) && db'.rows[b.order].key == k && b == BookedAs(db', b.order, b.version)
    {
      assert IsFill(db, db.booked[k][i].order, db.booked[k][i].version);
    }
    forall o: OrderId, v: nat | InLog(db', o, v) ensures (o, v) in db'.queued {
      assert InLog(db, o, v);
    }
    forall q <- db'.queued ensures InLog(db', q.0, q.1) {
      assert InLog(db, q.0, q.1);
    }
  }

  lemma PublishKeepsBus(s: State, id: CallId)
    requires WriterInv(s) && BookedInv(s.db) && BusInv(s.db) && VersionsKnown(s.db) && Enabled(s, Publish(id))
    ensures BusInv(Do(s, Publish(id)).db)
  {
    var c := s.calls[id];
    assert WroteEntry(s.db, id, c);
    assert InLog(s.db, c.order, c.wrote.value);
    assert s.db.log[c.order][c.wrote.value - 1].event.version == c.wrote.value;
    if c.phase.event.OrderFill? {
      assert IsFill(s.db, c.order, c.wrote.value);
    }
  }

  ghost predicate VersionsKnown(db: Db) {
    forall o | o in db.log :: VersionsGapFree(db.log[o])
  }

  lemma PublishKeepsWriters(s: State, id: CallId, bus: seq<BusEvent>, c: Call)
    requires WriterInv(s) && Enabled(s, Publish(id)) && c == s.calls[id].(phase := Done(Succeeded))
    ensures WriterInv(State(s.db.(bus := bus), s.calls[id := c]))
  {
    assert WroteEntry(s.db, id, s.calls[id]);
    MovedCallKeepsWriters(s, id, c);
    var s1, s' := s.(calls := s.calls[id := c]), State(s.db.(bus := bus), s.calls[id := c]);
    forall d | d in s'.calls ensures WroteEntry(s'.db, d, s'.calls[d]) {
      assert WroteEntry(s1.db, d, s1.calls[d]);
    }
    forall o, i | o in s'.db.log && 0 <= i < |s'.db.log[o]| ensures WrittenBy(s'.calls, o, i + 1, s'.db.log[o][i]) {
      assert WrittenBy(s1.calls, o, i + 1, s1.db.log[o][i]);
    }
  }

  lemma PublishKeepsHistory(s: State, id: CallId)
    requires Inv(s) && History(s) && Enabled(s, Publish(id))
    ensures History(Do(s, Publish(id)))
  {
    var c, bus := s.calls[id].(phase := Done(Succeeded)), s.db.bus + Published(s.calls[id]);
    PublishKeepsBus(s, id);
    BusIsApart(s.db, bus);
    PublishKeepsWriters(s, id, bus, c);
    assert Do(s, Publish(id)) == State(s.db.(bus := bus), s.calls[id := c]);
  }

  lemma StepKeepsHistory(s: State, step: Step)
    requires Inv(s) && History(s) && Enabled(s, step)
    ensures History(Do(s, step))
  {
    match step
    case Create(_, _, _) =>
      CreateKeepsWriters(s, step);
      CreateKeepsBooked(s, step);
      CreateKeepsQueue(s, step);
    case Commit(id, answered) => CommitKeepsHistory(s, id, answered);
    case Publish(id) => PublishKeepsHistory(s, id);
    case _ => QuietKeepsHistory(s, step);
  }

  lemma {:induction false} RunKeepsHistory(steps: seq<Step>)
    requires After(steps).Some?
    ensures Inv(After(steps).value) && History(After(steps).value)
    decreases |steps|
  {
    RunKeepsInv(steps);
    if steps != [] {
      var before := steps[..|steps| - 1];
      RunKeepsHistory(before);
      StepKeepsHistory(After(before).value, steps[|steps| - 1]);
    }
  }

  // ---- what is published, once ----------------------------------------------------

  // What is on the bus was put there by the call that wrote it, and not twice.
  ghost predicate PublishedBy(calls: map<CallId, Call>, m: BusEvent) {
    m.Appended? ==>
      exists id | id in calls ::
        calls[id].order == m.order && calls[id].wrote == Some(m.version) && calls[id].phase == Done(Succeeded)
  }

  ghost predicate BusOnce(s: State) {
    && (forall m <- s.db.bus :: PublishedBy(s.calls, m))
    && (forall i, j | 0 <= i < j < |s.db.bus| && s.db.bus[i].Appended? :: s.db.bus[i] != s.db.bus[j])
  }

  // A call that has published stays as it is.
  lemma PublishersStay(s: State, step: Step, id: CallId)
    requires Enabled(s, step) && id in s.calls && s.calls[id].phase == Done(Succeeded)
    ensures id in Do(s, step).calls && Do(s, step).calls[id] == s.calls[id]
  {}

  lemma PublishedStays(s: State, step: Step, m: BusEvent)
    requires Enabled(s, step) && PublishedBy(s.calls, m)
    ensures PublishedBy(Do(s, step).calls, m)
  {
    if m.Appended? {
      var id :| id in s.calls
        && s.calls[id].order == m.order && s.calls[id].wrote == Some(m.version) && s.calls[id].phase == Done(Succeeded);
      PublishersStay(s, step, id);
    }
  }

  // The call about to publish an event is its writer, and has not published it yet.
  lemma NotYetPublished(s: State, id: CallId)
    requires WriterInv(s) && Enabled(s, Publish(id))
    ensures var c := s.calls[id]; c.wrote.Some? && !PublishedBy(s.calls, Appended(c.order, c.wrote.value))
  {
    var c := s.calls[id];
    assert WroteEntry(s.db, id, c);
    forall d | d in s.calls && s.calls[d].order == c.order && s.calls[d].wrote == c.wrote ensures d == id {
      assert WroteEntry(s.db, d, s.calls[d]);
    }
  }

  lemma PublishesOnce(s: State, id: CallId)
    requires WriterInv(s) && VersionsKnown(s.db) && BusOnce(s) && Enabled(s, Publish(id))
    ensures BusOnce(Do(s, Publish(id)))
  {
    var c, s' := s.calls[id], Do(s, Publish(id));
    NotYetPublished(s, id);
    assert WroteEntry(s.db, id, c);
    assert s.db.log[c.order][c.wrote.value - 1].event.version == c.wrote.value;
    var mine := Appended(c.order, c.wrote.value);
    assert s'.db.bus[..|s.db.bus|] == s.db.bus && s'.db.bus[|s.db.bus|] == mine;
    assert s'.calls[id].phase == Done(Succeeded);
    forall m <- s'.db.bus ensures PublishedBy(s'.calls, m) {
      if m in s.db.bus {
        PublishedStays(s, Publish(id), m);
      }
    }
    forall i, j | 0 <= i < j < |s'.db.bus| && s'.db.bus[i].Appended? ensures s'.db.bus[i] != s'.db.bus[j] {
      if i < |s.db.bus| {
        assert s.db.bus[i] in s.db.bus;
      }
    }
  }

  lemma StepKeepsBusOnce(s: State, step: Step)
    requires Inv(s) && History(s) && BusOnce(s) && Enabled(s, step)
    ensures BusOnce(Do(s, step))
  {
    hide CommitDb, Fold, BookedInv, QueueInv, TxInv, LockInv, PublishedBy;
    if step.Publish? {
      PublishesOnce(s, step.id);
    } else {
      assert Do(s, step).db.bus == s.db.bus by { QuietOnTheBus(s, step); }
      forall m <- s.db.bus ensures PublishedBy(Do(s, step).calls, m) {
        PublishedStays(s, step, m);
      }
    }
  }

  lemma QuietOnTheBus(s: State, step: Step)
    requires Enabled(s, step) && !step.Publish?
    ensures Do(s, step).db.bus == s.db.bus
  {}

  /** In every run, each committed event is announced on the bus at most once, and
      only after the call that wrote it committed. */
  lemma {:induction false} AnnouncedOnce(steps: seq<Step>)
    requires After(steps).Some?
    ensures BusOnce(After(steps).value)
    decreases |steps|
  {
    if steps != [] {
      var before := steps[..|steps| - 1];
      AnnouncedOnce(before);
      RunKeepsHistory(before);
      StepKeepsBusOnce(After(before).value, steps[|steps| - 1]);
    }
  }

  // ---- what a run guarantees ------------------------------------------------------

  ghost predicate WroteNothing(db: Db, id: CallId) {
    forall o, i | o in db.log && 0 <= i < |db.log[o]| :: db.log[o][i].writer != Some(id)
  }

  ghost predicate WroteOnly(db: Db, id: CallId, order: OrderId, v: nat) {
    && order in db.log && 1 <= v <= |db.log[order]| && db.log[order][v - 1].writer == Some(id)
    && forall o, i | o in db.log && 0 <= i < |db.log[o]| && db.log[o][i].writer == Some(id) :: o == order && i + 1 == v
  }

  lemma CallWrites(s: State, id: CallId)
    requires WriterInv(s) && id in s.calls
    ensures s.calls[id].wrote.None? ==> WroteNothing(s.db, id)
    ensures s.calls[id].wrote.Some? ==> WroteOnly(s.db, id, s.calls[id].order, s.calls[id].wrote.value)
  {
    assert WroteEntry(s.db, id, s.calls[id]);
    forall o, i | o in s.db.log && 0 <= i < |s.db.log[o]| && s.db.log[o][i].writer == Some(id)
      ensures o == s.calls[id].order && s.calls[id].wrote == Some(i + 1)
    {
      assert WrittenBy(s.calls, o, i + 1, s.db.log[o][i]);
    }
  }

  ghost predicate BooksAtMostOnce(s: State, id: CallId)
    requires id in s.calls
  {
    var c := s.calls[id];
    && (WroteNothing(s.db, id) || (c.wrote.Some? && WroteOnly(s.db, id, c.order, c.wrote.value)))
    && (c.phase == Done(Succeeded) ==>
          c.wrote.Some? && WroteOnly(s.db, id, c.order, c.wrote.value)
          && s.db.log[c.order][c.wrote.value - 1].cmd == c.cmd)
    && (c.phase in {Ready, Done(Conflict), Done(Skipped)} || c.phase.Open? ==> WroteNothing(s.db, id))
  }

  lemma CallBooksAtMostOnce(s: State, id: CallId)
    requires WriterInv(s) && id in s.calls
    ensures BooksAtMostOnce(s, id)
  {
    CallWrites(s, id);
    assert WroteEntry(s.db, id, s.calls[id]);
  }

  /** Whatever its retries, a call has at most one entry in all the logs; one that
      reports success has exactly one, written for its own command; one that is
      not done, was skipped or ended in a conflict has none. */
  lemma OneBookingPerCall(steps: seq<Step>, id: CallId)
    requires After(steps).Some? && id in After(steps).value.calls
    ensures BooksAtMostOnce(After(steps).value, id)
  {
    RunKeepsHistory(steps);
    CallBooksAtMostOnce(After(steps).value, id);
  }

  /** In every run: each fill in a committed log is booked on its order's position
      exactly once and nothing else is; every committed event, and no other, was
      queued for Kafka once; and the bus carries committed events only. */
  lemma CommittedIsBookedQueuedPublished(steps: seq<Step>)
    requires After(steps).Some?
    ensures var db := After(steps).value.db; BookedInv(db) && QueueInv(db) && BusInv(db)
  {
    RunKeepsHistory(steps);
  }

  // ---- positions ------------------------------------------------------------------

  function Fills(booked: seq<Booked>): seq<Fill> {
    seq(|booked|, i requires 0 <= i < |booked| => booked[i].fill)
  }

  // A position row is the fold of what was booked on it.
  ghost predicate ExactAt(db: Db, k: Key) {
    k in db.positions && k in db.booked ==> db.positions[k] == FoldFills(Fills(db.booked[k]))
  }

  ghost predicate Exact(db: Db) {
    forall k | k in db.positions :: ExactAt(db, k)
  }

  // What a fill adds to the position its transaction loaded, against what it
  // should have added to the row that is there.
  lemma FoldedIff(row: Option<Position>, booked: seq<Fill>, loaded: Option<Position>, f: Fill)
    requires if row.Some? then row.value == FoldFills(booked) else booked == []
    requires loaded.Some? ==> loaded == row
    ensures ApplyFill(loaded.GetOr(FLAT), f) == FoldFills(booked + [f])
            <==> loaded.Some? || row.None? || row.value == FLAT
  {
    hide ApplyFill;
    FoldFillsSnoc(booked, f);
    if row.Some? {
      FillsConserve(booked);
      StaleFlatIsExact(row.value, f);
    }
  }

  /** A committing fill keeps its position equal to the fold if and only if the
      row was there when the transaction read it, or is still not there, or is
      back to flat with nothing realized. */
  lemma CommitExactIff(s: State, id: CallId)
    requires Inv(s) && History(s) && Exact(s.db) && InTx(s, id, SAppended) && s.calls[id].phase.tx.event.OrderFill?
    ensures var tx, db' := s.calls[id].phase.tx, CommitDb(s.db, id, s.calls[id]);
            var k := tx.base.key;
            && (forall k' | k' in db'.positions && k' != k :: ExactAt(db', k'))
            && k in db'.positions
            && (ExactAt(db', k) <==> tx.loaded.Some? || k !in s.db.positions || s.db.positions[k] == FLAT)
  {
    hide History, ApplyFill, FoldFills, Decided, SeesRow, LockInv, LogInv;
    var c := s.calls[id];
    var tx, db, db' := c.phase.tx, s.db, CommitDb(s.db, id, c);
    var k, f := tx.base.key, FillOf(tx.base.side, tx.event);
    assert TxInv(db, c);
    BookedInvKeys(s);
    var old_ := Get(db.booked, k);
    assert Fills(old_ + [Booked(c.order, tx.event.version, f)]) == Fills(old_) + [f];
    assert ExactAt(db, k);
    FoldedIff(Lookup(db.positions, k), Fills(old_), tx.loaded, f);
    forall k' | k' in db'.positions && k' != k ensures ExactAt(db', k') {
      assert ExactAt(db, k');
    }
  }

  lemma BookedInvKeys(s: State)
    requires History(s)
    ensures s.db.positions.Keys == s.db.booked.Keys
  {}

  // No fill is written over a row that appeared after the transaction read it as absent.
  ghost predicate NoStaleWrite(s: State, step: Step)
    requires Enabled(s, step)
  {
    step.WritePosition? ==>
      var tx := s.calls[step.id].phase.tx;
      tx.loaded.None? ==> tx.base.key !in s.db.positions
  }

  ghost predicate NeverStale(steps: seq<Step>)
    requires After(steps).Some?
    decreases |steps|
  {
    steps == [] ||
    (NeverStale(steps[..|steps| - 1]) && NoStaleWrite(After(steps[..|steps| - 1]).value, steps[|steps| - 1]))
  }

  // A written but uncommitted first fill still finds no row.
  ghost predicate FirstFillAlone(positions: map<Key, Position>, c: Call) {
    c.phase.Open? && c.phase.tx.event.OrderFill? && c.phase.tx.stage.Rank() >= 3 && c.phase.tx.loaded.None?
    ==> c.phase.tx.base.key !in positions
  }

  ghost predicate FirstFillsAlone(s: State) {
    forall id | id in s.calls :: FirstFillAlone(s.db.positions, s.calls[id])
  }

  lemma FreshStepsKeepExact(s: State, step: Step)
    requires Inv(s) && History(s) && Exact(s.db) && FirstFillsAlone(s) && Enabled(s, step) && NoStaleWrite(s, step)
    ensures Exact(Do(s, step).db) && FirstFillsAlone(Do(s, step))
  {
    hide Inv, History, CommitDb, Fold;
    match step
    case Commit(id, answered) => CommitKeepsExact(s, id, answered);
    case Create(_, _, _) => CreatedRow(step.submit, step.second); ExactDependsOn(s.db, Do(s, step).db);
    case Publish(_) => ExactDependsOn(s.db, Do(s, step).db);
    case Begin(_, _, _) =>
    case _ =>
      OnlyCommitsWrite(s, step);
      QuietKeepsFirstFills(s, step);
  }

  lemma ExactDependsOn(db: Db, db': Db)
    requires Exact(db) && db'.positions == db.positions && db'.booked == db.booked
    ensures Exact(db')
  {
    forall k | k in db'.positions ensures ExactAt(db', k) {
      assert ExactAt(db, k);
    }
  }

  lemma QuietKeepsFirstFills(s: State, step: Step)
    requires FirstFillsAlone(s) && Enabled(s, step) && NoStaleWrite(s, step)
    requires !step.Create? && !step.Commit? && !step.Publish? && !step.Begin?
    ensures FirstFillsAlone(Do(s, step))
  {
    var c := s.calls[step.id];
    assert FirstFillAlone(s.db.positions, c);
    assert FirstFillAlone(s.db.positions, Do(s, step).calls[step.id]);
  }

  // The committed position's lock was the committer's alone.
  lemma CommitKeepsFirstFills(s: State, id: CallId, c': Call, positions': map<Key, Position>)
    requires LockInv(s.calls) && FirstFillsAlone(s) && InTx(s, id, SAppended) && !c'.phase.Open?
    requires var tx := s.calls[id].phase.tx;
             positions'.Keys == s.db.positions.Keys + (if tx.event.OrderFill? then {tx.base.key} else {})
    ensures FirstFillsAlone(State(s.db.(positions := positions'), s.calls[id := c']))
  {
    var c := s.calls[id];
    forall d | d in s.calls && d != id ensures FirstFillAlone(positions', s.calls[d]) {
      assert FirstFillAlone(s.db.positions, s.calls[d]);
      assert c.phase.tx.event.OrderFill? ==>
          HoldsPosition(c, c.phase.tx.base.key) && !HoldsPosition(s.calls[d], c.phase.tx.base.key);
    }
  }

  lemma CommitKeepsExactDb(s: State, id: CallId)
    requires Inv(s) && History(s) && Exact(s.db) && FirstFillsAlone(s) && InTx(s, id, SAppended)
    ensures Exact(CommitDb(s.db, id, s.calls[id]))
  {
    hide Inv, History, CommitDb;
    var c, db' := s.calls[id], CommitDb(s.db, id, s.calls[id]);
    CommitBooks(s.db, id, c);
    assert FirstFillAlone(s.db.positions, c);
    if c.phase.tx.event.OrderFill? {
      CommitExactIff(s, id);
    } else {
      ExactDependsOn(s.db, db');
    }
  }

  lemma CommitKeepsExact(s: State, id: CallId, answered: bool)
    requires Inv(s) && History(s) && Exact(s.db) && FirstFillsAlone(s) && Enabled(s, Commit(id, answered))
    ensures Exact(Do(s, Commit(id, answered)).db) && FirstFillsAlone(Do(s, Commit(id, answered)))
  {
    hide Exact, History, CommitDb;
    CommitKeepsExactDb(s, id);
    CommitBooks(s.db, id, s.calls[id]);
    CommitKeepsFirstFills(s, id, AfterCommit(s.calls[id], answered), CommitDb(s.db, id, s.calls[id]).positions);
  }

  /** In every run in which no fill is written over a row its transaction read as
      absent, every position is the fold of the fills booked on it. */
  lemma {:induction false} PositionsAreFolds(steps: seq<Step>)
    requires After(steps).Some? && NeverStale(steps)
    ensures Exact(After(steps).value.db) && FirstFillsAlone(After(steps).value)
    decreases |steps|
  {
    if steps != [] {
      var before := steps[..|steps| - 1];
      PositionsAreFolds(before);
      RunKeepsHistory(before);
      FreshStepsKeepExact(After(before).value, steps[|steps| - 1]);
    }
  }

  // A commit does not put a fill on a stale start over a row that matters.
  predicate CommitsFresh(s: State, step: Step)
    requires step.Commit? ==> InTx(s, step.id, SAppended)
  {
    step.Commit? && s.calls[step.id].phase.tx.event.OrderFill? ==>
      var tx := s.calls[step.id].phase.tx;
      tx.loaded.Some? || tx.base.key !in s.db.positions || s.db.positions[tx.base.key] == FLAT
  }

  lemma CommitExact(s: State, id: CallId, answered: bool)
    requires Inv(s) && History(s) && Exact(s.db) && InTx(s, id, SAppended)
    ensures Exact(CommitDb(s.db, id, s.calls[id])) <==> CommitsFresh(s, Commit(id, answered))
  {
    hide Inv, History, CommitDb;
    var c := s.calls[id];
    CommitBooks(s.db, id, c);
    if c.phase.tx.event.OrderFill? {
      CommitExactIff(s, id);
    } else {
      ExactDependsOn(s.db, CommitDb(s.db, id, c));
    }
  }

  lemma StepExactIff(s: State, step: Step)
    requires Inv(s) && History(s) && Exact(s.db) && Enabled(s, step)
    ensures Exact(Do(s, step).db) <==> CommitsFresh(s, step)
  {
    hide Inv, History, CommitDb, Fold, Exact;
    match step
    case Commit(id, answered) => CommitExact(s, id, answered);
    case Create(_, _, _) => CreatedRow(step.submit, step.second); ExactDependsOn(s.db, Do(s, step).db);
    case Publish(_) => ExactDependsOn(s.db, Do(s, step).db);
    case _ =>
  }

  ghost predicate AlwaysExact(steps: seq<Step>)
    requires After(steps).Some?
    decreases |steps|
  {
    Exact(After(steps).value.db) && (steps == [] || AlwaysExact(steps[..|steps| - 1]))
  }

  ghost predicate AlwaysFresh(steps: seq<Step>)
    requires After(steps).Some?
    decreases |steps|
  {
    steps == [] ||
    (AlwaysFresh(steps[..|steps| - 1]) && CommitsFresh(After(steps[..|steps| - 1]).value, steps[|steps| - 1]))
  }

  /** In every run: each position is, at every point, the fold of the fills booked on
      it exactly when no commit puts a fill that started from an absent row over a
      row that holds anything. */
  lemma {:induction false} PositionsAreFoldsIff(steps: seq<Step>)
    requires After(steps).Some?
    ensures AlwaysExact(steps) <==> AlwaysFresh(steps)
    decreases |steps|
  {
    hide Exact, CommitsFresh, Inv, History, Do, Enabled;
    if steps != [] {
      var before := steps[..|steps| - 1];
      PositionsAreFoldsIff(before);
      RunKeepsHistory(before);
      if AlwaysExact(before) {
        StepExactIff(After(before).value, steps[|steps| - 1]);
      }
    } else {
      NothingHeld();
    }
  }

  lemma NothingHeld()
    ensures Exact(INIT.db) && After([]) == Some(INIT)
  {}

  // ---- one booker at a time -------------------------------------------------------

  predicate FillInHand(c: Call) {
    c.phase.Open? && c.phase.tx.event.OrderFill? && c.phase.tx.stage.Rank() >= 2
  }

  // At most one transaction is past its position read: what the order engine's
  // single loop gives (src/order_engine.rs:83-94), for fills booked by it alone.
  ghost predicate OneFillInHand(s: State) {
    forall c, d | c in s.calls && d in s.calls && c != d :: !(FillInHand(s.calls[c]) && FillInHand(s.calls[d]))
  }

  ghost predicate Serial(steps: seq<Step>)
    requires After(steps).Some?
    decreases |steps|
  {
    OneFillInHand(After(steps).value) && (steps == [] || Serial(steps[..|steps| - 1]))
  }

  ghost predicate AbsentStaysAbsent(s: State) {
    forall id | id in s.calls ::
      FillInHand(s.calls[id]) && s.calls[id].phase.tx.loaded.None?
      ==> s.calls[id].phase.tx.base.key !in s.db.positions
  }

  lemma SerialWriteIsFresh(s: State, step: Step)
    requires Inv(s) && AbsentStaysAbsent(s) && Enabled(s, step)
    ensures NoStaleWrite(s, step)
  {
    if step.WritePosition? {
      assert TxInv(s.db, s.calls[step.id]);
    }
  }

  lemma SerialCommitKeepsAbsent(s: State, id: CallId, answered: bool)
    requires AbsentStaysAbsent(s) && Enabled(s, Commit(id, answered)) && OneFillInHand(s)
    ensures AbsentStaysAbsent(Do(s, Commit(id, answered)))
  {
    CommitBooks(s.db, id, s.calls[id]);
  }

  lemma SerialStepKeepsAbsent(s: State, step: Step)
    requires AbsentStaysAbsent(s) && Enabled(s, step) && OneFillInHand(s)
    ensures AbsentStaysAbsent(Do(s, step))
  {
    if step.Commit? {
      SerialCommitKeepsAbsent(s, step.id, step.answered);
    } else {
      var s' := Do(s, step);
      assert s'.db.positions == s.db.positions;
    }
  }

  /** With one booker at a time no first fill is ever stale, so every position is
      the fold of the fills booked on it. */
  lemma {:induction false} OneBookerIsExact(steps: seq<Step>)
    requires After(steps).Some? && Serial(steps)
    ensures NeverStale(steps) && AbsentStaysAbsent(After(steps).value) && Exact(After(steps).value.db)
    decreases |steps|
  {
    if steps != [] {
      var before := steps[..|steps| - 1];
      OneBookerIsExact(before);
      RunKeepsInv(before);
      SerialWriteIsFresh(After(before).value, steps[|steps| - 1]);
      SerialStepKeepsAbsent(After(before).value, steps[|steps| - 1]);
    }
    PositionsAreFolds(steps);
  }

  // ---- the stale first fill ---------------------------------------------------------

  lemma Then(steps: seq<Step>, s: State, step: Step)
    requires After(steps) == Some(s) && Enabled(s, step)
    ensures After(steps + [step]) == Some(Do(s, step))
  {
    assert (steps + [step])[..|steps|] == steps;
  }

  // Where an open call stands after its stream is locked and its version checked.
  function ReadyToCommit(c: Call): Call
    requires c.phase.Open?
  {
    c.(phase := Open(c.phase.tx.(stage := SAppended)))
  }

  // A transaction alone on its order, from its read to its position load.
  lemma LoadsAbsent(steps: seq<Step>, s: State, id: CallId, base: OrderState, e: Event)
      returns (steps': seq<Step>, s': State)
    requires After(steps) == Some(s) && id in s.calls && s.calls[id].phase.Ready?
    requires ReadAndDecide(s.db.rows, s.calls[id].order, s.calls[id].cmd) == Ok((base, e)) && e.OrderFill?
    requires RowFree(s, id, s.calls[id].order) && base.key !in s.db.positions
    ensures After(steps') == Some(s') && s'.db == s.db
    ensures s'.calls == s.calls[id := s.calls[id].(phase := Open(Tx(base, e, SLoaded, true, None)))]
  {
    var s1 := Do(s, Read(id));
    Then(steps, s, Read(id));
    var s2 := Do(s1, Update(id));
    assert RowFree(s1, id, s.calls[id].order);
    Then(steps + [Read(id)], s1, Update(id));
    s' := Do(s2, LoadPosition(id));
    Then(steps + [Read(id)] + [Update(id)], s2, LoadPosition(id));
    steps' := steps + [Read(id)] + [Update(id)] + [LoadPosition(id)];
  }

  // And from its load to the point where it may commit.
  lemma ReachesCommit(steps: seq<Step>, s: State, id: CallId) returns (steps': seq<Step>, s': State)
    requires After(steps) == Some(s) && InTx(s, id, SLoaded) && s.calls[id].phase.tx.event.OrderFill?
    requires PositionFree(s, id, s.calls[id].phase.tx.base.key) && StreamFree(s, id, s.calls[id].order)
    requires |Get(s.db.log, s.calls[id].order)| == s.calls[id].phase.tx.base.version
    ensures After(steps') == Some(s') && s' == s.(calls := s.calls[id := ReadyToCommit(s.calls[id])])
  {
    var s1 := Do(s, WritePosition(id));
    Then(steps, s, WritePosition(id));
    assert StreamFree(s1, id, s.calls[id].order);
    var s2 := Do(s1, LockStream(id));
    Then(steps + [WritePosition(id)], s1, LockStream(id));
    s' := Do(s2, Append(id));
    Then(steps + [WritePosition(id)] + [LockStream(id)], s2, Append(id));
    steps' := steps + [WritePosition(id)] + [LockStream(id)] + [Append(id)];
  }

  // Two fresh orders on one instrument, and a fill for each.
  lemma TwoFreshOrders() returns (steps: seq<Step>, s: State, row: OrderState)
    ensures After(steps) == Some(s) && s.calls.Keys == {0, 1} && s.db.positions == map[]
    ensures row == OrderState(Key(0, "X"), Buy, 1.0, 1.0, 0.0, None, Submitted, 1)
    ensures s.db.rows == map[0 := row, 1 := row] && s.db.log.Keys == {0, 1}
    ensures |s.db.log[0]| == 1 && |s.db.log[1]| == 1
    ensures forall id | id in {0, 1} ::
              s.calls[id] == Call(id, Receive(ReportFill("e", 1.0, 10.0)), 1, Ready, None, None)
  {
    var submit, fill := Submit(Key(0, "X"), Buy, 1.0), Receive(ReportFill("e", 1.0, 10.0));
    row := OrderState(Key(0, "X"), Buy, 1.0, 1.0, 0.0, None, Submitted, 1);
    var es := [Entry(OrderSubmitted(1, Key(0, "X"), Buy, 1.0), submit, None)];
    assert CreationEvents(submit, None) == Some(es);
    assert Events(es) == [] + [es[0].event];
    FoldSnoc([], es[0].event);
    assert Fold(Events(es)) == Some(row);
    var s1 := Do(INIT, Create(0, submit, None));
    Then([], INIT, Create(0, submit, None));
    var s2 := Do(s1, Create(1, submit, None));
    Then([] + [Create(0, submit, None)], s1, Create(1, submit, None));
    var s3 := Do(s2, Begin(0, 0, fill));
    Then([] + [Create(0, submit, None)] + [Create(1, submit, None)], s2, Begin(0, 0, fill));
    s := Do(s3, Begin(1, 1, fill));
    Then([] + [Create(0, submit, None)] + [Create(1, submit, None)] + [Begin(0, 0, fill)], s3, Begin(1, 1, fill));
    steps := [] + [Create(0, submit, None)] + [Create(1, submit, None)] + [Begin(0, 0, fill)] + [Begin(1, 1, fill)];
  }

  lemma FirstFillDecided(row: OrderState, e: Event)
    requires row == OrderState(Key(0, "X"), Buy, 1.0, 1.0, 0.0, None, Submitted, 1)
    requires e == OrderFill(2, "e", 1.0, 10.0, 1.0, 0.0, 10.0)
    ensures Decide(Some(row), Receive(ReportFill("e", 1.0, 10.0))) == Ok(e)
  {}

  lemma CommitFirstFill(db: Db, id: CallId, c: Call)
    requires c.phase.Open? && c.phase.tx.event.OrderFill? && c.phase.tx.loaded.None?
    ensures var db', tx := CommitDb(db, id, c), c.phase.tx;
            && tx.base.key in db'.positions
            && db'.positions[tx.base.key] == ApplyFill(FLAT, FillOf(tx.base.side, tx.event))
            && forall o | o != c.order :: Get(db'.log, o) == Get(db.log, o)
  {}

  lemma NotExact(db: Db, k: Key)
    requires k in db.positions && !ExactAt(db, k)
    ensures !Exact(db)
  {}

  // Both have read the absent position row, and one has committed.
  lemma SecondIsStale() returns (steps: seq<Step>, s: State, key: Key)
    ensures After(steps) == Some(s) && InTx(s, 1, SLoaded)
    ensures var tx := s.calls[1].phase.tx;
            tx.base.key == key && tx.event.OrderFill? && tx.loaded.None? && tx.base.version == 1
    ensures PositionFree(s, 1, key) && StreamFree(s, 1, 1) && s.calls[1].order == 1
    ensures |Get(s.db.log, 1)| == 1
    ensures key in s.db.positions && s.db.positions[key] == ApplyFill(FLAT, Fill(Buy, 1.0, 10.0))
  {
    hide CommitDb, Decide, Fold, FoldFills, RowWrite;
    var st, s0, row := TwoFreshOrders();
    key := Key(0, "X");
    var e := OrderFill(2, "e", 1.0, 10.0, 1.0, 0.0, 10.0);
    FirstFillDecided(row, e);
    var st1, s1 := LoadsAbsent(st, s0, 0, row, e);
    assert RowFree(s1, 1, 1);
    var st2, s2 := LoadsAbsent(st1, s1, 1, row, e);
    var st3, s3 := ReachesCommit(st2, s2, 0);
    CommitFirstFill(s3.db, 0, s3.calls[0]);
    Then(st3, s3, Commit(0, true));
    steps, s := st3 + [Commit(0, true)], Do(s3, Commit(0, true));
  }

  /** The condition is needed: two first fills of one instrument, on two orders,
      both read the position row as absent; the second to commit writes over the
      first, and the position is no longer the fold of what was booked. */
  lemma StaleFirstFillLosesAFill()
    ensures exists steps :: After(steps).Some? && !Exact(After(steps).value.db)
  {
    hide Exact, Inv, History, CommitDb;
    var st, s, key := SecondIsStale();
    var st', s' := ReachesCommit(st, s, 1);
    Then(st', s', Commit(1, true));
    RunKeepsHistory(st');
    if Exact(s'.db) {
      CommitExactIff(s', 1);
      assert s'.db.positions[key] != FLAT;
      NotExact(Do(s', Commit(1, true)).db, key);
    }
  }

  // ---- a local cancel ----------------------------------------------------------------

  // One order of one unit, and a local cancel of it that has read it.
  lemma CancelBegun() returns (steps: seq<Step>, s: State, row: OrderState)
    ensures After(steps) == Some(s) && s.calls.Keys == {0}
              && row == OrderState(Key(0, "X"), Buy, 1.0, 1.0, 0.0, None, Submitted, 1)
    ensures s.db.rows == map[0 := row] && s.db.log.Keys == {0} && |s.db.log[0]| == 1
              && Fold(Events(s.db.log[0])) == Some(row)
    ensures s.calls[0] == Call(0, Orders.Cancel, 1, Ready, None, None)
  {
    var submit := Submit(Key(0, "X"), Buy, 1.0);
    row := OrderState(Key(0, "X"), Buy, 1.0, 1.0, 0.0, None, Submitted, 1);
    var es := [Entry(OrderSubmitted(1, Key(0, "X"), Buy, 1.0), submit, None)];
    assert CreationEvents(submit, None) == Some(es);
    assert Events(es) == [] + [es[0].event];
    FoldSnoc([], es[0].event);
    Then([], INIT, Create(0, submit, None));
    var s1 := Do(INIT, Create(0, submit, None));
    Then([] + [Create(0, submit, None)], s1, Begin(0, 0, Orders.Cancel));
    steps, s := [] + [Create(0, submit, None)] + [Begin(0, 0, Orders.Cancel)], Do(s1, Begin(0, 0, Orders.Cancel));
  }

  // And the same transaction, up to its commit.
  lemma CancelReachesCommit() returns (steps: seq<Step>, s: State, row: OrderState)
    ensures After(steps) == Some(s) && InTx(s, 0, SAppended)
    ensures s.calls[0].order == 0 && s.calls[0].cmd == Orders.Cancel
    ensures s.calls[0].phase.tx == Tx(row, OrderCanceled(2), SAppended, true, None)
    ensures row == OrderState(Key(0, "X"), Buy, 1.0, 1.0, 0.0, None, Submitted, 1)
    ensures s.db.rows == map[0 := row] && s.db.log.Keys == {0} && |s.db.log[0]| == 1
              && Fold(Events(s.db.log[0])) == Some(row)
  {
    hide Fold, CommitDb, After;
    var p, s0, row0 := CancelBegun();
    row := row0;
    Then(p, s0, Read(0));
    var s1 := Do(s0, Read(0));
    assert RowFree(s1, 0, 0);
    Then(p + [Read(0)], s1, Update(0));
    var s2 := Do(s1, Update(0));
    assert StreamFree(s2, 0, 0);
    Then(p + [Read(0)] + [Update(0)], s2, LockStream(0));
    var s3 := Do(s2, LockStream(0));
    Then(p + [Read(0)] + [Update(0)] + [LockStream(0)], s3, Append(0));
    steps, s := p + [Read(0)] + [Update(0)] + [LockStream(0)] + [Append(0)], Do(s3, Append(0));
  }

  /** A local cancel leaves the row behind its log: the row still shows a unit open
      that the fold has closed. */
  lemma LocalCancelLeavesTheRow()
    ensures exists steps ::
              && After(steps).Some? && 0 in After(steps).value.db.rows && 0 in After(steps).value.db.log
              && Fold(Events(After(steps).value.db.log[0])) != Some(After(steps).value.db.rows[0])
  {
    var p, s, row := CancelReachesCommit();
    Then(p, s, Commit(0, true));
    var steps, s' := p + [Commit(0, true)], Do(s, Commit(0, true));
    EventsSnoc(s.db.log[0], Entry(OrderCanceled(2), Orders.Cancel, Some(0)));
    FoldSnoc(Events(s.db.log[0]), OrderCanceled(2));
    assert s'.db.rows[0].leavesQty == 1.0;
    assert After(steps) == Some(s');
  }
}
