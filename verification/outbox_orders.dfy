/**
The Kafka bridge against concurrent appenders, order events: appends of
different orders commit in any order and take their global positions from one
sequence before they commit, sends and acks fail, the bridge restarts at any
point (src/kafka_outbox.rs, src/event_store.rs).
*/
module OutboxOrders {
  import opened Wrappers
  import opened Orders

  type TxId = nat

  // kafka_outbox.rs:17
  const BATCH_SIZE: nat := 500

  // One inserted event: its global position, and whether it is a fill, which
  // becomes two records and not one.
  datatype Row = Row(position: nat, fill: bool) {
    function Records(): nat { if fill then 2 else 1 }
  }

  datatype EventId = EventId(order: OrderId, version: nat)

  // An append in progress: it holds the order's advisory lock until it commits
  // or rolls back. `inserted` are its rows, seen by nobody else.
  datatype Appending = Appending(order: OrderId, base: nat, inserted: seq<Row>)

  // A send reaches the broker and is answered, or fails; a failed one may have
  // reached the broker all the same.
  datatype Attempt = Attempt(event: EventId, record: nat, acked: bool)

  // The bridge between two of its statements.
  datatype Bridge =
    | Idle
    | Sending(batch: seq<EventId>, i: nat, j: nat)
    | Acking(batch: seq<EventId>, n: nat)

  // `log` and `queue` are committed; `next` is the sequence behind global
  // positions; `attempts` is the history of sends.
  datatype State = State(
    log: map<OrderId, seq<Row>>,
    queue: set<EventId>,
    next: nat,
    open: map<TxId, Appending>,
    bridge: Bridge,
    attempts: seq<Attempt>)

  const INIT := State(map[], {}, 0, map[], Idle, [])

  predicate InLog(log: map<OrderId, seq<Row>>, e: EventId) {
    1 <= e.version <= |Get(log, e.order)|
  }

  function RowOf(log: map<OrderId, seq<Row>>, e: EventId): Row
    requires InLog(log, e)
  {
    Get(log, e.order)[e.version - 1]
  }

  // ORDER BY global_position LIMIT n
  ghost predicate IsOldest(batch: seq<EventId>, queue: set<EventId>, log: map<OrderId, seq<Row>>, limit: nat) {
    && (forall e <- queue :: InLog(log, e))
    && (forall e <- batch :: e in queue)
    && (forall a, b | 0 <= a < b < |batch| ::
          batch[a] != batch[b] && RowOf(log, batch[a]).position <= RowOf(log, batch[b]).position)
    && (forall e, f | e in batch && f in queue && f !in batch :: RowOf(log, e).position <= RowOf(log, f).position)
    && |batch| <= limit && (|batch| == limit || forall e <- queue :: e in batch)
  }

  datatype Step =
    | Lock(tx: TxId, order: OrderId)
    | Insert(tx: TxId, fill: bool)
    | Commit(tx: TxId)
    | Rollback(tx: TxId)
    | Fetch(batch: seq<EventId>)
    | Send(acked: bool)
    | Ack(applied: bool)
    | Restart

  ghost predicate Enabled(s: State, step: Step) {
    match step
    case Lock(tx, o) => tx !in s.open && forall t | t in s.open :: s.open[t].order != o
    case Insert(tx, _) => tx in s.open
    case Commit(tx) => tx in s.open
    case Rollback(tx) => tx in s.open
    case Fetch(batch) => s.bridge.Idle? && batch != [] && IsOldest(batch, s.queue, s.log, BATCH_SIZE)
    case Send(_) => s.bridge.Sending? && s.bridge.i < |s.bridge.batch| && InLog(s.log, s.bridge.batch[s.bridge.i])
    case Ack(_) => s.bridge.Acking? && s.bridge.n <= |s.bridge.batch|
    case Restart => true
  }

  // Where a send leaves the bridge: an accepted record moves on to the next one,
  // the last of the batch or a failure on to the ack.
  function AfterSend(b: Bridge, log: map<OrderId, seq<Row>>, acked: bool): Bridge
    requires b.Sending? && b.i < |b.batch| && InLog(log, b.batch[b.i])
  {
    if !acked then Acking(b.batch, b.i)
    else if b.j + 1 < RowOf(log, b.batch[b.i]).Records() then Sending(b.batch, b.i, b.j + 1)
    else if b.i + 1 < |b.batch| then Sending(b.batch, b.i + 1, 0)
    else Acking(b.batch, b.i + 1)
  }

  function Committed(queue: set<EventId>, a: Appending): set<EventId> {
    queue + set v | a.base < v <= a.base + |a.inserted| :: EventId(a.order, v)
  }

  ghost function Do(s: State, step: Step): State
    requires Enabled(s, step)
  {
    match step
    case Lock(tx, o) => s.(open := s.open[tx := Appending(o, |Get(s.log, o)|, [])])
    case Insert(tx, fill) =>
      s.(open := s.open[tx := s.open[tx].(inserted := s.open[tx].inserted + [Row(s.next, fill)])], next := s.next + 1)
    case Commit(tx) =>
      var a := s.open[tx];
      s.(log := s.log[a.order := Get(s.log, a.order) + a.inserted],
         queue := Committed(s.queue, a),
         open := s.open - {tx})
    case Rollback(tx) => s.(open := s.open - {tx})
    case Fetch(batch) => s.(bridge := Sending(batch, 0, 0))
    case Send(acked) =>
      s.(bridge := AfterSend(s.bridge, s.log, acked),
         attempts := s.attempts + [Attempt(s.bridge.batch[s.bridge.i], s.bridge.j, acked)])
    case Ack(applied) =>
      s.(bridge := Idle, queue := if applied then s.queue - (set e | e in s.bridge.batch[..s.bridge.n]) else s.queue)
    case Restart => s.(bridge := Idle)
  }

  // ---- what was accepted -------------------------------------------------------

  predicate Accepted(attempts: seq<Attempt>, e: EventId, record: nat) {
    Attempt(e, record, true) in attempts
  }

  // Every record of the event was accepted.
  ghost predicate AllAccepted(attempts: seq<Attempt>, log: map<OrderId, seq<Row>>, e: EventId)
    requires InLog(log, e)
  {
    forall r: nat | r < RowOf(log, e).Records() :: Accepted(attempts, e, r)
  }

  // A send made after `before`: every lower version exists and was accepted whole,
  // and so were the event's own earlier records.
  ghost predicate InTurn(before: seq<Attempt>, log: map<OrderId, seq<Row>>, a: Attempt) {
    && InLog(log, a.event) && a.record < RowOf(log, a.event).Records()
    && (forall v: nat | 1 <= v < a.event.version :: AllAccepted(before, log, EventId(a.event.order, v)))
    && (forall r: nat | r < a.record :: Accepted(before, a.event, r))
  }

  ghost predicate AllInTurn(attempts: seq<Attempt>, log: map<OrderId, seq<Row>>) {
    forall n | 0 <= n < |attempts| :: InTurn(attempts[..n], log, attempts[n])
  }

  // ---- the invariant -------------------------------------------------------------

  // Within one order, global positions ascend with the version.
  ghost predicate Ascending(rows: seq<Row>, next: nat) {
    && (forall i, j | 0 <= i < j < |rows| :: rows[i].position < rows[j].position)
    && (forall i | 0 <= i < |rows| :: rows[i].position < next)
  }

  ghost predicate LogInv(log: map<OrderId, seq<Row>>, next: nat) {
    forall o | o in log :: Ascending(log[o], next)
  }

  // The lock makes an open append the only one on its order, on top of all of it.
  ghost predicate OpenInv(log: map<OrderId, seq<Row>>, next: nat, open: map<TxId, Appending>) {
    && (forall t | t in open ::
          open[t].base == |Get(log, open[t].order)| && Ascending(Get(log, open[t].order) + open[t].inserted, next))
    && (forall t, u | t in open && u in open && t != u :: open[t].order != open[u].order)
  }

  ghost predicate QueueInv(log: map<OrderId, seq<Row>>, queue: set<EventId>, attempts: seq<Attempt>) {
    && (forall e <- queue :: InLog(log, e))
    && (forall e | InLog(log, e) && e !in queue :: AllAccepted(attempts, log, e))
  }

  // Every lower version of the k-th event was accepted or is ahead of it in the batch.
  ghost predicate Behind(batch: seq<EventId>, k: nat, log: map<OrderId, seq<Row>>, attempts: seq<Attempt>)
    requires k < |batch| && InLog(log, batch[k])
  {
    forall v: nat | 1 <= v < batch[k].version ::
      AllAccepted(attempts, log, EventId(batch[k].order, v)) || EventId(batch[k].order, v) in batch[..k]
  }

  ghost predicate Taken(batch: seq<EventId>, n: nat, log: map<OrderId, seq<Row>>, attempts: seq<Attempt>) {
    && (forall k | 0 <= k < |batch| :: InLog(log, batch[k]))
    && n <= |batch| && (forall k | 0 <= k < n :: AllAccepted(attempts, log, batch[k]))
  }

  ghost predicate BridgeInv(b: Bridge, log: map<OrderId, seq<Row>>, attempts: seq<Attempt>) {
    match b
    case Idle => true
    case Sending(batch, i, j) =>
      && Taken(batch, i, log, attempts) && i < |batch|
      && (forall k | 0 <= k < |batch| :: Behind(batch, k, log, attempts))
      && j < RowOf(log, batch[i]).Records() && (forall r: nat | r < j :: Accepted(attempts, batch[i], r))
    case Acking(batch, n) => Taken(batch, n, log, attempts)
  }

  ghost predicate Inv(s: State) {
    && LogInv(s.log, s.next) && OpenInv(s.log, s.next, s.open) && QueueInv(s.log, s.queue, s.attempts)
    && BridgeInv(s.bridge, s.log, s.attempts) && AllInTurn(s.attempts, s.log)
  }

  // ---- growing logs and histories keep what was accepted ---------------------------

  ghost predicate Grows(log: map<OrderId, seq<Row>>, log': map<OrderId, seq<Row>>) {
    forall o: OrderId :: Get(log, o) <= Get(log', o)
  }

  lemma StaysAccepted(log: map<OrderId, seq<Row>>, log': map<OrderId, seq<Row>>,
                      attempts: seq<Attempt>, attempts': seq<Attempt>, e: EventId)
    requires Grows(log, log') && attempts <= attempts' && InLog(log, e)
    ensures InLog(log', e) && RowOf(log', e) == RowOf(log, e)
    ensures AllAccepted(attempts, log, e) ==> AllAccepted(attempts', log', e)
  {
    assert Get(log, e.order) <= Get(log', e.order);
    forall r: nat | Accepted(attempts, e, r) ensures Accepted(attempts', e, r) {
      var m :| 0 <= m < |attempts| && attempts[m] == Attempt(e, r, true);
      assert attempts'[m] == Attempt(e, r, true);
    }
  }

  lemma StaysInTurn(log: map<OrderId, seq<Row>>, log': map<OrderId, seq<Row>>, before: seq<Attempt>, a: Attempt)
    requires Grows(log, log') && InTurn(before, log, a)
    ensures InTurn(before, log', a)
  {
    StaysAccepted(log, log', before, before, a.event);
    forall v: nat | 1 <= v < a.event.version ensures AllAccepted(before, log', EventId(a.event.order, v)) {
      StaysAccepted(log, log', before, before, EventId(a.event.order, v));
    }
  }

  lemma BridgeStays(b: Bridge, log: map<OrderId, seq<Row>>, log': map<OrderId, seq<Row>>, attempts: seq<Attempt>)
    requires BridgeInv(b, log, attempts) && Grows(log, log')
    ensures BridgeInv(b, log', attempts)
  {
    forall e | InLog(log, e)
      ensures InLog(log', e) && RowOf(log', e) == RowOf(log, e)
      ensures AllAccepted(attempts, log, e) ==> AllAccepted(attempts, log', e)
    {
      StaysAccepted(log, log', attempts, attempts, e);
    }
    if b.Sending? {
      forall k | 0 <= k < |b.batch| ensures Behind(b.batch, k, log', attempts) {
        assert Behind(b.batch, k, log, attempts);
        forall v: nat | 1 <= v < b.batch[k].version ensures InLog(log, EventId(b.batch[k].order, v)) {
        }
      }
    }
  }

  // ---- each step keeps the invariant -------------------------------------------------

  lemma CommitGrows(s: State, tx: TxId)
    requires Enabled(s, Commit(tx)) && OpenInv(s.log, s.next, s.open)
    ensures var s' := Do(s, Commit(tx));
            && Grows(s.log, s'.log) && s'.queue >= s.queue
            && (forall e | InLog(s'.log, e) && !InLog(s.log, e) :: e in s'.queue)
            && (forall e | e in s'.queue && e !in s.queue :: InLog(s'.log, e))
            && (LogInv(s.log, s.next) ==> LogInv(s'.log, s'.next))
  {
    var a := s.open[tx];
    forall e | InLog(Do(s, Commit(tx)).log, e) && !InLog(s.log, e) ensures e in Do(s, Commit(tx)).queue {
      assert e == EventId(a.order, e.version);
    }
  }

  lemma CommitKeepsOpen(s: State, tx: TxId)
    requires Enabled(s, Commit(tx)) && OpenInv(s.log, s.next, s.open)
    ensures var s' := Do(s, Commit(tx)); OpenInv(s'.log, s'.next, s'.open)
  {
    var s' := Do(s, Commit(tx));
    forall t | t in s'.open ensures Get(s'.log, s'.open[t].order) == Get(s.log, s.open[t].order) {
    }
  }

  lemma CommitKeepsInv(s: State, tx: TxId)
    requires Inv(s) && Enabled(s, Commit(tx))
    ensures Inv(Do(s, Commit(tx)))
  {
    hide OpenInv, LogInv, BridgeInv, InTurn, Grows;
    var s' := Do(s, Commit(tx));
    CommitGrows(s, tx);
    CommitKeepsOpen(s, tx);
    BridgeStays(s.bridge, s.log, s'.log, s.attempts);
    forall n | 0 <= n < |s.attempts| ensures InTurn(s.attempts[..n], s'.log, s.attempts[n]) {
      StaysInTurn(s.log, s'.log, s.attempts[..n], s.attempts[n]);
    }
    forall e | InLog(s'.log, e) && e !in s'.queue ensures AllAccepted(s.attempts, s'.log, e) {
      StaysAccepted(s.log, s'.log, s.attempts, s.attempts, e);
    }
    forall e | e in s.queue ensures InLog(s'.log, e) {
      StaysAccepted(s.log, s'.log, s.attempts, s.attempts, e);
    }
  }

  lemma InsertKeepsOpen(s: State, tx: TxId, fill: bool)
    requires Enabled(s, Insert(tx, fill)) && OpenInv(s.log, s.next, s.open)
    ensures var s' := Do(s, Insert(tx, fill)); OpenInv(s'.log, s'.next, s'.open)
  {
    var rows, mine := Get(s.log, s.open[tx].order), s.open[tx].inserted;
    assert rows + (mine + [Row(s.next, fill)]) == (rows + mine) + [Row(s.next, fill)];
  }

  lemma AppendStepKeepsInv(s: State, step: Step)
    requires Inv(s) && Enabled(s, step) && (step.Lock? || step.Insert? || step.Rollback?)
    ensures Inv(Do(s, step))
  {
    hide QueueInv, BridgeInv, AllInTurn;
    if step.Insert? {
      InsertKeepsOpen(s, step.tx, step.fill);
    } else if step.Lock? {
      assert Get(s.log, step.order) + [] == Get(s.log, step.order);
    }
  }

  // A batch of the oldest rows holds, ahead of each event, what is queued below it.
  lemma FetchedBehind(s: State, batch: seq<EventId>, k: nat)
    requires LogInv(s.log, s.next) && QueueInv(s.log, s.queue, s.attempts)
    requires IsOldest(batch, s.queue, s.log, BATCH_SIZE) && k < |batch|
    ensures InLog(s.log, batch[k]) && Behind(batch, k, s.log, s.attempts)
  {
    var e := batch[k];
    assert InLog(s.log, e);
    forall v: nat | 1 <= v < e.version && !AllAccepted(s.attempts, s.log, EventId(e.order, v))
      ensures EventId(e.order, v) in batch[..k]
    {
      var f := EventId(e.order, v);
      assert InLog(s.log, f) && f in s.queue;
      assert RowOf(s.log, f).position < RowOf(s.log, e).position;
      assert f in batch;
      var m :| 0 <= m < |batch| && batch[m] == f;
      assert m < k;
    }
  }

  lemma FetchKeepsInv(s: State, batch: seq<EventId>)
    requires Inv(s) && Enabled(s, Fetch(batch))
    ensures Inv(Do(s, Fetch(batch)))
  {
    hide OpenInv, LogInv, AllInTurn, AllAccepted, Behind;
    forall k | 0 <= k < |batch| ensures InLog(s.log, batch[k]) && Behind(batch, k, s.log, s.attempts) {
      FetchedBehind(s, batch, k);
    }
  }

  // The record about to be sent is in turn.
  lemma SendIsInTurn(b: Bridge, log: map<OrderId, seq<Row>>, attempts: seq<Attempt>, acked: bool)
    requires b.Sending? && BridgeInv(b, log, attempts)
    ensures InTurn(attempts, log, Attempt(b.batch[b.i], b.j, acked))
  {
    var e := b.batch[b.i];
    forall v: nat | 1 <= v < e.version ensures AllAccepted(attempts, log, EventId(e.order, v)) {
      assert Behind(b.batch, b.i, log, attempts);
    }
  }

  lemma SendKeepsBridge(b: Bridge, log: map<OrderId, seq<Row>>, attempts: seq<Attempt>, acked: bool)
    requires b.Sending? && BridgeInv(b, log, attempts)
    ensures BridgeInv(AfterSend(b, log, acked), log, attempts + [Attempt(b.batch[b.i], b.j, acked)])
  {
    var e := b.batch[b.i];
    var attempts' := attempts + [Attempt(e, b.j, acked)];
    forall e' | InLog(log, e') && AllAccepted(attempts, log, e') ensures AllAccepted(attempts', log, e') {
      StaysAccepted(log, log, attempts, attempts', e');
    }
    forall r: nat | Accepted(attempts, e, r) ensures Accepted(attempts', e, r) {
    }
    assert acked ==> attempts'[|attempts|] == Attempt(e, b.j, true);
    forall k | 0 <= k < |b.batch| ensures Behind(b.batch, k, log, attempts') {
      assert Behind(b.batch, k, log, attempts);
    }
  }

  lemma SendKeepsInv(s: State, acked: bool)
    requires Inv(s) && Enabled(s, Send(acked))
    ensures Inv(Do(s, Send(acked)))
  {
    hide OpenInv, LogInv, BridgeInv, InTurn;
    forall e | InLog(s.log, e) && AllAccepted(s.attempts, s.log, e)
      ensures AllAccepted(Do(s, Send(acked)).attempts, s.log, e)
    {
      StaysAccepted(s.log, s.log, s.attempts, Do(s, Send(acked)).attempts, e);
    }
    var a := Attempt(s.bridge.batch[s.bridge.i], s.bridge.j, acked);
    var attempts' := s.attempts + [a];
    SendIsInTurn(s.bridge, s.log, s.attempts, acked);
    SendKeepsBridge(s.bridge, s.log, s.attempts, acked);
    forall n | 0 <= n < |attempts'| ensures InTurn(attempts'[..n], s.log, attempts'[n]) {
      assert attempts'[..n] == if n < |s.attempts| then s.attempts[..n] else s.attempts;
    }
  }

  lemma AckKeepsInv(s: State, applied: bool)
    requires Inv(s) && Enabled(s, Ack(applied))
    ensures Inv(Do(s, Ack(applied)))
  {
    hide OpenInv, LogInv, AllInTurn, AllAccepted;
  }

  lemma StepKeepsInv(s: State, step: Step)
    requires Inv(s) && Enabled(s, step)
    ensures Inv(Do(s, step))
  {
    hide Inv, IsOldest;
    match step
    case Commit(tx) => CommitKeepsInv(s, tx);
    case Fetch(batch) => FetchKeepsInv(s, batch);
    case Send(acked) => SendKeepsInv(s, acked);
    case Ack(applied) => AckKeepsInv(s, applied);
    case Restart => RestartKeepsInv(s);
    case _ => AppendStepKeepsInv(s, step);
  }

  lemma RestartKeepsInv(s: State)
    requires Inv(s)
    ensures Inv(s.(bridge := Idle))
  {}

  // ---- runs --------------------------------------------------------------------------

  ghost function After(steps: seq<Step>): Option<State>
    decreases |steps|
  {
    if steps == [] then Some(INIT)
    else
      var before := After(steps[..|steps| - 1]);
      if before.Some? && Enabled(before.value, steps[|steps| - 1])
      then Some(Do(before.value, steps[|steps| - 1])) else None
  }

  lemma {:induction false} RunKeepsInv(steps: seq<Step>)
    requires After(steps).Some?
    ensures Inv(After(steps).value)
    decreases |steps|
  {
    if steps != [] {
      RunKeepsInv(steps[..|steps| - 1]);
      StepKeepsInv(After(steps[..|steps| - 1]).value, steps[|steps| - 1]);
    }
  }

  /** In every run of concurrent appenders, commits, rollbacks, failed sends,
      failed acks and restarts, a record is sent only after every record of every
      lower version of its order was accepted: first sends of an order are in
      version order without gaps. */
  lemma SentInVersionOrder(steps: seq<Step>, n: nat)
    requires After(steps).Some? && n < |After(steps).value.attempts|
    ensures var s := After(steps).value; InTurn(s.attempts[..n], s.log, s.attempts[n])
  {
    RunKeepsInv(steps);
  }

  /** And nothing leaves the queue before all its records were accepted: an event
      that is committed is queued or was delivered whole. */
  lemma NothingIsLost(steps: seq<Step>, e: EventId)
    requires After(steps).Some? && InLog(After(steps).value.log, e)
    ensures var s := After(steps).value; e in s.queue || AllAccepted(s.attempts, s.log, e)
  {
    RunKeepsInv(steps);
  }

  lemma Then(steps: seq<Step>, s: State, step: Step)
    requires After(steps) == Some(s) && Enabled(s, step)
    ensures After(steps + [step]) == Some(Do(s, step))
  {
    assert (steps + [step])[..|steps|] == steps;
  }

  // Both orders have inserted, and neither has committed.
  lemma BothInserted() returns (steps: seq<Step>, s: State)
    ensures After(steps) == Some(s)
    ensures s == State(map[], {}, 2,
              map[0 := Appending(0, 0, [Row(0, false)]), 1 := Appending(1, 0, [Row(1, false)])], Idle, [])
  {
    assert After([]) == Some(INIT);
    hide After;
    assert [] + [Row(0, false)] == [Row(0, false)] && [] + [Row(1, false)] == [Row(1, false)];
    Then([], INIT, Lock(0, 0));
    var p1, s1 := [] + [Lock(0, 0)], Do(INIT, Lock(0, 0));
    Then(p1, s1, Insert(0, false));
    var p2, s2 := p1 + [Insert(0, false)], Do(s1, Insert(0, false));
    Then(p2, s2, Lock(1, 1));
    var p3, s3 := p2 + [Lock(1, 1)], Do(s2, Lock(1, 1));
    Then(p3, s3, Insert(1, false));
    steps, s := p3 + [Insert(1, false)], Do(s3, Insert(1, false));
  }

  // The second has committed, and its event was sent and removed.
  lemma SecondSentFirst() returns (steps: seq<Step>, s: State)
    ensures After(steps) == Some(s)
    ensures s == State(map[1 := [Row(1, false)]], {}, 2, map[0 := Appending(0, 0, [Row(0, false)])], Idle,
                       [Attempt(EventId(1, 1), 0, true)])
  {
    hide After;
    var e := EventId(1, 1);
    var p, s0 := BothInserted();
    assert [] + [Row(1, false)] == [Row(1, false)];
    Then(p, s0, Commit(1));
    var p1, s1 := p + [Commit(1)], Do(s0, Commit(1));
    assert s1.log == map[1 := [Row(1, false)]] && s1.open == map[0 := Appending(0, 0, [Row(0, false)])];
    assert s1.queue == {e};
    Then(p1, s1, Fetch([e]));
    var p2, s2 := p1 + [Fetch([e])], Do(s1, Fetch([e]));
    Then(p2, s2, Send(true));
    var p3, s3 := p2 + [Send(true)], Do(s2, Send(true));
    assert s3.bridge == Acking([e], 1) && [e][..1] == [e];
    Then(p3, s3, Ack(true));
    steps, s := p3 + [Ack(true)], Do(s3, Ack(true));
  }

  // Then the first commits, and its older position goes out second.
  lemma FirstSentSecond() returns (steps: seq<Step>, s: State)
    ensures After(steps) == Some(s)
    ensures s.log == map[0 := [Row(0, false)], 1 := [Row(1, false)]]
    ensures s.attempts == [Attempt(EventId(1, 1), 0, true), Attempt(EventId(0, 1), 0, true)]
  {
    hide After;
    var e := EventId(0, 1);
    var p, s0 := SecondSentFirst();
    assert [] + [Row(0, false)] == [Row(0, false)];
    Then(p, s0, Commit(0));
    var p1, s1 := p + [Commit(0)], Do(s0, Commit(0));
    assert s1.log == map[0 := [Row(0, false)], 1 := [Row(1, false)]];
    assert s1.queue == {e};
    Then(p1, s1, Fetch([e]));
    var p2, s2 := p1 + [Fetch([e])], Do(s1, Fetch([e]));
    Then(p2, s2, Send(true));
    steps, s := p2 + [Send(true)], Do(s2, Send(true));
  }

  /** Across orders nothing of the kind holds: an event can be sent after one of
      another order whose global position is higher. */
  lemma GlobalOrderIsNotKept()
    ensures exists steps :: After(steps).Some? &&
              var s := After(steps).value;
              && |s.attempts| == 2 && InLog(s.log, s.attempts[0].event) && InLog(s.log, s.attempts[1].event)
              && RowOf(s.log, s.attempts[1].event).position < RowOf(s.log, s.attempts[0].event).position
  {
    hide After;
    var steps, s := FirstSentSecond();
    assert RowOf(s.log, s.attempts[0].event).position == 1 && RowOf(s.log, s.attempts[1].event).position == 0;
    assert After(steps).Some? && After(steps).value == s;
  }

  // ---- the bridge by itself -------------------------------------------------------------

  lemma OldestOf(queue: set<EventId>, log: map<OrderId, seq<Row>>) returns (e: EventId)
    requires queue != {} && forall f <- queue :: InLog(log, f)
    ensures e in queue && forall f <- queue :: RowOf(log, e).position <= RowOf(log, f).position
    decreases |queue|
  {
    e :| e in queue;
    var rest := queue - {e};
    assert forall f <- queue :: f == e || f in rest;
    if rest != {} {
      var f := OldestOf(rest, log);
      if RowOf(log, f).position < RowOf(log, e).position {
        e := f;
      }
    }
  }

  lemma {:induction false} Distinct(events: seq<EventId>)
    requires forall a, b | 0 <= a < b < |events| :: events[a] != events[b]
    ensures |set e | e in events| == |events|
    decreases |events|
  {
    if events != [] {
      var init, e := events[..|events| - 1], events[|events| - 1];
      Distinct(init);
      assert (set f | f in events) == (set f | f in init) + {e};
    }
  }

  /** A batch takes the whole queue, or five hundred of it. */
  lemma BatchFillsUp(s: State, batch: seq<EventId>)
    requires Enabled(s, Fetch(batch))
    ensures |batch| == if |s.queue| < 500 then |s.queue| else 500
  {
    Distinct(batch);
    var taken := set e | e in batch;
    assert taken <= s.queue && s.queue == taken + (s.queue - taken);
    if |batch| < 500 {
      assert taken == s.queue;
    }
  }

  // There is always a batch to fetch.
  lemma ABatch(queue: set<EventId>, log: map<OrderId, seq<Row>>, limit: nat) returns (batch: seq<EventId>)
    requires forall e <- queue :: InLog(log, e)
    ensures IsOldest(batch, queue, log, limit)
    decreases limit
  {
    if queue == {} || limit == 0 {
      return [];
    }
    var e := OldestOf(queue, log);
    var rest := ABatch(queue - {e}, log, limit - 1);
    batch := [e] + rest;
    assert forall f <- queue :: f == e || f in queue - {e};
    assert forall a | 0 < a < |batch| :: batch[a] == rest[a - 1] && batch[a] in queue - {e};
  }

  // The sends of one event, all accepted, and of some one after the other.
  function SendsOf(log: map<OrderId, seq<Row>>, e: EventId): seq<Attempt>
    requires InLog(log, e)
  {
    if RowOf(log, e).fill then [Attempt(e, 0, true), Attempt(e, 1, true)] else [Attempt(e, 0, true)]
  }

  function AllSends(log: map<OrderId, seq<Row>>, events: seq<EventId>): seq<Attempt>
    requires forall e <- events :: InLog(log, e)
  {
    if events == [] then [] else SendsOf(log, events[0]) + AllSends(log, events[1..])
  }

  lemma {:induction false} AllSendsConcat(log: map<OrderId, seq<Row>>, a: seq<EventId>, b: seq<EventId>)
    requires forall e <- a + b :: InLog(log, e)
    requires (forall e <- a :: InLog(log, e)) && forall e <- b :: InLog(log, e)
    ensures AllSends(log, a + b) == AllSends(log, a) + AllSends(log, b)
  {
    if a == [] {
      assert a + b == b;
    } else {
      AllSendsConcat(log, a[1..], b);
      assert (a + b)[1..] == a[1..] + b;
    }
  }

  lemma SendsAnEvent(steps: seq<Step>, s: State) returns (steps': seq<Step>, s': State)
    requires After(steps) == Some(s) && s.bridge.Sending? && s.bridge.i < |s.bridge.batch| && s.bridge.j == 0
    requires InLog(s.log, s.bridge.batch[s.bridge.i])
    ensures After(steps') == Some(s')
    ensures var batch, i := s.bridge.batch, s.bridge.i;
            s' == s.(bridge := if i + 1 < |batch| then Sending(batch, i + 1, 0) else Acking(batch, i + 1),
                     attempts := s.attempts + SendsOf(s.log, batch[i]))
  {
    hide After;
    Then(steps, s, Send(true));
    steps', s' := steps + [Send(true)], Do(s, Send(true));
    if RowOf(s.log, s.bridge.batch[s.bridge.i]).fill {
      Then(steps', s', Send(true));
      steps', s' := steps' + [Send(true)], Do(s', Send(true));
    }
  }

  lemma SendsTheBatch(steps: seq<Step>, s: State) returns (steps': seq<Step>, s': State)
    requires After(steps) == Some(s) && s.bridge.Sending? && s.bridge.i < |s.bridge.batch| && s.bridge.j == 0
    requires forall e <- s.bridge.batch :: InLog(s.log, e)
    ensures After(steps') == Some(s')
    ensures var batch := s.bridge.batch;
            s' == s.(bridge := Acking(batch, |batch|),
                     attempts := s.attempts + AllSends(s.log, batch[s.bridge.i..]))
    decreases |s.bridge.batch| - s.bridge.i
  {
    hide After, SendsOf, AfterSend;
    var batch, i := s.bridge.batch, s.bridge.i;
    steps', s' := SendsAnEvent(steps, s);
    assert batch[i..][0] == batch[i] && batch[i..][1..] == batch[i + 1..];
    if i + 1 < |batch| {
      steps', s' := SendsTheBatch(steps', s');
    } else {
      assert AllSends(s.log, batch[i + 1..]) == [];
    }
  }

  // A queue in the order it is sent in: every event of it once, oldest first.
  ghost predicate InOrder(events: seq<EventId>, queue: set<EventId>, log: map<OrderId, seq<Row>>) {
    && (forall e <- queue :: InLog(log, e))
    && (forall e :: e in events <==> e in queue)
    && (forall a, b | 0 <= a < b < |events| ::
          events[a] != events[b] && RowOf(log, events[a]).position <= RowOf(log, events[b]).position)
  }

  lemma BatchFirst(batch: seq<EventId>, rest: seq<EventId>, queue: set<EventId>, log: map<OrderId, seq<Row>>,
      limit: nat)
    requires IsOldest(batch, queue, log, limit) && InOrder(rest, queue - (set e | e in batch), log)
    ensures InOrder(batch + rest, queue, log)
  {
    forall a, b | 0 <= a < b < |batch + rest|
      ensures (batch + rest)[a] != (batch + rest)[b]
      ensures RowOf(log, (batch + rest)[a]).position <= RowOf(log, (batch + rest)[b]).position
    {
      var e, f, n := (batch + rest)[a], (batch + rest)[b], |batch|;
      assert if a < n then e == batch[a] && e in batch else e == rest[a - n] && e in rest;
      assert if b < n then f == batch[b] && f in batch else f == rest[b - n] && f in rest;
    }
  }

  /** From any point of any run, a bridge left alone with a broker that accepts empties the
      queue: it sends what was queued, every record of every event once, oldest first, and
      touches nothing else. */
  lemma QueueDrains(steps: seq<Step>, s: State) returns (steps': seq<Step>, s': State, events: seq<EventId>)
    requires After(steps) == Some(s)
    ensures After(steps') == Some(s') && InOrder(events, s.queue, s.log)
    ensures s' == s.(queue := {}, bridge := Idle, attempts := s.attempts + AllSends(s.log, events))
  {
    Then(steps, s, Restart);
    steps', s', events := EmptiesTheQueue(steps + [Restart], Do(s, Restart));
  }

  lemma EmptiesTheQueue(steps: seq<Step>, s: State) returns (steps': seq<Step>, s': State, events: seq<EventId>)
    requires After(steps) == Some(s) && s.bridge.Idle?
    ensures After(steps') == Some(s') && InOrder(events, s.queue, s.log)
    ensures s' == s.(queue := {}, attempts := s.attempts + AllSends(s.log, events))
    decreases |s.queue|
  {
    RunKeepsInv(steps);
    if s.queue == {} {
      return steps, s, [];
    }
    var batch := ABatch(s.queue, s.log, BATCH_SIZE);
    NotEmpty(batch, s.queue, s.log);
    hide *;
    var p, mid := DrainsABatch(steps, s, batch);
    assert batch[0] in s.queue && mid.queue < s.queue;
    var rest;
    steps', s', rest := EmptiesTheQueue(p, mid);
    events := batch + rest;
    BatchFirst(batch, rest, s.queue, s.log, BATCH_SIZE);
    TwoParts(batch, rest, s.queue, s.log, s.attempts);
  }

  lemma NotEmpty(batch: seq<EventId>, queue: set<EventId>, log: map<OrderId, seq<Row>>)
    requires IsOldest(batch, queue, log, BATCH_SIZE) && queue != {}
    ensures batch != [] && (forall e <- batch :: e in queue)
  {}

  lemma TwoParts(batch: seq<EventId>, rest: seq<EventId>, queue: set<EventId>, log: map<OrderId, seq<Row>>,
      sent: seq<Attempt>)
    requires InOrder(batch + rest, queue, log)
    requires (forall e <- batch :: InLog(log, e)) && forall e <- rest :: InLog(log, e)
    ensures forall e <- batch + rest :: InLog(log, e)
    ensures sent + AllSends(log, batch) + AllSends(log, rest) == sent + AllSends(log, batch + rest)
  {
    AllSendsConcat(log, batch, rest);
  }

  lemma DrainsABatch(steps: seq<Step>, s: State, batch: seq<EventId>) returns (steps': seq<Step>, s': State)
    requires After(steps) == Some(s) && s.bridge.Idle? && batch != [] && IsOldest(batch, s.queue, s.log, BATCH_SIZE)
    ensures After(steps') == Some(s') && forall e <- batch :: InLog(s.log, e)
    ensures s' == s.(queue := s.queue - (set e | e in batch), attempts := s.attempts + AllSends(s.log, batch))
  {
    hide After, AllSends;
    Then(steps, s, Fetch(batch));
    var p1, s1 := steps + [Fetch(batch)], Do(s, Fetch(batch));
    var p2, s2 := SendsTheBatch(p1, s1);
    Then(p2, s2, Ack(true));
    steps', s' := p2 + [Ack(true)], Do(s2, Ack(true));
    assert batch[..|batch|] == batch && batch[0..] == batch;
  }

  // ---- an append by itself ---------------------------------------------------------------

  function Inserted(next: nat, fills: seq<bool>): seq<Row> {
    seq(|fills|, i requires 0 <= i < |fills| => Row(next + i, fills[i]))
  }

  lemma Inserts(steps: seq<Step>, s: State, tx: TxId, fills: seq<bool>) returns (steps': seq<Step>, s': State)
    requires After(steps) == Some(s) && tx in s.open
    ensures After(steps') == Some(s')
    ensures var a := s.open[tx];
            s' == s.(open := s.open[tx := a.(inserted := a.inserted + Inserted(s.next, fills))],
                     next := s.next + |fills|)
    decreases |fills|
  {
    hide After;
    steps', s' := steps, s;
    if fills != [] {
      Then(steps, s, Insert(tx, fills[0]));
      var p, mid := steps + [Insert(tx, fills[0])], Do(s, Insert(tx, fills[0]));
      steps', s' := Inserts(p, mid, tx, fills[1..]);
      assert Inserted(s.next, fills) == [Row(s.next, fills[0])] + Inserted(s.next + 1, fills[1..]);
      var was := s.open[tx].inserted;
      assert was + [Row(s.next, fills[0])] + Inserted(s.next + 1, fills[1..]) == was + Inserted(s.next, fills);
    } else {
      assert s.open[tx].inserted + Inserted(s.next, fills) == s.open[tx].inserted;
    }
  }

  /** From any point of any run at which nobody is appending to an order, an append to it,
      left to itself, puts its events at the end of the order's log, at positions that
      count on, and each of them in the queue; and nothing else. */
  lemma LoneAppend(steps: seq<Step>, s: State, tx: TxId, o: OrderId, fills: seq<bool>)
    returns (steps': seq<Step>, s': State)
    requires After(steps) == Some(s) && tx !in s.open && forall t | t in s.open :: s.open[t].order != o
    ensures After(steps') == Some(s') && s'.open == s.open && s'.next == s.next + |fills|
    ensures s'.log == s.log[o := Get(s.log, o) + Inserted(s.next, fills)]
    ensures forall e: EventId :: e in s'.queue <==>
              e in s.queue || (e.order == o && |Get(s.log, o)| < e.version <= |Get(s.log, o)| + |fills|)
    ensures s'.bridge == s.bridge && s'.attempts == s.attempts
  {
    hide After;
    Then(steps, s, Lock(tx, o));
    var p1, s1 := steps + [Lock(tx, o)], Do(s, Lock(tx, o));
    var p2, s2 := Inserts(p1, s1, tx, fills);
    Then(p2, s2, Commit(tx));
    steps', s' := p2 + [Commit(tx)], Do(s2, Commit(tx));
    assert [] + Inserted(s.next, fills) == Inserted(s.next, fills);
    forall e: EventId | e.order == o && |Get(s.log, o)| < e.version <= |Get(s.log, o)| + |fills|
      ensures e in s'.queue
    {
      assert e == EventId(o, e.version);
    }
  }

  /** An append rolled back leaves the order free and everything else, the positions it took
      aside, as if it had not been; and an ack that fails leaves the queue for the next
      drain to send again. */
  lemma UndoneLeavesNothing(steps: seq<Step>, tx: TxId)
    requires After(steps).Some?
    ensures var s := After(steps).value;
            tx in s.open ==>
              && Enabled(s, Rollback(tx)) && Do(s, Rollback(tx)) == s.(open := Do(s, Rollback(tx)).open)
              && tx !in Do(s, Rollback(tx)).open
              && forall t | t in Do(s, Rollback(tx)).open :: Do(s, Rollback(tx)).open[t].order != s.open[tx].order
    ensures var s := After(steps).value;
            s.bridge.Acking? ==> Enabled(s, Ack(false)) && Do(s, Ack(false)) == s.(bridge := Idle)
  {
    RunKeepsInv(steps);
  }
}
