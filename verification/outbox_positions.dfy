/**
The Kafka bridge against concurrent position writes: a compacted topic ends up
with every position as it is now, although rows are rewritten between the
fetch, the send and the ack, sends and acks fail, and the bridge restarts
(src/kafka_outbox.rs, db/migrations/ods/oms/0034_CREATE_KAFKA_POSITION_OUTBOX.sql).
*/
module OutboxPositions {
  import opened Wrappers
  import opened Orders
  import opened Positions

  // kafka_outbox.rs:17
  const BATCH_SIZE: nat := 500

  // A queued change as fetched: with the row as it was then, `None` if there was none.
  datatype Fetched = Fetched(id: nat, key: Key, snapshot: Option<Position>)

  datatype Sent = Sent(key: Key, position: Position)

  // What became of a send. A lost one reached the broker but was never answered.
  datatype Outcome = Acked | Lost | Refused

  datatype Bridge =
    | Idle
    | Sending(batch: seq<Fetched>, i: nat)
    | Acking(batch: seq<Fetched>, n: nat)

  // `positions` and `queue` are committed; `topic` is what reached the broker.
  datatype State = State(
    positions: map<Key, Position>,
    queue: map<nat, Key>,
    usedIds: set<nat>,
    bridge: Bridge,
    topic: seq<Sent>)

  const INIT := State(map[], map[], {}, Idle, [])

  ghost predicate AreQueued(batch: seq<Fetched>, queue: map<nat, Key>, positions: map<Key, Position>) {
    forall f <- batch :: f.id in queue && queue[f.id] == f.key && f.snapshot == Lookup(positions, f.key)
  }

  predicate Ascend(batch: seq<Fetched>) {
    forall a, b | 0 <= a < b < |batch| :: batch[a].id < batch[b].id
  }

  ghost predicate BeforeTheRest(batch: seq<Fetched>, queue: map<nat, Key>) {
    forall f, id | f in batch && id in queue && (forall g <- batch :: g.id != id) :: f.id < id
  }

  ghost predicate AsManyAsFit(batch: seq<Fetched>, queue: map<nat, Key>, limit: nat) {
    |batch| <= limit && (|batch| == limit || forall id | id in queue :: exists f <- batch :: f.id == id)
  }

  // The oldest queued changes, each with the row it names, in one snapshot.
  ghost predicate IsOldest(batch: seq<Fetched>, queue: map<nat, Key>, positions: map<Key, Position>, limit: nat) {
    && AreQueued(batch, queue, positions) && Ascend(batch)
    && BeforeTheRest(batch, queue) && AsManyAsFit(batch, queue, limit)
  }

  datatype Step =
    | Write(key: Key, row: Option<Position>, id: nat)
    | Fetch(batch: seq<Fetched>)
    | Send(outcome: Outcome)
    | Ack(applied: bool)
    | Restart

  ghost predicate Enabled(s: State, step: Step) {
    match step
    case Write(_, _, id) => id !in s.usedIds
    case Fetch(batch) => s.bridge.Idle? && batch != [] && IsOldest(batch, s.queue, s.positions, BATCH_SIZE)
    case Send(_) => s.bridge.Sending? && s.bridge.i < |s.bridge.batch|
    case Ack(_) => s.bridge.Acking? && s.bridge.n <= |s.bridge.batch|
    case Restart => true
  }

  // A change whose row is gone has no record, and counts as sent.
  function AfterSend(b: Bridge, outcome: Outcome): Bridge
    requires b.Sending? && b.i < |b.batch|
  {
    if b.batch[b.i].snapshot.Some? && !outcome.Acked? then Acking(b.batch, b.i)
    else if b.i + 1 < |b.batch| then Sending(b.batch, b.i + 1)
    else Acking(b.batch, b.i + 1)
  }

  function AfterRecord(topic: seq<Sent>, f: Fetched, outcome: Outcome): seq<Sent> {
    if f.snapshot.None? || outcome.Refused? then topic else topic + [Sent(f.key, f.snapshot.value)]
  }

  ghost function Do(s: State, step: Step): State
    requires Enabled(s, step)
  {
    match step
    // the writing statement and, in its transaction, the trigger's insert
    case Write(k, row, id) =>
      s.(positions := if row.Some? then s.positions[k := row.value] else s.positions - {k},
         queue := s.queue[id := k], usedIds := s.usedIds + {id})
    case Fetch(batch) => s.(bridge := Sending(batch, 0))
    case Send(outcome) =>
      s.(bridge := AfterSend(s.bridge, outcome), topic := AfterRecord(s.topic, s.bridge.batch[s.bridge.i], outcome))
    case Ack(applied) =>
      s.(bridge := Idle,
         queue := if applied then s.queue - (set f | f in s.bridge.batch[..s.bridge.n] :: f.id) else s.queue)
    case Restart => s.(bridge := Idle)
  }

  // What a compacted topic keeps for a key.
  function Latest(topic: seq<Sent>, k: Key): Option<Position>
    decreases |topic|
  {
    if topic == [] then None
    else if topic[|topic| - 1].key == k then Some(topic[|topic| - 1].position)
    else Latest(topic[..|topic| - 1], k)
  }

  lemma LatestSnoc(topic: seq<Sent>, x: Sent, k: Key)
    ensures Latest(topic + [x], k) == if x.key == k then Some(x.position) else Latest(topic, k)
  {
    assert (topic + [x])[..|topic|] == topic;
  }

  predicate Pending(queue: map<nat, Key>, k: Key) {
    exists id | id in queue :: queue[id] == k
  }

  // ---- the invariant -----------------------------------------------------------

  function Ids(batch: seq<Fetched>): set<nat> {
    set f | f in batch :: f.id
  }

  // A change of this key that came in after the fetch, or lies beyond the batch.
  ghost predicate PendingBeyond(queue: map<nat, Key>, batch: seq<Fetched>, k: Key) {
    exists id | id in queue :: queue[id] == k && id !in Ids(batch)
  }

  predicate Names(batch: seq<Fetched>, k: Key) {
    exists f <- batch :: f.key == k
  }

  // For a live key with nothing beyond the batch: the batch holds its current row,
  // and once one of its changes is sent, so does the topic.
  ghost predicate KeyInBatch(s: State, batch: seq<Fetched>, n: nat, k: Key)
    requires n <= |batch|
  {
    k in s.positions && !PendingBeyond(s.queue, batch, k) ==>
      && (forall f <- batch | f.key == k :: f.snapshot == Some(s.positions[k]))
      && (Names(batch[..n], k) || !Names(batch, k) ==> Latest(s.topic, k) == Some(s.positions[k]))
  }

  ghost predicate BatchInv(s: State, batch: seq<Fetched>, n: nat) {
    && n <= |batch|
    && (forall f <- batch :: f.id in s.queue && s.queue[f.id] == f.key)
    && (forall a, b | 0 <= a < b < |batch| :: batch[a].id != batch[b].id)
    && (forall k: Key :: KeyInBatch(s, batch, n, k))
  }

  // Queued or on the topic as it is.
  ghost predicate Covered(s: State, k: Key) {
    k in s.positions ==> Pending(s.queue, k) || Latest(s.topic, k) == Some(s.positions[k])
  }

  ghost predicate Inv(s: State) {
    && s.queue.Keys <= s.usedIds
    && (forall k: Key :: Covered(s, k))
    && match s.bridge
       case Idle => true
       case Sending(batch, i) => i < |batch| && BatchInv(s, batch, i)
       case Acking(batch, n) => BatchInv(s, batch, n)
  }

  // ---- each step keeps it ----------------------------------------------------------

  lemma WriteKeepsBatch(s: State, k: Key, row: Option<Position>, id: nat, batch: seq<Fetched>, n: nat)
    requires s.queue.Keys <= s.usedIds && id !in s.usedIds && BatchInv(s, batch, n)
    ensures BatchInv(Do(s, Write(k, row, id)), batch, n)
  {
    var s' := Do(s, Write(k, row, id));
    assert id !in Ids(batch);
    forall k': Key ensures KeyInBatch(s', batch, n, k') {
      assert KeyInBatch(s, batch, n, k');
      if k' == k {
        assert s'.queue[id] == k;
        assert PendingBeyond(s'.queue, batch, k);
      } else if PendingBeyond(s.queue, batch, k') {
        var id' :| id' in s.queue && s.queue[id'] == k' && id' !in Ids(batch);
        assert s'.queue[id'] == k';
      }
    }
  }

  lemma WriteKeepsCovered(s: State, k: Key, row: Option<Position>, id: nat, k': Key)
    requires id !in s.queue && id !in s.usedIds && Covered(s, k')
    ensures Covered(Do(s, Write(k, row, id)), k')
  {
    var queue' := Do(s, Write(k, row, id)).queue;
    assert queue'[id] == k;
    if Pending(s.queue, k') {
      var id' :| id' in s.queue && s.queue[id'] == k';
      assert queue'[id'] == k';
    }
  }

  lemma FetchStarts(s: State, batch: seq<Fetched>)
    requires Inv(s) && Enabled(s, Fetch(batch))
    ensures BatchInv(s, batch, 0)
  {
    forall k: Key ensures KeyInBatch(s, batch, 0, k) {
      assert Covered(s, k);
      if Pending(s.queue, k) && !PendingBeyond(s.queue, batch, k) {
        var id :| id in s.queue && s.queue[id] == k;
        assert id in Ids(batch);
        var f :| f in batch && f.id == id;
        assert Names(batch, k);
      }
    }
  }

  lemma SendKeepsBatch(s: State, batch: seq<Fetched>, i: nat, outcome: Outcome, n: nat, topic': seq<Sent>)
    requires BatchInv(s, batch, i) && i < |batch|
    requires topic' == AfterRecord(s.topic, batch[i], outcome)
    requires n == i || (n == i + 1 && (batch[i].snapshot.None? || outcome.Acked?))
    ensures BatchInv(s.(topic := topic'), batch, n)
  {
    var f := batch[i];
    forall k: Key ensures KeyInBatch(s.(topic := topic'), batch, n, k) {
      assert KeyInBatch(s, batch, i, k);
      if f.snapshot.Some? {
        LatestSnoc(s.topic, Sent(f.key, f.snapshot.value), k);
      }
      assert batch[..i + 1] == batch[..i] + [f];
      assert f in batch;
    }
  }

  lemma SendKeepsCovered(s: State, batch: seq<Fetched>, i: nat, outcome: Outcome, k: Key)
    requires BatchInv(s, batch, i) && i < |batch| && Covered(s, k)
    ensures Covered(s.(topic := AfterRecord(s.topic, batch[i], outcome)), k)
  {
    var f := batch[i];
    if f.key == k {
      assert f in batch && s.queue[f.id] == k;
    } else if f.snapshot.Some? {
      LatestSnoc(s.topic, Sent(f.key, f.snapshot.value), k);
    }
  }

  // A change outside what is deleted is still pending.
  lemma StaysPending(queue: map<nat, Key>, gone: set<nat>, id: nat, k: Key)
    requires id in queue && queue[id] == k && id !in gone
    ensures Pending(queue - gone, k)
  {
    assert (queue - gone)[id] == k;
  }

  // Deleting what was delivered leaves a key with its current row on the topic.
  lemma AckKeepsCovered(s: State, batch: seq<Fetched>, n: nat, k: Key)
    requires BatchInv(s, batch, n) && Covered(s, k)
    ensures Covered(s.(queue := s.queue - Ids(batch[..n])), k)
  {
    var gone := Ids(batch[..n]);
    if k in s.positions && !Pending(s.queue - gone, k) {
      assert KeyInBatch(s, batch, n, k);
      forall id | id in s.queue && s.queue[id] == k ensures id in gone {
        if id !in gone { StaysPending(s.queue, gone, id, k); }
      }
      if Names(batch, k) {
        var f :| f in batch && f.key == k;
        assert s.queue[f.id] == k;
        var g :| g in batch[..n] && g.id == f.id;
        assert Names(batch[..n], k) by { assert g in batch && s.queue[g.id] == g.key; }
      }
    }
  }

  lemma StepKeepsInv(s: State, step: Step)
    requires Inv(s) && Enabled(s, step)
    ensures Inv(Do(s, step))
  {
    hide Covered, BatchInv, IsOldest;
    var s' := Do(s, step);
    match step
    case Write(k, row, id) =>
      forall k': Key ensures Covered(s', k') { WriteKeepsCovered(s, k, row, id, k'); }
      if s.bridge.Sending? {
        WriteKeepsBatch(s, k, row, id, s.bridge.batch, s.bridge.i);
      } else if s.bridge.Acking? {
        WriteKeepsBatch(s, k, row, id, s.bridge.batch, s.bridge.n);
      }
    case Fetch(batch) =>
      FetchStarts(s, batch);
      SameFacts(s, s', batch, 0);
    case Send(outcome) =>
      var b := s.bridge;
      var n := if b.batch[b.i].snapshot.None? || outcome.Acked? then b.i + 1 else b.i;
      SendKeepsBatch(s, b.batch, b.i, outcome, n, s'.topic);
      SameFacts(s.(topic := s'.topic), s', b.batch, n);
      forall k: Key ensures Covered(s', k) {
        SendKeepsCovered(s, b.batch, b.i, outcome, k);
        SameCovered(s.(topic := s'.topic), s', k);
      }
    case Ack(applied) =>
      forall k: Key ensures Covered(s', k) {
        AckKeepsCovered(s, s.bridge.batch, s.bridge.n, k);
        SameCovered(if applied then s.(queue := s.queue - Ids(s.bridge.batch[..s.bridge.n])) else s, s', k);
      }
    case Restart =>
      forall k: Key ensures Covered(s', k) { SameCovered(s, s', k); }
  }

  // Both read positions, queue and topic only.
  lemma SameFacts(s: State, s': State, batch: seq<Fetched>, n: nat)
    requires BatchInv(s, batch, n) && s'.positions == s.positions && s'.queue == s.queue && s'.topic == s.topic
    ensures BatchInv(s', batch, n)
    ensures forall k: Key :: Covered(s, k) ==> Covered(s', k)
  {
    forall k: Key ensures KeyInBatch(s', batch, n, k) {
      assert KeyInBatch(s, batch, n, k);
    }
  }

  lemma SameCovered(s: State, s': State, k: Key)
    requires Covered(s, k) && s'.positions == s.positions && s'.queue == s.queue && s'.topic == s.topic
    ensures Covered(s', k)
  {}

  // ---- runs ------------------------------------------------------------------------

  ghost function After(steps: seq<Step>): Option<State>
    decreases |steps|
  {
    if steps == [] then Some(INIT)
    else
      var before := After(steps[..|steps| - 1]);
      if before.Some? && Enabled(before.value, steps[|steps| - 1])
      then Some(Do(before.value, steps[|steps| - 1])) else None
  }

  lemma {:induction false} RunKeepsInv(steps: seq<Step>)
    requires After(steps).Some?
    ensures Inv(After(steps).value)
    decreases |steps|
  {
    if steps != [] {
      RunKeepsInv(steps[..|steps| - 1]);
      StepKeepsInv(After(steps[..|steps| - 1]).value, steps[|steps| - 1]);
    }
  }

  /** At every state of every run, each live position has a change still queued,
      or the last record that reached the broker for its key is the row as it is. */
  lemma TopicCatchesUp(steps: seq<Step>, k: Key)
    requires After(steps).Some? && k in After(steps).value.positions
    ensures var s := After(steps).value;
            Pending(s.queue, k) || Latest(s.topic, k) == Some(s.positions[k])
  {
    RunKeepsInv(steps);
    assert Covered(After(steps).value, k);
  }

  // ---- the bridge by itself -------------------------------------------------------------

  lemma Then(steps: seq<Step>, s: State, step: Step)
    requires After(steps) == Some(s) && Enabled(s, step)
    ensures After(steps + [step]) == Some(Do(s, step))
  {
    assert (steps + [step])[..|steps|] == steps;
  }

  lemma OldestId(ids: set<nat>) returns (id: nat)
    requires ids != {}
    ensures id in ids && forall n <- ids :: id <= n
    decreases |ids|
  {
    id :| id in ids;
    var rest := ids - {id};
    assert forall n <- ids :: n == id || n in rest;
    if rest != {} {
      var n := OldestId(rest);
      id := if n < id then n else id;
    }
  }

  lemma LastIsNew(batch: seq<Fetched>)
    requires Ascend(batch) && batch != []
    ensures batch[|batch| - 1].id !in Ids(batch[..|batch| - 1])
  {
    var init, f := batch[..|batch| - 1], batch[|batch| - 1];
    forall g | g in init ensures g.id != f.id {
      var a :| 0 <= a < |init| && init[a] == g;
      assert batch[a] == g;
    }
  }

  lemma {:induction false} Distinct(batch: seq<Fetched>)
    requires Ascend(batch)
    ensures |Ids(batch)| == |batch|
    decreases |batch|
  {
    if batch != [] {
      var init, f := batch[..|batch| - 1], batch[|batch| - 1];
      assert Ascend(init);
      LastIsNew(batch);
      Distinct(init);
      assert batch == init + [f];
      hide Ascend;
      assert Ids(init + [f]) == Ids(init) + {f.id};
    }
  }

  /** A batch takes the whole queue, or five hundred of it. */
  lemma BatchFillsUp(s: State, batch: seq<Fetched>)
    requires Enabled(s, Fetch(batch))
    ensures |batch| == if |s.queue| < 500 then |s.queue| else 500
  {
    Distinct(batch);
    var ids := s.queue.Keys;
    assert |ids| == |s.queue| && Ids(batch) <= ids && ids == Ids(batch) + (ids - Ids(batch));
    if |batch| < 500 {
      forall id | id in ids ensures id in Ids(batch) {
        var f :| f in batch && f.id == id;
      }
      assert Ids(batch) == ids;
    }
  }

  // There is always a batch to fetch.
  lemma ABatch(queue: map<nat, Key>, positions: map<Key, Position>, limit: nat) returns (batch: seq<Fetched>)
    ensures IsOldest(batch, queue, positions, limit)
    decreases limit
  {
    if queue == map[] || limit == 0 {
      return [];
    }
    assert queue.Keys != {};
    var id := OldestId(queue.Keys);
    var rest := ABatch(queue - {id}, positions, limit - 1);
    var f := Fetched(id, queue[id], Lookup(positions, queue[id]));
    batch := [f] + rest;
    OldestFirst(f, rest, queue, positions, limit);
  }

  lemma OldestFirst(f: Fetched, rest: seq<Fetched>, queue: map<nat, Key>, positions: map<Key, Position>, limit: nat)
    requires limit > 0 && f.id in queue && f.key == queue[f.id] && f.snapshot == Lookup(positions, f.key)
    requires (forall n | n in queue :: f.id <= n) && IsOldest(rest, queue - {f.id}, positions, limit - 1)
    ensures IsOldest([f] + rest, queue, positions, limit)
  {
    OldestQueued(f, rest, queue, positions);
    OldestBefore(f, rest, queue, positions, limit);
    OldestAll(f, rest, queue, positions, limit);
    hide AreQueued, Ascend, BeforeTheRest, AsManyAsFit;
  }

  lemma OldestQueued(f: Fetched, rest: seq<Fetched>, queue: map<nat, Key>, positions: map<Key, Position>)
    requires f.id in queue && f.key == queue[f.id] && f.snapshot == Lookup(positions, f.key)
    requires (forall n | n in queue :: f.id <= n) && AreQueued(rest, queue - {f.id}, positions) && Ascend(rest)
    ensures AreQueued([f] + rest, queue, positions) && Ascend([f] + rest)
  {
    hide Lookup;
    var batch := [f] + rest;
    forall a, b | 0 <= a < b < |batch| ensures batch[a].id < batch[b].id {
      assert batch[b] == rest[b - 1] && batch[b] in rest;
    }
  }

  lemma OldestBefore(f: Fetched, rest: seq<Fetched>, queue: map<nat, Key>, positions: map<Key, Position>, limit: nat)
    requires limit > 0 && f.id in queue && IsOldest(rest, queue - {f.id}, positions, limit - 1)
    requires forall n | n in queue :: f.id <= n
    ensures BeforeTheRest([f] + rest, queue)
  {
    var batch := [f] + rest;
    forall g, id | g in batch && id in queue && (forall h <- batch :: h.id != id) ensures g.id < id {
      assert f in batch && id in queue - {f.id};
      assert forall h <- rest :: h in batch;
    }
  }

  lemma OldestAll(f: Fetched, rest: seq<Fetched>, queue: map<nat, Key>, positions: map<Key, Position>, limit: nat)
    requires limit > 0 && f.id in queue && IsOldest(rest, queue - {f.id}, positions, limit - 1)
    ensures AsManyAsFit([f] + rest, queue, limit)
  {
    var batch := [f] + rest;
    forall id | id in queue && |rest| != limit - 1 ensures exists g <- batch :: g.id == id {
      if id == f.id {
        assert f in batch;
      } else {
        assert id in queue - {f.id};
        var g :| g in rest && g.id == id;
        assert g in batch;
      }
    }
  }

  // What the sends of some changes put on the topic: the row of each that has one.
  function SentFor(changes: seq<Fetched>): seq<Sent> {
    if changes == [] then []
    else
      (if changes[0].snapshot.Some? then [Sent(changes[0].key, changes[0].snapshot.value)] else [])
      + SentFor(changes[1..])
  }

  lemma {:induction false} SentForConcat(a: seq<Fetched>, b: seq<Fetched>)
    ensures SentFor(a + b) == SentFor(a) + SentFor(b)
  {
    if a == [] {
      assert a + b == b;
    } else {
      SentForConcat(a[1..], b);
      assert (a + b)[1..] == a[1..] + b;
    }
  }

  lemma SendsTheBatch(steps: seq<Step>, s: State) returns (steps': seq<Step>, s': State)
    requires After(steps) == Some(s) && s.bridge.Sending? && s.bridge.i < |s.bridge.batch|
    ensures After(steps') == Some(s')
    ensures var batch := s.bridge.batch;
            s' == s.(bridge := Acking(batch, |batch|), topic := s.topic + SentFor(batch[s.bridge.i..]))
    decreases |s.bridge.batch| - s.bridge.i
  {
    hide After;
    var batch, i := s.bridge.batch, s.bridge.i;
    Then(steps, s, Send(Acked));
    steps', s' := steps + [Send(Acked)], Do(s, Send(Acked));
    assert batch[i..][0] == batch[i] && batch[i..][1..] == batch[i + 1..];
    if i + 1 < |batch| {
      steps', s' := SendsTheBatch(steps', s');
    } else {
      assert SentFor(batch[i + 1..]) == [];
    }
  }

  // A queue in the order it is sent in: every change of it once, oldest first, with the
  // row of its key.
  ghost predicate InOrder(changes: seq<Fetched>, queue: map<nat, Key>, positions: map<Key, Position>) {
    && (forall f <- changes :: f.id in queue && f.key == queue[f.id] && f.snapshot == Lookup(positions, f.key))
    && (forall id | id in queue :: exists f <- changes :: f.id == id)
    && (forall a, b | 0 <= a < b < |changes| :: changes[a].id < changes[b].id)
  }

  lemma BatchFirst(batch: seq<Fetched>, rest: seq<Fetched>, queue: map<nat, Key>, positions: map<Key, Position>,
      limit: nat)
    requires IsOldest(batch, queue, positions, limit) && InOrder(rest, queue - Ids(batch), positions)
    ensures InOrder(batch + rest, queue, positions)
  {
    var all, n := batch + rest, |batch|;
    forall a, b | 0 <= a < b < |all| ensures all[a].id < all[b].id {
      assert if a < n then all[a] == batch[a] && all[a] in batch else all[a] == rest[a - n] && all[a] in rest;
      assert if b < n then all[b] == batch[b] && all[b] in batch else all[b] == rest[b - n] && all[b] in rest;
    }
    forall id | id in queue ensures exists f <- all :: f.id == id {
      if id in Ids(batch) {
        var f :| f in batch && f.id == id;
        assert f in all;
      } else {
        assert id in queue - Ids(batch);
        var f :| f in rest && f.id == id;
        assert f in all;
      }
    }
  }

  lemma NotEmpty(batch: seq<Fetched>, queue: map<nat, Key>, positions: map<Key, Position>)
    requires IsOldest(batch, queue, positions, BATCH_SIZE) && queue != map[]
    ensures batch != [] && batch[0].id in queue && batch[0].id in Ids(batch)
  {
    assert queue.Keys != {};
    var id :| id in queue;
    assert batch != [];
    assert batch[0] in batch;
  }

  lemma DrainsABatch(steps: seq<Step>, s: State, batch: seq<Fetched>) returns (steps': seq<Step>, s': State)
    requires After(steps) == Some(s) && s.bridge.Idle? && batch != []
    requires IsOldest(batch, s.queue, s.positions, BATCH_SIZE)
    ensures After(steps') == Some(s')
    ensures s' == s.(queue := s.queue - Ids(batch), topic := s.topic + SentFor(batch))
  {
    hide After, SentFor;
    Then(steps, s, Fetch(batch));
    var p1, s1 := steps + [Fetch(batch)], Do(s, Fetch(batch));
    var p2, s2 := SendsTheBatch(p1, s1);
    Then(p2, s2, Ack(true));
    steps', s' := p2 + [Ack(true)], Do(s2, Ack(true));
    assert batch[..|batch|] == batch && batch[0..] == batch;
    assert (set f | f in batch :: f.id) == Ids(batch);
  }

  /** From any point of any run, a bridge left alone with a broker that accepts empties the
      queue: it sends each queued change once, oldest first, as its row is, and none for a
      row that is gone; and then every live position is on the topic as it is. */
  lemma QueueDrains(steps: seq<Step>, s: State) returns (steps': seq<Step>, s': State, changes: seq<Fetched>)
    requires After(steps) == Some(s)
    ensures After(steps') == Some(s') && InOrder(changes, s.queue, s.positions)
    ensures s' == s.(queue := map[], bridge := Idle, topic := s.topic + SentFor(changes))
    ensures forall k | k in s.positions :: Latest(s'.topic, k) == Some(s.positions[k])
  {
    Then(steps, s, Restart);
    steps', s', changes := EmptiesTheQueue(steps + [Restart], Do(s, Restart));
    forall k | k in s.positions ensures Latest(s'.topic, k) == Some(s.positions[k]) {
      TopicCatchesUp(steps', k);
    }
  }

  lemma EmptiesTheQueue(steps: seq<Step>, s: State) returns (steps': seq<Step>, s': State, changes: seq<Fetched>)
    requires After(steps) == Some(s) && s.bridge.Idle?
    ensures After(steps') == Some(s') && InOrder(changes, s.queue, s.positions)
    ensures s' == s.(queue := map[], topic := s.topic + SentFor(changes))
    decreases |s.queue|
  {
    if s.queue == map[] {
      assert SentFor([]) == [] && s.topic + [] == s.topic;
      return steps, s, [];
    }
    var batch := ABatch(s.queue, s.positions, BATCH_SIZE);
    NotEmpty(batch, s.queue, s.positions);
    hide *;
    var p, mid := DrainsABatch(steps, s, batch);
    Fewer(s.queue, Ids(batch), batch[0].id);
    var rest;
    steps', s', rest := EmptiesTheQueue(p, mid);
    changes := batch + rest;
    BatchFirst(batch, rest, s.queue, s.positions, BATCH_SIZE);
    SentForConcat(batch, rest);
    Concatenated(s.topic, SentFor(batch), SentFor(rest));
  }

  lemma Concatenated(a: seq<Sent>, b: seq<Sent>, c: seq<Sent>)
    ensures a + b + c == a + (b + c)
  {}

  lemma Fewer(queue: map<nat, Key>, ids: set<nat>, id: nat)
    requires id in queue && id in ids
    ensures |queue - ids| < |queue|
  {
    assert (queue - ids).Keys < queue.Keys;
    SmallerSet((queue - ids).Keys, queue.Keys);
    assert |(queue - ids).Keys| == |queue - ids| && |queue.Keys| == |queue|;
  }

  lemma SmallerSet(a: set<nat>, b: set<nat>)
    requires a < b
    ensures |a| < |b|
  {
    assert b == a + (b - a) && b - a != {};
    assert |b| == |a| + |b - a|;
  }

  /** A write is one change more, of its key, in the queue, beside the row it wrote. */
  lemma WriteIsQueued(s: State, k: Key, row: Option<Position>, id: nat)
    requires Enabled(s, Write(k, row, id))
    ensures var s' := Do(s, Write(k, row, id));
            && Lookup(s'.positions, k) == row
            && (forall j | j != k :: Lookup(s'.positions, j) == Lookup(s.positions, j))
            && s'.queue == s.queue[id := k] && s'.topic == s.topic && s'.bridge == s.bridge
  {}

  /** An ack that fails leaves the queue for the next drain to send again. */
  lemma FailedAckKeepsTheQueue(steps: seq<Step>)
    requires After(steps).Some? && After(steps).value.bridge.Acking?
    ensures var s := After(steps).value;
            Enabled(s, Ack(false)) && Do(s, Ack(false)) == s.(bridge := Idle)
  {
    RunKeepsInv(steps);
  }

  /** Two writes of one position end as one record of each row it had when it was fetched:
      the second's, twice. */
  lemma TwoWritesOneRow(k: Key, p: Position, q: Position) returns (steps: seq<Step>, s: State)
    ensures After(steps) == Some(s) && s.queue == map[] && s.positions == map[k := q]
    ensures s.topic == [Sent(k, q), Sent(k, q)]
  {
    assert After([]) == Some(INIT);
    Then([], INIT, Write(k, Some(p), 0));
    var p1, s1 := [] + [Write(k, Some(p), 0)], Do(INIT, Write(k, Some(p), 0));
    Then(p1, s1, Write(k, Some(q), 1));
    var p2, s2 := p1 + [Write(k, Some(q), 1)], Do(s1, Write(k, Some(q), 1));
    var changes;
    steps, s, changes := QueueDrains(p2, s2);
    var a, b := Fetched(0, k, Some(q)), Fetched(1, k, Some(q));
    TwoInOrder(changes, s2.queue, s2.positions, k, q);
    assert changes[1..] == [b] && [b][1..] == [] && SentFor([]) == [];
    assert SentFor([b]) == [Sent(k, q)];
    assert SentFor(changes) == [Sent(k, q)] + SentFor([b]);
    assert s2.topic == [];
  }

  lemma {:induction false} IdsCountUp(changes: seq<Fetched>, i: nat)
    requires Ascend(changes) && i < |changes|
    ensures i <= changes[i].id
  {
    if i > 0 {
      IdsCountUp(changes, i - 1);
      assert changes[i - 1].id < changes[i].id;
    }
  }

  lemma TwoInOrder(changes: seq<Fetched>, queue: map<nat, Key>, positions: map<Key, Position>, k: Key, q: Position)
    requires InOrder(changes, queue, positions) && queue == map[0 := k, 1 := k] && positions == map[k := q]
    ensures changes == [Fetched(0, k, Some(q)), Fetched(1, k, Some(q))]
  {
    assert 0 in queue && 1 in queue;
    var f :| f in changes && f.id == 0;
    var g :| g in changes && g.id == 1;
    assert forall i | 0 <= i < |changes| :: changes[i] in changes && changes[i].id in {0, 1};
    IdsCountUp(changes, |changes| - 1);
    assert |changes| == 2 && changes[0].id < changes[1].id;
  }
}
