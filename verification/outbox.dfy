/**
The Kafka outbox's own work, with nothing else running: what one queued row
becomes, delivering a batch, and draining both queues (src/kafka_outbox.rs).
*/
module Outbox {
  import opened Wrappers
  import opened Orders
  import opened Positions

  datatype Topics = Topics(orders: string, fills: string, positions: string)

  // One queued event with its order's context (the left join's columns).
  datatype OutboxRow = OutboxRow(
    globalPosition: nat,
    order: OrderId,
    eventType: string,
    payload: string,
    portfolio: Option<nat>,
    instrument: Option<string>,
    side: Option<string>)

  // One queued position write.
  datatype PositionRow = PositionRow(id: nat, key: Key)

  datatype RecordKey = ByOrder(order: OrderId) | ByPosition(key: Key)

  datatype Payload =
    | EventPayload(payload: string)
    | FillPayload(event: string, portfolio: Option<nat>, instrument: Option<string>, side: Option<string>)
    | PositionPayload(key: Key, netQty: real, avgCost: real, realizedPnl: real)

  datatype Record = Record(topic: string, key: RecordKey, payload: Payload)

  predicate IsFillType(eventType: string) {
    eventType == "order_partially_filled" || eventType == "order_filled"
  }

  function RecordsFor(row: OutboxRow, topics: Topics): seq<Record> {
    [Record(topics.orders, ByOrder(row.order), EventPayload(row.payload))]
    + (if IsFillType(row.eventType)
       then [Record(topics.fills, ByOrder(row.order),
                    FillPayload(row.payload, row.portfolio, row.instrument, row.side))]
       else [])
  }

  // `None` for a position row that no longer exists.
  function PositionRecord(key: Key, snapshot: Option<Position>, topics: Topics): Option<Record> {
    match snapshot
    case None => None
    case Some(p) =>
      Some(Record(topics.positions, ByPosition(key), PositionPayload(key, p.netQty, p.avgCost, p.realizedPnl)))
  }

  function PositionRecords(key: Key, snapshot: Option<Position>, topics: Topics): seq<Record> {
    match PositionRecord(key, snapshot, topics)
    case None => []
    case Some(r) => [r]
  }

  // One thing to deliver: the id its queue knows it by, and its records.
  datatype Item = Item(id: nat, records: seq<Record>)

  function Ids(items: seq<Item>): seq<nat> {
    seq(|items|, i requires 0 <= i < |items| => items[i].id)
  }

  lemma IdsOfPrefix(items: seq<Item>, n: nat)
    requires n <= |items|
    ensures |Ids(items[..n])| == n && forall i | 0 <= i < n :: Ids(items[..n])[i] == items[i].id
  {}

  // The records of the first `n` items, in order.
  function RecordsOf(items: seq<Item>, n: nat): seq<Record>
    requires n <= |items|
  {
    if n == 0 then [] else RecordsOf(items, n - 1) + items[n - 1].records
  }

  lemma {:induction false} RecordsOfPrefix(batch: seq<Item>, items: seq<Item>, n: nat)
    requires batch <= items && n <= |batch|
    ensures RecordsOf(batch, n) == RecordsOf(items, n)
  {
    if n > 0 {
      RecordsOfPrefix(batch, items, n - 1);
      assert batch[n - 1] == items[n - 1];
    }
  }

  lemma {:induction false} RecordsOfRest(items: seq<Item>, p: nat, n: nat)
    requires p <= |items| && n <= |items| - p
    ensures RecordsOf(items, p + n) == RecordsOf(items, p) + RecordsOf(items[p..], n)
    decreases n
  {
    if n > 0 {
      RecordsOfRest(items, p, n - 1);
      assert items[p..][n - 1] == items[p + n - 1];
      AppendAssociates(RecordsOf(items, p), RecordsOf(items[p..], n - 1), items[p + n - 1].records);
    }
  }

  lemma AppendAssociates<T>(a: seq<T>, b: seq<T>, c: seq<T>)
    ensures (a + b) + c == a + (b + c)
  {}

  // Kafka: accepts or refuses the n-th send as `refuses` says.
  class Sink {
    const refuses: nat -> bool
    var attempts: nat
    var sent: seq<Record>

    constructor (refuses: nat -> bool)
      ensures this.refuses == refuses && attempts == 0 && sent == []
    {
      this.refuses, attempts, sent := refuses, 0, [];
    }

    method Send(record: Record) returns (ok: bool)
      modifies this
      ensures attempts == old(attempts) + 1 && ok == !refuses(old(attempts))
      ensures sent == if ok then old(sent) + [record] else old(sent)
    {
      ok := !refuses(attempts);
      attempts := attempts + 1;
      if ok {
        sent := sent + [record];
      }
    }
  }

  // Delivering `items` took what was sent from `before` to `after`: the records of
  // the first `n` items in order, and, if stopped, a proper part of the next one's.
  ghost predicate Delivered(before: seq<Record>, after: seq<Record>, items: seq<Item>, n: nat, stopped: bool) {
    && n <= |items|
    && if !stopped then after == before + RecordsOf(items, n)
       else n < |items| && exists part :: part < items[n].records && after == before + RecordsOf(items, n) + part
  }

  lemma DeliveredPrefix(before: seq<Record>, after: seq<Record>, batch: seq<Item>, items: seq<Item>, n: nat,
      stopped: bool)
    requires Delivered(before, after, batch, n, stopped) && batch <= items
    ensures Delivered(before, after, items, n, stopped)
  {
    RecordsOfPrefix(batch, items, n);
  }

  lemma DeliveredThen(before: seq<Record>, mid: seq<Record>, after: seq<Record>, items: seq<Item>, p: nat, n: nat,
      stopped: bool)
    requires Delivered(before, mid, items, p, false) && Delivered(mid, after, items[p..], n, stopped)
    ensures Delivered(before, after, items, p + n, stopped)
  {
    RecordsOfRest(items, p, n);
    if stopped {
      var part :| part < items[p..][n].records && after == mid + RecordsOf(items[p..], n) + part;
      assert after == before + RecordsOf(items, p + n) + part;
    }
  }

  // A drain of `all` that left `rest`: `n` items delivered and gone from the queue.
  ghost predicate Progress(before: seq<Record>, after: seq<Record>, all: seq<Item>, n: nat, stopped: bool,
      rest: seq<Item>) {
    n <= |all| && rest == all[n..] && Delivered(before, after, all, n, stopped)
  }

  lemma NoProgress(sent: seq<Record>, all: seq<Item>)
    ensures Progress(sent, sent, all, 0, false, all)
  {
    assert sent + [] == sent && all[0..] == all;
  }

  lemma ProgressOf(before: seq<Record>, after: seq<Record>, all: seq<Item>, n: nat, stopped: bool, rest: seq<Item>)
    requires n <= |all| && rest == all[n..] && Delivered(before, after, all, n, stopped)
    ensures Progress(before, after, all, n, stopped, rest)
    ensures stopped ==> rest != [] && rest[0] == all[n]
  {}

  lemma ProgressThen(before: seq<Record>, mid: seq<Record>, after: seq<Record>,
                     all: seq<Item>, p: nat, rest: seq<Item>, n: nat, stopped: bool, rest': seq<Item>)
    requires Progress(before, mid, all, p, false, rest) && Progress(mid, after, rest, n, stopped, rest')
    ensures Progress(before, after, all, p + n, stopped, rest')
    ensures p + n <= |all|
  {
    assert rest' == all[p + n..];
    DeliveredThen(before, mid, after, all, p, n, stopped);
  }

  lemma RefusedLater(refuses: nat -> bool, lo: nat, mid: nat, hi: nat)
    requires lo <= mid <= hi && !Refused(refuses, lo, mid)
    ensures Refused(refuses, lo, hi) <==> Refused(refuses, mid, hi)
  {}

  lemma NoneRefusedYet(refuses: nat -> bool, lo: nat)
    ensures !Refused(refuses, lo, lo)
  {}

  ghost predicate Refused(refuses: nat -> bool, lo: nat, hi: nat) {
    exists n: nat :: lo <= n < hi && refuses(n)
  }

  lemma NothingDelivered(batch: seq<Item>)
    ensures RecordsOf(batch, 0) == [] && Ids(batch[..0]) == []
  {}

  lemma OneMoreDelivered(batch: seq<Item>, i: nat)
    requires i < |batch|
    ensures RecordsOf(batch, i + 1) == RecordsOf(batch, i) + batch[i].records
    ensures Ids(batch[..i + 1]) == Ids(batch[..i]) + [batch[i].id]
  {}

  lemma StoppedAt(before: seq<Record>, after: seq<Record>, batch: seq<Item>, i: nat, j: nat)
    requires i < |batch| && j < |batch[i].records|
    requires after == before + RecordsOf(batch, i) + batch[i].records[..j]
    ensures Delivered(before, after, batch, i, true)
  {
    assert batch[i].records[..j] < batch[i].records;
  }

  lemma AllDelivered(before: seq<Record>, after: seq<Record>, batch: seq<Item>)
    requires after == before + RecordsOf(batch, |batch|)
    ensures Delivered(before, after, batch, |batch|, false)
  {}

  lemma RefusedNext(refuses: nat -> bool, lo: nat, n: nat)
    requires lo <= n
    ensures Refused(refuses, lo, n + 1) <==> Refused(refuses, lo, n) || refuses(n)
  {
    if n': nat :| lo <= n' < n && refuses(n') {
      assert lo <= n' < n + 1 && refuses(n');
    }
    if refuses(n) {
      assert lo <= n < n + 1 && refuses(n);
    }
  }

  /** Sends in order and stops at the first refusal: `acked` are the items whose
      records all went out, nothing of a later item did, and of the refused item
      only a proper part. */
  method Deliver(batch: seq<Item>, sink: Sink) returns (acked: seq<nat>, failed: bool)
    modifies sink
    ensures |acked| <= |batch| && acked == Ids(batch[..|acked|])
    ensures !failed <==> |acked| == |batch|
    ensures Delivered(old(sink.sent), sink.sent, batch, |acked|, failed)
    ensures old(sink.attempts) <= sink.attempts
              && (failed <==> Refused(sink.refuses, old(sink.attempts), sink.attempts))
  {
    NothingDelivered(batch);
    NoneRefusedYet(sink.refuses, sink.attempts);
    hide RecordsOf, Ids, Refused, Delivered;
    acked := [];
    var i := 0;
    while i < |batch|
      invariant 0 <= i <= |batch| && |acked| == i && acked == Ids(batch[..i])
      invariant sink.sent == old(sink.sent) + RecordsOf(batch, i)
      invariant old(sink.attempts) <= sink.attempts
      invariant !Refused(sink.refuses, old(sink.attempts), sink.attempts)
    {
      var records := batch[i].records;
      var j := 0;
      while j < |records|
        invariant 0 <= j <= |records|
        invariant sink.sent == old(sink.sent) + RecordsOf(batch, i) + records[..j]
        invariant old(sink.attempts) <= sink.attempts
        invariant !Refused(sink.refuses, old(sink.attempts), sink.attempts)
      {
        RefusedNext(sink.refuses, old(sink.attempts), sink.attempts);
        var ok := sink.Send(records[j]);
        if !ok {
          StoppedAt(old(sink.sent), sink.sent, batch, i, j);
          return acked, true;
        }
        assert records[..j + 1] == records[..j] + [records[j]];
        AppendAssociates(old(sink.sent) + RecordsOf(batch, i), records[..j], [records[j]]);
        j := j + 1;
      }
      assert records[..j] == records;
      AppendAssociates(old(sink.sent), RecordsOf(batch, i), records);
      OneMoreDelivered(batch, i);
      acked := acked + [batch[i].id];
      i := i + 1;
    }
    assert batch[..i] == batch;
    AllDelivered(old(sink.sent), sink.sent, batch);
    failed := false;
  }

  function OrderItem(row: OutboxRow, topics: Topics): Item {
    Item(row.globalPosition, RecordsFor(row, topics))
  }

  // ---- what each topic gets --------------------------------------------------------

  function OnTopic(records: seq<Record>, topic: string): seq<Record>
    decreases |records|
  {
    if records == [] then []
    else
      OnTopic(records[..|records| - 1], topic)
      + (if records[|records| - 1].topic == topic then [records[|records| - 1]] else [])
  }

  lemma {:induction false} OnTopicConcat(a: seq<Record>, b: seq<Record>, topic: string)
    ensures OnTopic(a + b, topic) == OnTopic(a, topic) + OnTopic(b, topic)
    decreases |b|
  {
    if b == [] {
      assert a + b == a;
    } else {
      assert (a + b)[..|a + b| - 1] == a + b[..|b| - 1];
      OnTopicConcat(a, b[..|b| - 1], topic);
    }
  }

  // A queued change carries its position row as it is now.
  function ChangeItem(c: PositionRow, positions: map<Key, Position>, topics: Topics): Item {
    Item(c.id, PositionRecords(c.key, if c.key in positions then Some(positions[c.key]) else None, topics))
  }

  function OrderItems(orders: seq<OutboxRow>, topics: Topics): (items: seq<Item>)
    ensures |items| == |orders|
    ensures forall i | 0 <= i < |items| :: items[i] == OrderItem(orders[i], topics)
  {
    if orders == [] then [] else [OrderItem(orders[0], topics)] + OrderItems(orders[1..], topics)
  }

  function ChangeItems(changes: seq<PositionRow>, positions: map<Key, Position>, topics: Topics): (items: seq<Item>)
    ensures |items| == |changes|
    ensures forall i | 0 <= i < |items| :: items[i] == ChangeItem(changes[i], positions, topics)
  {
    if changes == [] then [] else
      [ChangeItem(changes[0], positions, topics)] + ChangeItems(changes[1..], positions, topics)
  }

  // The stored payloads of all events, and those of the fills with their context.
  function EventStream(orders: seq<OutboxRow>, topics: Topics): seq<Record>
    decreases |orders|
  {
    if orders == [] then []
    else
      var r := orders[|orders| - 1];
      EventStream(orders[..|orders| - 1], topics) + [Record(topics.orders, ByOrder(r.order), EventPayload(r.payload))]
  }

  function FillStream(orders: seq<OutboxRow>, topics: Topics): seq<Record>
    decreases |orders|
  {
    if orders == [] then []
    else
      var r := orders[|orders| - 1];
      FillStream(orders[..|orders| - 1], topics)
      + (if r.eventType == "order_partially_filled" || r.eventType == "order_filled"
         then [Record(topics.fills, ByOrder(r.order), FillPayload(r.payload, r.portfolio, r.instrument, r.side))]
         else [])
  }

  // Of each position that still has a row, that row.
  function PositionStream(changes: seq<PositionRow>, positions: map<Key, Position>, topics: Topics): seq<Record>
    decreases |changes|
  {
    if changes == [] then []
    else
      var k := changes[|changes| - 1].key;
      PositionStream(changes[..|changes| - 1], positions, topics)
      + (if k in positions
         then [Record(topics.positions, ByPosition(k),
                      PositionPayload(k, positions[k].netQty, positions[k].avgCost, positions[k].realizedPnl))]
         else [])
  }

  predicate Apart(topics: Topics) {
    topics.orders != topics.fills && topics.orders != topics.positions && topics.fills != topics.positions
  }

  lemma OneRowOnTopics(row: OutboxRow, topics: Topics)
    requires Apart(topics)
    ensures OnTopic(RecordsFor(row, topics), topics.orders)
              == [Record(topics.orders, ByOrder(row.order), EventPayload(row.payload))]
    ensures OnTopic(RecordsFor(row, topics), topics.fills) ==
              if row.eventType == "order_partially_filled" || row.eventType == "order_filled"
              then [Record(topics.fills, ByOrder(row.order),
                  FillPayload(row.payload, row.portfolio, row.instrument, row.side))]
              else []
    ensures OnTopic(RecordsFor(row, topics), topics.positions) == []
  {
    OneRowOnTopic(row, topics, topics.orders);
    OneRowOnTopic(row, topics, topics.fills);
    OneRowOnTopic(row, topics, topics.positions);
  }

  lemma OneRowOnTopic(row: OutboxRow, topics: Topics, topic: string)
    requires Apart(topics)
    ensures OnTopic(RecordsFor(row, topics), topic) ==
              if topic == topics.orders then [Record(topics.orders, ByOrder(row.order), EventPayload(row.payload))]
              else if topic == topics.fills && row.eventType in ["order_partially_filled", "order_filled"]
              then [Record(topics.fills, ByOrder(row.order),
                  FillPayload(row.payload, row.portfolio, row.instrument, row.side))]
              else []
  {
    hide OnTopic;
    var main := Record(topics.orders, ByOrder(row.order), EventPayload(row.payload));
    var fill := Record(topics.fills, ByOrder(row.order),
                       FillPayload(row.payload, row.portfolio, row.instrument, row.side));
    OneOnTopic(main, topic);
    OneOnTopic(fill, topic);
    OnTopicConcat([main], [fill], topic);
    if IsFillType(row.eventType) {
      assert RecordsFor(row, topics) == [main] + [fill];
    } else {
      assert RecordsFor(row, topics) == [main];
    }
  }

  lemma NothingOnTopic(topic: string)
    ensures OnTopic([], topic) == []
  {}

  lemma OneOnTopic(r: Record, topic: string)
    ensures OnTopic([r], topic) == if r.topic == topic then [r] else []
  {
    assert [r][..0] == [];
  }

  lemma {:induction false} OrdersGetTheirStreams(orders: seq<OutboxRow>, topics: Topics)
    requires Apart(topics)
    ensures var items := OrderItems(orders, topics);
            && OnTopic(RecordsOf(items, |items|), topics.orders) == EventStream(orders, topics)
            && OnTopic(RecordsOf(items, |items|), topics.fills) == FillStream(orders, topics)
            && OnTopic(RecordsOf(items, |items|), topics.positions) == []
    decreases |orders|
  {
    hide OnTopic, RecordsFor;
    NothingOnTopic(topics.orders);
    NothingOnTopic(topics.fills);
    NothingOnTopic(topics.positions);
    if orders != [] {
      var n := |orders| - 1;
      var init, items := OrderItems(orders[..n], topics), OrderItems(orders, topics);
      OrdersGetTheirStreams(orders[..n], topics);
      assert init == items[..n];
      RecordsOfPrefix(init, items, n);
      assert RecordsOf(items, |items|) == RecordsOf(items, n) + items[n].records;
      assert items[n] == OrderItem(orders[n], topics);
      hide RecordsOf, OrderItems;
      OnTopicConcat(RecordsOf(items, n), items[n].records, topics.orders);
      OnTopicConcat(RecordsOf(items, n), items[n].records, topics.fills);
      OnTopicConcat(RecordsOf(items, n), items[n].records, topics.positions);
      OneRowOnTopics(orders[n], topics);
    }
  }

  lemma ItemsUpToLast(changes: seq<PositionRow>, positions: map<Key, Position>, topics: Topics)
    requires changes != []
    ensures var n := |changes| - 1;
            ChangeItems(changes, positions, topics)
              == ChangeItems(changes[..n], positions, topics) + [ChangeItem(changes[n], positions, topics)]
  {}

  lemma RecordsUpToLast(init: seq<Item>, last: Item)
    ensures RecordsOf(init + [last], |init| + 1) == RecordsOf(init, |init|) + last.records
  {
    RecordsOfPrefix(init, init + [last], |init|);
  }

  lemma {:induction false} ChangesGetTheirStream(changes: seq<PositionRow>, positions: map<Key, Position>,
      topics: Topics)
    ensures var items := ChangeItems(changes, positions, topics);
            RecordsOf(items, |items|) == PositionStream(changes, positions, topics)
    decreases |changes|
  {
    if changes != [] {
      hide ChangeItems, RecordsOf;
      var n := |changes| - 1;
      ChangesGetTheirStream(changes[..n], positions, topics);
      ItemsUpToLast(changes, positions, topics);
      RecordsUpToLast(ChangeItems(changes[..n], positions, topics), ChangeItem(changes[n], positions, topics));
    }
  }

  lemma {:induction false} PositionStreamTopic(changes: seq<PositionRow>, positions: map<Key, Position>, topics: Topics,
      topic: string)
    ensures var stream := PositionStream(changes, positions, topics);
            OnTopic(stream, topic) == if topic == topics.positions then stream else []
    decreases |changes|
  {
    if changes == [] {
      NothingOnTopic(topic);
    } else {
      var init, k := changes[..|changes| - 1], changes[|changes| - 1].key;
      PositionStreamTopic(init, positions, topics, topic);
      if k in positions {
        var p := positions[k];
        var r := Record(topics.positions, ByPosition(k), PositionPayload(k, p.netQty, p.avgCost, p.realizedPnl));
        OnTopicConcat(PositionStream(init, positions, topics), [r], topic);
        OneOnTopic(r, topic);
      } else {
        assert PositionStream(changes, positions, topics) == PositionStream(init, positions, topics);
      }
    }
  }

  // Order events first, then position changes.
  function Queued(orders: seq<OutboxRow>, changes: seq<PositionRow>, positions: map<Key, Position>,
      topics: Topics): seq<Item> {
    OrderItems(orders, topics) + ChangeItems(changes, positions, topics)
  }

  lemma TwoPartsOnTopic(first: seq<Item>, rest: seq<Item>, topic: string)
    ensures OnTopic(RecordsOf(first + rest, |first + rest|), topic)
         == OnTopic(RecordsOf(first, |first|), topic) + OnTopic(RecordsOf(rest, |rest|), topic)
  {
    hide OnTopic, RecordsOf;
    var items := first + rest;
    assert items[|first|..] == rest;
    RecordsOfPrefix(first, items, |first|);
    RecordsOfRest(items, |first|, |rest|);
    OnTopicConcat(RecordsOf(first, |first|), RecordsOf(rest, |rest|), topic);
  }

  /** Delivered whole, a queue puts every event's stored payload on the orders topic and
      exactly the fills on the fills topic, keyed by order, and on the positions topic
      the row of every change whose row is there, keyed by position; each in queue order. */
  lemma TopicsGetTheirStreams(orders: seq<OutboxRow>, changes: seq<PositionRow>, positions: map<Key, Position>,
      topics: Topics)
    requires Apart(topics)
    ensures var items := Queued(orders, changes, positions, topics);
            var sent := RecordsOf(items, |items|);
            && OnTopic(sent, topics.orders) == EventStream(orders, topics)
            && OnTopic(sent, topics.fills) == FillStream(orders, topics)
            && OnTopic(sent, topics.positions) == PositionStream(changes, positions, topics)
  {
    hide *;
    var first, rest := OrderItems(orders, topics), ChangeItems(changes, positions, topics);
    QueuedParts(orders, changes, positions, topics);
    OrdersGetTheirStreams(orders, topics);
    ChangesGetTheirStream(changes, positions, topics);
    TwoPartsOnTopic(first, rest, topics.orders);
    TwoPartsOnTopic(first, rest, topics.fills);
    TwoPartsOnTopic(first, rest, topics.positions);
    PositionStreamTopic(changes, positions, topics, topics.orders);
    PositionStreamTopic(changes, positions, topics, topics.fills);
    PositionStreamTopic(changes, positions, topics, topics.positions);
  }

  lemma QueuedParts(orders: seq<OutboxRow>, changes: seq<PositionRow>, positions: map<Key, Position>, topics: Topics)
    ensures Queued(orders, changes, positions, topics)
         == OrderItems(orders, topics) + ChangeItems(changes, positions, topics)
    ensures Apart(topics) ==>
              topics.orders != topics.fills && topics.orders != topics.positions && topics.fills != topics.positions
  {}

  lemma QueuedHead(orders: seq<OutboxRow>, changes: seq<PositionRow>, positions: map<Key, Position>, topics: Topics)
    ensures var items := Queued(orders, changes, positions, topics);
            && |items| == |orders| + |changes|
            && (orders != [] ==> items[0].id == orders[0].globalPosition)
            && (orders == [] && changes != [] ==> items[0].id == changes[0].id)
  {}

  lemma QueuedDrop(orders: seq<OutboxRow>, changes: seq<PositionRow>, positions: map<Key, Position>, topics: Topics,
      n: nat)
    ensures n <= |orders| ==>
              Queued(orders[n..], changes, positions, topics) == Queued(orders, changes, positions, topics)[n..]
    ensures n <= |changes| ==>
              Queued([], changes[n..], positions, topics) == Queued([], changes, positions, topics)[n..]
  {}

  // ---- what an ack leaves ------------------------------------------------------------

  predicate EventsAscend(orders: seq<OutboxRow>) {
    forall i, j | 0 <= i < j < |orders| :: orders[i].globalPosition < orders[j].globalPosition
  }

  predicate ChangesAscend(changes: seq<PositionRow>) {
    forall i, j | 0 <= i < j < |changes| :: changes[i].id < changes[j].id
  }

  // The queue without the named rows, wherever they are in it.
  function EventsWithout(orders: seq<OutboxRow>, ids: seq<nat>): (kept: seq<OutboxRow>)
    ensures forall r :: r in kept <==> r in orders && r.globalPosition !in ids
    decreases |orders|
  {
    if orders == [] then []
    else
      var init, last := orders[..|orders| - 1], orders[|orders| - 1];
      assert orders == init + [last];
      EventsWithout(init, ids) + (if last.globalPosition in ids then [] else [last])
  }

  function ChangesWithout(changes: seq<PositionRow>, ids: seq<nat>): (kept: seq<PositionRow>)
    ensures forall r :: r in kept <==> r in changes && r.id !in ids
    decreases |changes|
  {
    if changes == [] then []
    else
      var init, last := changes[..|changes| - 1], changes[|changes| - 1];
      assert changes == init + [last];
      ChangesWithout(init, ids) + (if last.id in ids then [] else [last])
  }

  lemma {:induction false} EventsStaySorted(orders: seq<OutboxRow>, ids: seq<nat>)
    requires EventsAscend(orders)
    ensures EventsAscend(EventsWithout(orders, ids))
    decreases |orders|
  {
    if orders != [] {
      var init := orders[..|orders| - 1];
      EventsStaySorted(init, ids);
      assert forall i | 0 <= i < |EventsWithout(init, ids)| :: EventsWithout(init, ids)[i] in init;
    }
  }

  lemma {:induction false} ChangesStaySorted(changes: seq<PositionRow>, ids: seq<nat>)
    requires ChangesAscend(changes)
    ensures ChangesAscend(ChangesWithout(changes, ids))
    decreases |changes|
  {
    if changes != [] {
      var init := changes[..|changes| - 1];
      ChangesStaySorted(init, ids);
      assert forall i | 0 <= i < |ChangesWithout(init, ids)| :: ChangesWithout(init, ids)[i] in init;
    }
  }

  lemma {:induction false} EventsWithoutConcat(a: seq<OutboxRow>, b: seq<OutboxRow>, ids: seq<nat>)
    ensures EventsWithout(a + b, ids) == EventsWithout(a, ids) + EventsWithout(b, ids)
    decreases |b|
  {
    if b == [] {
      assert a + b == a;
    } else {
      assert (a + b)[..|a + b| - 1] == a + b[..|b| - 1];
      EventsWithoutConcat(a, b[..|b| - 1], ids);
    }
  }

  lemma {:induction false} EventsAllOrNone(orders: seq<OutboxRow>, ids: seq<nat>)
    ensures (forall i | 0 <= i < |orders| :: orders[i].globalPosition in ids) ==> EventsWithout(orders, ids) == []
    ensures (forall i | 0 <= i < |orders| :: orders[i].globalPosition !in ids) ==> EventsWithout(orders, ids) == orders
    decreases |orders|
  {
    if orders != [] {
      EventsAllOrNone(orders[..|orders| - 1], ids);
    }
  }

  // The ids of the first rows, in order.
  predicate EventsBegin(orders: seq<OutboxRow>, ids: seq<nat>) {
    |ids| <= |orders| && forall i | 0 <= i < |ids| :: ids[i] == orders[i].globalPosition
  }

  lemma EventsFirstAndRest(orders: seq<OutboxRow>, ids: seq<nat>, i: nat)
    requires EventsAscend(orders) && EventsBegin(orders, ids) && i < |orders|
    ensures orders[i].globalPosition in ids <==> i < |ids|
  {
    if i < |ids| {
      assert ids[i] in ids;
    } else {
      forall j | 0 <= j < |ids| ensures ids[j] != orders[i].globalPosition {
      }
    }
  }

  // Without its first rows, a queue is the rest of it.
  lemma EventsWithoutFirst(orders: seq<OutboxRow>, ids: seq<nat>)
    requires EventsAscend(orders) && |ids| <= |orders| && EventsBegin(orders, ids)
    ensures EventsWithout(orders, ids) == orders[|ids|..]
  {
    hide EventsAscend, EventsWithout, EventsBegin;
    var n := |ids|;
    assert orders == orders[..n] + orders[n..];
    EventsWithoutConcat(orders[..n], orders[n..], ids);
    EventsAllOrNone(orders[..n], ids);
    EventsAllOrNone(orders[n..], ids);
    forall i | 0 <= i < n ensures orders[..n][i].globalPosition in ids {
      EventsFirstAndRest(orders, ids, i);
    }
    forall i | 0 <= i < |orders[n..]| ensures orders[n..][i].globalPosition !in ids {
      EventsFirstAndRest(orders, ids, n + i);
    }
  }

  lemma {:induction false} ChangesWithoutConcat(a: seq<PositionRow>, b: seq<PositionRow>, ids: seq<nat>)
    ensures ChangesWithout(a + b, ids) == ChangesWithout(a, ids) + ChangesWithout(b, ids)
    decreases |b|
  {
    if b == [] {
      assert a + b == a;
    } else {
      assert (a + b)[..|a + b| - 1] == a + b[..|b| - 1];
      ChangesWithoutConcat(a, b[..|b| - 1], ids);
    }
  }

  lemma {:induction false} ChangesAllOrNone(changes: seq<PositionRow>, ids: seq<nat>)
    ensures (forall i | 0 <= i < |changes| :: changes[i].id in ids) ==> ChangesWithout(changes, ids) == []
    ensures (forall i | 0 <= i < |changes| :: changes[i].id !in ids) ==> ChangesWithout(changes, ids) == changes
    decreases |changes|
  {
    if changes != [] {
      ChangesAllOrNone(changes[..|changes| - 1], ids);
    }
  }

  // The ids of the first rows, in order.
  predicate ChangesBegin(changes: seq<PositionRow>, ids: seq<nat>) {
    |ids| <= |changes| && forall i | 0 <= i < |ids| :: ids[i] == changes[i].id
  }

  lemma ChangesFirstAndRest(changes: seq<PositionRow>, ids: seq<nat>, i: nat)
    requires ChangesAscend(changes) && ChangesBegin(changes, ids) && i < |changes|
    ensures changes[i].id in ids <==> i < |ids|
  {
    if i < |ids| {
      assert ids[i] in ids;
    } else {
      forall j | 0 <= j < |ids| ensures ids[j] != changes[i].id {
      }
    }
  }

  // Without its first rows, a queue is the rest of it.
  lemma ChangesWithoutFirst(changes: seq<PositionRow>, ids: seq<nat>)
    requires ChangesAscend(changes) && |ids| <= |changes| && ChangesBegin(changes, ids)
    ensures ChangesWithout(changes, ids) == changes[|ids|..]
  {
    hide ChangesAscend, ChangesWithout, ChangesBegin;
    var n := |ids|;
    assert changes == changes[..n] + changes[n..];
    ChangesWithoutConcat(changes[..n], changes[n..], ids);
    ChangesAllOrNone(changes[..n], ids);
    ChangesAllOrNone(changes[n..], ids);
    forall i | 0 <= i < n ensures changes[..n][i].id in ids {
      ChangesFirstAndRest(changes, ids, i);
    }
    forall i | 0 <= i < |changes[n..]| ensures changes[n..][i].id !in ids {
      ChangesFirstAndRest(changes, ids, n + i);
    }
  }

  datatype DrainResult = Drained(published: nat) | SinkFailed(published: nat, stuckAt: nat)

  // Both queues, oldest first, and the position table.
  class OutboxDb {
    var orders: seq<OutboxRow>
    var changes: seq<PositionRow>
    var positions: map<Key, Position>

    constructor (orders: seq<OutboxRow>, changes: seq<PositionRow>, positions: map<Key, Position>)
      ensures this.orders == orders && this.changes == changes && this.positions == positions
    {
      this.orders, this.changes, this.positions := orders, changes, positions;
    }

    ghost predicate Valid()
      reads this
    {
      EventsAscend(orders) && ChangesAscend(changes)
    }

    // Everything queued, in the order a drain delivers it.
    ghost function Items(topics: Topics): seq<Item>
      reads this
    {
      Queued(orders, changes, positions, topics)
    }

    // DELETE ... WHERE global_position = ANY(ids): how many rows went.
    method Ack(ids: seq<nat>) returns (removed: nat)
      requires Valid()
      modifies this
      ensures Valid() && changes == old(changes) && positions == old(positions)
      ensures orders == EventsWithout(old(orders), ids) && removed == |old(orders)| - |orders|
    {
      var kept: seq<OutboxRow> := [];
      var i := 0;
      while i < |orders|
        invariant 0 <= i <= |orders| && orders == old(orders) && changes == old(changes) && positions == old(positions)
        invariant kept == EventsWithout(orders[..i], ids) && |kept| <= i
      {
        assert orders[..i + 1][..i] == orders[..i];
        if orders[i].globalPosition !in ids {
          kept := kept + [orders[i]];
        }
        i := i + 1;
      }
      assert orders[..i] == orders;
      EventsStaySorted(orders, ids);
      removed := |orders| - |kept|;
      orders := kept;
    }

    // DELETE ... WHERE id = ANY(ids)
    method AckPositions(ids: seq<nat>) returns (removed: nat)
      requires Valid()
      modifies this
      ensures Valid() && orders == old(orders) && positions == old(positions)
      ensures changes == ChangesWithout(old(changes), ids) && removed == |old(changes)| - |changes|
    {
      var kept: seq<PositionRow> := [];
      var i := 0;
      while i < |changes|
        invariant 0 <= i <= |changes| && changes == old(changes) && orders == old(orders) && positions == old(positions)
        invariant kept == ChangesWithout(changes[..i], ids) && |kept| <= i
      {
        assert changes[..i + 1][..i] == changes[..i];
        if changes[i].id !in ids {
          kept := kept + [changes[i]];
        }
        i := i + 1;
      }
      assert changes[..i] == changes;
      ChangesStaySorted(changes, ids);
      removed := |changes| - |kept|;
      changes := kept;
    }

    // One batch: order events first, position changes only when there are none.
    method FetchBatch(topics: Topics, batchSize: nat) returns (batch: seq<Item>, fromOrders: bool)
      requires batchSize > 0
      ensures fromOrders <==> orders != []
      ensures var queued := if fromOrders then |orders| else |changes|;
              |batch| == if queued < batchSize then queued else batchSize
      ensures batch <= Items(topics) && (batch == [] <==> Items(topics) == [])
      ensures fromOrders ==>
                |batch| <= |orders| && forall i | 0 <= i < |batch| :: batch[i].id == orders[i].globalPosition
      ensures !fromOrders ==> |batch| <= |changes| && forall i | 0 <= i < |batch| :: batch[i].id == changes[i].id
    {
      var n := if |orders| < batchSize then |orders| else batchSize;
      fromOrders := n > 0;
      if fromOrders {
        batch := OrderItems(orders, topics)[..n];
      } else {
        var m := if |changes| < batchSize then |changes| else batchSize;
        batch := ChangeItems(changes, positions, topics)[..m];
      }
    }

    // Delete what was delivered from the queue it came from.
    method AckBatch(acked: seq<nat>, fromOrders: bool, ghost topics: Topics)
      requires Valid()
      requires fromOrders ==> EventsBegin(orders, acked)
      requires !fromOrders ==> orders == [] && ChangesBegin(changes, acked)
      modifies this
      ensures Valid() && positions == old(positions)
      ensures |acked| <= |old(Items(topics))| && Items(topics) == old(Items(topics))[|acked|..]
    {
      QueuedDrop(orders, changes, positions, topics, |acked|);
      QueuedHead(orders, changes, positions, topics);
      if fromOrders {
        EventsWithoutFirst(orders, acked);
        var _ := Ack(acked);
      } else {
        ChangesWithoutFirst(changes, acked);
        var _ := AckPositions(acked);
      }
    }

    // Fetch a batch, deliver it, and delete what was delivered.
    method DrainBatch(sink: Sink, topics: Topics, batchSize: nat) returns (n: nat, stuckAt: Option<nat>)
      requires Valid() && batchSize > 0
      modifies this, sink
      ensures Valid() && positions == old(positions)
      ensures Progress(old(sink.sent), sink.sent, old(Items(topics)), n, stuckAt.Some?, Items(topics))
      ensures stuckAt.None? && n == 0 ==> Items(topics) == []
      ensures stuckAt.Some? ==> Items(topics) != [] && stuckAt.value == Items(topics)[0].id
      ensures old(sink.attempts) <= sink.attempts
      ensures stuckAt.Some? <==> Refused(sink.refuses, old(sink.attempts), sink.attempts)
    {
      hide *;
      var batch, fromOrders := FetchBatch(topics, batchSize);
      if batch == [] {
        NoProgress(sink.sent, Items(topics));
        NoneRefusedYet(sink.refuses, sink.attempts);
        return 0, None;
      }
      var acked, failed := Deliver(batch, sink);
      DeliveredPrefix(old(sink.sent), sink.sent, batch, Items(topics), |acked|, failed);
      IdsOfPrefix(batch, |acked|);
      ghost var all := Items(topics);
      AckBatch(acked, fromOrders, topics);
      n := |acked|;
      ProgressOf(old(sink.sent), sink.sent, all, n, failed, Items(topics));
      stuckAt := if failed then Some(batch[|acked|].id) else None;
    }

    /** Publishes until both queues are empty or the sink refuses a record. What
        was published is what left the queues, oldest first and order events
        before position changes; what is left starts at `stuckAt`, of which only
        a proper part went out. A sink that refuses nothing leaves nothing. */
    method Drain(sink: Sink, topics: Topics, batchSize: nat) returns (r: DrainResult)
      requires Valid() && batchSize > 0
      modifies this, sink
      ensures Valid() && positions == old(positions)
      ensures Progress(old(sink.sent), sink.sent, old(Items(topics)), r.published, r.SinkFailed?, Items(topics))
      ensures r.Drained? ==> Items(topics) == []
      ensures r.SinkFailed? ==> Items(topics) != [] && r.stuckAt == Items(topics)[0].id
      ensures r.SinkFailed? <==> Refused(sink.refuses, old(sink.attempts), sink.attempts)
    {
      hide *;
      ghost var all, before := Items(topics), sink.sent;
      NoProgress(before, all);
      NoneRefusedYet(sink.refuses, sink.attempts);
      r := Drained(0);
      var more := true;
      while more
        invariant Valid() && positions == old(positions)
        invariant more ==> r.Drained?
        invariant Progress(before, sink.sent, all, r.published, r.SinkFailed?, Items(topics))
        invariant !more && r.Drained? ==> Items(topics) == []
        invariant r.SinkFailed? ==> Items(topics) != [] && r.stuckAt == Items(topics)[0].id
        invariant old(sink.attempts) <= sink.attempts
        invariant r.SinkFailed? <==> Refused(sink.refuses, old(sink.attempts), sink.attempts)
        decreases more, |all| - r.published
      {
        ghost var mid, at, rest, published := sink.sent, sink.attempts, Items(topics), r.published;
        var n, stuckAt := DrainBatch(sink, topics, batchSize);
        ProgressThen(before, mid, sink.sent, all, published, rest, n, stuckAt.Some?, Items(topics));
        RefusedLater(sink.refuses, old(sink.attempts), at, sink.attempts);
        match stuckAt
        case Some(id) =>
          r, more := SinkFailed(r.published + n, id), false;
        case None =>
          r, more := Drained(r.published + n), n > 0;
      }
    }
  }
}
