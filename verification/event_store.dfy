/**
The append inside a transaction that holds an order's stream lock
(src/event_store.rs:148-219): the version check, then one insert per event, each
taking its global position from a sequence shared with every other order.
*/
module EventStore {
  import opened Wrappers
  import opened Orders

  datatype NewEvent = NewEvent(eventId: string, eventType: string, payload: string)

  datatype Record = Record(globalPosition: nat, order: OrderId, version: nat, event: NewEvent)

  datatype AppendResult = AppendResult(lastVersion: nat, appended: nat, globalPositions: seq<nat>)

  datatype ConcurrencyError = ConcurrencyError(expected: nat, actual: nat)

  // Positions given out one after another, after `low` and up to `high`.
  ghost predicate Ascending(low: nat, s: seq<nat>, high: nat) {
    && low <= high
    && (forall i | 0 <= i < |s| :: low < s[i] <= high)
    && (forall i, j | 0 <= i < j < |s| :: s[i] < s[j])
  }

  lemma AscendingSnoc(low: nat, s: seq<nat>, high: nat, p: nat)
    requires Ascending(low, s, high) && high < p
    ensures Ascending(low, s + [p], p)
  {}

  // The records an append leaves behind: versions count on from `expected`.
  function Records(o: OrderId, expected: nat, events: seq<NewEvent>, positions: seq<nat>): seq<Record>
    requires |events| == |positions|
  {
    seq(|events|, i requires 0 <= i < |events| => Record(positions[i], o, expected + i + 1, events[i]))
  }

  // Versions count from 1, and positions rise with them, none beyond the sequence.
  ghost predicate ValidStream(o: OrderId, records: seq<Record>, sequence: nat) {
    && (forall i | 0 <= i < |records| ::
          records[i].version == i + 1 && records[i].order == o && records[i].globalPosition <= sequence)
    && (forall i, j | 0 <= i < j < |records| :: records[i].globalPosition < records[j].globalPosition)
  }

  lemma RecordsSnoc(o: OrderId, expected: nat, events: seq<NewEvent>, positions: seq<nat>, k: nat, p: nat)
    requires |positions| == k < |events|
    ensures Records(o, expected, events[..k + 1], positions + [p])
         == Records(o, expected, events[..k], positions) + [Record(p, o, expected + k + 1, events[k])]
  {}

  class OrderEventStore {
    // What a transaction under the stream lock sees: each order's log, in version order.
    var streams: map<OrderId, seq<Record>>
    // The last global position the shared sequence gave out.
    var sequence: nat

    constructor ()
      ensures streams == map[] && sequence == 0
    {
      streams, sequence := map[], 0;
    }

    function Stream(o: OrderId): seq<Record>
      reads this
    {
      if o in streams then streams[o] else []
    }

    ghost predicate Valid()
      reads this
    {
      forall o | o in streams :: ValidStream(o, streams[o], sequence)
    }

    // `taken[i]` is how many positions other transactions took from the sequence
    // before the i-th insert.
    method AppendEventsInTx(o: OrderId, expected: nat, events: seq<NewEvent>, taken: seq<nat>)
      returns (r: Result<AppendResult, ConcurrencyError>)
      requires Valid() && |taken| == |events|
      modifies this
      ensures Valid()
      ensures events == [] ==> r == Ok(AppendResult(expected, 0, []))
      ensures events != [] ==> (r.Ok? <==> expected == |old(Stream(o))|)
      ensures r.Err? ==> r.error == ConcurrencyError(expected, |old(Stream(o))|)
      ensures r.Err? || events == [] ==> streams == old(streams) && sequence == old(sequence)
      ensures r.Ok? && events != [] ==>
                && r.value.lastVersion == expected + |events|
                   && r.value.appended == |events| == |r.value.globalPositions|
                && Ascending(old(sequence), r.value.globalPositions, sequence)
                && Stream(o) == old(Stream(o)) + Records(o, expected, events, r.value.globalPositions)
      ensures forall o' | o' != o :: Stream(o') == old(Stream(o'))
    {
      if events == [] {
        return Ok(AppendResult(expected, 0, []));
      }
      var actual := |Stream(o)|;
      if actual != expected {
        return Err(ConcurrencyError(expected, actual));
      }
      var positions := InsertAll(o, expected, events, taken);
      return Ok(AppendResult(expected + |events|, |events|, positions));
    }

    method InsertAll(o: OrderId, expected: nat, events: seq<NewEvent>, taken: seq<nat>) returns (positions: seq<nat>)
      requires Valid() && |taken| == |events| && expected == |Stream(o)|
      modifies this
      ensures Valid() && |positions| == |events|
      ensures Ascending(old(sequence), positions, sequence)
      ensures Stream(o) == old(Stream(o)) + Records(o, expected, events, positions)
      ensures forall o' | o' != o :: Stream(o') == old(Stream(o'))
    {
      hide ValidStream;
      positions := [];
      var index := 0;
      while index < |events|
        invariant 0 <= index <= |events| && |positions| == index
        invariant Valid() && Ascending(old(sequence), positions, sequence)
        invariant Stream(o) == old(Stream(o)) + Records(o, expected, events[..index], positions)
        invariant forall o' | o' != o :: Stream(o') == old(Stream(o'))
      {
        ghost var high := sequence;
        var position := Insert(o, expected + index + 1, events[index], taken[index]);
        RecordsSnoc(o, expected, events, positions, index, position);
        AscendingSnoc(old(sequence), positions, high, position);
        positions := positions + [position];
        index := index + 1;
      }
      assert events[..index] == events;
    }

    // One INSERT ... RETURNING global_position.
    method Insert(o: OrderId, version: nat, event: NewEvent, taken: nat) returns (position: nat)
      requires Valid() && version == |Stream(o)| + 1
      modifies this
      ensures Valid() && old(sequence) < position == sequence
      ensures Stream(o) == old(Stream(o)) + [Record(position, o, version, event)]
      ensures forall o' | o' != o :: Stream(o') == old(Stream(o'))
    {
      sequence := sequence + taken + 1;
      position := sequence;
      streams := streams[o := Stream(o) + [Record(position, o, version, event)]];
    }
  }
}
