/**
One socket's live updates: bus events conflated into notices and flushed on two
timers (src/live_updates.rs:34-153).
*/
module LiveUpdates {
  import opened Wrappers

  datatype UiNotice = Orders | Positions | Marks(ids: seq<int>) | Resync | Heartbeat

  datatype OrderReceive = Appended | PositionChanged | OrderLagged | OrderClosed
  datatype PriceReceive = MarkOf(instrument: int) | PriceLagged | PriceClosed

  // What the pump's select wakes up for, in the order it happens.
  datatype Input =
    | Order(order: OrderReceive)
    | Price(price: PriceReceive)
    | FastTick
    | SlowTick
    | HeartbeatTick
    | OutClosed

  // ---- what should be sent ---------------------------------------------------------

  // Where the window of a flush at `n` begins: after the last earlier tick of its kind.
  function From(inputs: seq<Input>, n: nat, tick: Input): (from: nat)
    requires n <= |inputs|
    ensures from <= n && (forall i | from <= i < n :: inputs[i] != tick)
    ensures from > 0 ==> inputs[from - 1] == tick
  {
    if n == 0 || inputs[n - 1] == tick then n else From(inputs, n - 1, tick)
  }

  // Whether `what` arrived since the last fast flush before `n`.
  ghost predicate Seen(inputs: seq<Input>, n: nat, what: OrderReceive)
    requires n <= |inputs|
  {
    exists i :: From(inputs, n, FastTick) <= i < n && inputs[i] == Order(what)
  }

  // The marks that moved since the last marks flush before `n`.
  ghost function Moved(inputs: seq<Input>, n: nat): set<int>
    requires n <= |inputs|
  {
    set i | From(inputs, n, SlowTick) <= i < n && inputs[i].Price?
        && inputs[i].price.MarkOf? :: inputs[i].price.instrument
  }

  ghost function FastNotices(inputs: seq<Input>, n: nat): seq<UiNotice>
    requires n <= |inputs|
  {
    if Seen(inputs, n, OrderLagged) then [Resync]
    else
      (if Seen(inputs, n, Appended) then [Orders] else [])
      + (if Seen(inputs, n, PositionChanged) then [Positions] else [])
  }

  predicate Ascending(ids: seq<int>) {
    forall i, j | 0 <= i < j < |ids| :: ids[i] < ids[j]
  }

  predicate IsMarksNotice(notices: seq<UiNotice>, moved: set<int>) {
    if moved == {} then notices == []
    else |notices| == 1 && notices[0].Marks? && Ascending(notices[0].ids) && (set id | id in notices[0].ids) == moved
  }

  // What the n-th input has the pump send.
  ghost predicate Answers(inputs: seq<Input>, n: nat, notices: seq<UiNotice>)
    requires n < |inputs|
  {
    match inputs[n]
    case FastTick => notices == FastNotices(inputs, n)
    case SlowTick => IsMarksNotice(notices, Moved(inputs, n))
    case HeartbeatTick => notices == [Heartbeat]
    case _ => notices == []
  }

  // ---- the conflator ----------------------------------------------------------------

  class Conflator {
    var orders: bool
    var positions: bool
    var resync: bool
    var marks: set<int>

    constructor ()
      ensures !orders && !positions && !resync && marks == {}
    {
      orders, positions, resync, marks := false, false, false, {};
    }

    method OnOrder(r: OrderReceive)
      modifies this
      ensures orders == (old(orders) || r.Appended?) && positions == (old(positions) || r.PositionChanged?)
      ensures resync == (old(resync) || r.OrderLagged?) && marks == old(marks)
    {
      match r
      case Appended => orders := true;
      case PositionChanged => positions := true;
      case OrderLagged => resync := true;
      case OrderClosed =>
    }

    method OnMark(instrument: int)
      modifies this`marks
      ensures marks == old(marks) + {instrument}
    {
      marks := marks + {instrument};
    }

    method TakeFast() returns (notices: seq<UiNotice>)
      modifies this
      ensures !orders && !positions && !resync && marks == old(marks)
      ensures notices == if old(resync) then [Resync]
                         else (if old(orders) then [Orders] else []) + (if old(positions) then [Positions] else [])
    {
      if resync {
        notices := [Resync];
      } else {
        notices := (if orders then [Orders] else []) + (if positions then [Positions] else []);
      }
      orders, positions, resync := false, false, false;
    }

    method TakeMarks() returns (notice: seq<UiNotice>)
      modifies this`marks
      ensures marks == {} && IsMarksNotice(notice, old(marks))
    {
      if marks == {} {
        return [];
      }
      var ids := Sorted(marks);
      marks := {};
      notice := [Marks(ids)];
    }
  }

  method Least(s: set<int>) returns (least: int)
    requires s != {}
    ensures least in s && forall x | x in s :: least <= x
  {
    var rest := s;
    least := Pick(rest);
    rest := rest - {least};
    while rest != {}
      invariant rest <= s && least in s && forall x | x in s && x !in rest :: least <= x
      decreases |rest|
    {
      var x := Pick(rest);
      if x < least {
        least := x;
      }
      rest := rest - {x};
    }
  }

  lemma AscendingMore(ids: seq<int>, x: int)
    requires Ascending(ids) && forall id | id in ids :: id < x
    ensures Ascending(ids + [x]) && (set id | id in ids + [x]) == (set id | id in ids) + {x}
  {
    assert forall i | 0 <= i < |ids| :: ids[i] in ids;
  }

  // A set's members in order, as iterating over the tree set gives them.
  method Sorted(s: set<int>) returns (ids: seq<int>)
    ensures Ascending(ids) && (set id | id in ids) == s
  {
    ids := [];
    var rest := s;
    assert Ascending(ids);
    hide Ascending;
    while rest != {}
      invariant rest <= s && Ascending(ids) && (set id | id in ids) == s - rest
      invariant forall x, y | x in ids && y in rest :: x < y
      decreases |rest|
    {
      var x := Least(rest);
      AscendingMore(ids, x);
      ids := ids + [x];
      rest := rest - {x};
    }
  }

  // ---- the pump ----------------------------------------------------------------------

  function Concat(notices: seq<seq<UiNotice>>): seq<UiNotice>
    decreases |notices|
  {
    if notices == [] then [] else Concat(notices[..|notices| - 1]) + notices[|notices| - 1]
  }

  // The receiving end: takes `room` notices and is gone.
  class Out {
    var room: nat
    var sent: seq<UiNotice>

    constructor (room: nat)
      ensures this.room == room && sent == []
    {
      this.room, sent := room, [];
    }

    method Send(n: UiNotice) returns (ok: bool)
      modifies this
      ensures ok == (old(room) > 0)
      ensures if ok then room == old(room) - 1 && sent == old(sent) + [n] else room == old(room) && sent == old(sent)
    {
      ok := room > 0;
      if ok {
        room, sent := room - 1, sent + [n];
      }
    }

    method SendAll(notices: seq<UiNotice>) returns (ok: bool)
      modifies this
      ensures ok == (|notices| <= old(room))
      ensures if ok then room == old(room) - |notices| && sent == old(sent) + notices
              else room == 0 && sent == old(sent) + notices[..old(room)]
    {
      var i := 0;
      while i < |notices|
        invariant 0 <= i <= |notices| && i + room == old(room) && sent == old(sent) + notices[..i]
      {
        var sentOk := Send(notices[i]);
        if !sentOk {
          return false;
        }
        i := i + 1;
      }
      assert notices[..i] == notices;
      ok := true;
    }
  }

  // What the conflator holds after `n` inputs.
  ghost predicate Holds(c: Conflator, inputs: seq<Input>, n: nat)
    requires n <= |inputs|
    reads c
  {
    && (c.orders <==> Seen(inputs, n, Appended))
    && (c.positions <==> Seen(inputs, n, PositionChanged))
    && (c.resync <==> Seen(inputs, n, OrderLagged))
    && c.marks == Moved(inputs, n)
  }

  lemma SeenNext(inputs: seq<Input>, n: nat, what: OrderReceive)
    requires n < |inputs|
    ensures Seen(inputs, n + 1, what) <==>
            !inputs[n].FastTick? && (Seen(inputs, n, what) || inputs[n] == Order(what))
  {
    if !inputs[n].FastTick? {
      assert From(inputs, n + 1, FastTick) == From(inputs, n, FastTick);
      if Seen(inputs, n, what) {
        var i :| From(inputs, n, FastTick) <= i < n && inputs[i] == Order(what);
        assert inputs[i] == Order(what) && From(inputs, n + 1, FastTick) <= i < n + 1;
      }
    }
  }

  lemma MovedNext(inputs: seq<Input>, n: nat)
    requires n < |inputs|
    ensures Moved(inputs, n + 1) == (if inputs[n].SlowTick? then {} else
              Moved(inputs, n)
              + (if inputs[n].Price? && inputs[n].price.MarkOf? then {inputs[n].price.instrument} else {}))
  {
    if !inputs[n].SlowTick? {
      assert From(inputs, n + 1, SlowTick) == From(inputs, n, SlowTick);
    }
  }

  lemma HoldsNext(inputs: seq<Input>, n: nat)
    requires n < |inputs|
    ensures var x := inputs[n];
            && (Seen(inputs, n + 1, Appended) <==> !x.FastTick? && (Seen(inputs, n, Appended) || x == Order(Appended)))
            && (Seen(inputs, n + 1, PositionChanged) <==>
                  !x.FastTick? && (Seen(inputs, n, PositionChanged) || x == Order(PositionChanged)))
            && (Seen(inputs, n + 1, OrderLagged)
                <==> !x.FastTick? && (Seen(inputs, n, OrderLagged) || x == Order(OrderLagged)))
            && Moved(inputs, n + 1) == (if x.SlowTick? then {} else
                 Moved(inputs, n) + (if x.Price? && x.price.MarkOf? then {x.price.instrument} else {}))
  {
    SeenNext(inputs, n, Appended);
    SeenNext(inputs, n, PositionChanged);
    SeenNext(inputs, n, OrderLagged);
    MovedNext(inputs, n);
  }

  lemma NothingYet(inputs: seq<Input>)
    ensures forall what :: !Seen(inputs, 0, what)
    ensures Moved(inputs, 0) == {} && Concat([]) == []
  {}

  lemma ConcatSnoc(notices: seq<seq<UiNotice>>, last: seq<UiNotice>)
    ensures Concat(notices + [last]) == Concat(notices) + last
  {
    assert (notices + [last])[..|notices|] == notices;
  }

  // One input. A closed channel is left out of the select, and delivers nothing more.
  method Answer(conflator: Conflator, x: Input, ghost inputs: seq<Input>, ghost n: nat) returns (notices: seq<UiNotice>)
    requires n < |inputs| && x == inputs[n] && Holds(conflator, inputs, n)
    modifies conflator
    ensures Holds(conflator, inputs, n + 1) && Answers(inputs, n, notices)
  {
    HoldsNext(inputs, n);
    hide Seen, Moved, From;
    notices := [];
    match x {
      case Order(r) => conflator.OnOrder(r);
      case Price(r) =>
        if r.MarkOf? {
          conflator.OnMark(r.instrument);
        }
      case FastTick => notices := conflator.TakeFast();
      case SlowTick => notices := conflator.TakeMarks();
      case HeartbeatTick => notices := [Heartbeat];
      case OutClosed =>
    }
  }

  /** Forwards notices until the socket is gone: each input is answered with what
      the windows say, and what is sent is those answers in order, cut off only
      where the socket stopped taking them. */
  method Pump(inputs: seq<Input>, out: Out) returns (answered: seq<seq<UiNotice>>)
    requires out.sent == []
    modifies out
    ensures |answered| <= |inputs| && forall i | 0 <= i < |answered| :: Answers(inputs, i, answered[i])
    ensures out.sent <= Concat(answered) && |out.sent| + out.room == old(out.room)
    ensures |out.sent| < |Concat(answered)| ==> out.room == 0
    ensures |answered| < |inputs| ==> |out.sent| < |Concat(answered)| || inputs[|answered|].OutClosed?
  {
    NothingYet(inputs);
    hide Seen, Moved, Concat, Answers;
    var conflator := new Conflator();
    answered := [];
    var n := 0;
    while n < |inputs|
      invariant 0 <= n == |answered| <= |inputs|
      invariant fresh(conflator) && Holds(conflator, inputs, n)
      invariant forall i | 0 <= i < n :: Answers(inputs, i, answered[i])
      invariant out.sent == Concat(answered) && |out.sent| + out.room == old(out.room)
    {
      if inputs[n].OutClosed? {
        return;
      }
      var notices := Answer(conflator, inputs[n], inputs, n);
      ConcatSnoc(answered, notices);
      answered := answered + [notices];
      var ok := out.SendAll(notices);
      if !ok {
        return;
      }
      n := n + 1;
    }
  }

  // ---- what the windows mean ---------------------------------------------------------

  // The first tick of a kind after `i`.
  predicate FirstAfter(inputs: seq<Input>, i: nat, j: nat, tick: Input)
  {
    i < j < |inputs| && inputs[j] == tick && forall k | i < k < j :: inputs[k] != tick
  }

  lemma InWindow(inputs: seq<Input>, i: nat, j: nat, tick: Input)
    requires FirstAfter(inputs, i, j, tick) && inputs[i] != tick
    ensures From(inputs, j, tick) <= i
  {}

  /** Every order-lane event is covered by the first fast flush after it. */
  lemma EveryEventIsCovered(inputs: seq<Input>, i: nat, j: nat, notices: seq<UiNotice>)
    requires FirstAfter(inputs, i, j, FastTick) && inputs[i].Order? && Answers(inputs, j, notices)
    ensures match inputs[i].order
            case Appended => Orders in notices || Resync in notices
            case PositionChanged => Positions in notices || Resync in notices
            case OrderLagged => notices == [Resync]
            case OrderClosed => true
  {
    InWindow(inputs, i, j, FastTick);
    if Seen(inputs, j, OrderLagged) {
      assert notices == [Resync];
    } else {
      assert !inputs[i].order.OrderClosed? ==> Seen(inputs, j, inputs[i].order);
      var a := if Seen(inputs, j, Appended) then [Orders] else [];
      var b := if Seen(inputs, j, PositionChanged) then [Positions] else [];
      assert notices == a + b;
      assert a == [Orders] ==> notices[0] == Orders;
      assert b == [Positions] ==> notices[|a|] == Positions;
    }
  }

  /** Every mark is in the first marks notice after it, which carries only marks that
      moved since the one before, ascending and so each once. */
  lemma EveryMarkIsCovered(inputs: seq<Input>, i: nat, j: nat, notices: seq<UiNotice>)
    requires FirstAfter(inputs, i, j, SlowTick) && inputs[i].Price? && inputs[i].price.MarkOf?
    requires Answers(inputs, j, notices)
    ensures |notices| == 1 && notices[0].Marks? && Ascending(notices[0].ids)
              && inputs[i].price.instrument in notices[0].ids
    ensures forall id | id in notices[0].ids ::
              exists k :: From(inputs, j, SlowTick) <= k < j && inputs[k] == Price(MarkOf(id))
  {
    InWindow(inputs, i, j, SlowTick);
    assert inputs[i].price.instrument in Moved(inputs, j);
    assert inputs[i].price.instrument in (set id | id in notices[0].ids);
    forall id | id in notices[0].ids
      ensures exists k :: From(inputs, j, SlowTick) <= k < j && inputs[k] == Price(MarkOf(id)) {
      assert id in Moved(inputs, j);
      var k :| From(inputs, j, SlowTick) <= k < j && inputs[k].Price? && inputs[k].price.MarkOf?
          && inputs[k].price.instrument == id;
      assert inputs[k] == Price(MarkOf(id));
    }
  }

  /** A flush sends something exactly when there is news for it: nothing new, no notice. */
  lemma FlushesOnlyNews(inputs: seq<Input>, j: nat, notices: seq<UiNotice>)
    requires j < |inputs| && Answers(inputs, j, notices)
    ensures inputs[j].FastTick? ==>
              (notices != [] <==>
               exists i :: From(inputs, j, FastTick) <= i < j && inputs[i].Order? && !inputs[i].order.OrderClosed?)
    ensures inputs[j].SlowTick? ==>
              (notices != [] <==>
               exists i :: From(inputs, j, SlowTick) <= i < j && inputs[i].Price? && inputs[i].price.MarkOf?)
  {
    if inputs[j].FastTick? {
      if i :| From(inputs, j, FastTick) <= i < j && inputs[i].Order? && !inputs[i].order.OrderClosed? {
        assert Seen(inputs, j, inputs[i].order);
        assert inputs[i].order in {Appended, PositionChanged, OrderLagged};
      }
    } else if inputs[j].SlowTick? {
      if i :| From(inputs, j, SlowTick) <= i < j && inputs[i].Price? && inputs[i].price.MarkOf? {
        assert inputs[i].price.instrument in Moved(inputs, j);
      }
      if notices != [] {
        var id :| id in Moved(inputs, j);
      }
    }
  }
}
