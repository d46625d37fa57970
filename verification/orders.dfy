/**
The order state machine: what a command on an order decides, and what an event
does to the order's state (src/domain/orders/aggregate.rs, lifecycle.rs).

Only the commands some code path issues are here (the others are in `Lifecycle`):
submit, route, cancel, and an execution report. Quantities and prices are reals.
The immutable columns that no decision reads (client id, account, order type,
limit price) are left out.
*/
module Orders {
  import opened Wrappers

  type OrderId = nat

  type NonNeg = r: real | 0.0 <= r
  type Positive = r: real | 0.0 < r witness 1.0

  datatype Side = Buy | Sell {
    function Signed(qty: real): real {
      if Buy? then qty else -qty
    }
  }

  datatype Status =
    | Submitted | Routed | PartiallyFilled | Filled
    | Rejected | Canceled | Expired | Suspended
  {
    predicate IsTerminal() {
      Filled? || Rejected? || Canceled? || Expired?
    }
  }

  // The slice positions and limits are keyed by.
  datatype Key = Key(portfolio: nat, instrument: string)

  datatype OrderState = OrderState(
    key: Key,
    side: Side,
    originalQty: real,
    leavesQty: real,
    cumQty: NonNeg,
    avgPx: Option<real>,
    status: Status,
    version: nat)

  datatype Report =
    | ReportFill(executionId: string, qty: real, price: real)
    | ReportReject(reason: string)
    | ReportCanceled

  datatype Command =
    | Submit(key: Key, side: Side, quantity: real)
    | Route(externalId: string)
    | Cancel
    | Receive(report: Report)

  // An event carries its version; a fill carries the state it leads to.
  datatype Event =
    | OrderSubmitted(version: nat, key: Key, side: Side, quantity: real)
    | OrderRouted(version: nat, externalId: string)
    | OrderFill(version: nat, executionId: string, qty: Positive, price: real,
                cum: NonNeg, leaves: real, avg: real)
    | OrderCanceled(version: nat)
    | OrderRejected(version: nat, reason: string)
  {
    // `order_filled` when nothing is left, else `order_partially_filled`.
    function StatusAfter(): Status {
      match this
      case OrderSubmitted(_, _, _, _) => Submitted
      case OrderRouted(_, _) => Routed
      case OrderFill(_, _, _, _, _, leaves, _) => if leaves > 0.0 then PartiallyFilled else Filled
      case OrderCanceled(_) => Canceled
      case OrderRejected(_, _) => Rejected
    }
  }

  datatype Rejection =
    | OrderNotFound | OrderAlreadyExists | InvalidStateTransition | CommandNotAllowed
    | InvalidQuantity | InvalidExecutionReport

  // Which commands the lifecycle table allows (lifecycle.rs:47-139).
  function EnsureAllowed(current: Option<OrderState>, cmd: Command): Option<Rejection> {
    match current
    case None => if cmd.Submit? then None else Some(OrderNotFound)
    case Some(s) =>
      if cmd.Submit? then Some(OrderAlreadyExists)
      else if s.status.IsTerminal() then Some(InvalidStateTransition)
      else if cmd.Route? && s.status != Submitted then Some(CommandNotAllowed)
      else None
  }

  function DecideFill(s: OrderState, executionId: string, qty: real, price: real): Result<Event, Rejection> {
    if qty <= 0.0 || price <= 0.0 then Err(InvalidExecutionReport)
    else
      var nextCum := s.cumQty + qty;
      if nextCum > s.originalQty then Err(InvalidExecutionReport)
      else
        var nextAvg := (s.cumQty * s.avgPx.GetOr(0.0) + qty * price) / nextCum;
        var leaves := s.originalQty - nextCum;
        Ok(OrderFill(s.version + 1, executionId, qty, price, nextCum, leaves, nextAvg))
  }

  // Every command that is accepted decides exactly one event.
  function Decide(current: Option<OrderState>, cmd: Command): Result<Event, Rejection> {
    match EnsureAllowed(current, cmd)
    case Some(r) => Err(r)
    case None =>
      match cmd
      case Submit(key, side, quantity) =>
        if quantity > 0.0 then Ok(OrderSubmitted(1, key, side, quantity)) else Err(InvalidQuantity)
      case Route(ext) => Ok(OrderRouted(current.value.version + 1, ext))
      case Cancel => Ok(OrderCanceled(current.value.version + 1))
      case Receive(report) =>
        match report
        case ReportReject(reason) => Ok(OrderRejected(current.value.version + 1, reason))
        case ReportCanceled => Ok(OrderCanceled(current.value.version + 1))
        case ReportFill(id, qty, price) => DecideFill(current.value, id, qty, price)
  }

  // What one event does to the state; `None` stands for "no order yet", on which
  // every event but a submit is refused.
  function Apply(current: Option<OrderState>, e: Event): Option<OrderState> {
    match e
    case OrderSubmitted(v, key, side, quantity) =>
      Some(OrderState(key, side, quantity, quantity, 0.0, None, Submitted, v))
    case _ =>
      if current.None? then None
      else
        var s := current.value.(status := e.StatusAfter(), version := e.version);
        if e.OrderFill? then Some(s.(cumQty := e.cum, leavesQty := e.leaves, avgPx := Some(e.avg)))
        else if e.OrderCanceled? then Some(s.(leavesQty := 0.0))
        else Some(s)
  }

  // The state a log of events leads to.
  function Fold(log: seq<Event>): Option<OrderState>
    decreases |log|
  {
    if log == [] then None
    else Apply(Fold(log[..|log| - 1]), log[|log| - 1])
  }

  lemma FoldSnoc(log: seq<Event>, e: Event)
    ensures Fold(log + [e]) == Apply(Fold(log), e)
  {
    assert (log + [e])[..|log|] == log;
  }

  // What holds of every order the state machine ever produced.
  ghost predicate Sound(s: OrderState) {
    && 0.0 <= s.cumQty <= s.originalQty
    && 0.0 < s.originalQty
    && (s.avgPx.None? <==> s.cumQty == 0.0)
    && (s.avgPx.Some? ==> s.avgPx.value > 0.0)
    && (s.status in {Submitted, Routed, PartiallyFilled} ==> s.leavesQty == s.originalQty - s.cumQty > 0.0)
    && (s.status == Filled <==> s.cumQty == s.originalQty)
    && s.status in {Submitted, Routed, PartiallyFilled, Filled, Rejected, Canceled}
  }

  lemma WeightedAverage(cum: real, avg: real, qty: real, price: real)
    requires cum >= 0.0 && qty > 0.0
    ensures (cum * avg + qty * price) / (cum + qty) * (cum + qty) == cum * avg + qty * price
  {}

  lemma PositiveAverage(cum: real, avg: real, qty: real, price: real)
    requires cum >= 0.0 && qty > 0.0 && price > 0.0 && (cum == 0.0 || avg > 0.0)
    ensures (cum * avg + qty * price) / (cum + qty) > 0.0
  {
    assert qty * price > 0.0;
    assert cum * avg >= 0.0;
    var n := cum * avg + qty * price;
    var d := cum + qty;
    assert n > 0.0 && d > 0.0;
    assert n / d > 0.0;
  }

  // The numbers of an accepted fill.
  lemma FillKeepsSound(s: OrderState, e: Event, n: OrderState, id: string, qty: real, price: real)
    requires Sound(s) && !s.status.IsTerminal()
    requires DecideFill(s, id, qty, price) == Ok(e) && Apply(Some(s), e) == Some(n)
    ensures e.OrderFill? && e.qty == qty && e.price == price && n.version == s.version + 1 == e.version
    ensures Sound(n) && n.leavesQty == s.leavesQty - qty && n.cumQty == s.cumQty + qty && n.avgPx.Some?
    ensures n.cumQty * n.avgPx.value == s.cumQty * s.avgPx.GetOr(0.0) + qty * price
  {
    WeightedAverage(s.cumQty, s.avgPx.GetOr(0.0), qty, price);
    PositiveAverage(s.cumQty, s.avgPx.GetOr(0.0), qty, price);
  }

  /** An accepted command takes a sound order to a sound order, one version on;
      a terminal order accepts nothing. A fill moves exactly its quantity from
      `leaves` to `cum` and its notional into `cum * avg`. */
  lemma DecideKeepsSound(s: OrderState, cmd: Command)
    requires Sound(s)
    ensures s.status.IsTerminal() ==> Decide(Some(s), cmd).Err?
    ensures Decide(Some(s), cmd).Ok? ==>
              var e := Decide(Some(s), cmd).value;
              var n := Apply(Some(s), e);
              && n.Some? && Sound(n.value)
              && n.value.version == e.version == s.version + 1
              && (e.OrderFill? ==>
                    && n.value.leavesQty == s.leavesQty - e.qty
                    && n.value.cumQty == s.cumQty + e.qty
                    && n.value.cumQty * n.value.avgPx.value == s.cumQty * s.avgPx.GetOr(0.0) + e.qty * e.price)
              && (!e.OrderFill? ==> n.value.cumQty == s.cumQty && n.value.avgPx == s.avgPx)
  {
    if cmd.Receive? && cmd.report.ReportFill? && Decide(Some(s), cmd).Ok? {
      var e := Decide(Some(s), cmd).value;
      hide DecideFill, Sound;
      FillKeepsSound(s, e, Apply(Some(s), e).value, cmd.report.executionId, cmd.report.qty, cmd.report.price);
    }
  }
}
