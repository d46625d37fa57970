/**
The pre-trade checks of one submit (src/risk_engine.rs:76-104,
src/domain/orders/risk.rs).
*/
module Risk {
  import opened Wrappers
  import opened Orders

  datatype TradingState = Active | Reducing | Halted

  datatype RiskLimits = RiskLimits(
    maxOrderQuantity: Option<real>,
    maxOrderNotional: Option<real>,
    maxPositionQuantity: Option<real>,
    maxPositionNotional: Option<real>)

  // Signed: filled holding, and open quantity of live orders.
  datatype Exposure = Exposure(position: real, working: real)

  datatype RiskConfig = RiskConfig(trading: TradingState, limits: RiskLimits)

  datatype RiskRejection =
    | TradingHalted | TradingReducing
    | OverOrderQuantity | OverOrderNotional | OverPositionQuantity | OverPositionNotional

  function CheckTradingState(state: TradingState, side: Side, position: real): Option<RiskRejection> {
    match state
    case Active => None
    case Halted => Some(TradingHalted)
    case Reducing => if (if side.Buy? then position < 0.0 else position > 0.0) then None else Some(TradingReducing)
  }

  function Notional(quantity: real, price: real): real { quantity * price }

  predicate Exceeds(value: real, max: Option<real>) {
    max.Some? && value > max.value
  }

  function CheckLimit(side: Side, quantity: real, price: Option<real>, limits: RiskLimits,
      exposure: Exposure): Option<RiskRejection> {
    var projected := exposure.position + exposure.working + side.Signed(quantity);
    if Exceeds(quantity, limits.maxOrderQuantity) then Some(OverOrderQuantity)
    else if price.Some? && Exceeds(Notional(quantity, price.value), limits.maxOrderNotional)
        then Some(OverOrderNotional)
    else if Exceeds(Abs(projected), limits.maxPositionQuantity) then Some(OverPositionQuantity)
    else if price.Some? && Exceeds(Notional(Abs(projected), price.value), limits.maxPositionNotional)
        then Some(OverPositionNotional)
    else None
  }

  // The limit price scaled by what one contract delivers.
  function EstPrice(limitPrice: Option<real>, contractSize: real): Option<real> {
    if limitPrice.Some? then Some(limitPrice.value * contractSize) else None
  }

  // No configuration for the scope, no check. A market order has no price, and no
  // notional limit holds it.
  function CheckSubmit(config: Option<RiskConfig>, exposure: Exposure, side: Side, quantity: real,
                       limitPrice: Option<real>, contractSize: real): Option<RiskRejection>
  {
    match config
    case None => None
    case Some(c) =>
      var gate := CheckTradingState(c.trading, side, exposure.position);
      if gate.Some? then gate
      else
        CheckLimit(side, quantity, EstPrice(limitPrice, contractSize), c.limits, exposure)
  }

  // What each rejection says of the order: a scope that trades nothing or only towards
  // flat, a limit that the order or the quantity it would lead to is above. Worth is
  // quantity times limit price times what one contract delivers.
  predicate Violates(c: RiskConfig, e: Exposure, side: Side, quantity: real, limitPrice: Option<real>,
      contractSize: real, why: RiskRejection)
  {
    var l, signed := c.limits, if side.Buy? then quantity else -quantity;
    var after := e.position + e.working + signed;
    match why
    case TradingHalted => c.trading == Halted
    case TradingReducing =>
      c.trading == Reducing && !(e.position < 0.0 && side.Buy?) && !(e.position > 0.0 && side.Sell?)
    case OverOrderQuantity => l.maxOrderQuantity.Some? && l.maxOrderQuantity.value < quantity
    case OverOrderNotional =>
      var max := l.maxOrderNotional;
      limitPrice.Some? && max.Some? && max.value < quantity * (limitPrice.value * contractSize)
    case OverPositionQuantity =>
      var max := l.maxPositionQuantity;
      max.Some? && (max.value < after || max.value < -after)
    case OverPositionNotional =>
      var max := l.maxPositionNotional;
      limitPrice.Some? && max.Some?
      && max.value < (if after < 0.0 then -after else after) * (limitPrice.value * contractSize)
  }

  function Rank(why: RiskRejection): nat {
    match why
    case TradingHalted => 0 case TradingReducing => 1
    case OverOrderQuantity => 2 case OverOrderNotional => 3
    case OverPositionQuantity => 4 case OverPositionNotional => 5
  }

  /** A submit is rejected exactly when its scope is configured and it violates something
      of it, and then for the first thing it violates, the gate first. */
  lemma FirstViolationIff(c: RiskConfig, e: Exposure, side: Side, quantity: real, limitPrice: Option<real>,
      contractSize: real, why: RiskRejection)
    ensures CheckSubmit(None, e, side, quantity, limitPrice, contractSize) == None
    ensures CheckSubmit(Some(c), e, side, quantity, limitPrice, contractSize) == Some(why) <==>
              && Violates(c, e, side, quantity, limitPrice, contractSize, why)
              && forall other :: Violates(c, e, side, quantity, limitPrice, contractSize, other) ==>
                   Rank(other) >= Rank(why)
  {
    forall other ensures Violates(c, e, side, quantity, limitPrice, contractSize, other)
                         <==> Fails(c, e, side, quantity, EstPrice(limitPrice, contractSize), other) {
      ViolatesIff(c, e, side, quantity, limitPrice, contractSize, other);
    }
    hide Violates, Exceeds, Notional, EstPrice;
    ChecksInOrder(c, e, side, quantity, limitPrice, contractSize);
    if r :| CheckSubmit(Some(c), e, side, quantity, limitPrice, contractSize) == Some(r) {
      assert Fails(c, e, side, quantity, EstPrice(limitPrice, contractSize), r);
    }
  }

  // The checks as the code makes them.
  predicate Fails(c: RiskConfig, e: Exposure, side: Side, quantity: real, price: Option<real>, why: RiskRejection) {
    var projected := Abs(e.position + e.working + side.Signed(quantity));
    match why
    case TradingHalted => CheckTradingState(c.trading, side, e.position) == Some(TradingHalted)
    case TradingReducing => CheckTradingState(c.trading, side, e.position) == Some(TradingReducing)
    case OverOrderQuantity => Exceeds(quantity, c.limits.maxOrderQuantity)
    case OverOrderNotional => price.Some? && Exceeds(Notional(quantity, price.value), c.limits.maxOrderNotional)
    case OverPositionQuantity => Exceeds(projected, c.limits.maxPositionQuantity)
    case OverPositionNotional => price.Some? && Exceeds(Notional(projected, price.value), c.limits.maxPositionNotional)
  }

  lemma ViolatesIff(c: RiskConfig, e: Exposure, side: Side, quantity: real, limitPrice: Option<real>,
      contractSize: real, why: RiskRejection)
    ensures Violates(c, e, side, quantity, limitPrice, contractSize, why)
            <==> Fails(c, e, side, quantity, EstPrice(limitPrice, contractSize), why)
  {}

  lemma ChecksInOrder(c: RiskConfig, e: Exposure, side: Side, quantity: real, limitPrice: Option<real>,
      contractSize: real)
    ensures var price := EstPrice(limitPrice, contractSize);
            match CheckSubmit(Some(c), e, side, quantity, limitPrice, contractSize)
            case Some(r) =>
              Fails(c, e, side, quantity, price, r)
              && forall other :: Fails(c, e, side, quantity, price, other) ==> Rank(other) >= Rank(r)
            case None => forall other :: !Fails(c, e, side, quantity, price, other)
  {
    hide Exceeds, Notional, EstPrice;
  }

  /** An accepted order keeps the projected quantity within the position limit, and at a
      limit price its own worth and that of the projected quantity within theirs,
      whatever else is configured. */
  lemma AcceptedIsWithin(c: RiskConfig, e: Exposure, side: Side, quantity: real, limitPrice: Option<real>,
      contractSize: real)
    requires CheckSubmit(Some(c), e, side, quantity, limitPrice, contractSize).None?
    ensures c.limits.maxPositionQuantity.Some? ==>
              Abs(e.position + e.working + side.Signed(quantity)) <= c.limits.maxPositionQuantity.value
    ensures c.limits.maxOrderQuantity.Some? ==> quantity <= c.limits.maxOrderQuantity.value
    ensures limitPrice.Some? && c.limits.maxOrderNotional.Some? ==>
              quantity * (limitPrice.value * contractSize) <= c.limits.maxOrderNotional.value
    ensures limitPrice.Some? && c.limits.maxPositionNotional.Some? ==>
              Abs(e.position + e.working + side.Signed(quantity)) * (limitPrice.value * contractSize)
                <= c.limits.maxPositionNotional.value
    ensures c.trading != Halted
  {}

  lemma WithinLimitsIff(side: Side, quantity: real, price: Option<real>, l: RiskLimits, e: Exposure)
    ensures var projected := Abs(e.position + e.working + side.Signed(quantity));
            CheckLimit(side, quantity, price, l, e).None? <==>
              && !Exceeds(quantity, l.maxOrderQuantity) && !Exceeds(projected, l.maxPositionQuantity)
              && (price.Some? ==>
                    !Exceeds(Notional(quantity, price.value), l.maxOrderNotional)
                        && !Exceeds(Notional(projected, price.value), l.maxPositionNotional))
  {}

  // An order is accepted exactly when the gate is open for its side and every limit
  // that is set holds -- those on notional for priced orders only.
  lemma AcceptedIff(c: RiskConfig, e: Exposure, side: Side, quantity: real, limitPrice: Option<real>,
      contractSize: real)
    ensures var l, projected := c.limits, Abs(e.position + e.working + side.Signed(quantity));
            CheckSubmit(Some(c), e, side, quantity, limitPrice, contractSize).None? <==>
              && (c.trading == Active
                  || (c.trading == Reducing && if side.Buy? then e.position < 0.0 else e.position > 0.0))
              && !Exceeds(quantity, l.maxOrderQuantity) && !Exceeds(projected, l.maxPositionQuantity)
              && (EstPrice(limitPrice, contractSize).Some? ==>
                    var price := EstPrice(limitPrice, contractSize).value;
                    !Exceeds(Notional(quantity, price), l.maxOrderNotional)
                        && !Exceeds(Notional(projected, price), l.maxPositionNotional))
  {
    hide CheckLimit, Exceeds, Notional, EstPrice;
    WithinLimitsIff(side, quantity, EstPrice(limitPrice, contractSize), c.limits, e);
  }

  predicate NoTighter(a: Option<real>, b: Option<real>) {
    b.None? || (a.Some? && a.value <= b.value)
  }

  // Every limit of `d` is at least that of `c`, and its gate lets through as much.
  predicate NoStricter(c: RiskConfig, d: RiskConfig) {
    && (c.trading == d.trading || d.trading == Active || c.trading == Halted)
    && NoTighter(c.limits.maxOrderQuantity, d.limits.maxOrderQuantity)
    && NoTighter(c.limits.maxOrderNotional, d.limits.maxOrderNotional)
    && NoTighter(c.limits.maxPositionQuantity, d.limits.maxPositionQuantity)
    && NoTighter(c.limits.maxPositionNotional, d.limits.maxPositionNotional)
  }

  lemma NoTighterAccepts(value: real, a: Option<real>, b: Option<real>)
    requires NoTighter(a, b) && !Exceeds(value, a)
    ensures !Exceeds(value, b)
  {}

  /** Loosening a limit, or the gate, refuses no order that was accepted. */
  lemma LooserAcceptsMore(c: RiskConfig, d: RiskConfig, e: Exposure, side: Side, quantity: real,
                          limitPrice: Option<real>, contractSize: real)
    requires NoStricter(c, d) && CheckSubmit(Some(c), e, side, quantity, limitPrice, contractSize).None?
    ensures CheckSubmit(Some(d), e, side, quantity, limitPrice, contractSize).None?
  {
    hide CheckLimit, Exceeds, NoTighter, Abs, CheckSubmit, EstPrice, Notional;
    AcceptedIff(c, e, side, quantity, limitPrice, contractSize);
    AcceptedIff(d, e, side, quantity, limitPrice, contractSize);
    var projected := Abs(e.position + e.working + side.Signed(quantity));
    NoTighterAccepts(quantity, c.limits.maxOrderQuantity, d.limits.maxOrderQuantity);
    NoTighterAccepts(projected, c.limits.maxPositionQuantity, d.limits.maxPositionQuantity);
    if EstPrice(limitPrice, contractSize).Some? {
      var price := EstPrice(limitPrice, contractSize).value;
      NoTighterAccepts(Notional(quantity, price), c.limits.maxOrderNotional, d.limits.maxOrderNotional);
      NoTighterAccepts(Notional(projected, price), c.limits.maxPositionNotional, d.limits.maxPositionNotional);
    }
  }

  lemma SmallerIsWithin(value: real, larger: real, max: Option<real>)
    requires value <= larger && !Exceeds(larger, max)
    ensures !Exceeds(value, max)
  {}

  lemma SmallerNotional(quantity: real, larger: real, price: real)
    requires quantity <= larger && price >= 0.0
    ensures Notional(quantity, price) <= Notional(larger, price)
  {}

  /** Where an order adds to the exposure there is, or there is none, any smaller one
      at its price is accepted with it. */
  lemma SmallerIsAccepted(c: RiskConfig, e: Exposure, side: Side, quantity: real, larger: real,
                          limitPrice: Option<real>, contractSize: real)
    requires 0.0 < quantity <= larger && side.Signed(e.position + e.working) >= 0.0
    requires limitPrice.Some? ==> limitPrice.value * contractSize >= 0.0
    requires CheckSubmit(Some(c), e, side, larger, limitPrice, contractSize).None?
    ensures CheckSubmit(Some(c), e, side, quantity, limitPrice, contractSize).None?
  {
    assert EstPrice(limitPrice, contractSize).Some? ==> EstPrice(limitPrice, contractSize).value >= 0.0;
    hide CheckLimit, Exceeds, CheckSubmit, EstPrice, Notional;
    AcceptedIff(c, e, side, quantity, limitPrice, contractSize);
    AcceptedIff(c, e, side, larger, limitPrice, contractSize);
    var smallProjected := Abs(e.position + e.working + side.Signed(quantity));
    var projected := Abs(e.position + e.working + side.Signed(larger));
    SmallerIsWithin(quantity, larger, c.limits.maxOrderQuantity);
    SmallerIsWithin(smallProjected, projected, c.limits.maxPositionQuantity);
    if EstPrice(limitPrice, contractSize).Some? {
      var price := EstPrice(limitPrice, contractSize).value;
      SmallerNotional(quantity, larger, price);
      SmallerNotional(smallProjected, projected, price);
      SmallerIsWithin(Notional(quantity, price), Notional(larger, price), c.limits.maxOrderNotional);
      SmallerIsWithin(Notional(smallProjected, price), Notional(projected, price), c.limits.maxPositionNotional);
    }
  }

  /** In the reducing state an accepted order shrinks the holding once it is filled
      -- exactly when it is for less than twice the holding: the gate looks at the
      side alone, and a larger order turns the holding around and past its size. */
  lemma ReducingShrinksIff(side: Side, quantity: real, position: real)
    requires quantity > 0.0 && CheckTradingState(Reducing, side, position).None?
    ensures Abs(position + side.Signed(quantity)) < Abs(position) <==> quantity < 2.0 * Abs(position)
  {}

  /** So the gate lets through an order that leaves a larger holding. */
  lemma ReducingCanGrow()
    ensures CheckTradingState(Reducing, Sell, 1.0).None? && Abs(1.0 + Sell.Signed(100.0)) > Abs(1.0)
  {}
}
