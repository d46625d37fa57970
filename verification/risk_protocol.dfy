/**
The position limit under concurrency: submits of one scope take the limit row's
lock, read position and working quantity in two statements, check, insert and
commit, while fills, cancels and allocation transfers commit in between
(src/risk_engine.rs:107-180, src/order_entry.rs:719-819, src/execution.rs:141-242,
src/handlers.rs:835-876). Editing the limits takes the same row's lock.
*/
module RiskProtocol {
  import opened Wrappers
  import opened Orders
  import opened Risk

  type TxId = nat

  datatype OpenOrder = OpenOrder(side: Side, leaves: real, live: bool)

  datatype Phase =
    | Waiting
    | Locked
    | HavePosition(position: real)
    | Accepted(seen: real)

  // `missed` and `since` are histories: what moved the position between the
  // transaction's two reads, and what moved the scope's total after them.
  datatype Submitting = Submitting(
    side: Side,
    quantity: real,
    price: Option<real>,
    phase: Phase,
    missed: real,
    since: real)

  // One scope: its configuration, its committed position and orders.
  datatype State = State(
    config: RiskConfig,
    contractSize: real,
    position: real,
    orders: seq<OpenOrder>,
    txs: map<TxId, Submitting>)

  function SignedLeaves(o: OpenOrder): real {
    if o.live then o.side.Signed(o.leaves) else 0.0
  }

  function Working(orders: seq<OpenOrder>): real {
    if orders == [] then 0.0 else Working(orders[..|orders| - 1]) + SignedLeaves(orders[|orders| - 1])
  }

  function Total(s: State): real {
    s.position + Working(s.orders)
  }

  lemma {:induction false} WorkingUpdate(orders: seq<OpenOrder>, i: nat, o: OpenOrder)
    requires i < |orders|
    ensures Working(orders[i := o]) == Working(orders) - SignedLeaves(orders[i]) + SignedLeaves(o)
    decreases |orders|
  {
    var n := |orders| - 1;
    if i < n {
      WorkingUpdate(orders[..n], i, o);
      assert orders[i := o][..n] == orders[..n][i := o];
    } else {
      assert orders[i := o][..n] == orders[..n];
    }
  }

  lemma WorkingSnoc(orders: seq<OpenOrder>, o: OpenOrder)
    ensures Working(orders + [o]) == Working(orders) + SignedLeaves(o)
  {
    assert (orders + [o])[..|orders|] == orders;
  }

  predicate Holds(t: Submitting) {
    !t.phase.Waiting?
  }

  datatype Step =
    | Begin(id: TxId, side: Side, quantity: real, price: Option<real>)
    | Lock(id: TxId)
    | ReadPosition(id: TxId)
    | ReadWorking(id: TxId)
    | Commit(id: TxId)
    | Abort(id: TxId)
    | Fill(i: nat, qty: real)
    | Cancel(i: nat)
    | Transfer(moved: real)
    | SetLimits(config: RiskConfig)

  ghost predicate Enabled(s: State, step: Step) {
    match step
    case Begin(id, _, quantity, _) => id !in s.txs && quantity > 0.0
    // FOR UPDATE waits for whoever holds the limit row
    case Lock(id) => id in s.txs && s.txs[id].phase.Waiting? && forall t | t in s.txs :: !Holds(s.txs[t])
    case ReadPosition(id) => id in s.txs && s.txs[id].phase.Locked?
    case ReadWorking(id) => id in s.txs && s.txs[id].phase.HavePosition?
    case Commit(id) => id in s.txs && s.txs[id].phase.Accepted?
    case Abort(id) => id in s.txs
    case Fill(i, qty) => i < |s.orders| && s.orders[i].live && 0.0 < qty <= s.orders[i].leaves
    case Cancel(i) => i < |s.orders| && s.orders[i].live
    case Transfer(_) => true
    case SetLimits(_) => forall t | t in s.txs :: !Holds(s.txs[t])
  }

  function Moved(s: State, id: TxId, p: Phase): State
    requires id in s.txs
  {
    s.(txs := s.txs[id := s.txs[id].(phase := p)])
  }

  // The position moved.
  function Missed(t: Submitting, moved: real): Submitting {
    if t.phase.HavePosition? then t.(missed := t.missed + moved) else t
  }

  // The scope's total moved.
  function Shifted(t: Submitting, moved: real): Submitting {
    if t.phase.Accepted? then t.(since := t.since + moved) else t
  }

  ghost function Do(s: State, step: Step): State
    requires Enabled(s, step)
  {
    match step
    case Begin(id, side, quantity, price) =>
      s.(txs := s.txs[id := Submitting(side, quantity, price, Waiting, 0.0, 0.0)])
    case Lock(id) => Moved(s, id, Locked)
    case ReadPosition(id) => Moved(s, id, HavePosition(s.position))
    case ReadWorking(id) =>
      var t := s.txs[id];
      var e := Exposure(t.phase.position, Working(s.orders));
      if CheckSubmit(Some(s.config), e, t.side, t.quantity, t.price, s.contractSize).None?
      then Moved(s, id, Accepted(e.position + e.working))
      else s.(txs := s.txs - {id})
    case Commit(id) =>
      s.(orders := s.orders + [OpenOrder(s.txs[id].side, s.txs[id].quantity, true)], txs := s.txs - {id})
    case Abort(id) => s.(txs := s.txs - {id})
    case Fill(i, qty) =>
      var o, filled := s.orders[i], s.orders[i].side.Signed(qty);
      s.(position := s.position + filled,
         orders := s.orders[i := OpenOrder(o.side, o.leaves - qty, o.leaves - qty > 0.0)],
         txs := map t | t in s.txs :: Missed(s.txs[t], filled))
    case Cancel(i) =>
      var o := s.orders[i];
      s.(orders := s.orders[i := o.(live := false)],
         txs := map t | t in s.txs :: Shifted(s.txs[t], -SignedLeaves(o)))
    case Transfer(moved) =>
      s.(position := s.position + moved, txs := map t | t in s.txs :: Shifted(Missed(s.txs[t], moved), moved))
    case SetLimits(config) => s.(config := config)
  }

  // ---- what a submit in progress knows ------------------------------------------------

  // What it read, against what is there: short by what it missed, and by what
  // has moved since; and the limit it was checked against still stands.
  ghost predicate Informed(s: State, t: Submitting) {
    match t.phase
    case Waiting => t.missed == 0.0 && t.since == 0.0
    case Locked => t.missed == 0.0 && t.since == 0.0
    case HavePosition(p) => s.position == p + t.missed && t.since == 0.0
    case Accepted(seen) =>
      && Total(s) == seen + t.missed + t.since
      && !Exceeds(Abs(seen + t.side.Signed(t.quantity)), s.config.limits.maxPositionQuantity)
  }

  ghost predicate Inv(s: State) {
    && (forall t, u | t in s.txs && u in s.txs && Holds(s.txs[t]) && Holds(s.txs[u]) :: t == u)
    && (forall t | t in s.txs :: Informed(s, s.txs[t]))
  }

  lemma FillKeepsTotal(s: State, i: nat, qty: real)
    requires Enabled(s, Fill(i, qty))
    ensures Total(Do(s, Fill(i, qty))) == Total(s)
  {
    var o := s.orders[i];
    WorkingUpdate(s.orders, i, OpenOrder(o.side, o.leaves - qty, o.leaves - qty > 0.0));
  }

  lemma CancelTotal(s: State, i: nat)
    requires Enabled(s, Step.Cancel(i))
    ensures Total(Do(s, Step.Cancel(i))) == Total(s) - SignedLeaves(s.orders[i])
  {
    WorkingUpdate(s.orders, i, s.orders[i].(live := false));
  }

  lemma CheckKeepsInv(s: State, id: TxId)
    requires Inv(s) && Enabled(s, ReadWorking(id))
    ensures Inv(Do(s, ReadWorking(id)))
  {
    hide Working, CheckSubmit;
    var s', t := Do(s, ReadWorking(id)), s.txs[id];
    var e := Exposure(t.phase.position, Working(s.orders));
    assert Informed(s, t);
    if CheckSubmit(Some(s.config), e, t.side, t.quantity, t.price, s.contractSize).None? {
      AcceptedIsWithin(s.config, e, t.side, t.quantity, t.price, s.contractSize);
    }
    forall u | u in s'.txs && u != id ensures Informed(s', s'.txs[u]) { assert Informed(s, s.txs[u]); }
  }

  lemma CommitKeepsInv(s: State, id: TxId)
    requires Inv(s) && Enabled(s, Commit(id))
    ensures Inv(Do(s, Commit(id)))
  {
    hide Working;
    var s' := Do(s, Commit(id));
    forall u | u in s'.txs ensures Informed(s', s'.txs[u]) { assert Informed(s, s.txs[u]); }
  }

  lemma FillKeepsInv(s: State, i: nat, qty: real)
    requires Inv(s) && Enabled(s, Fill(i, qty))
    ensures Inv(Do(s, Fill(i, qty)))
  {
    hide Working;
    var s' := Do(s, Fill(i, qty));
    FillKeepsTotal(s, i, qty);
    forall u | u in s'.txs ensures Informed(s', s'.txs[u]) { assert Informed(s, s.txs[u]); }
  }

  lemma CancelKeepsInv(s: State, i: nat)
    requires Inv(s) && Enabled(s, Step.Cancel(i))
    ensures Inv(Do(s, Step.Cancel(i)))
  {
    hide Working, SignedLeaves;
    var s' := Do(s, Step.Cancel(i));
    CancelTotal(s, i);
    forall u | u in s'.txs ensures Informed(s', s'.txs[u]) { assert Informed(s, s.txs[u]); }
  }

  lemma TransferKeepsInv(s: State, moved: real)
    requires Inv(s)
    ensures Inv(Do(s, Transfer(moved)))
  {
    hide Working;
    var s' := Do(s, Transfer(moved));
    forall u | u in s'.txs ensures Informed(s', s'.txs[u]) { assert Informed(s, s.txs[u]); }
  }

  lemma StepKeepsInv(s: State, step: Step)
    requires Inv(s) && Enabled(s, step)
    ensures Inv(Do(s, step))
  {
    hide Working, CheckSubmit, SignedLeaves, Missed, Shifted;
    match step
    case ReadWorking(id) => CheckKeepsInv(s, id);
    case Commit(id) => CommitKeepsInv(s, id);
    case Fill(i, qty) => FillKeepsInv(s, i, qty);
    case Cancel(i) => CancelKeepsInv(s, i);
    case Transfer(moved) => TransferKeepsInv(s, moved);
    case _ =>
      var s' := Do(s, step);
      forall u | u in s'.txs ensures Informed(s', s'.txs[u]) {
        if u in s.txs { assert Informed(s, s.txs[u]); }
      }
  }

  // ---- the band -------------------------------------------------------------------------

  predicate InBand(s: State) {
    !Exceeds(Abs(Total(s)), s.config.limits.maxPositionQuantity)
  }

  // The room a quantity leaves under a limit, above and below.
  predicate FitsIn(move: real, quantity: real, max: Option<real>) {
    max.Some? ==> -(max.value + quantity) <= move <= max.value - quantity
  }

  // Whether a step fits in the room there is: for a commit, what its check missed
  // and what moved since, in the room the check left; for a cancel, the order it
  // takes away; for a transfer, what it moves; for new limits, the scope itself.
  predicate Fits(s: State, step: Step)
    requires step.Commit? ==> step.id in s.txs && s.txs[step.id].phase.Accepted?
    requires step.Cancel? ==> step.i < |s.orders|
  {
    var max := s.config.limits.maxPositionQuantity;
    match step
    case Commit(id) =>
      var t := s.txs[id];
      FitsIn(t.missed + t.since, t.phase.seen + t.side.Signed(t.quantity), max)
    case Cancel(i) => FitsIn(-SignedLeaves(s.orders[i]), Total(s), max)
    case Transfer(moved) => FitsIn(moved, Total(s), max)
    case SetLimits(config) => FitsIn(0.0, Total(s), config.limits.maxPositionQuantity)
    case _ => true
  }

  /** Inside the band a step stays inside it -- a fill always -- exactly when it fits. */
  lemma BandIff(s: State, step: Step)
    requires Inv(s) && InBand(s) && Enabled(s, step)
    ensures InBand(Do(s, step)) <==> Fits(s, step)
  {
    match step
    case Commit(id) =>
      var t := s.txs[id];
      assert Informed(s, t);
      WorkingSnoc(s.orders, OpenOrder(t.side, t.quantity, true));
    case Fill(i, qty) => FillKeepsTotal(s, i, qty);
    case Cancel(i) => CancelTotal(s, i);
    case _ =>
  }

  // ---- runs -----------------------------------------------------------------------------

  ghost function After(init: State, steps: seq<Step>): Option<State>
    decreases |steps|
  {
    if steps == [] then Some(init)
    else
      var before := After(init, steps[..|steps| - 1]);
      if before.Some? && Enabled(before.value, steps[|steps| - 1])
      then Some(Do(before.value, steps[|steps| - 1])) else None
  }

  lemma {:induction false} RunKeepsInv(init: State, steps: seq<Step>)
    requires init.txs == map[] && After(init, steps).Some?
    ensures Inv(After(init, steps).value)
    decreases |steps|
  {
    if steps != [] {
      RunKeepsInv(init, steps[..|steps| - 1]);
      StepKeepsInv(After(init, steps[..|steps| - 1]).value, steps[|steps| - 1]);
    }
  }

  ghost predicate AlwaysInBand(init: State, steps: seq<Step>)
    requires After(init, steps).Some?
    decreases |steps|
  {
    InBand(After(init, steps).value) && (steps == [] || AlwaysInBand(init, steps[..|steps| - 1]))
  }

  ghost predicate EachFits(init: State, steps: seq<Step>)
    requires After(init, steps).Some?
    decreases |steps|
  {
    steps == [] ||
    (EachFits(init, steps[..|steps| - 1]) && Fits(After(init, steps[..|steps| - 1]).value, steps[|steps| - 1]))
  }

  /** Over any interleaving of submits, fills, cancels, transfers and limit edits, a
      scope that starts inside its band is there at every point exactly when each
      step fits in the room there is. */
  lemma {:induction false} AlwaysInBandIff(init: State, steps: seq<Step>)
    requires init.txs == map[] && InBand(init) && After(init, steps).Some?
    ensures AlwaysInBand(init, steps) <==> EachFits(init, steps)
    decreases |steps|
  {
    hide Inv, InBand, Do, Fits;
    if steps != [] {
      var before := steps[..|steps| - 1];
      AlwaysInBandIff(init, before);
      RunKeepsInv(init, before);
      if AlwaysInBand(init, before) {
        BandIff(After(init, before).value, steps[|steps| - 1]);
      }
    }
  }

  // No fill commits between a check's two reads.
  predicate BetweenReads(s: State, step: Step) {
    step.Fill? && exists t | t in s.txs :: s.txs[t].phase.HavePosition?
  }

  ghost predicate SubmitsAndFills(init: State, steps: seq<Step>)
    requires After(init, steps).Some?
    decreases |steps|
  {
    steps == [] ||
    (var before, step := steps[..|steps| - 1], steps[|steps| - 1];
     && SubmitsAndFills(init, before)
     && !step.Cancel? && !step.Transfer? && !step.SetLimits?
     && !BetweenReads(After(init, before).value, step))
  }

  ghost predicate NothingMissed(s: State) {
    forall t | t in s.txs :: s.txs[t].missed == 0.0 && s.txs[t].since == 0.0
  }

  /** Concurrent submits and fills, in any interleaving in which no fill commits
      between a check's two reads: a scope that starts inside its band stays there. */
  lemma {:induction false} SubmitsAndFillsStayInBand(init: State, steps: seq<Step>)
    requires init.txs == map[] && InBand(init) && After(init, steps).Some? && SubmitsAndFills(init, steps)
    ensures InBand(After(init, steps).value) && NothingMissed(After(init, steps).value)
    decreases |steps|
  {
    if steps != [] {
      var before, step := steps[..|steps| - 1], steps[|steps| - 1];
      SubmitsAndFillsStayInBand(init, before);
      RunKeepsInv(init, before);
      var s := After(init, before).value;
      BandIff(s, step);
      if step.Commit? {
        assert Informed(s, s.txs[step.id]);
      }
    }
  }

  /** In every run at most one check of the scope is under way, so each sees the
      orders of all that committed before it. */
  lemma ChecksAreSerial(init: State, steps: seq<Step>, t: TxId, u: TxId)
    requires init.txs == map[] && After(init, steps).Some?
    requires var s := After(init, steps).value; t in s.txs && u in s.txs && Holds(s.txs[t]) && Holds(s.txs[u])
    ensures t == u
  {
    RunKeepsInv(init, steps);
  }

  lemma Then(init: State, steps: seq<Step>, s: State, step: Step)
    requires After(init, steps) == Some(s) && Enabled(s, step)
    ensures After(init, steps + [step]) == Some(Do(s, step))
  {
    assert (steps + [step])[..|steps|] == steps;
  }

  // A limit of ten, flat, with five on order.
  function FiveOnOrder(): State {
    State(RiskConfig(Active, RiskLimits(None, None, Some(10.0), None)), 1.0, 0.0, [OpenOrder(Buy, 5.0, true)], map[])
  }

  // The check has read the position; the fill of five has committed since.
  lemma FilledBetweenReads() returns (steps: seq<Step>, s: State)
    ensures After(FiveOnOrder(), steps) == Some(s)
    ensures s == FiveOnOrder().(position := 5.0, orders := [OpenOrder(Buy, 0.0, false)],
                                txs := map[0 := Submitting(Buy, 10.0, None, HavePosition(0.0), 5.0, 0.0)])
  {
    var s0 := FiveOnOrder();
    assert After(s0, []) == Some(s0);
    hide After;
    Then(s0, [], s0, Begin(0, Buy, 10.0, None));
    var p1, s1 := [] + [Begin(0, Buy, 10.0, None)], Do(s0, Begin(0, Buy, 10.0, None));
    Then(s0, p1, s1, Lock(0));
    var p2, s2 := p1 + [Lock(0)], Do(s1, Lock(0));
    Then(s0, p2, s2, ReadPosition(0));
    var p3, s3 := p2 + [ReadPosition(0)], Do(s2, ReadPosition(0));
    Then(s0, p3, s3, Fill(0, 5.0));
    steps, s := p3 + [Fill(0, 5.0)], Do(s3, Fill(0, 5.0));
  }

  /** From any point of any run at which no check is under way, a submit left to itself is
      checked against what the scope holds and has open, and goes on the book, all of it
      open, exactly when it passes. */
  lemma LoneSubmit(init: State, steps: seq<Step>, s: State, id: TxId, side: Side, quantity: real, price: Option<real>)
    returns (steps': seq<Step>, s': State)
    requires After(init, steps) == Some(s) && id !in s.txs && quantity > 0.0
    requires forall t | t in s.txs :: !Holds(s.txs[t])
    ensures After(init, steps') == Some(s')
    ensures var e := Exposure(s.position, Working(s.orders));
            s' == if CheckSubmit(Some(s.config), e, side, quantity, price, s.contractSize).None?
                  then s.(orders := s.orders + [OpenOrder(side, quantity, true)])
                  else s
  {
    hide After, CheckSubmit, Working;
    Then(init, steps, s, Begin(id, side, quantity, price));
    var p1, s1 := steps + [Begin(id, side, quantity, price)], Do(s, Begin(id, side, quantity, price));
    Then(init, p1, s1, Lock(id));
    var p2, s2 := p1 + [Lock(id)], Do(s1, Lock(id));
    Then(init, p2, s2, ReadPosition(id));
    var p3, s3 := p2 + [ReadPosition(id)], Do(s2, ReadPosition(id));
    Then(init, p3, s3, ReadWorking(id));
    steps', s' := p3 + [ReadWorking(id)], Do(s3, ReadWorking(id));
    if id in s'.txs {
      Then(init, steps', s', Commit(id));
      steps', s' := steps' + [Commit(id)], Do(s', Commit(id));
    }
    assert s'.txs == s.txs;
  }

  /** A submit given up leaves the scope as it was, and its row free for the next. */
  lemma AbortFreesTheRow(init: State, steps: seq<Step>, id: TxId)
    requires init.txs == map[] && After(init, steps).Some? && id in After(init, steps).value.txs
    ensures var s := After(init, steps).value;
            && Enabled(s, Abort(id)) && id !in Do(s, Abort(id)).txs
            && Do(s, Abort(id)) == s.(txs := Do(s, Abort(id)).txs)
            && (Holds(s.txs[id]) ==> forall t | t in Do(s, Abort(id)).txs :: !Holds(Do(s, Abort(id)).txs[t]))
  {
    RunKeepsInv(init, steps);
  }

  /** A fill moves what it fills from the order to the position and a cancel takes what
      is open of it away; a transfer moves the position alone. */
  lemma WhatMovesTheScope(s: State, i: nat, qty: real, moved: real)
    requires Enabled(s, Fill(i, qty))
    ensures var signed := s.orders[i].side.Signed(qty);
            Do(s, Fill(i, qty)).position == s.position + signed
            && Working(Do(s, Fill(i, qty)).orders) == Working(s.orders) - signed
    ensures var open := s.orders[i].side.Signed(s.orders[i].leaves);
            Do(s, Step.Cancel(i)).position == s.position
            && Working(Do(s, Step.Cancel(i)).orders) == Working(s.orders) - open
    ensures Do(s, Transfer(moved)).position == s.position + moved && Do(s, Transfer(moved)).orders == s.orders
  {
    var o := s.orders[i];
    WorkingUpdate(s.orders, i, OpenOrder(o.side, o.leaves - qty, o.leaves - qty > 0.0));
    WorkingUpdate(s.orders, i, o.(live := false));
  }

  /** The condition is needed: a fill of five between the reads is in neither, an
      order for ten passes, and the scope stands at fifteen against a limit of ten. */
  lemma FillBetweenReadsBreaksTheBand()
    ensures InBand(FiveOnOrder())
    ensures exists steps :: After(FiveOnOrder(), steps).Some? && !InBand(After(FiveOnOrder(), steps).value)
  {
    var s0 := FiveOnOrder();
    WorkingSnoc([], OpenOrder(Buy, 5.0, true));
    assert s0.orders == [] + [OpenOrder(Buy, 5.0, true)];
    var p, s := FilledBetweenReads();
    WorkingSnoc([], OpenOrder(Buy, 0.0, false));
    assert s.orders == [] + [OpenOrder(Buy, 0.0, false)];
    Then(s0, p, s, ReadWorking(0));
    var s' := Do(s, ReadWorking(0));
    Then(s0, p + [ReadWorking(0)], s', Commit(0));
    WorkingSnoc(s'.orders, OpenOrder(Buy, 10.0, true));
    var steps := p + [ReadWorking(0)] + [Commit(0)];
    assert After(s0, steps).Some? && !InBand(After(s0, steps).value);
  }

  // A limit of ten, flat, with ten to buy and ten to sell on order.
  function OffsettingOrders(): State {
    State(RiskConfig(Active, RiskLimits(None, None, Some(10.0), None)), 1.0, 0.0,
          [OpenOrder(Buy, 10.0, true), OpenOrder(Sell, 10.0, true)], map[])
  }

  lemma TwoOnOrder(a: OpenOrder, b: OpenOrder)
    ensures Working([a, b]) == SignedLeaves(a) + SignedLeaves(b)
  {
    WorkingSnoc([], a);
    WorkingSnoc([a], b);
    assert [a] == [] + [a] && [a, b] == [a] + [b];
  }

  // A third order, to buy ten, is accepted beside them.
  lemma ThirdIsAccepted() returns (steps: seq<Step>, s: State)
    ensures After(OffsettingOrders(), steps) == Some(s) && Total(s) == 10.0 && s.config == OffsettingOrders().config
    ensures |s.orders| == 3 && s.orders[1] == OpenOrder(Sell, 10.0, true)
  {
    var s0 := OffsettingOrders();
    assert After(s0, []) == Some(s0);
    TwoOnOrder(s0.orders[0], s0.orders[1]);
    hide After, Working;
    Then(s0, [], s0, Begin(0, Buy, 10.0, None));
    var p1, s1 := [] + [Begin(0, Buy, 10.0, None)], Do(s0, Begin(0, Buy, 10.0, None));
    Then(s0, p1, s1, Lock(0));
    var p2, s2 := p1 + [Lock(0)], Do(s1, Lock(0));
    Then(s0, p2, s2, ReadPosition(0));
    var p3, s3 := p2 + [ReadPosition(0)], Do(s2, ReadPosition(0));
    Then(s0, p3, s3, ReadWorking(0));
    var p4, s4 := p3 + [ReadWorking(0)], Do(s3, ReadWorking(0));
    Then(s0, p4, s4, Commit(0));
    WorkingSnoc(s4.orders, OpenOrder(Buy, 10.0, true));
    steps, s := p4 + [Commit(0)], Do(s4, Commit(0));
  }

  /** A cancel can leave the band: ten bought against ten sold makes room for ten more,
      and when the sale is cancelled the scope stands at twenty against a limit of ten. */
  lemma CancelBreaksTheBand()
    ensures InBand(OffsettingOrders())
    ensures exists steps ::
              After(OffsettingOrders(), steps).Some? && !InBand(After(OffsettingOrders(), steps).value)
  {
    var s0 := OffsettingOrders();
    TwoOnOrder(s0.orders[0], s0.orders[1]);
    var p, s := ThirdIsAccepted();
    hide After, Working;
    Then(s0, p, s, Step.Cancel(1));
    CancelTotal(s, 1);
    var steps := p + [Step.Cancel(1)];
    assert After(s0, steps).Some? && !InBand(After(s0, steps).value);
  }
}
