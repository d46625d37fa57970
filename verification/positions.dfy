/**
The position projection: average-cost accounting of one (portfolio, instrument)
holding, fill by fill (src/positions.rs).
*/
module Positions {
  import opened Wrappers
  import opened Orders

  datatype Position = Position(netQty: real, avgCost: real, realizedPnl: real)

  const FLAT := Position(0.0, 0.0, 0.0)

  // One booked fill, as the projection sees it.
  datatype Fill = Fill(side: Side, qty: Positive, price: real)

  function ApplyFill(p: Position, f: Fill): Position
  {
    var signed := f.side.Signed(f.qty);
    var n, c := p.netQty, p.avgCost;
    if n == 0.0 then
      // flat: opens at the fill's price
      p.(netQty := signed, avgCost := f.price)
    else if (n > 0.0) == (signed > 0.0) then
      // increasing: blends the cost
      p.(netQty := n + signed, avgCost := (Abs(n) * c + f.qty * f.price) / (Abs(n) + f.qty))
    else
      var close := if f.qty <= Abs(n) then f.qty else Abs(n);
      var signN := if n > 0.0 then 1.0 else -1.0;
      var pnl := p.realizedPnl + close * (f.price - c) * signN;
      if f.qty <= Abs(n) then
        var net := n + signed;
        Position(net, if net == 0.0 then 0.0 else c, pnl)
      else
        // flips through zero: the remainder opens at the fill's price
        var remainder := f.qty - Abs(n);
        Position(if signed > 0.0 then remainder else -remainder, f.price, pnl)
  }

  // The giving side of a transfer: reduced towards zero at its cost, no profit booked.
  function ReduceAtCost(p: Position, qty: real): Position {
    var net := p.netQty - (if p.netQty >= 0.0 then qty else -qty);
    Position(net, if net == 0.0 then 0.0 else p.avgCost, p.realizedPnl)
  }

  /** Giving up no more than there is takes exactly that off the holding, on whichever
      side it is; cost stays while anything is left, and no profit is booked. */
  lemma GivesUpAtCost(p: Position, qty: real)
    requires 0.0 < qty <= Abs(p.netQty)
    ensures var q := ReduceAtCost(p, qty);
            && Abs(q.netQty) == Abs(p.netQty) - qty
            && (p.netQty > 0.0 ==> q.netQty >= 0.0) && (p.netQty < 0.0 ==> q.netQty <= 0.0)
            && q.avgCost == (if qty < Abs(p.netQty) then p.avgCost else 0.0)
            && q.realizedPnl == p.realizedPnl
  {}

  // The position a sequence of fills leads to.
  function FoldFills(fills: seq<Fill>): Position
    decreases |fills|
  {
    if fills == [] then FLAT
    else ApplyFill(FoldFills(fills[..|fills| - 1]), fills[|fills| - 1])
  }

  lemma FoldFillsSnoc(fills: seq<Fill>, f: Fill)
    ensures FoldFills(fills + [f]) == ApplyFill(FoldFills(fills), f)
  {
    assert (fills + [f])[..|fills|] == fills;
  }

  // What was bought less what was sold, and the cash paid for it.
  function NetBought(fills: seq<Fill>): real {
    if fills == [] then 0.0
    else
      var f := fills[|fills| - 1];
      NetBought(fills[..|fills| - 1]) + f.side.Signed(f.qty)
  }

  function CashPaid(fills: seq<Fill>): real {
    if fills == [] then 0.0
    else
      var f := fills[|fills| - 1];
      CashPaid(fills[..|fills| - 1]) + f.side.Signed(f.qty) * f.price
  }

  // Multiplying out each branch once, so that no later proof needs to.

  lemma BlendedCost(n: real, c: real, s: real, q: real, x: real)
    requires n != 0.0 && q > 0.0 && (n > 0.0) == (s > 0.0) && (s == q || s == -q)
    ensures (n + s) * ((Abs(n) * c + q * x) / (Abs(n) + q)) == n * c + s * x
  {
    var d := Abs(n) + q;
    var blend := (Abs(n) * c + q * x) / d;
    assert d * blend == Abs(n) * c + q * x;
    if n > 0.0 {
      assert n + s == d;
    } else {
      assert n + s == -d;
      assert (n + s) * blend == -(d * blend);
    }
  }

  /** One fill moves the net quantity by exactly what was traded and conserves
      cash: what the open position cost, less the profit booked, is what was paid. */
  lemma FillConserves(p: Position, f: Fill)
    ensures ApplyFill(p, f).netQty == p.netQty + f.side.Signed(f.qty)
    ensures var q := ApplyFill(p, f);
            q.netQty * q.avgCost - q.realizedPnl
            == p.netQty * p.avgCost - p.realizedPnl + f.side.Signed(f.qty) * f.price
  {
    var s := f.side.Signed(f.qty);
    var n, c, x := p.netQty, p.avgCost, f.price;
    if n == 0.0 {
    } else if (n > 0.0) == (s > 0.0) {
      BlendedCost(n, c, s, f.qty, x);
    } else if f.qty <= Abs(n) {
      CloseConserves(n, c, s, f.qty, x);
    } else {
      FlipConserves(n, c, s, f.qty, x);
    }
  }

  lemma FlatShowsNoCost(p: Position, f: Fill)
    ensures ApplyFill(p, f).netQty == 0.0 ==> ApplyFill(p, f).avgCost == 0.0
  {}

  lemma CloseConserves(n: real, c: real, s: real, q: real, x: real)
    requires n != 0.0 && q > 0.0 && (n > 0.0) != (s > 0.0) && (s == q || s == -q) && q <= Abs(n)
    ensures var sign := if n > 0.0 then 1.0 else -1.0;
            var cost := if n + s == 0.0 then 0.0 else c;
            (n + s) * cost - q * (x - c) * sign == n * c + s * x
  {
    var sign := if n > 0.0 then 1.0 else -1.0;
    assert s == -q * sign;
    assert q * (x - c) * sign == -(s * (x - c));
    assert s * (x - c) == s * x - s * c;
    assert (n + s) * c == n * c + s * c;
  }

  lemma FlipConserves(n: real, c: real, s: real, q: real, x: real)
    requires n != 0.0 && (n > 0.0) != (s > 0.0) && (s == q || s == -q) && q > Abs(n)
    ensures var sign := if n > 0.0 then 1.0 else -1.0;
            var net := if s > 0.0 then q - Abs(n) else -(q - Abs(n));
            net == n + s && net * x - Abs(n) * (x - c) * sign == n * c + s * x
  {
    var sign := if n > 0.0 then 1.0 else -1.0;
    assert Abs(n) * sign == n;
    assert Abs(n) * (x - c) * sign == n * (x - c);
    assert n * (x - c) == n * x - n * c;
    assert (n + s) * x == n * x + s * x;
  }

  // The holding is the net bought, and what it cost less the profit booked is
  // the cash paid; a flat holding shows no cost.
  ghost predicate Balanced(p: Position, net: real, cash: real) {
    && p.netQty == net
    && p.netQty * p.avgCost - p.realizedPnl == cash
    && (p.netQty == 0.0 ==> p.avgCost == 0.0)
  }

  lemma FillKeepsBalance(p: Position, f: Fill, q: Position, net: real, cash: real, net': real, cash': real)
    requires Balanced(p, net, cash)
    requires q == ApplyFill(p, f)
    requires net' == net + f.side.Signed(f.qty) && cash' == cash + f.side.Signed(f.qty) * f.price
    ensures Balanced(q, net', cash')
  {
    FillConserves(p, f);
    FlatShowsNoCost(p, f);
  }

  /** Over any sequence of fills the holding is what was bought less what was
      sold, and profit is what the sales brought in over what the closed part cost. */
  lemma {:induction false} FillsConserve(fills: seq<Fill>)
    ensures Balanced(FoldFills(fills), NetBought(fills), CashPaid(fills))
    decreases |fills|
  {
    if fills == [] {
    } else {
      var init, f := fills[..|fills| - 1], fills[|fills| - 1];
      FillsConserve(init);
      FillKeepsBalance(FoldFills(init), f, FoldFills(fills), NetBought(init), CashPaid(init), NetBought(fills),
          CashPaid(fills));
    }
  }

  // The rule of average-cost accounting, for a fill that takes `p` to `q`: adding
  // leaves the profit alone, reducing leaves the cost alone, nothing held has no
  // cost, and what is left past zero costs the fill's price.
  predicate ByAverageCost(p: Position, f: Fill, q: Position) {
    var s := f.side.Signed(f.qty);
    if p.netQty == 0.0 || (p.netQty > 0.0) == (s > 0.0) then q.realizedPnl == p.realizedPnl
    else if f.qty < Abs(p.netQty) then q.avgCost == p.avgCost
    else if f.qty == Abs(p.netQty) then q.avgCost == 0.0
    else q.avgCost == f.price
  }

  // With one total, cost and profit settle each other.
  lemma OneTotal(n: real, c: real, x: real, d: real, y: real)
    requires n * c - x == n * d - y
    ensures x == y && n != 0.0 ==> c == d
    ensures c == d ==> x == y
  {
    if x == y && n != 0.0 {
      assert n * (c - d) == 0.0;
    }
  }

  lemma FollowsTheRule(p: Position, f: Fill)
    ensures ByAverageCost(p, f, ApplyFill(p, f))
  {}

  lemma TheRuleSettles(p: Position, f: Fill, q: Position, r: Position)
    requires q.netQty == r.netQty == p.netQty + f.side.Signed(f.qty)
    requires q.netQty * q.avgCost - q.realizedPnl == r.netQty * r.avgCost - r.realizedPnl
    requires ByAverageCost(p, f, q) && ByAverageCost(p, f, r)
    ensures q == r
  {
    OneTotal(q.netQty, q.avgCost, q.realizedPnl, r.avgCost, r.realizedPnl);
  }

  /** A fill leads to the one position that moves the holding by what was traded,
      conserves cash, and follows the average-cost rule. */
  lemma FillIsAverageCost(p: Position, f: Fill, q: Position)
    ensures q == ApplyFill(p, f) <==>
              && q.netQty == p.netQty + f.side.Signed(f.qty)
              && q.netQty * q.avgCost - q.realizedPnl
                 == p.netQty * p.avgCost - p.realizedPnl + f.side.Signed(f.qty) * f.price
              && ByAverageCost(p, f, q)
  {
    FillConserves(p, f);
    FollowsTheRule(p, f);
    hide ApplyFill, ByAverageCost;
    var r := ApplyFill(p, f);
    if q.netQty == r.netQty && q.netQty * q.avgCost - q.realizedPnl == r.netQty * r.avgCost - r.realizedPnl
       && ByAverageCost(p, f, q) {
      TheRuleSettles(p, f, q, r);
    }
  }

  /** Whenever the holding is back to nothing, the profit booked is the cash taken in. */
  lemma FlatProfitIsCash(fills: seq<Fill>)
    requires NetBought(fills) == 0.0
    ensures FoldFills(fills).realizedPnl == -CashPaid(fills)
  {
    FillsConserve(fills);
  }

  /** Booking a fill on top of a flat start equals booking it on top of `p`
      exactly when `p` is itself flat with nothing realized: the one case in
      which overwriting a row from a stale flat read loses nothing. */
  lemma StaleFlatIsExact(p: Position, f: Fill)
    requires (p.netQty == 0.0 ==> p.avgCost == 0.0)
    ensures ApplyFill(FLAT, f) == ApplyFill(p, f) <==> p == FLAT
  {
    FillConserves(p, f);
    FillConserves(FLAT, f);
    if p.netQty == 0.0 {
      assert ApplyFill(p, f).realizedPnl == p.realizedPnl;
    }
  }
}
