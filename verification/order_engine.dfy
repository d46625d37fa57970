/**
What the order engine books for a venue event, against what it has booked
already (src/order_engine.rs, src/recon_orders.rs): a cumulative or terminal
state books only the missing quantity, priced so that the totals agree.

Nobody else books on the order meanwhile. Execution ids carry no decision and
are fixed strings here.
*/
module OrderEngine {
  import opened Wrappers
  import opened Orders

  // recon_orders.rs:35
  const EPS: real := 0.000000001

  datatype BrokerOutcome = ToFilled | ToCanceled | ToRejected | StillWorking

  datatype ExecKind =
    | Fill(executionId: string, qty: real, price: real)
    | Cumulative(cumQty: real, cumAvg: real)
    | Terminal(outcome: BrokerOutcome, executed: real, avg: real)
    | CanceledAtVenue
    | RejectedAtVenue(reason: string)
    | Ack(venueOrderId: string)

  predicate NeedsBookedState(kind: ExecKind) {
    kind.Cumulative? || kind.Terminal?
  }

  function MissingQty(booked: real, reported: real): Option<real> {
    var missing := reported - booked;
    if missing > EPS then Some(missing) else None
  }

  function IncrementPrice(booked: real, bookedAvg: Option<real>, reported: real, reportedAvg: real): real {
    var missing := reported - booked;
    match bookedAvg
    case Some(avg) =>
      if booked > EPS && missing > EPS then
        var price := (reportedAvg * reported - avg * booked) / missing;
        if price > 0.0 then price else reportedAvg
      else reportedAvg
    case None => reportedAvg
  }

  // The fill that brings the booked quantity up to the reported one, if it is short.
  function MissingFill(id: string, booked: real, bookedAvg: Option<real>, reported: real,
      reportedAvg: real): seq<Report> {
    match MissingQty(booked, reported)
    case None => []
    case Some(qty) => [ReportFill(id, qty, IncrementPrice(booked, bookedAvg, reported, reportedAvg))]
  }

  function ReportsFor(kind: ExecKind, booked: real, bookedAvg: Option<real>): seq<Report> {
    match kind
    case Fill(id, qty, price) => [ReportFill(id, qty, price)]
    case Cumulative(cum, avg) => MissingFill("cumulative", booked, bookedAvg, cum, avg)
    case Terminal(outcome, executed, avg) =>
      MissingFill("recon", booked, bookedAvg, executed, avg)
      + (match outcome
         case ToCanceled => [ReportCanceled]
         case ToRejected => [ReportReject("rejected")]
         case _ => [])
    case CanceledAtVenue => [ReportCanceled]
    case RejectedAtVenue(reason) => [ReportReject(reason)]
    case Ack(_) => []
  }

  // The event a command books: none when the order is closed or the state
  // machine refuses it (execution.rs:106-109, 154-160).
  function Booked(s: OrderState, cmd: Command): seq<Event> {
    match Decide(Some(s), cmd)
    case Ok(e) => [e]
    case Err(_) => []
  }

  function ApplyAll(s: OrderState, es: seq<Event>): OrderState
    decreases |es|
  {
    if es == [] then s
    else
      var before := ApplyAll(s, es[..|es| - 1]);
      Apply(Some(before), es[|es| - 1]).GetOr(before)
  }

  function BookedAll(s: OrderState, reports: seq<Report>): seq<Event>
    decreases |reports|
  {
    if reports == [] then []
    else
      var before := BookedAll(s, reports[..|reports| - 1]);
      before + Booked(ApplyAll(s, before), Receive(reports[|reports| - 1]))
  }

  // The events one venue event books on an order.
  function BookedBy(s: OrderState, kind: ExecKind): seq<Event> {
    if kind.Ack? then (if s.status.Submitted? then Booked(s, Route(kind.venueOrderId)) else [])
    else if NeedsBookedState(kind) then BookedAll(s, ReportsFor(kind, s.cumQty, s.avgPx))
    else BookedAll(s, ReportsFor(kind, 0.0, None))
  }

  function After(s: OrderState, kind: ExecKind): OrderState {
    ApplyAll(s, BookedBy(s, kind))
  }

  function Run(s: OrderState, kinds: seq<ExecKind>): OrderState
    decreases |kinds|
  {
    if kinds == [] then s else After(Run(s, kinds[..|kinds| - 1]), kinds[|kinds| - 1])
  }

  // An order's row and its log, as the engine's bookings change them.
  class BookedOrder {
    var row: OrderState
    var log: seq<Event>

    constructor (row: OrderState, log: seq<Event>)
      ensures this.row == row && this.log == log
    {
      this.row, this.log := row, log;
    }

    method Book(cmd: Command)
      modifies this
      ensures log == old(log) + Booked(old(row), cmd)
      ensures row == ApplyAll(old(row), Booked(old(row), cmd))
    {
      var decided := Decide(Some(row), cmd);
      if decided.Ok? {
        assert [decided.value][..0] == [];
        log := log + [decided.value];
        row := Apply(Some(row), decided.value).GetOr(row);
      }
    }

    /** Books one venue event: the plan made from what was booked before it, one
        report after the other, each against the state the last one left. */
    method ApplyExec(kind: ExecKind)
      modifies this
      ensures log == old(log) + BookedBy(old(row), kind)
      ensures row == After(old(row), kind)
    {
      hide ReportsFor, Booked, ApplyAll, BookedAll;
      NothingBooked(row);
      if kind.Ack? {
        if row.status.Submitted? {
          Book(Route(kind.venueOrderId));
        }
        return;
      }
      var reports :=
        if NeedsBookedState(kind) then ReportsFor(kind, row.cumQty, row.avgPx) else ReportsFor(kind, 0.0, None);
      ghost var booked: seq<Event> := [];
      var i := 0;
      while i < |reports|
        invariant 0 <= i <= |reports|
        invariant booked == BookedAll(old(row), reports[..i])
        invariant log == old(log) + booked && row == ApplyAll(old(row), booked)
      {
        ghost var more := Booked(row, Receive(reports[i]));
        BookedMore(old(row), reports, i, booked, row);
        Book(Receive(reports[i]));
        booked := booked + more;
        i := i + 1;
      }
      assert reports[..i] == reports;
    }
  }

  lemma NothingBooked(s: OrderState)
    ensures BookedAll(s, []) == [] && ApplyAll(s, []) == s
  {}

  // One more report, against the state the earlier ones left.
  lemma BookedMore(s: OrderState, reports: seq<Report>, i: nat, booked: seq<Event>, row: OrderState)
    requires i < |reports| && booked == BookedAll(s, reports[..i]) && row == ApplyAll(s, booked)
    ensures var more := Booked(row, Receive(reports[i]));
            && BookedAll(s, reports[..i + 1]) == booked + more
            && ApplyAll(s, booked + more) == ApplyAll(row, more)
  {
    assert reports[..i + 1][..i] == reports[..i];
    ApplyAllConcat(s, booked, Booked(row, Receive(reports[i])));
  }

  lemma ApplyAllConcat(s: OrderState, es: seq<Event>, more: seq<Event>)
    ensures ApplyAll(s, es + more) == ApplyAll(ApplyAll(s, es), more)
    decreases |more|
  {
    if more == [] {
      assert es + more == es;
    } else {
      var init := more[..|more| - 1];
      assert (es + more)[..|es + more| - 1] == es + init;
      ApplyAllConcat(s, es, init);
    }
  }

  // ---- one report, two reports -----------------------------------------------------

  function Next(s: OrderState, cmd: Command): OrderState {
    ApplyAll(s, Booked(s, cmd))
  }

  lemma OneReport(s: OrderState, r: Report)
    ensures BookedAll(s, [r]) == Booked(s, Receive(r)) && ApplyAll(s, BookedAll(s, [r])) == Next(s, Receive(r))
  {
    assert [r][..0] == [] && BookedAll(s, []) == [];
    assert ApplyAll(s, []) == s;
    assert [] + Booked(s, Receive(r)) == Booked(s, Receive(r));
  }

  lemma TwoReports(s: OrderState, q: Report, r: Report)
    ensures BookedAll(s, [q, r]) == Booked(s, Receive(q)) + Booked(Next(s, Receive(q)), Receive(r))
    ensures ApplyAll(s, BookedAll(s, [q, r])) == Next(Next(s, Receive(q)), Receive(r))
  {
    OneReport(s, q);
    assert [q, r][..1] == [q];
    ApplyAllConcat(s, Booked(s, Receive(q)), Booked(Next(s, Receive(q)), Receive(r)));
  }

  lemma OneEvent(s: OrderState, e: Event)
    ensures ApplyAll(s, [e]) == Apply(Some(s), e).GetOr(s)
  {
    assert [e][..0] == [];
    assert ApplyAll(s, []) == s;
  }

  lemma ClosedRefuses(s: OrderState, r: Report)
    requires s.status.IsTerminal()
    ensures Booked(s, Receive(r)) == [] && Next(s, Receive(r)) == s
  {}

  /** Nothing books on a closed order. */
  lemma ClosedBooksNothing(s: OrderState, kind: ExecKind)
    requires s.status.IsTerminal()
    ensures BookedBy(s, kind) == [] && After(s, kind) == s
  {
    hide IncrementPrice, Booked, Next, ApplyAll, BookedAll;
    NothingBooked(s);
    if !kind.Ack? {
      var reports := if NeedsBookedState(kind) then ReportsFor(kind, s.cumQty, s.avgPx)
          else ReportsFor(kind, 0.0, None);
      assert |reports| <= 2;
      if |reports| == 1 {
        assert reports == [reports[0]];
        ClosedRefuses(s, reports[0]);
        OneReport(s, reports[0]);
      } else if |reports| == 2 {
        assert reports == [reports[0], reports[1]];
        ClosedRefuses(s, reports[0]);
        ClosedRefuses(s, reports[1]);
        TwoReports(s, reports[0], reports[1]);
      }
    }
  }

  // ---- what a cumulative state books -----------------------------------------------

  predicate IsUpdate(kind: ExecKind) {
    kind.Cumulative? || (kind.Terminal? && (kind.outcome.ToFilled? || kind.outcome.StillWorking?))
  }

  predicate IsClose(kind: ExecKind) {
    kind.Terminal? && (kind.outcome.ToCanceled? || kind.outcome.ToRejected?)
  }

  function Reported(kind: ExecKind): real
    requires NeedsBookedState(kind)
  {
    if kind.Cumulative? then kind.cumQty else kind.executed
  }

  function ReportedAvg(kind: ExecKind): real
    requires NeedsBookedState(kind)
  {
    if kind.Cumulative? then kind.cumAvg else kind.avg
  }

  // The guard of the missing fill: more than EPS is missing, no more is claimed than
  // was ordered, and there is a price.
  predicate CanBook(s: OrderState, kind: ExecKind)
    requires NeedsBookedState(kind)
  {
    Reported(kind) - s.cumQty > EPS && Reported(kind) <= s.originalQty && ReportedAvg(kind) > 0.0
  }

  function Notional(s: OrderState): real {
    s.cumQty * s.avgPx.GetOr(0.0)
  }

  // What an order keeps whatever is booked on it.
  predicate SameOrder(s: OrderState, s': OrderState) {
    s'.originalQty == s.originalQty && s'.key == s.key && s'.side == s.side
  }

  // The increment's price makes the totals agree: the average did not move (or
  // nothing is booked), or a known total is topped by one that is worth more.
  predicate PricesAgree(s: OrderState, kind: ExecKind)
    requires NeedsBookedState(kind)
  {
    || ReportedAvg(kind) * s.cumQty == Notional(s)
    || (s.cumQty > EPS && Reported(kind) * ReportedAvg(kind) > Notional(s))
  }

  lemma QuotientPositive(n: real, d: real)
    requires d > 0.0
    ensures n / d > 0.0 <==> n > 0.0
    ensures n / d * d == n
  {}

  // At the venue's own average the totals agree only if it is the booked one.
  lemma FallbackTotals(booked: real, avg: real, reported: real, reportedAvg: real)
    ensures booked * avg + (reported - booked) * reportedAvg == reported * reportedAvg <==>
            reportedAvg * booked == booked * avg
  {
    assert (reported - booked) * reportedAvg == reported * reportedAvg - booked * reportedAvg;
  }

  lemma IncrementTotals(booked: real, avg: real, reported: real, reportedAvg: real, price: real)
    requires reported - booked > EPS && price == IncrementPrice(booked, Some(avg), reported, reportedAvg)
    ensures booked * avg + (reported - booked) * price == reported * reportedAvg
            <==> reportedAvg * booked == booked * avg || (booked > EPS && reported * reportedAvg > booked * avg)
  {
    FallbackTotals(booked, avg, reported, reportedAvg);
    if booked > EPS {
      QuotientPositive(reportedAvg * reported - avg * booked, reported - booked);
    }
  }

  lemma PositiveFactor(p: real, r: real)
    requires r > 0.0 && p * r > 0.0
    ensures p > 0.0
  {}

  // The missing quantity has a price exactly when the venue reports one.
  lemma IncrementSign(s: OrderState, kind: ExecKind)
    requires Sound(s) && NeedsBookedState(kind) && Reported(kind) - s.cumQty > EPS
    ensures IncrementPrice(s.cumQty, s.avgPx, Reported(kind), ReportedAvg(kind)) > 0.0 <==> ReportedAvg(kind) > 0.0
  {
    if s.cumQty > EPS {
      var p, r, worth := ReportedAvg(kind), Reported(kind), s.avgPx.value * s.cumQty;
      assert worth > 0.0;
      QuotientPositive(p * r - worth, r - s.cumQty);
      if p * r > worth {
        PositiveFactor(p, r);
      }
    }
  }

  // An accepted fill.
  predicate IsFill(e: Event, id: string, qty: real, price: real, version: nat) {
    e.OrderFill? && e.executionId == id && e.qty == qty && e.price == price && e.version == version
  }

  lemma FillBooks(s: OrderState, id: string, qty: real, price: real)
    requires Sound(s) && !s.status.IsTerminal() && qty > 0.0 && price > 0.0 && s.cumQty + qty <= s.originalQty
    ensures var cmd := Receive(ReportFill(id, qty, price));
            var n := Next(s, cmd);
            && |Booked(s, cmd)| == 1 && IsFill(Booked(s, cmd)[0], id, qty, price, s.version + 1)
            && n.version == s.version + 1
            && Sound(n) && SameOrder(s, n) && n.cumQty == s.cumQty + qty && Notional(n) == Notional(s) + qty * price
            && n.status == (if n.cumQty == s.originalQty then Filled else PartiallyFilled)
  {
    var cmd := Receive(ReportFill(id, qty, price));
    assert Decide(Some(s), cmd) == DecideFill(s, id, qty, price);
    var e := Decide(Some(s), cmd).value;
    DecideKeepsSound(s, cmd);
    OneEvent(s, e);
    hide Decide, DecideFill;
    assert Booked(s, cmd) == [e];
  }

  // The state after the missing quantity is booked.
  lemma BookMissing(s: OrderState, kind: ExecKind, id: string)
    requires Sound(s) && !s.status.IsTerminal() && NeedsBookedState(kind) && CanBook(s, kind)
    ensures var price := IncrementPrice(s.cumQty, s.avgPx, Reported(kind), ReportedAvg(kind));
            var r := ReportFill(id, Reported(kind) - s.cumQty, price);
            var n := Next(s, Receive(r));
            && |Booked(s, Receive(r))| == 1 && Booked(s, Receive(r))[0].OrderFill?
            && Sound(n) && SameOrder(s, n) && n.cumQty == Reported(kind)
            && n.status == (if Reported(kind) == s.originalQty then Filled else PartiallyFilled)
            && (Notional(n) == Reported(kind) * ReportedAvg(kind) <==> PricesAgree(s, kind))
            && Notional(n) == Notional(s) + (Reported(kind) - s.cumQty) * price && n.version == s.version + 1
  {
    hide Booked, Next, IncrementPrice;
    var price := IncrementPrice(s.cumQty, s.avgPx, Reported(kind), ReportedAvg(kind));
    IncrementSign(s, kind);
    FillBooks(s, id, Reported(kind) - s.cumQty, price);
    NoAverage(s.cumQty, s.avgPx, Reported(kind), ReportedAvg(kind));
    IncrementTotals(s.cumQty, s.avgPx.GetOr(0.0), Reported(kind), ReportedAvg(kind), price);
    var n := Next(s, Receive(ReportFill(id, Reported(kind) - s.cumQty, price)));
    TotalsMean(s, kind, (Reported(kind) - s.cumQty) * price);
    assert Notional(n) == Notional(s) + (Reported(kind) - s.cumQty) * price;
  }

  // Where the totals cannot be made to agree, what is missing is priced at the venue's average.
  lemma FallsBack(s: OrderState, kind: ExecKind)
    requires Sound(s) && NeedsBookedState(kind) && CanBook(s, kind) && !PricesAgree(s, kind)
    ensures IncrementPrice(s.cumQty, s.avgPx, Reported(kind), ReportedAvg(kind)) == ReportedAvg(kind)
  {
    if s.avgPx.Some? && s.cumQty > EPS {
      QuotientPositive(ReportedAvg(kind) * Reported(kind) - s.avgPx.value * s.cumQty, Reported(kind) - s.cumQty);
    }
  }

  lemma TotalsMean(s: OrderState, kind: ExecKind, more: real)
    requires NeedsBookedState(kind)
    requires var b, avg, r, p := s.cumQty, s.avgPx.GetOr(0.0), Reported(kind), ReportedAvg(kind);
             b * avg + more == r * p <==> p * b == b * avg || (b > EPS && r * p > b * avg)
    ensures Notional(s) + more == Reported(kind) * ReportedAvg(kind) <==> PricesAgree(s, kind)
  {}

  // With nothing booked it makes no difference what the average is.
  lemma NoAverage(booked: real, avg: Option<real>, reported: real, reportedAvg: real)
    requires avg.None? ==> booked == 0.0
    ensures IncrementPrice(booked, avg, reported, reportedAvg)
              == IncrementPrice(booked, Some(avg.GetOr(0.0)), reported, reportedAvg)
  {}

  lemma RefusedFill(s: OrderState, id: string, qty: real, price: real)
    requires qty <= 0.0 || price <= 0.0 || s.cumQty + qty > s.originalQty
    ensures var cmd := Receive(ReportFill(id, qty, price)); Booked(s, cmd) == [] && Next(s, cmd) == s
  {}

  // Otherwise the fill is not planned, or is refused.
  lemma MissingRefused(s: OrderState, kind: ExecKind, id: string)
    requires Sound(s) && NeedsBookedState(kind) && Reported(kind) - s.cumQty > EPS && !CanBook(s, kind)
    ensures var price := IncrementPrice(s.cumQty, s.avgPx, Reported(kind), ReportedAvg(kind));
            var cmd := Receive(ReportFill(id, Reported(kind) - s.cumQty, price));
            Booked(s, cmd) == [] && Next(s, cmd) == s
  {
    hide IncrementPrice, Booked, Next, Sound;
    IncrementSign(s, kind);
    RefusedFill(s, id, Reported(kind) - s.cumQty,
                IncrementPrice(s.cumQty, s.avgPx, Reported(kind), ReportedAvg(kind)));
  }

  /** An update of a live order books all that is missing, or nothing: when no more
      than EPS is missing, more is claimed than was ordered, or there is no price.
      What it books makes the notional the reported one exactly when prices agree. */
  lemma UpdateBooksMissing(s: OrderState, kind: ExecKind)
    requires Sound(s) && !s.status.IsTerminal() && IsUpdate(kind)
    ensures var n := After(s, kind);
            && Sound(n) && SameOrder(s, n)
            && if CanBook(s, kind) then
                 && n.cumQty == Reported(kind) && (n.status.IsTerminal() <==> Reported(kind) == s.originalQty)
                 && (Notional(n) == Reported(kind) * ReportedAvg(kind) <==> PricesAgree(s, kind))
                 && (!PricesAgree(s, kind) ==>
                       Notional(n) == Notional(s) + (Reported(kind) - s.cumQty) * ReportedAvg(kind))
               else n == s && BookedBy(s, kind) == []
  {
    hide IncrementPrice, Notional, PricesAgree, Booked, Next, Sound, ApplyAll;
    var id := if kind.Cumulative? then "cumulative" else "recon";
    NothingBooked(s);
    if Reported(kind) - s.cumQty > EPS {
      var r := ReportFill(id, Reported(kind) - s.cumQty,
                          IncrementPrice(s.cumQty, s.avgPx, Reported(kind), ReportedAvg(kind)));
      assert ReportsFor(kind, s.cumQty, s.avgPx) == [r];
      OneReport(s, r);
      if CanBook(s, kind) {
        BookMissing(s, kind, id);
        if !PricesAgree(s, kind) { FallsBack(s, kind); }
      } else {
        MissingRefused(s, kind, id);
      }
    } else {
      assert ReportsFor(kind, s.cumQty, s.avgPx) == [];
    }
  }

  lemma Closes(s: OrderState, close: Report)
    requires Sound(s) && (close.ReportCanceled? || close.ReportReject?)
    ensures var n, booked := Next(s, Receive(close)), Booked(s, Receive(close));
            && Sound(n) && SameOrder(s, n) && n.status.IsTerminal()
            && n.cumQty == s.cumQty && n.avgPx == s.avgPx && Notional(n) == Notional(s)
            && n.version == s.version + |booked|
            && (s.status.IsTerminal() ==> n == s && booked == [])
            && (!s.status.IsTerminal() ==>
                  && n.status == (if close.ReportCanceled? then Canceled else Rejected)
                  && booked == [if close.ReportCanceled? then OrderCanceled(s.version + 1)
                                else OrderRejected(s.version + 1, close.reason)])
  {
    DecideKeepsSound(s, Receive(close));
    if !s.status.IsTerminal() {
      OneEvent(s, Decide(Some(s), Receive(close)).value);
    }
  }

  // What a terminal close books on a live order, and where that leaves the order.
  ghost predicate ClosedBy(s: OrderState, kind: ExecKind, n: OrderState, booked: seq<Event>)
    requires IsClose(kind)
  {
    var fills := CanBook(s, kind);
    var completes := fills && kind.executed == s.originalQty;
    && Sound(n) && SameOrder(s, n) && n.status.IsTerminal()
    && n.cumQty == (if fills then kind.executed else s.cumQty)
    && (if fills then Notional(n) == kind.executed * kind.avg <==> PricesAgree(s, kind) else Notional(n) == Notional(s))
    && (fills && !PricesAgree(s, kind) ==> Notional(n) == Notional(s) + (kind.executed - s.cumQty) * kind.avg)
    && n.version == s.version + |booked|
    && |booked| == (if fills && !completes then 2 else 1)
    && (fills ==> booked[0].OrderFill?)
    && (completes ==> n.status == Filled)
    && (!completes ==>
          && n.status == (if kind.outcome == ToCanceled then Canceled else Rejected)
          && booked[|booked| - 1] == (if kind.outcome == ToCanceled then OrderCanceled(n.version)
                                     else OrderRejected(n.version, "rejected")))
  }

  /** A terminal cancel or reject of a live order books the missing fill, if it can,
      before the close, and closes the order at what the venue executed or, if the
      fill cannot be booked, at what was booked. A fill that completes the order
      closes it as filled, and the cancel that follows it is not booked. */
  lemma CloseBooksFillFirst(s: OrderState, kind: ExecKind)
    requires Sound(s) && !s.status.IsTerminal() && IsClose(kind)
    ensures ClosedBy(s, kind, After(s, kind), BookedBy(s, kind))
  {
    hide Booked, Next, Sound, Notional, ApplyAll, PricesAgree, IncrementPrice, BookedAll;
    var close := if kind.outcome == ToCanceled then ReportCanceled else ReportReject("rejected");
    if kind.executed - s.cumQty > EPS {
      var r := ReportFill("recon", kind.executed - s.cumQty,
                          IncrementPrice(s.cumQty, s.avgPx, kind.executed, kind.avg));
      assert ReportsFor(kind, s.cumQty, s.avgPx) == [r, close];
      TwoReports(s, r, close);
      if CanBook(s, kind) {
        BookMissing(s, kind, "recon");
        if !PricesAgree(s, kind) { FallsBack(s, kind); }
      } else {
        MissingRefused(s, kind, "recon");
      }
      Closes(Next(s, Receive(r)), close);
    } else {
      assert ReportsFor(kind, s.cumQty, s.avgPx) == [close];
      OneReport(s, close);
      Closes(s, close);
    }
  }

  /** A close ends at the larger of booked and executed exactly when nothing more was
      executed or the missing fill can be booked; and no event of any kind books
      anything after it. */
  lemma CloseEndsAtMaximumIff(s: OrderState, kind: ExecKind, later: ExecKind)
    requires Sound(s) && !s.status.IsTerminal() && IsClose(kind)
    ensures var n := After(s, kind);
            && (n.cumQty == Max(s.cumQty, kind.executed) <==> kind.executed <= s.cumQty || CanBook(s, kind))
            && BookedBy(n, later) == [] && After(n, later) == n
  {
    hide BookedBy, After;
    CloseBooksFillFirst(s, kind);
    ClosedBooksNothing(After(s, kind), later);
  }

  // What a cumulative or terminal state leaves of a live order, whichever it is.
  lemma StateBooks(s: OrderState, kind: ExecKind)
    requires Sound(s) && !s.status.IsTerminal() && NeedsBookedState(kind)
    ensures var n := After(s, kind);
            && Sound(n) && SameOrder(s, n) && n.cumQty == (if CanBook(s, kind) then Reported(kind) else s.cumQty)
            && (n.status.IsTerminal() <==> IsClose(kind) || (CanBook(s, kind) && Reported(kind) == s.originalQty))
            && (if CanBook(s, kind) then Notional(n) == Reported(kind) * ReportedAvg(kind) <==> PricesAgree(s, kind)
                else Notional(n) == Notional(s))
  {
    hide After, BookedBy, Notional, PricesAgree, Sound;
    if IsClose(kind) {
      CloseBooksFillFirst(s, kind);
    } else {
      UpdateBooksMissing(s, kind);
    }
  }

  // ---- over a run ------------------------------------------------------------------

  predicate States(kinds: seq<ExecKind>) {
    forall k <- kinds :: NeedsBookedState(k)
  }

  function Max(a: real, b: real): real { if a < b then b else a }

  // The most ever reported, starting from what was booked.
  function MostReported(booked: real, kinds: seq<ExecKind>): real
    requires States(kinds)
    decreases |kinds|
  {
    if kinds == [] then booked
    else Max(MostReported(booked, kinds[..|kinds| - 1]), Reported(kinds[|kinds| - 1]))
  }

  predicate AnyClose(kinds: seq<ExecKind>)
    decreases |kinds|
  {
    kinds != [] && (IsClose(kinds[|kinds| - 1]) || AnyClose(kinds[..|kinds| - 1]))
  }

  // A report that can be taken, on top of `most`, after `earlier` ones: before any
  // close, by more than EPS, no more than was ordered, and priced.
  predicate Tops(ordered: real, earlier: seq<ExecKind>, most: real, k: ExecKind)
    requires NeedsBookedState(k)
  {
    !AnyClose(earlier) && Reported(k) - most > EPS && Reported(k) <= ordered && ReportedAvg(k) > 0.0
  }

  // The most that was taken: the reports alone, without any order.
  function MostTaken(ordered: real, booked: real, kinds: seq<ExecKind>): real
    requires States(kinds)
    decreases |kinds|
  {
    if kinds == [] then booked
    else
      var init, k := kinds[..|kinds| - 1], kinds[|kinds| - 1];
      var most := MostTaken(ordered, booked, init);
      if Tops(ordered, init, most, k) then Reported(k) else most
  }

  // Its notional, as the report that was taken has it.
  function TakenNotional(ordered: real, booked: real, notional: real, kinds: seq<ExecKind>): real
    requires States(kinds)
    decreases |kinds|
  {
    if kinds == [] then notional
    else
      var init, k := kinds[..|kinds| - 1], kinds[|kinds| - 1];
      if Tops(ordered, init, MostTaken(ordered, booked, init), k) then Reported(k) * ReportedAvg(k)
      else TakenNotional(ordered, booked, notional, init)
  }

  /** For every sequence of cumulative and terminal states -- repeated, replayed,
      stale, unpriced, overfilled, up to and past any close -- the booked quantity is
      the most that was taken, and the order is closed exactly by a close or by
      being filled whole. */
  lemma {:induction false} BookedIsMostTaken(s: OrderState, kinds: seq<ExecKind>)
    requires Sound(s) && !s.status.IsTerminal() && States(kinds)
    ensures var n, most := Run(s, kinds), MostTaken(s.originalQty, s.cumQty, kinds);
            && Sound(n) && SameOrder(s, n) && n.cumQty == most
            && (n.status.IsTerminal() <==> AnyClose(kinds) || most == s.originalQty)
    decreases |kinds|
  {
    hide After, BookedBy, Notional, PricesAgree;
    if kinds != [] {
      var init, k := kinds[..|kinds| - 1], kinds[|kinds| - 1];
      BookedIsMostTaken(s, init);
      if Run(s, init).status.IsTerminal() {
        ClosedBooksNothing(Run(s, init), k);
      } else {
        StateBooks(Run(s, init), k);
      }
    }
  }

  /** The booked quantity is never above the most reported, and never more than EPS
      below any state that could be booked when it came. */
  lemma {:induction false} BookedTracksMostReported(s: OrderState, kinds: seq<ExecKind>, i: nat)
    requires Sound(s) && !s.status.IsTerminal() && States(kinds) && i < |kinds|
    ensures Run(s, kinds).cumQty <= MostReported(s.cumQty, kinds)
    ensures !AnyClose(kinds[..i]) && Reported(kinds[i]) <= s.originalQty && ReportedAvg(kinds[i]) > 0.0
            ==> Reported(kinds[i]) <= Run(s, kinds).cumQty + EPS
  {
    hide Run, Sound;
    BookedIsMostTaken(s, kinds);
    TakenIsBounded(s.originalQty, s.cumQty, kinds);
    if !AnyClose(kinds[..i]) && Reported(kinds[i]) <= s.originalQty && ReportedAvg(kinds[i]) > 0.0 {
      TakenCovers(s.originalQty, s.cumQty, kinds, i);
    }
  }

  lemma {:induction false} TakenIsBounded(ordered: real, booked: real, kinds: seq<ExecKind>)
    requires States(kinds)
    ensures booked <= MostTaken(ordered, booked, kinds) <= MostReported(booked, kinds)
    decreases |kinds|
  {
    if kinds != [] {
      TakenIsBounded(ordered, booked, kinds[..|kinds| - 1]);
    }
  }

  lemma {:induction false} TakenCovers(ordered: real, booked: real, kinds: seq<ExecKind>, i: nat)
    requires States(kinds) && i < |kinds|
    requires !AnyClose(kinds[..i]) && Reported(kinds[i]) <= ordered && ReportedAvg(kinds[i]) > 0.0
    ensures Reported(kinds[i]) <= MostTaken(ordered, booked, kinds) + EPS
    decreases |kinds|
  {
    var init := kinds[..|kinds| - 1];
    if i < |init| {
      assert init[..i] == kinds[..i];
      TakenCovers(ordered, booked, init, i);
    }
  }

  // Each report that is more than the most reported before it can be taken.
  predicate EachBooks(ordered: real, booked: real, kinds: seq<ExecKind>)
    requires States(kinds)
    decreases |kinds|
  {
    kinds == [] ||
    (var init, k := kinds[..|kinds| - 1], kinds[|kinds| - 1];
     var most := MostReported(booked, init);
     EachBooks(ordered, booked, init) && (Reported(k) > most ==> Tops(ordered, init, most, k)))
  }

  // At every point of the run what is booked is the most reported so far.
  ghost predicate ExactThroughout(s: OrderState, kinds: seq<ExecKind>)
    requires States(kinds)
    decreases |kinds|
  {
    && Run(s, kinds).cumQty == MostReported(s.cumQty, kinds)
    && (kinds == [] || ExactThroughout(s, kinds[..|kinds| - 1]))
  }

  /** For every sequence of cumulative and terminal states: booked equals the running
      maximum, at every point, exactly when each new maximum tops the last by more
      than EPS, claims no more than was ordered, is priced, and comes before any close. */
  lemma {:induction false} BookedIsMaximumIff(s: OrderState, kinds: seq<ExecKind>)
    requires Sound(s) && !s.status.IsTerminal() && States(kinds)
    ensures ExactThroughout(s, kinds) <==> EachBooks(s.originalQty, s.cumQty, kinds)
    decreases |kinds|
  {
    hide Run, Sound, Tops;
    BookedIsMostTaken(s, kinds);
    if kinds != [] {
      var init := kinds[..|kinds| - 1];
      BookedIsMaximumIff(s, init);
      BookedIsMostTaken(s, init);
      TopsMore(s.originalQty, init, MostReported(s.cumQty, init), kinds[|kinds| - 1]);
    }
  }

  lemma TopsMore(ordered: real, earlier: seq<ExecKind>, most: real, k: ExecKind)
    requires NeedsBookedState(k)
    ensures Tops(ordered, earlier, most, k) ==> Reported(k) > most
  {}

  // Each report taken keeps the average, or tops a known total with one worth more.
  predicate WorthMore(ordered: real, booked: real, notional: real, kinds: seq<ExecKind>)
    requires States(kinds)
    decreases |kinds|
  {
    kinds == [] ||
    (var init, k := kinds[..|kinds| - 1], kinds[|kinds| - 1];
     var most, worth := MostTaken(ordered, booked, init), TakenNotional(ordered, booked, notional, init);
     && WorthMore(ordered, booked, notional, init)
     && (Tops(ordered, init, most, k) ==> KeepsWorth(most, worth, k)))
  }

  predicate KeepsWorth(most: real, worth: real, k: ExecKind)
    requires NeedsBookedState(k)
  {
    ReportedAvg(k) * most == worth || (most > EPS && Reported(k) * ReportedAvg(k) > worth)
  }

  // At every point of the run what is booked is worth what the report taken says.
  ghost predicate WorthThroughout(s: OrderState, kinds: seq<ExecKind>)
    requires States(kinds)
    decreases |kinds|
  {
    && Notional(Run(s, kinds)) == TakenNotional(s.originalQty, s.cumQty, Notional(s), kinds)
    && (kinds == [] || WorthThroughout(s, kinds[..|kinds| - 1]))
  }

  /** For every sequence of cumulative and terminal states: booked quantity times
      booked average is, at every point, the notional of the report that was taken
      for it, whatever was repeated or replayed since -- exactly when each report taken
      has the average of what was booked, if anything was, or is worth more than it with
      more than EPS booked. */
  lemma {:induction false} BookedNotionalIsTakenIff(s: OrderState, kinds: seq<ExecKind>)
    requires Sound(s) && !s.status.IsTerminal() && States(kinds)
    ensures WorthThroughout(s, kinds) <==> WorthMore(s.originalQty, s.cumQty, Notional(s), kinds)
    decreases |kinds|
  {
    hide *;
    WorthUnfolds(s, kinds);
    if kinds != [] {
      var init, k := kinds[..|kinds| - 1], kinds[|kinds| - 1];
      BookedNotionalIsTakenIff(s, init);
      BookedIsMostTaken(s, init);
      if WorthThroughout(s, init) {
        WorthAfter(s.originalQty, init, Run(s, init), k);
      }
    }
  }

  // The last report's part in each of the two.
  lemma WorthUnfolds(s: OrderState, kinds: seq<ExecKind>)
    requires States(kinds)
    ensures kinds == [] ==> WorthThroughout(s, kinds) && WorthMore(s.originalQty, s.cumQty, Notional(s), kinds)
    ensures kinds != [] ==>
              var init, k, o := kinds[..|kinds| - 1], kinds[|kinds| - 1], s.originalQty;
              && States(init) && NeedsBookedState(k)
              && var b, most, worth :=
                   Run(s, init), MostTaken(o, s.cumQty, init), TakenNotional(o, s.cumQty, Notional(s), init);
              && (SameOrder(s, b) ==> b.originalQty == o)
              && (WorthThroughout(s, init) ==> worth == Notional(b))
              && (WorthThroughout(s, kinds) <==>
                    && WorthThroughout(s, init)
                    && Notional(After(b, k))
                       == (if Tops(o, init, most, k) then Reported(k) * ReportedAvg(k) else worth))
              && (WorthMore(o, s.cumQty, Notional(s), kinds) <==>
                    && WorthMore(o, s.cumQty, Notional(s), init)
                    && (Tops(o, init, most, k) ==> KeepsWorth(most, worth, k)))
  {
    hide Notional, After, Tops, KeepsWorth;
  }

  // One report on top of a booked total that is exact.
  lemma WorthAfter(ordered: real, earlier: seq<ExecKind>, b: OrderState, k: ExecKind)
    requires Sound(b) && NeedsBookedState(k) && ordered == b.originalQty
    requires b.status.IsTerminal() <==> AnyClose(earlier) || b.cumQty == b.originalQty
    ensures Notional(After(b, k)) ==
              (if Tops(ordered, earlier, b.cumQty, k) then Reported(k) * ReportedAvg(k) else Notional(b))
            <==> (Tops(ordered, earlier, b.cumQty, k) ==> KeepsWorth(b.cumQty, Notional(b), k))
  {
    hide After, BookedBy, Notional, Sound;
    if b.status.IsTerminal() {
      ClosedBooksNothing(b, k);
    } else {
      StateBooks(b, k);
    }
  }

  // The notional of the report that first reached the most reported.
  function FirstNotional(booked: real, notional: real, kinds: seq<ExecKind>): real
    requires States(kinds)
    decreases |kinds|
  {
    if kinds == [] then notional
    else
      var init, k := kinds[..|kinds| - 1], kinds[|kinds| - 1];
      if Reported(k) > MostReported(booked, init) then Reported(k) * ReportedAvg(k)
      else FirstNotional(booked, notional, init)
  }

  /** Where each new maximum is taken, the report taken is the one that first reached
      the maximum, for quantity and for notional. */
  lemma {:induction false} TakenIsFirstReported(ordered: real, booked: real, notional: real, kinds: seq<ExecKind>)
    requires States(kinds) && EachBooks(ordered, booked, kinds)
    ensures MostTaken(ordered, booked, kinds) == MostReported(booked, kinds)
    ensures TakenNotional(ordered, booked, notional, kinds) == FirstNotional(booked, notional, kinds)
    decreases |kinds|
  {
    if kinds != [] {
      TakenIsFirstReported(ordered, booked, notional, kinds[..|kinds| - 1]);
    }
  }

  // ---- replays ---------------------------------------------------------------------

  // Nothing of this state is left to book.
  ghost predicate Spent(s: OrderState, k: ExecKind)
    requires NeedsBookedState(k)
  {
    s.status.IsTerminal() || (!CanBook(s, k) && !IsClose(k))
  }

  // Whatever kind of event comes, an order stays sound and itself, booked quantity
  // does not fall, and a closed order stays as it is.
  lemma AnyEventKeeps(s: OrderState, k: ExecKind)
    requires Sound(s)
    ensures var n := After(s, k);
            Sound(n) && SameOrder(s, n) && n.cumQty >= s.cumQty && (s.status.IsTerminal() ==> n == s)
  {
    hide After, BookedBy, Notional, PricesAgree;
    if s.status.IsTerminal() {
      ClosedBooksNothing(s, k);
    } else if NeedsBookedState(k) {
      StateBooks(s, k);
    } else {
      match k
      case Fill(id, qty, price) => FillBooksAsReported(s, id, qty, price);
      case Ack(id) => AckRoutes(s, id);
      case CanceledAtVenue => ClosesAtVenue(s, "");
      case RejectedAtVenue(reason) => ClosesAtVenue(s, reason);
    }
  }

  /** A cancel or a reject at the venue closes a live order as what it is: it books
      that one event, with the venue's reason, and leaves what was filled alone. */
  lemma ClosesAtVenue(s: OrderState, reason: string)
    requires Sound(s) && !s.status.IsTerminal()
    ensures BookedBy(s, CanceledAtVenue) == [OrderCanceled(s.version + 1)]
    ensures BookedBy(s, RejectedAtVenue(reason)) == [OrderRejected(s.version + 1, reason)]
    ensures After(s, CanceledAtVenue) == s.(status := Canceled, leavesQty := 0.0, version := s.version + 1)
    ensures After(s, RejectedAtVenue(reason)) == s.(status := Rejected, version := s.version + 1)
  {
    hide ApplyAll;
    OneReport(s, ReportCanceled);
    OneReport(s, ReportReject(reason));
    OneEvent(s, OrderCanceled(s.version + 1));
    OneEvent(s, OrderRejected(s.version + 1, reason));
  }

  lemma SpentBooksNothing(s: OrderState, k: ExecKind)
    requires Sound(s) && NeedsBookedState(k) && Spent(s, k)
    ensures BookedBy(s, k) == [] && After(s, k) == s
  {
    hide BookedBy, After, Sound;
    if s.status.IsTerminal() {
      ClosedBooksNothing(s, k);
    } else {
      UpdateBooksMissing(s, k);
    }
  }

  lemma {:induction false} RunSpends(s: OrderState, kinds: seq<ExecKind>, i: nat)
    requires Sound(s) && i < |kinds| && NeedsBookedState(kinds[i])
    ensures Sound(Run(s, kinds)) && Spent(Run(s, kinds), kinds[i])
    decreases |kinds|
  {
    hide After, BookedBy, Sound, Notional, PricesAgree;
    var init, k := kinds[..|kinds| - 1], kinds[|kinds| - 1];
    RunKeepsSound(s, init);
    AnyEventKeeps(Run(s, init), k);
    if i < |init| {
      RunSpends(s, init, i);
    } else if Run(s, init).status.IsTerminal() {
      ClosedBooksNothing(Run(s, init), k);
    } else {
      StateBooks(Run(s, init), k);
    }
  }

  lemma {:induction false} RunKeepsSound(s: OrderState, kinds: seq<ExecKind>)
    requires Sound(s)
    ensures Sound(Run(s, kinds))
    decreases |kinds|
  {
    hide After, Sound;
    if kinds != [] {
      RunKeepsSound(s, kinds[..|kinds| - 1]);
      AnyEventKeeps(Run(s, kinds[..|kinds| - 1]), kinds[|kinds| - 1]);
    }
  }

  /** After any run of events of any kind, reprocessing any earlier cumulative or
      terminal state books nothing. */
  lemma ReplayBooksNothing(s: OrderState, kinds: seq<ExecKind>, i: nat)
    requires Sound(s) && i < |kinds| && NeedsBookedState(kinds[i])
    ensures BookedBy(Run(s, kinds), kinds[i]) == [] && After(Run(s, kinds), kinds[i]) == Run(s, kinds)
  {
    hide *;
    RunSpends(s, kinds, i);
    SpentBooksNothing(Run(s, kinds), kinds[i]);
  }

  // ---- events that book as they are --------------------------------------------------

  /** A fill with its own execution books exactly what it says, or nothing if it is
      worthless or more than is open. */
  lemma FillBooksAsReported(s: OrderState, id: string, qty: real, price: real)
    requires Sound(s) && !s.status.IsTerminal()
    ensures var n := After(s, Fill(id, qty, price));
            var booked := BookedBy(s, Fill(id, qty, price));
            if qty > 0.0 && price > 0.0 && s.cumQty + qty <= s.originalQty
            then
              && Sound(n) && SameOrder(s, n) && n.cumQty == s.cumQty + qty && Notional(n) == Notional(s) + qty * price
              && |booked| == 1 && IsFill(booked[0], id, qty, price, s.version + 1)
            else n == s && booked == []
  {
    hide Sound, Notional, Booked, Next, BookedAll, ApplyAll;
    var r := ReportFill(id, qty, price);
    OneReport(s, r);
    if qty > 0.0 && price > 0.0 && s.cumQty + qty <= s.originalQty {
      FillBooks(s, id, qty, price);
    } else {
      RefusedFill(s, id, qty, price);
    }
  }

  /** A venue's acknowledgement routes an order that is not yet routed, and changes
      no other. */
  lemma AckRoutes(s: OrderState, id: string)
    ensures After(s, Ack(id)) == if s.status.Submitted? then s.(status := Routed, version := s.version + 1) else s
    ensures BookedBy(s, Ack(id)) == if s.status.Submitted? then [OrderRouted(s.version + 1, id)] else []
  {
    NothingBooked(s);
    OneEvent(s, OrderRouted(s.version + 1, id));
  }

  // ---- where the general claims fail -----------------------------------------------

  function Working(cum: NonNeg, avg: real): OrderState {
    OrderState(Key(0, "X"), Buy, 4.0, 4.0 - cum, cum, Some(avg), PartiallyFilled, 2)
  }

  /** A sliver is not booked: half a billionth more than one unit leaves one unit. One and
      a half is. */
  lemma SliverIsNotBooked()
    ensures var s, kind := Working(1.0, 10.0), Cumulative(1.0000000005, 10.0);
            Sound(s) && After(s, kind).cumQty == 1.0 != Max(s.cumQty, Reported(kind))
    ensures After(Working(1.0, 10.0), Cumulative(1.0000000015, 10.0)).cumQty == 1.0000000015
  {
    UpdateBooksMissing(Working(1.0, 10.0), Cumulative(1.0000000005, 10.0));
    UpdateBooksMissing(Working(1.0, 10.0), Cumulative(1.0000000015, 10.0));
  }

  /** A new maximum worth less than what is booked would need a negative price: it
      is booked at the venue's average, and the notional is not the reported one. */
  lemma FallingNotionalIsLost()
    ensures var s, kind := Working(1.0, 10.0), Cumulative(2.0, 4.0);
            Sound(s) && CanBook(s, kind) && Notional(After(s, kind)) != Reported(kind) * ReportedAvg(kind)
  {
    hide After, BookedBy;
    UpdateBooksMissing(Working(1.0, 10.0), Cumulative(2.0, 4.0));
  }

  /** A close that reports no average, which connectors do whenever the venue gives
      none, closes the order without its missing fill: on any order with a unit
      still open, a unit executed is lost for good. */
  lemma UnpricedCloseLosesTheFill(s: OrderState)
    requires Sound(s) && !s.status.IsTerminal() && s.leavesQty >= 1.0
    ensures var kind := Terminal(ToCanceled, s.cumQty + 1.0, 0.0);
            var n := After(s, kind);
            n.status == Canceled && n.cumQty == s.cumQty < Max(s.cumQty, kind.executed)
  {
    hide After, BookedBy;
    CloseBooksFillFirst(s, Terminal(ToCanceled, s.cumQty + 1.0, 0.0));
  }

  /** A cancel whose missing fill completes the order is not booked: the order ends filled. */
  lemma CompletingCancelEndsFilled()
    ensures var s, kind := Working(1.0, 10.0), Terminal(ToCanceled, 4.0, 10.0);
            Sound(s) && After(s, kind).status == Filled && |BookedBy(s, kind)| == 1 && BookedBy(s, kind)[0].OrderFill?
  {
    hide After, BookedBy;
    CloseBooksFillFirst(Working(1.0, 10.0), Terminal(ToCanceled, 4.0, 10.0));
  }
}
