/**
The whole order aggregate, with the commands that `Orders` leaves out because no
code path issues them: replace, suspend, release and expire
(src/domain/orders/aggregate.rs:47-447, lifecycle.rs:47-139).

Two things are special about them. A suspension remembers the status to come back
to, and a fill lifts it without forgetting that status. A replace may bring an
order down to what is already filled, and leaves its status alone.
*/
module Lifecycle {
  import opened Wrappers
  import opened Orders

  datatype Aggregate = Aggregate(order: OrderState, resumeTo: Option<Status>)

  datatype AnyCommand =
    | Plain(command: Command)
    | Replace(quantity: Option<real>, limitPrice: Option<real>)
    | Suspend
    | Release
    | Expire

  datatype AnyEvent =
    | Decided(event: Event)
    | Amended(version: nat, quantity: real, statusAfter: Status)
    | OrderSuspended(version: nat, resumeTo: Status)
    | OrderReleased(version: nat, resumedTo: Status)
    | OrderExpired(version: nat)
  {
    function Version(): nat {
      if Decided? then event.version else version
    }
  }

  datatype Refusal =
    | ByOrders(rejection: Rejection)
    | NotAllowed | NoOrder | Closed | BadQuantity | BadPrice | NothingToResume

  function DecideAny(current: Option<Aggregate>, cmd: AnyCommand): Result<AnyEvent, Refusal> {
    if cmd.Plain? then
      match Decide(if current.Some? then Some(current.value.order) else None, cmd.command)
      case Ok(e) => Ok(Decided(e))
      case Err(r) => Err(ByOrders(r))
    else if current.None? then Err(NoOrder)
    else DecideOn(current.value, cmd)
  }

  function DecideOn(a: Aggregate, cmd: AnyCommand): Result<AnyEvent, Refusal>
    requires !cmd.Plain?
  {
    var s := a.order;
    if s.status.IsTerminal() then Err(Closed)
    else if (if cmd.Release? then s.status != Suspended else !cmd.Expire? && s.status == Suspended) then Err(NotAllowed)
    else
      match cmd
      case Replace(quantity, limitPrice) =>
        if quantity.GetOr(s.originalQty) <= 0.0 || quantity.GetOr(s.originalQty) < s.cumQty then Err(BadQuantity)
        else if limitPrice.Some? && limitPrice.value <= 0.0 then Err(BadPrice)
        else Ok(Amended(s.version + 1, quantity.GetOr(s.originalQty), s.status))
      case Suspend => Ok(OrderSuspended(s.version + 1, s.status))
      case Release =>
        if a.resumeTo.None? then Err(NothingToResume) else Ok(OrderReleased(s.version + 1, a.resumeTo.value))
      case Expire => Ok(OrderExpired(s.version + 1))
  }

  // Fills and amendments leave the remembered status in place.
  function ApplyAny(current: Option<Aggregate>, e: AnyEvent): Option<Aggregate> {
    if e.Decided? then
      match Apply(if current.Some? then Some(current.value.order) else None, e.event)
      case Some(s) => Some(Aggregate(s, if current.Some? && e.event.OrderFill? then current.value.resumeTo else None))
      case None => None
    else if current.None? then None
    else
      var s := current.value.order.(version := e.version);
      match e
      case Amended(_, quantity, status) =>
        Some(current.value.(order := s.(originalQty := quantity, leavesQty := quantity - s.cumQty, status := status)))
      case OrderSuspended(_, resumeTo) => Some(Aggregate(s.(status := Suspended), Some(resumeTo)))
      case OrderReleased(_, resumedTo) => Some(Aggregate(s.(status := resumedTo), None))
      case OrderExpired(_) => Some(Aggregate(s.(status := Expired), None))
  }

  // The state a log leads to, from none.
  function FoldAny(log: seq<AnyEvent>): Option<Aggregate> {
    if log == [] then None else ApplyAny(FoldAny(log[..|log| - 1]), log[|log| - 1])
  }

  // Every event was decided on the state its predecessors lead to.
  ghost predicate Ran(cmds: seq<AnyCommand>, log: seq<AnyEvent>) {
    |cmds| == |log| && forall i | 0 <= i < |log| :: DecideAny(FoldAny(log[..i]), cmds[i]) == Ok(log[i])
  }

  // ---- what holds of every order --------------------------------------------------------

  // The statuses an order is filled in or resumes to.
  predicate Working(status: Status, cumQty: real) {
    if cumQty > 0.0 then status == PartiallyFilled else status == Submitted || status == Routed
  }

  ghost predicate Coherent(a: Aggregate) {
    var s := a.order;
    && 0.0 <= s.cumQty <= s.originalQty
    && 0.0 < s.originalQty
    && (s.avgPx.None? <==> s.cumQty == 0.0)
    && (s.avgPx.Some? ==> s.avgPx.value > 0.0)
    && s.leavesQty == (if s.status == Canceled then 0.0 else s.originalQty - s.cumQty)
    && (s.status == Filled ==> s.cumQty == s.originalQty)
    && (!s.status.IsTerminal() ==>
          Working(if s.status == Suspended && a.resumeTo.Some? then a.resumeTo.value else s.status, s.cumQty))
    && (s.status == Suspended ==> a.resumeTo.Some?)
  }

  lemma FillKeepsCoherent(a: Aggregate, id: string, qty: real, price: real, e: Event)
    requires Coherent(a) && !a.order.status.IsTerminal() && DecideFill(a.order, id, qty, price) == Ok(e)
    ensures ApplyAny(Some(a), Decided(e)).Some? && Coherent(ApplyAny(Some(a), Decided(e)).value)
  {
    PositiveAverage(a.order.cumQty, a.order.avgPx.GetOr(0.0), qty, price);
  }

  /** Every accepted command of any kind keeps an order coherent, one version on;
      a closed order accepts none. */
  lemma CommandKeepsCoherent(a: Aggregate, cmd: AnyCommand)
    requires Coherent(a)
    ensures a.order.status.IsTerminal() ==> DecideAny(Some(a), cmd).Err?
    ensures DecideAny(Some(a), cmd).Ok? ==>
              var e := DecideAny(Some(a), cmd).value;
              var n := ApplyAny(Some(a), e);
              n.Some? && Coherent(n.value) && n.value.order.version == e.Version() == a.order.version + 1
  {
    var d := DecideAny(Some(a), cmd);
    if cmd.Plain? && cmd.command.Receive? && cmd.command.report.ReportFill? && d.Ok? {
      var r := cmd.command.report;
      FillKeepsCoherent(a, r.executionId, r.qty, r.price, d.value.event);
    }
  }

  /** An open order is suspended or replaced while it is not suspended, released while it
      is, and expired either way; a replace asks for no less than is filled, more than
      nothing, and no price but a positive one. A replace moves what is open and leaves
      the status alone; a suspension keeps it for the release to give back. */
  lemma AcceptedIff(a: Aggregate, cmd: AnyCommand)
    requires Coherent(a) && !cmd.Plain?
    ensures DecideAny(None, cmd) == Err(NoOrder)
    ensures var s := a.order;
            var wanted := if cmd.Replace? && cmd.quantity.Some? then cmd.quantity.value else s.originalQty;
            var next, d := s.(version := s.version + 1), DecideAny(Some(a), cmd);
            if s.status in {Filled, Rejected, Canceled, Expired} then d == Err(Closed)
            else if s.status == Suspended && (cmd.Replace? || cmd.Suspend?) then d == Err(NotAllowed)
            else if s.status != Suspended && cmd.Release? then d == Err(NotAllowed)
            else if cmd.Replace? && (wanted <= 0.0 || wanted < s.cumQty) then d == Err(BadQuantity)
            else if cmd.Replace? && cmd.limitPrice.Some? && cmd.limitPrice.value <= 0.0
            then d == Err(BadPrice)
            else
              && d.Ok?
              && ApplyAny(Some(a), d.value) == Some(
                   match cmd
                   case Replace(_, _) => a.(order := next.(originalQty := wanted, leavesQty := wanted - s.cumQty))
                   case Suspend => Aggregate(next.(status := Suspended), Some(s.status))
                   case Release => Aggregate(next.(status := a.resumeTo.value), None)
                   case Expire => Aggregate(next.(status := Expired), None))
  {}

  /** A command of the engine's does to the order what it does without the rest; a fill
      lifts a suspension without forgetting what it would resume to, anything else forgets. */
  lemma PlainCommands(a: Aggregate, cmd: Command)
    ensures var d := Decide(Some(a.order), cmd);
            if d.Err? then DecideAny(Some(a), Plain(cmd)) == Err(ByOrders(d.error))
            else
              && DecideAny(Some(a), Plain(cmd)) == Ok(Decided(d.value))
              && ApplyAny(Some(a), Decided(d.value)) == Some(Aggregate(
                   Apply(Some(a.order), d.value).value,
                   if cmd.Receive? && cmd.report.ReportFill? then a.resumeTo else None))
  {}

  lemma Snoc(log: seq<AnyEvent>, e: AnyEvent)
    ensures FoldAny(log + [e]) == ApplyAny(FoldAny(log), e)
  {
    assert (log + [e])[..|log|] == log;
  }

  lemma RanPrefix(cmds: seq<AnyCommand>, log: seq<AnyEvent>, n: nat)
    requires Ran(cmds, log) && n <= |log|
    ensures Ran(cmds[..n], log[..n])
  {
    forall i | 0 <= i < n ensures DecideAny(FoldAny(log[..n][..i]), cmds[..n][i]) == Ok(log[..n][i]) {
      assert log[..n][..i] == log[..i];
    }
  }

  /** Whatever commands an order accepts, its log folds to a coherent order at the
      version that counts them. */
  lemma {:induction false} LogsAreCoherent(cmds: seq<AnyCommand>, log: seq<AnyEvent>)
    requires Ran(cmds, log) && log != []
    ensures FoldAny(log).Some? && Coherent(FoldAny(log).value) && FoldAny(log).value.order.version == |log|
    ensures log[|log| - 1].Version() == |log|
    decreases |log|
  {
    var n := |log| - 1;
    assert DecideAny(FoldAny(log[..n]), cmds[n]) == Ok(log[n]);
    if n > 0 {
      RanPrefix(cmds, log, n);
      LogsAreCoherent(cmds[..n], log[..n]);
      CommandKeepsCoherent(FoldAny(log[..n]).value, cmds[n]);
    }
  }

  // ---- suspension -----------------------------------------------------------------------

  // What a release must give back: all but the count of events and the remembered status.
  predicate SameApartFromVersion(a: Aggregate, b: Aggregate) {
    a.order == b.order.(version := a.order.version)
  }

  // Two accepted commands, the second a release.
  lemma ReleasedStep(a: Option<Aggregate>, cmd: AnyCommand)
    requires a.Some? ==> Coherent(a.value)
    requires DecideAny(a, cmd).Ok? && ApplyAny(a, DecideAny(a, cmd).value).Some?
    requires DecideAny(ApplyAny(a, DecideAny(a, cmd).value), Release).Ok?
    ensures a.Some? && cmd.Suspend?
    ensures var b := ApplyAny(a, DecideAny(a, cmd).value);
            var c := ApplyAny(b, DecideAny(b, Release).value);
            c.Some? && SameApartFromVersion(a.value, c.value)
  {}

  /** In every run a release comes straight after the suspension it ends, and gives
      back the order as it was before. */
  lemma ReleaseUndoesSuspend(cmds: seq<AnyCommand>, log: seq<AnyEvent>, k: nat)
    requires Ran(cmds, log) && k < |log| && cmds[k].Release?
    ensures k >= 2 && cmds[k - 1].Suspend?
    ensures FoldAny(log[..k - 1]).Some? && FoldAny(log[..k + 1]).Some?
    ensures SameApartFromVersion(FoldAny(log[..k - 1]).value, FoldAny(log[..k + 1]).value)
  {
    hide ApplyAny, Coherent, SameApartFromVersion;
    assert DecideAny(FoldAny(log[..k]), cmds[k]) == Ok(log[k]);
    assert FoldAny(log[..0]) == None;
    hide DecideAny, FoldAny;
    RanPrefix(cmds, log, k);
    LogsAreCoherent(cmds[..k], log[..k]);
    if k > 1 {
      RanPrefix(cmds, log, k - 1);
      LogsAreCoherent(cmds[..k - 1], log[..k - 1]);
    }
    assert DecideAny(FoldAny(log[..k - 1]), cmds[k - 1]) == Ok(log[k - 1]);
    assert log[..k] == log[..k - 1] + [log[k - 1]];
    Snoc(log[..k - 1], log[k - 1]);
    assert log[..k + 1] == log[..k] + [log[k]];
    Snoc(log[..k], log[k]);
    ReleasedStep(FoldAny(log[..k - 1]), cmds[k - 1]);
  }

  // ---- amendment ------------------------------------------------------------------------

  // Live, with nothing left to fill.
  predicate OpenForNothing(a: Aggregate) {
    !a.order.status.IsTerminal() && a.order.leavesQty == 0.0
  }

  // The last command brought the order down to what was filled before it.
  predicate DownToFilled(before: Option<Aggregate>, cmd: AnyCommand) {
    before.Some? && cmd.Replace? && cmd.quantity == Some(before.value.order.cumQty)
  }

  predicate KeepsQuantity(cmd: AnyCommand) {
    cmd.Suspend? || cmd.Release? || (cmd.Replace? && cmd.quantity.None?)
  }

  lemma OpenForNothingStep(a: Aggregate, cmd: AnyCommand)
    requires Coherent(a) && DecideAny(Some(a), cmd).Ok?
    ensures ApplyAny(Some(a), DecideAny(Some(a), cmd).value).Some?
    ensures OpenForNothing(ApplyAny(Some(a), DecideAny(Some(a), cmd).value).value)
            <==> DownToFilled(Some(a), cmd) || (OpenForNothing(a) && KeepsQuantity(cmd))
  {}

  // The replace at `j` did, and nothing since touched the quantity.
  predicate DownSince(cmds: seq<AnyCommand>, log: seq<AnyEvent>, j: nat)
    requires |cmds| == |log|
  {
    && j < |log| && DownToFilled(FoldAny(log[..j]), cmds[j])
    && forall i | j < i < |log| :: KeepsQuantity(cmds[i])
  }

  lemma DownSinceSnoc(cmds: seq<AnyCommand>, log: seq<AnyEvent>, n: nat)
    requires |cmds| == |log| == n + 1
    ensures (exists j: nat :: DownSince(cmds, log, j))
            <==> DownToFilled(FoldAny(log[..n]), cmds[n])
                 || (KeepsQuantity(cmds[n]) && exists j: nat :: DownSince(cmds[..n], log[..n], j))
  {
    hide FoldAny, DownToFilled, KeepsQuantity;
    assert forall j | 0 <= j < n :: log[..n][..j] == log[..j];
    if DownToFilled(FoldAny(log[..n]), cmds[n]) {
      assert DownSince(cmds, log, n);
    }
    if j: nat :| DownSince(cmds[..n], log[..n], j) && KeepsQuantity(cmds[n]) {
      assert DownSince(cmds, log, j);
    }
    if j: nat :| DownSince(cmds, log, j) && j != n {
      assert DownSince(cmds[..n], log[..n], j);
    }
  }

  /** In every run an order is live with nothing to fill exactly when a replace
      brought it down to what was filled and nothing since but suspensions, releases
      and changes of price were accepted. */
  lemma {:induction false} OpenForNothingIff(cmds: seq<AnyCommand>, log: seq<AnyEvent>)
    requires Ran(cmds, log) && log != []
    ensures FoldAny(log).Some?
    ensures OpenForNothing(FoldAny(log).value) <==> exists j: nat :: DownSince(cmds, log, j)
    decreases |log|
  {
    hide ApplyAny, DownSince, DownToFilled, KeepsQuantity, OpenForNothing, Coherent;
    var n := |log| - 1;
    DownSinceSnoc(cmds, log, n);
    assert DecideAny(FoldAny(log[..n]), cmds[n]) == Ok(log[n]);
    if n == 0 {
      FirstIsOpen(cmds[0]);
      assert forall j: nat :: !DownSince(cmds[..n], log[..n], j) by { NothingYet(cmds[..n], log[..n]); }
    } else {
      hide DecideAny;
      RanPrefix(cmds, log, n);
      LogsAreCoherent(cmds[..n], log[..n]);
      OpenForNothingStep(FoldAny(log[..n]).value, cmds[n]);
      OpenForNothingIff(cmds[..n], log[..n]);
    }
  }

  lemma NothingYet(cmds: seq<AnyCommand>, log: seq<AnyEvent>)
    requires cmds == [] && log == []
    ensures forall j: nat :: !DownSince(cmds, log, j)
  {}

  // The submit leaves everything to fill.
  lemma FirstIsOpen(cmd: AnyCommand)
    requires DecideAny(None, cmd).Ok?
    ensures ApplyAny(None, DecideAny(None, cmd).value).Some? && !DownToFilled(None, cmd)
    ensures !OpenForNothing(ApplyAny(None, DecideAny(None, cmd).value).value)
  {}

  /** Such an order books no fill, however small. */
  lemma OpenForNothingBooksNothing(cmds: seq<AnyCommand>, log: seq<AnyEvent>, id: string, qty: real, price: real)
    requires Ran(cmds, log) && log != [] && FoldAny(log).Some? && OpenForNothing(FoldAny(log).value)
    ensures DecideAny(FoldAny(log), Plain(Receive(ReportFill(id, qty, price)))).Err?
  {
    LogsAreCoherent(cmds, log);
  }

  /** Submit ten, fill four, replace to four: filled in full, and still open. */
  lemma AmendedToFilledStaysOpen(key: Key)
    ensures exists cmds, log ::
              Ran(cmds, log) && FoldAny(log).Some? && OpenForNothing(FoldAny(log).value)
              && FoldAny(log).value.order.status == PartiallyFilled
  {
    var log := [Decided(OrderSubmitted(1, key, Buy, 10.0)), Decided(OrderFill(2, "a", 4.0, 5.0, 4.0, 6.0, 5.0)),
                Amended(3, 4.0, PartiallyFilled)];
    var cmds := [Plain(Submit(key, Buy, 10.0)), Plain(Receive(ReportFill("a", 4.0, 5.0))), Replace(Some(4.0), None)];
    assert log[..0] == [] && log[..1] == [log[0]] && log[..2] == log[..1] + [log[1]] && log == log[..2] + [log[2]];
    Snoc([], log[0]);
    Snoc(log[..1], log[1]);
    Snoc(log[..2], log[2]);
    assert Ran(cmds, log);
  }
}
