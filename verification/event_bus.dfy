/**
What a commit puts on the order lane (src/event_bus.rs:78-102).
*/
module EventBus {
  datatype LaneEvent =
    | Appended(order: nat, globalPosition: nat, eventType: string)
    | PositionChanged(portfolio: nat, instrument: string)

  // The members of a sequence, each once, in the order they first come up.
  function Distinct(s: seq<nat>): (d: seq<nat>)
    ensures forall x :: x in d <==> x in s
    ensures forall i, j | 0 <= i < j < |d| :: d[i] != d[j]
    decreases |s|
  {
    if s == [] then []
    else
      var init, x := s[..|s| - 1], s[|s| - 1];
      assert s == init + [x];
      if x in Distinct(init) then Distinct(init) else Distinct(init) + [x]
  }

  class Bus {
    var order: seq<LaneEvent>

    constructor ()
      ensures order == []
    {
      order := [];
    }

    method PublishOrder(e: LaneEvent)
      modifies this
      ensures order == old(order) + [e]
    {
      order := order + [e];
    }

    /** One event per committed event that was given a position, in append order. */
    method PublishAppended(id: nat, types: seq<string>, positions: seq<nat>)
      modifies this
      ensures var n := if |types| < |positions| then |types| else |positions|;
              && |order| == |old(order)| + n && order[..|old(order)|] == old(order)
              && forall i | 0 <= i < n :: order[|old(order)| + i] == Appended(id, positions[i], types[i])
    {
      var i := 0;
      while i < |types| && i < |positions|
        invariant 0 <= i <= |types| && i <= |positions|
        invariant |order| == |old(order)| + i && order[..|old(order)|] == old(order)
        invariant forall j | 0 <= j < i :: order[|old(order)| + j] == Appended(id, positions[j], types[j])
      {
        PublishOrder(Appended(id, positions[i], types[i]));
        i := i + 1;
      }
    }

    method AnnounceAll(portfolios: seq<nat>, instrument: string)
      modifies this
      ensures |order| == |old(order)| + |portfolios| && order[..|old(order)|] == old(order)
      ensures forall i | 0 <= i < |portfolios| :: order[|old(order)| + i] == PositionChanged(portfolios[i], instrument)
    {
      var i := 0;
      while i < |portfolios|
        invariant 0 <= i <= |portfolios|
        invariant |order| == |old(order)| + i && order[..|old(order)|] == old(order)
        invariant forall j | 0 <= j < i :: order[|old(order)| + j] == PositionChanged(portfolios[j], instrument)
      {
        PublishOrder(PositionChanged(portfolios[i], instrument));
        i := i + 1;
      }
    }

    // The portfolios a transfer touched, each once.
    method Touched(giver: nat, takers: seq<nat>) returns (seen: seq<nat>)
      ensures seen == Distinct([giver] + takers)
    {
      seen := [giver];
      var i := 0;
      assert [giver][..0] == [] && ([giver] + takers)[..1] == [giver];
      while i < |takers|
        invariant 0 <= i <= |takers|
        invariant seen == Distinct(([giver] + takers)[..i + 1])
      {
        var p := takers[i];
        assert ([giver] + takers)[..i + 2][..i + 1] == ([giver] + takers)[..i + 1];
        if p !in seen {
          seen := seen + [p];
        }
        i := i + 1;
      }
      assert ([giver] + takers)[..i + 1] == [giver] + takers;
    }

    /** A transfer announces every portfolio it touched, the giving one first, and
        each exactly once however often it is named. */
    method PublishTransfer(giver: nat, takers: seq<nat>, instrument: string)
      modifies this
      ensures var touched := Distinct([giver] + takers);
              && |order| == |old(order)| + |touched| && order[..|old(order)|] == old(order)
              && forall i | 0 <= i < |touched| :: order[|old(order)| + i] == PositionChanged(touched[i], instrument)
    {
      var seen := Touched(giver, takers);
      AnnounceAll(seen, instrument);
    }
  }

  /** The giver comes first. */
  lemma {:induction false} GiverComesFirst(giver: nat, takers: seq<nat>)
    ensures Distinct([giver] + takers) != [] && Distinct([giver] + takers)[0] == giver
    decreases |takers|
  {
    if takers == [] {
      assert [giver] + takers == [giver] && [giver][..0] == [];
    } else {
      var init := takers[..|takers| - 1];
      assert ([giver] + takers)[..|takers|] == [giver] + init;
      GiverComesFirst(giver, init);
    }
  }
}
