/**
What allocation transfers do to holdings: a transfer takes from one position at its
cost and gives to others as a fill, split by split (src/positions.rs:70-82, 192-209,
src/handlers.rs:806-863). The handler caps the splits at what the order filled and
has not given yet; it does not look at the giver's position, which other orders may
have reduced or turned since.
*/
module Transfers {
  import opened Wrappers
  import opened Orders
  import opened Positions
  import opened PositionWrites

  function At(positions: map<Key, Position>, k: Key): Position {
    Lookup(positions, k).GetOr(FLAT)
  }

  // What some positions hold between them.
  function Held(positions: map<Key, Position>, keys: seq<Key>): real
    decreases |keys|
  {
    if keys == [] then 0.0
    else Held(positions, keys[..|keys| - 1]) + At(positions, keys[|keys| - 1]).netQty
  }

  predicate Distinct(keys: seq<Key>) {
    forall i, j | 0 <= i < j < |keys| :: keys[i] != keys[j]
  }

  lemma {:induction false} HeldUpdate(positions: map<Key, Position>, keys: seq<Key>, k: Key, p: Position)
    requires Distinct(keys)
    ensures Held(positions[k := p], keys)
         == Held(positions, keys) + (if k in keys then p.netQty - At(positions, k).netQty else 0.0)
    decreases |keys|
  {
    if keys != [] {
      var init, last := keys[..|keys| - 1], keys[|keys| - 1];
      HeldUpdate(positions, init, k, p);
      assert k in keys <==> k in init || k == last;
      assert k == last ==> k !in init;
    }
  }

  // The table after some legs, one after the other.
  function LegsOn(positions: map<Key, Position>, legs: seq<Leg>): map<Key, Position>
    decreases |legs|
  {
    if legs == [] then positions
    else
      var before, leg := LegsOn(positions, legs[..|legs| - 1]), legs[|legs| - 1];
      before[leg.key := ApplyMove(At(before, leg.key), leg.move)]
  }

  lemma {:induction false} LegsAreFolds(positions: map<Key, Position>, legs: seq<Leg>, k: Key)
    ensures At(LegsOn(positions, legs), k) == FoldFrom(At(positions, k), MovesOn(legs, k))
    decreases |legs|
  {
    if legs != [] {
      hide ApplyMove;
      var init, leg := legs[..|legs| - 1], legs[|legs| - 1];
      LegsAreFolds(positions, init, k);
      if leg.key == k {
        PositionWrites.FoldSnoc(At(positions, k), MovesOn(init, k), leg.move);
      } else {
        assert MovesOn(legs, k) == MovesOn(init, k);
      }
    }
  }

  // ---- one split ----------------------------------------------------------------------

  function GiveLeg(giver: Key, split: Split): Leg {
    Leg(giver, GivenUp(split.qty))
  }

  function TakeLeg(giver: Key, side: Side, price: real, split: Split): Leg {
    Leg(Key(split.portfolio, giver.instrument), Traded(Fill(side, split.qty, price)))
  }

  // The holding is on the side of the order it is given from.
  predicate OnSide(p: Position, side: Side) {
    if side.Buy? then p.netQty >= 0.0 else p.netQty < 0.0
  }

  // What the legs of one split add to everything held between giver and taker.
  lemma SplitShifts(positions: map<Key, Position>, giver: Key, side: Side, price: real, split: Split, keys: seq<Key>)
    requires Distinct(keys) && giver in keys && Key(split.portfolio, giver.instrument) in keys
    ensures var given := positions[giver := ApplyMove(At(positions, giver), GivenUp(split.qty))];
            var taker := Key(split.portfolio, giver.instrument);
            var both := given[taker := ApplyMove(At(given, taker), Traded(Fill(side, split.qty, price)))];
            Held(both, keys) == Held(positions, keys)
              + (if OnSide(At(positions, giver), side) then 0.0 else 2.0 * side.Signed(split.qty))
  {
    hide ApplyFill, Held, Distinct;
    var given := positions[giver := ApplyMove(At(positions, giver), GivenUp(split.qty))];
    var taker := Key(split.portfolio, giver.instrument);
    HeldUpdate(positions, keys, giver, given[giver]);
    FillConserves(At(given, taker), Fill(side, split.qty, price));
    HeldUpdate(given, keys, taker, ApplyMove(At(given, taker), Traded(Fill(side, split.qty, price))));
  }

  // ---- a whole transfer ----------------------------------------------------------------

  predicate Covers(keys: seq<Key>, giver: Key, splits: seq<Split>) {
    && Distinct(keys) && giver in keys
    && forall i | 0 <= i < |splits| :: Key(splits[i].portfolio, giver.instrument) in keys
  }

  // At each split the giver still holds on the order's side.
  predicate GivesFromItsSide(positions: map<Key, Position>, giver: Key, side: Side, price: real, splits: seq<Split>)
    decreases |splits|
  {
    splits == [] ||
    (var init := splits[..|splits| - 1];
     && GivesFromItsSide(positions, giver, side, price, init)
     && OnSide(At(LegsOn(positions, TransferLegs(giver, side, price, init)), giver), side))
  }

  lemma LastSplit(positions: map<Key, Position>, giver: Key, side: Side, price: real, splits: seq<Split>)
    requires splits != []
    ensures var init, split := splits[..|splits| - 1], splits[|splits| - 1];
            var before := LegsOn(positions, TransferLegs(giver, side, price, init));
            var given := before[giver := ApplyMove(At(before, giver), GivenUp(split.qty))];
            var taker := Key(split.portfolio, giver.instrument);
            LegsOn(positions, TransferLegs(giver, side, price, splits))
              == given[taker := ApplyMove(At(given, taker), Traded(Fill(side, split.qty, price)))]
  {
    hide ApplyMove, At;
    var init, split := splits[..|splits| - 1], splits[|splits| - 1];
    var legs := TransferLegs(giver, side, price, init);
    var give, take := GiveLeg(giver, split), TakeLeg(giver, side, price, split);
    assert TransferLegs(giver, side, price, splits) == legs + [give, take];
    assert (legs + [give, take])[..|legs| + 1] == legs + [give] && (legs + [give])[..|legs|] == legs;
  }

  // A transfer adds or takes away twice what it gives from the wrong side.
  lemma {:induction false} TransferShifts(positions: map<Key, Position>, giver: Key, side: Side, price: real,
      splits: seq<Split>, keys: seq<Key>)
    requires Covers(keys, giver, splits)
    ensures var more := Held(LegsOn(positions, TransferLegs(giver, side, price, splits)), keys) - Held(positions, keys);
            && (if side.Buy? then more >= 0.0 else more <= 0.0)
            && (more == 0.0 <==> GivesFromItsSide(positions, giver, side, price, splits))
    decreases |splits|
  {
    if splits != [] {
      hide Held, LegsOn, TransferLegs, OnSide, ApplyMove, At, Distinct;
      var init := splits[..|splits| - 1];
      TransferShifts(positions, giver, side, price, init, keys);
      LastSplit(positions, giver, side, price, splits);
      SplitShifts(LegsOn(positions, TransferLegs(giver, side, price, init)), giver, side, price,
                  splits[|splits| - 1], keys);
    } else {
      assert LegsOn(positions, TransferLegs(giver, side, price, [])) == positions;
    }
  }

  /** A transfer that commits on the rows it found leaves giver and takers holding
      between them what they held before exactly when, at each split, the giver still
      holds on the side of the order it gives from. */
  lemma TransferConservesIff(s: State, id: WriterId, giver: Key, side: Side, price: real, splits: seq<Split>,
      keys: seq<Key>)
    requires Inv(s) && Enabled(s, Commit(id)) && CommitsFresh(s, Commit(id))
    requires s.writers[id].legs == TransferLegs(giver, side, price, splits) && Covers(keys, giver, splits)
    ensures Held(Do(s, Commit(id)).positions, keys) == Held(s.positions, keys)
            <==> GivesFromItsSide(s.positions, giver, side, price, splits)
  {
    var legs := s.writers[id].legs;
    forall k ensures At(Do(s, Commit(id)).positions, k) == At(LegsOn(s.positions, legs), k) {
      CommitIsLegs(s, id, k);
    }
    HeldAlike(Do(s, Commit(id)).positions, LegsOn(s.positions, legs), keys);
    TransferShifts(s.positions, giver, side, price, splits, keys);
  }

  // A commit on the rows it found does what its legs do one after the other.
  lemma CommitIsLegs(s: State, id: WriterId, k: Key)
    requires Inv(s) && Enabled(s, Commit(id)) && CommitsFresh(s, Commit(id))
    ensures At(Do(s, Commit(id)).positions, k) == At(LegsOn(s.positions, s.writers[id].legs), k)
  {
    hide FoldFrom, MovesOn, LegsOn;
    var w := s.writers[id];
    assert WriterInv(s.positions, w) && w.legs[..w.written] == w.legs;
    LegsAreFolds(s.positions, w.legs, k);
    if k !in w.own {
      assert FoldFrom(At(s.positions, k), []) == At(s.positions, k) by { NoMovesNoChange(At(s.positions, k)); }
    }
  }

  lemma NoMovesNoChange(p: Position)
    ensures FoldFrom(p, []) == p
  {}

  lemma {:induction false} HeldAlike(a: map<Key, Position>, b: map<Key, Position>, keys: seq<Key>)
    requires forall k :: At(a, k) == At(b, k)
    ensures Held(a, keys) == Held(b, keys)
    decreases |keys|
  {
    if keys != [] {
      HeldAlike(a, b, keys[..|keys| - 1]);
    }
  }

  // ---- a condition to check before it ---------------------------------------------------

  function Given(splits: seq<Split>): real
    decreases |splits|
  {
    if splits == [] then 0.0 else Given(splits[..|splits| - 1]) + splits[|splits| - 1].qty
  }

  predicate ToOthers(giver: Key, splits: seq<Split>) {
    forall i | 0 <= i < |splits| :: splits[i].portfolio != giver.portfolio
  }

  lemma {:induction false} GiverAfter(positions: map<Key, Position>, giver: Key, side: Side, price: real,
      splits: seq<Split>)
    requires ToOthers(giver, splits) && GivesFromItsSide(positions, giver, side, price, splits)
    ensures At(LegsOn(positions, TransferLegs(giver, side, price, splits)), giver).netQty
         == At(positions, giver).netQty - side.Signed(Given(splits))
    decreases |splits|
  {
    if splits != [] {
      hide LegsOn, TransferLegs, ApplyFill;
      GiverAfter(positions, giver, side, price, splits[..|splits| - 1]);
      LastSplit(positions, giver, side, price, splits);
    } else {
      assert LegsOn(positions, TransferLegs(giver, side, price, [])) == positions;
    }
  }

  lemma {:induction false} GivenGrows(splits: seq<Split>)
    ensures Given(splits) >= 0.0
    decreases |splits|
  {
    if splits != [] {
      GivenGrows(splits[..|splits| - 1]);
    }
  }

  /** Where no taker is the giver that comes to this: the giver holds at least all but
      the last split of a bought block, or is short more than all but the last of a
      sold one. */
  lemma {:induction false} GivesFromItsSideIff(positions: map<Key, Position>, giver: Key, side: Side, price: real,
      splits: seq<Split>)
    requires splits != [] && ToOthers(giver, splits)
    ensures GivesFromItsSide(positions, giver, side, price, splits) <==>
              var first, net := Given(splits[..|splits| - 1]), At(positions, giver).netQty;
              if side.Buy? then net >= first else -net > first
    decreases |splits|
  {
    hide LegsOn, TransferLegs, At;
    var init := splits[..|splits| - 1];
    if init == [] {
      NoLegs(positions, giver, side, price);
    } else {
      GivesFromItsSideIff(positions, giver, side, price, init);
    }
    GivenGrows(init);
    if GivesFromItsSide(positions, giver, side, price, init) {
      GiverAfter(positions, giver, side, price, init);
    }
  }

  lemma NoLegs(positions: map<Key, Position>, giver: Key, side: Side, price: real)
    ensures LegsOn(positions, TransferLegs(giver, side, price, [])) == positions
  {}

  /** What the transfer asks of its caller, a holding on the order's side of at least
      what is given, is enough: nothing is created, and the giver's holding is smaller
      by exactly what was given. */
  lemma WithinHoldingConserves(positions: map<Key, Position>, giver: Key, side: Side, price: real, splits: seq<Split>,
      keys: seq<Key>)
    requires splits != [] && ToOthers(giver, splits) && Covers(keys, giver, splits)
    requires Given(splits) <= side.Signed(At(positions, giver).netQty)
    ensures var after := LegsOn(positions, TransferLegs(giver, side, price, splits));
            && Held(after, keys) == Held(positions, keys)
            && Abs(At(after, giver).netQty) == Abs(At(positions, giver).netQty) - Given(splits)
  {
    hide LegsOn, TransferLegs, At, Held;
    GivesFromItsSideIff(positions, giver, side, price, splits);
    GivenGrows(splits);
    GivenGrows(splits[..|splits| - 1]);
    TransferShifts(positions, giver, side, price, splits, keys);
    GiverAfter(positions, giver, side, price, splits);
  }

  /** A block of ten bought, fifteen sold since by other orders, and the ten allocated:
      five short between giver and taker are fifteen long. */
  lemma TransferCreatesHoldings(giver: Key, taker: nat, price: Positive)
    requires taker != giver.portfolio
    ensures var block := FoldFills([Fill(Buy, 10.0, price), Fill(Sell, 15.0, price)]);
            var after := LegsOn(map[giver := block], TransferLegs(giver, Buy, price, [Split(taker, 10.0)]));
            var keys := [giver, Key(taker, giver.instrument)];
            Held(map[giver := block], keys) == -5.0 && Held(after, keys) == 15.0
  {
    hide ApplyFill, LegsOn, TransferLegs;
    var buy, sell := Fill(Buy, 10.0, price), Fill(Sell, 15.0, price);
    var block := FoldFills([buy, sell]);
    assert [buy, sell][..1] == [buy] && [buy][..0] == [];
    FillConserves(FLAT, buy);
    FillConserves(ApplyFill(FLAT, buy), sell);
    var positions, split, other := map[giver := block], Split(taker, 10.0), Key(taker, giver.instrument);
    var keys := [giver, other];
    assert FoldFills([buy]) == ApplyFill(FLAT, buy) && block.netQty == -5.0;
    assert keys[..1] == [giver] && [giver][..0] == [];
    assert Held(positions, [giver]) == -5.0;
    assert Held(positions, keys) == Held(positions, [giver]) + At(positions, other).netQty;
    assert [split][..0] == [];
    NoLegs(positions, giver, Buy, price);
    LastSplit(positions, giver, Buy, price, [split]);
    SplitShifts(positions, giver, Buy, price, split, keys);
  }

  // ---- a writer by itself ---------------------------------------------------------------

  lemma Next(steps: seq<Step>, s: State, step: Step)
    requires After(steps) == Some(s) && Enabled(s, step)
    ensures After(steps + [step]) == Some(Do(s, step))
  {
    assert (steps + [step])[..|steps|] == steps;
  }

  ghost predicate NobodyHolds(s: State, id: WriterId) {
    forall d, k | d in s.writers && d != id :: !Holds(s.writers[d], k)
  }

  // What it found no row for, nobody has written since.
  predicate FoundAsIs(s: State, id: WriterId)
    requires id in s.writers
  {
    s.writers[id].absent !! s.positions.Keys
  }

  lemma WritesItsLegs(steps: seq<Step>, s: State, id: WriterId) returns (steps': seq<Step>, s': State)
    requires After(steps) == Some(s) && id in s.writers && NobodyHolds(s, id) && FoundAsIs(s, id)
    requires s.writers[id].phase.Loading? && s.writers[id].written <= |s.writers[id].legs|
    ensures After(steps') == Some(s') && s' == s.(writers := s'.writers)
    ensures id in s'.writers && s'.writers - {id} == s.writers - {id} && FoundAsIs(s', id)
    ensures s'.writers[id].legs == s.writers[id].legs && !HasLeg(s'.writers[id])
    decreases |s.writers[id].legs| - s.writers[id].written
  {
    hide After, ApplyMove, MovesOn, FoldFrom;
    steps', s' := steps, s;
    if HasLeg(s.writers[id]) {
      Next(steps, s, Load(id));
      var p1, s1 := steps + [Load(id)], Do(s, Load(id));
      Next(p1, s1, Write(id));
      var p2, s2 := p1 + [Write(id)], Do(s1, Write(id));
      steps', s' := WritesItsLegs(p2, s2, id);
    }
  }

  /** A booking or a transfer just begun, left to itself, commits, and leaves every
      position as its legs, one after the other, make it. */
  lemma LoneWriterCommits(steps: seq<Step>, s: State, id: WriterId, booker: bool)
    returns (steps': seq<Step>, s': State)
    requires After(steps) == Some(s) && id in s.writers && NobodyHolds(s, id)
    requires s.writers[id] == Fresh(s.writers[id].legs, booker)
    ensures After(steps') == Some(s') && s'.writers == s.writers - {id}
    ensures forall k :: At(s'.positions, k) == At(LegsOn(s.positions, s.writers[id].legs), k)
    ensures forall k :: Get(s'.history, k) == Get(s.history, k) + MovesOn(s.writers[id].legs, k)
  {
    hide After, MovesOn, LegsOn, FoldFrom;
    var p, mid := WritesItsLegs(steps, s, id);
    RunKeepsInv(p);
    Next(p, mid, Commit(id));
    steps', s' := p + [Commit(id)], Do(mid, Commit(id));
    forall k
      ensures At(s'.positions, k) == At(LegsOn(s.positions, s.writers[id].legs), k)
      ensures Get(s'.history, k) == Get(s.history, k) + MovesOn(s.writers[id].legs, k)
    {
      CommitIsLegs(mid, id, k);
      var w := mid.writers[id];
      assert WriterInv(mid.positions, w) && w.legs[..w.written] == w.legs;
    }
  }
}
