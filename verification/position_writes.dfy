/**
The position table under its two kinds of writer: the engine's bookings, one
fill each, and allocation transfers, which reduce one row and add to others in
one transaction (src/positions.rs:128-209, src/execution.rs:192-212,
src/handlers.rs:834-878). Each leg loads its row `FOR UPDATE`, which locks
nothing when there is no row, and upserts what it computed.
*/
module PositionWrites {
  import opened Wrappers
  import opened Orders
  import opened Positions

  type WriterId = nat

  // What one leg does to a position: a fill, or a reduction at cost.
  datatype Move = Traded(fill: Fill) | GivenUp(qty: Positive)

  datatype Leg = Leg(key: Key, move: Move)

  datatype Split = Split(portfolio: nat, qty: Positive)

  // Between two legs, or holding the position the current leg loaded.
  datatype Phase = Loading | Loaded(position: Position)

  // A transaction in flight: how many of its legs are written, the rows it has
  // written, the rows it found and locked, and the keys it found no row for.
  datatype Writer = Writer(
    legs: seq<Leg>,
    booker: bool,
    written: nat,
    phase: Phase,
    own: map<Key, Position>,
    locked: set<Key>,
    absent: set<Key>)

  // `history` records the committed moves of each row, in commit order.
  datatype State = State(positions: map<Key, Position>, history: map<Key, seq<Move>>, writers: map<WriterId, Writer>)

  const INIT := State(map[], map[], map[])

  function ApplyMove(p: Position, m: Move): Position {
    match m
    case Traded(f) => ApplyFill(p, f)
    case GivenUp(qty) => ReduceAtCost(p, qty)
  }

  function FoldFrom(p: Position, moves: seq<Move>): Position
    decreases |moves|
  {
    if moves == [] then p else ApplyMove(FoldFrom(p, moves[..|moves| - 1]), moves[|moves| - 1])
  }

  // The moves of some legs on one row.
  function MovesOn(legs: seq<Leg>, k: Key): seq<Move>
    decreases |legs|
  {
    if legs == [] then []
    else
      var last := legs[|legs| - 1];
      MovesOn(legs[..|legs| - 1], k) + (if last.key == k then [last.move] else [])
  }

  // Each split takes from the giver at cost and gives to its portfolio at the
  // order's price (handlers.rs:837-863).
  function TransferLegs(giver: Key, side: Side, price: real, splits: seq<Split>): seq<Leg>
    decreases |splits|
  {
    if splits == [] then []
    else
      var s := splits[|splits| - 1];
      TransferLegs(giver, side, price, splits[..|splits| - 1])
      + [Leg(giver, GivenUp(s.qty)), Leg(Key(s.portfolio, giver.instrument), Traded(Fill(side, s.qty, price)))]
  }

  predicate Holds(w: Writer, k: Key) {
    k in w.own || k in w.locked
  }

  ghost predicate KeyFree(s: State, id: WriterId, k: Key) {
    forall d | d in s.writers && d != id :: !Holds(s.writers[d], k)
  }

  datatype Step =
    | BookFill(id: WriterId, key: Key, fill: Fill)
    | BeginTransfer(id: WriterId, giver: Key, side: Side, price: real, splits: seq<Split>)
    | Load(id: WriterId)
    | Write(id: WriterId)
    | Commit(id: WriterId)
    | Abort(id: WriterId)

  predicate HasLeg(w: Writer) {
    w.written < |w.legs|
  }

  ghost predicate Enabled(s: State, step: Step) {
    match step
    case BookFill(id, _, _) => id !in s.writers
    // an order with a filled quantity to give has its position's row
    case BeginTransfer(id, giver, _, _, splits) => id !in s.writers && giver in s.positions && splits != []
    case Load(id) =>
      && id in s.writers && HasLeg(s.writers[id]) && s.writers[id].phase.Loading?
      && var k := s.writers[id].legs[s.writers[id].written].key;
      (k in s.positions ==> KeyFree(s, id, k))
    case Write(id) =>
      && id in s.writers && HasLeg(s.writers[id]) && s.writers[id].phase.Loaded?
      && KeyFree(s, id, s.writers[id].legs[s.writers[id].written].key)
    case Commit(id) => id in s.writers && !HasLeg(s.writers[id])
    case Abort(id) => id in s.writers
  }

  function Fresh(legs: seq<Leg>, booker: bool): Writer {
    Writer(legs, booker, 0, Loading, map[], {}, {})
  }

  // The writer after loading its next leg's row: its own write, the row, or nothing.
  function AfterLoad(positions: map<Key, Position>, w: Writer): Writer
    requires HasLeg(w)
  {
    var k := w.legs[w.written].key;
    if k in w.own then w.(phase := Loaded(w.own[k]))
    else if k in positions then w.(phase := Loaded(positions[k]), locked := w.locked + {k})
    else w.(phase := Loaded(FLAT), absent := w.absent + {k})
  }

  function AfterWrite(w: Writer): Writer
    requires HasLeg(w) && w.phase.Loaded?
  {
    var leg := w.legs[w.written];
    w.(phase := Loading, written := w.written + 1, own := w.own[leg.key := ApplyMove(w.phase.position, leg.move)])
  }

  function WithMoves(history: map<Key, seq<Move>>, w: Writer): map<Key, seq<Move>> {
    map k | k in history.Keys + w.own.Keys :: Get(history, k) + MovesOn(w.legs, k)
  }

  ghost function Do(s: State, step: Step): State
    requires Enabled(s, step)
  {
    match step
    case BookFill(id, k, f) => s.(writers := s.writers[id := Fresh([Leg(k, Traded(f))], true)])
    case BeginTransfer(id, giver, side, price, splits) =>
      s.(writers := s.writers[id := Fresh(TransferLegs(giver, side, price, splits), false)])
    case Load(id) => s.(writers := s.writers[id := AfterLoad(s.positions, s.writers[id])])
    case Write(id) => s.(writers := s.writers[id := AfterWrite(s.writers[id])])
    case Commit(id) =>
      var w := s.writers[id];
      State(s.positions + w.own, WithMoves(s.history, w), s.writers - {id})
    case Abort(id) => s.(writers := s.writers - {id})
  }

  // ---- folds -------------------------------------------------------------------------

  lemma FoldSnoc(p: Position, moves: seq<Move>, m: Move)
    ensures FoldFrom(p, moves + [m]) == ApplyMove(FoldFrom(p, moves), m)
  {
    assert (moves + [m])[..|moves|] == moves;
  }

  lemma {:induction false} FoldConcat(p: Position, a: seq<Move>, b: seq<Move>)
    ensures FoldFrom(p, a + b) == FoldFrom(FoldFrom(p, a), b)
    decreases |b|
  {
    if b == [] {
      assert a + b == a;
    } else {
      assert (a + b)[..|a + b| - 1] == a + b[..|b| - 1];
      FoldConcat(p, a, b[..|b| - 1]);
    }
  }

  predicate NoCostWhenFlat(p: Position) {
    p.netQty == 0.0 ==> p.avgCost == 0.0
  }

  lemma {:induction false} FoldShowsNoCost(p: Position, moves: seq<Move>)
    requires NoCostWhenFlat(p)
    ensures NoCostWhenFlat(FoldFrom(p, moves))
    decreases |moves|
  {
    if moves != [] {
      FoldShowsNoCost(p, moves[..|moves| - 1]);
      if moves[|moves| - 1].Traded? {
        FlatShowsNoCost(FoldFrom(p, moves[..|moves| - 1]), moves[|moves| - 1].fill);
      }
    }
  }

  predicate AllTraded(moves: seq<Move>) {
    forall i | 0 <= i < |moves| :: moves[i].Traded?
  }

  // What a position holds and what its cost less its profit comes to.
  function Cash(p: Position): real {
    p.netQty * p.avgCost - p.realizedPnl
  }

  lemma FillShifts(p: Position, f: Fill)
    ensures ApplyFill(p, f).netQty == p.netQty + f.side.Signed(f.qty)
    ensures Cash(ApplyFill(p, f)) == Cash(p) + f.side.Signed(f.qty) * f.price
  {
    FillConserves(p, f);
  }

  lemma {:induction false} TradesShift(p: Position, q: Position, moves: seq<Move>)
    requires AllTraded(moves)
    ensures FoldFrom(p, moves).netQty - FoldFrom(q, moves).netQty == p.netQty - q.netQty
    ensures Cash(FoldFrom(p, moves)) - Cash(FoldFrom(q, moves)) == Cash(p) - Cash(q)
    decreases |moves|
  {
    hide ApplyFill, Cash;
    if moves != [] {
      var init, f := moves[..|moves| - 1], moves[|moves| - 1].fill;
      TradesShift(p, q, init);
      FillShifts(FoldFrom(p, init), f);
      FillShifts(FoldFrom(q, init), f);
    }
  }

  // Fills put on a flat start in place of `p` come out the same only if `p` is flat
  // with nothing realized.
  lemma StaleTradesIff(p: Position, moves: seq<Move>)
    requires NoCostWhenFlat(p) && AllTraded(moves)
    ensures FoldFrom(FLAT, moves) == FoldFrom(p, moves) <==> p == FLAT
  {
    TradesShift(p, FLAT, moves);
  }

  // ---- the invariant -----------------------------------------------------------------

  // Where a writer's moves on a row start from.
  function Start(positions: map<Key, Position>, w: Writer, k: Key): Position {
    if k in w.absent || k !in positions then FLAT else positions[k]
  }

  // What a writer has written and loaded follows from where it started, and what it
  // started from as a row is still there.
  ghost predicate WriterInv(positions: map<Key, Position>, w: Writer) {
    && w.written <= |w.legs| && (w.phase.Loaded? ==> HasLeg(w))
    && w.locked <= positions.Keys && w.locked !! w.absent && w.own.Keys <= w.locked + w.absent
    && w.absent <= w.own.Keys + (if w.phase.Loaded? then {w.legs[w.written].key} else {})
    && WroteMoves(positions, w)
    && (w.phase.Loaded? ==>
          var k := w.legs[w.written].key;
          && k in w.locked + w.absent
          && w.phase.position == FoldFrom(Start(positions, w, k), MovesOn(w.legs[..w.written], k)))
    && (forall i | 0 <= i < |w.legs| && w.legs[i].move.GivenUp? ::
          w.legs[i].key in positions && w.legs[i].key !in w.absent)
  }

  // Its own rows are those its written legs name, each the fold of their moves.
  ghost predicate WroteMoves(positions: map<Key, Position>, w: Writer)
    requires w.written <= |w.legs|
  {
    && (forall k :: k in w.own <==> MovesOn(w.legs[..w.written], k) != [])
    && (forall k | k in w.own :: w.own[k] == FoldFrom(Start(positions, w, k), MovesOn(w.legs[..w.written], k)))
  }

  ghost predicate LockInv(writers: map<WriterId, Writer>) {
    forall c, d, k | c in writers && d in writers && c != d :: !(Holds(writers[c], k) && Holds(writers[d], k))
  }

  ghost predicate Inv(s: State) {
    && s.positions.Keys == s.history.Keys
    && LockInv(s.writers)
    && forall id | id in s.writers :: WriterInv(s.positions, s.writers[id])
  }

  lemma MovesNext(legs: seq<Leg>, n: nat, k: Key)
    requires n < |legs|
    ensures MovesOn(legs[..n + 1], k) == MovesOn(legs[..n], k) + (if legs[n].key == k then [legs[n].move] else [])
  {
    assert legs[..n + 1][..n] == legs[..n];
  }

  lemma {:induction false} TransferGives(giver: Key, side: Side, price: real, splits: seq<Split>)
    ensures forall i | 0 <= i < |TransferLegs(giver, side, price, splits)| ::
              var leg := TransferLegs(giver, side, price, splits)[i]; leg.move.GivenUp? ==> leg.key == giver
    decreases |splits|
  {
    if splits != [] {
      TransferGives(giver, side, price, splits[..|splits| - 1]);
    }
  }

  lemma FreshWriter(positions: map<Key, Position>, legs: seq<Leg>, booker: bool)
    requires forall i | 0 <= i < |legs| && legs[i].move.GivenUp? :: legs[i].key in positions
    ensures WriterInv(positions, Fresh(legs, booker))
  {
    assert legs[..0] == [];
  }

  lemma LoadedWriter(positions: map<Key, Position>, w: Writer)
    requires WriterInv(positions, w) && HasLeg(w) && w.phase.Loading?
    ensures WriterInv(positions, AfterLoad(positions, w))
  {
    hide MovesOn, FoldFrom;
    NoMoves();
    StartStays(positions, w);
  }

  // Neither a lock nor a row found missing changes where written rows started.
  lemma StartStays(positions: map<Key, Position>, w: Writer)
    requires WriterInv(positions, w) && HasLeg(w) && w.phase.Loading?
    ensures forall k | k in w.own :: Start(positions, AfterLoad(positions, w), k) == Start(positions, w, k)
    ensures WroteMoves(positions, AfterLoad(positions, w))
  {
    hide MovesOn, FoldFrom;
  }

  lemma NoMoves()
    ensures forall p: Position :: FoldFrom(p, []) == p
  {}

  lemma WroteOneMore(positions: map<Key, Position>, w: Writer)
    requires WriterInv(positions, w) && HasLeg(w) && w.phase.Loaded?
    ensures WroteMoves(positions, AfterWrite(w))
  {
    NoMoves();
    hide MovesOn, FoldFrom, ApplyMove;
    var leg, w' := w.legs[w.written], AfterWrite(w);
    forall k ensures k in w'.own <==> MovesOn(w'.legs[..w'.written], k) != [] {
      MovesNext(w.legs, w.written, k);
    }
    forall k | k in w'.own ensures w'.own[k] == FoldFrom(Start(positions, w', k), MovesOn(w'.legs[..w'.written], k)) {
      MovesNext(w.legs, w.written, k);
      assert MovesOn(w.legs[..w.written], k) + [] == MovesOn(w.legs[..w.written], k);
      if k == leg.key {
        FoldSnoc(Start(positions, w, k), MovesOn(w.legs[..w.written], k), leg.move);
      }
    }
  }

  lemma WrittenWriter(positions: map<Key, Position>, w: Writer)
    requires WriterInv(positions, w) && HasLeg(w) && w.phase.Loaded?
    ensures WriterInv(positions, AfterWrite(w))
  {
    WroteOneMore(positions, w);
    hide MovesOn, FoldFrom, ApplyMove, WroteMoves;
  }

  // A commit of others' rows does not disturb a writer.
  lemma OthersCommit(positions: map<Key, Position>, w: Writer, own: map<Key, Position>)
    requires WriterInv(positions, w) && w.locked !! own.Keys
    ensures WriterInv(positions + own, w)
  {
    forall k | k in w.locked + w.absent ensures Start(positions + own, w, k) == Start(positions, w, k) {
    }
  }

  lemma CommitKeepsInv(s: State, id: WriterId)
    requires Inv(s) && Enabled(s, Commit(id))
    ensures Inv(Do(s, Commit(id)))
  {
    hide WriterInv;
    var w, s' := s.writers[id], Do(s, Commit(id));
    forall d | d in s'.writers ensures WriterInv(s'.positions, s'.writers[d]) {
      assert forall k | k in s.writers[d].locked :: Holds(s.writers[d], k) && !Holds(w, k);
      OthersCommit(s.positions, s.writers[d], w.own);
    }
  }

  lemma StepKeepsInv(s: State, step: Step)
    requires Inv(s) && Enabled(s, step)
    ensures Inv(Do(s, step))
  {
    hide WriterInv, FoldFrom, MovesOn;
    match step
    case BookFill(_, k, f) => FreshWriter(s.positions, [Leg(k, Traded(f))], true);
    case BeginTransfer(_, giver, side, price, splits) =>
      TransferGives(giver, side, price, splits);
      FreshWriter(s.positions, TransferLegs(giver, side, price, splits), false);
    case Load(id) => LoadKeepsInv(s, id);
    case Write(id) => WrittenWriter(s.positions, s.writers[id]);
    case Commit(id) => CommitKeepsInv(s, id);
    case Abort(_) =>
  }

  lemma LoadKeepsInv(s: State, id: WriterId)
    requires Inv(s) && Enabled(s, Load(id))
    ensures Inv(Do(s, Load(id)))
  {
    hide WriterInv, FoldFrom, MovesOn;
    LoadedWriter(s.positions, s.writers[id]);
  }

  // ---- exactness ------------------------------------------------------------------------

  // A row is the fold of the moves committed on it.
  ghost predicate ExactAt(s: State, k: Key) {
    k in s.positions && k in s.history ==> s.positions[k] == FoldFrom(FLAT, s.history[k])
  }

  ghost predicate Exact(s: State) {
    forall k | k in s.positions :: ExactAt(s, k)
  }

  // A commit puts nothing on a start it found absent over a row that holds anything.
  predicate CommitsFresh(s: State, step: Step)
    requires step.Commit? ==> step.id in s.writers
  {
    step.Commit? ==>
      forall k | k in s.writers[step.id].own && k in s.writers[step.id].absent :: k in s.positions
          ==> s.positions[k] == FLAT
  }

  lemma {:induction false} AbsentOnlyTrades(positions: map<Key, Position>, w: Writer, n: nat, k: Key)
    requires WriterInv(positions, w) && k in w.absent && n <= |w.legs|
    ensures AllTraded(MovesOn(w.legs[..n], k))
    decreases n
  {
    if n > 0 {
      AbsentOnlyTrades(positions, w, n - 1, k);
      MovesNext(w.legs, n - 1, k);
    }
  }

  // One row of a commit.
  lemma RowExactIff(s: State, id: WriterId, k: Key)
    requires Inv(s) && Exact(s) && Enabled(s, Commit(id)) && k in s.writers[id].own
    ensures ExactAt(Do(s, Commit(id)), k) <==>
              (k in s.writers[id].absent && k in s.positions ==> s.positions[k] == FLAT)
  {
    hide FoldFrom, MovesOn;
    NoMoves();
    var w := s.writers[id];
    var moves := MovesOn(w.legs, k);
    assert WriterInv(s.positions, w) && w.legs[..w.written] == w.legs;
    FoldConcat(FLAT, Get(s.history, k), moves);
    if k in s.positions {
      assert ExactAt(s, k);
      FoldShowsNoCost(FLAT, s.history[k]);
      if k in w.absent {
        AbsentOnlyTrades(s.positions, w, |w.legs|, k);
        StaleTradesIff(s.positions[k], moves);
      }
    }
  }

  // A row of nobody's in this commit.
  lemma OtherRowStays(s: State, id: WriterId, k: Key)
    requires Inv(s) && Exact(s) && Enabled(s, Commit(id)) && k !in s.writers[id].own
    ensures ExactAt(Do(s, Commit(id)), k)
  {
    hide FoldFrom, MovesOn;
    var w := s.writers[id];
    assert WriterInv(s.positions, w) && w.legs[..w.written] == w.legs;
    assert MovesOn(w.legs, k) == [] && Get(s.history, k) + [] == Get(s.history, k);
    assert k in s.positions ==> ExactAt(s, k);
  }

  lemma StepExactIff(s: State, step: Step)
    requires Inv(s) && Exact(s) && Enabled(s, step)
    ensures Exact(Do(s, step)) <==> CommitsFresh(s, step)
  {
    hide WriterInv, FoldFrom, MovesOn, ExactAt;
    var s' := Do(s, step);
    if step.Commit? {
      CommitExactIff(s, step.id);
    } else {
      forall k | k in s'.positions ensures ExactAt(s', k) {
        SameRow(s, s', k);
      }
    }
  }

  lemma SameRow(s: State, s': State, k: Key)
    requires ExactAt(s, k) && s'.positions == s.positions && s'.history == s.history
    ensures ExactAt(s', k)
  {}

  lemma CommitExactIff(s: State, id: WriterId)
    requires Inv(s) && Exact(s) && Enabled(s, Commit(id))
    ensures Exact(Do(s, Commit(id))) <==> CommitsFresh(s, Commit(id))
  {
    hide WriterInv, FoldFrom, MovesOn, ExactAt;
    var w, s' := s.writers[id], Do(s, Commit(id));
    forall k | k in s'.positions
      ensures k in w.own ==> (ExactAt(s', k) <==> (k in w.absent && k in s.positions ==> s.positions[k] == FLAT))
      ensures k !in w.own ==> ExactAt(s', k)
    {
      if k in w.own {
        RowExactIff(s, id, k);
      } else {
        OtherRowStays(s, id, k);
      }
    }
  }

  // ---- runs ---------------------------------------------------------------------------

  ghost function After(steps: seq<Step>): Option<State>
    decreases |steps|
  {
    if steps == [] then Some(INIT)
    else
      var before := After(steps[..|steps| - 1]);
      if before.Some? && Enabled(before.value, steps[|steps| - 1])
      then Some(Do(before.value, steps[|steps| - 1])) else None
  }

  lemma {:induction false} RunKeepsInv(steps: seq<Step>)
    requires After(steps).Some?
    ensures Inv(After(steps).value)
    decreases |steps|
  {
    if steps != [] {
      RunKeepsInv(steps[..|steps| - 1]);
      StepKeepsInv(After(steps[..|steps| - 1]).value, steps[|steps| - 1]);
    }
  }

  ghost predicate AlwaysExact(steps: seq<Step>)
    requires After(steps).Some?
    decreases |steps|
  {
    Exact(After(steps).value) && (steps == [] || AlwaysExact(steps[..|steps| - 1]))
  }

  ghost predicate AlwaysFresh(steps: seq<Step>)
    requires After(steps).Some?
    decreases |steps|
  {
    steps == [] ||
    (AlwaysFresh(steps[..|steps| - 1]) && CommitsFresh(After(steps[..|steps| - 1]).value, steps[|steps| - 1]))
  }

  /** In every run of bookings and transfers: each position is, at every point, the
      fold of the fills and transfers committed on it exactly when no commit puts
      moves that started from an absent row over a row that holds anything. */
  lemma {:induction false} PositionsAreFoldsIff(steps: seq<Step>)
    requires After(steps).Some?
    ensures AlwaysExact(steps) <==> AlwaysFresh(steps)
    decreases |steps|
  {
    hide Exact, CommitsFresh, Inv, Do, Enabled;
    if steps != [] {
      var before := steps[..|steps| - 1];
      PositionsAreFoldsIff(before);
      RunKeepsInv(before);
      if AlwaysExact(before) {
        StepExactIff(After(before).value, steps[|steps| - 1]);
      }
    } else {
      NothingHeld();
    }
  }

  lemma NothingHeld()
    ensures After([]) == Some(INIT) && Exact(INIT)
  {}

  // ---- one booker, and a transfer beside it ---------------------------------------------

  // The engine books one fill at a time (src/order_engine.rs:83-94).
  ghost predicate OneBooker(s: State) {
    forall c, d | c in s.writers && d in s.writers && s.writers[c].booker && s.writers[d].booker :: c == d
  }

  ghost predicate OneBookerThroughout(steps: seq<Step>)
    requires After(steps).Some?
    decreases |steps|
  {
    OneBooker(After(steps).value) && (steps == [] || OneBookerThroughout(steps[..|steps| - 1]))
  }

  ghost predicate NoTransfers(steps: seq<Step>) {
    forall i | 0 <= i < |steps| :: !steps[i].BeginTransfer?
  }

  ghost predicate Alone(s: State) {
    && (forall c | c in s.writers :: s.writers[c].booker)
    && (forall c, k | c in s.writers && k in s.writers[c].absent :: k !in s.positions)
  }

  lemma AloneStays(s: State, step: Step)
    requires Alone(s) && OneBooker(s) && Enabled(s, step) && !step.BeginTransfer?
    ensures Alone(Do(s, step)) && CommitsFresh(s, step)
  {}

  /** The engine's bookings by themselves, one at a time, keep every position exact. */
  lemma {:induction false} BookingsAloneAreExact(steps: seq<Step>)
    requires After(steps).Some? && OneBookerThroughout(steps) && NoTransfers(steps)
    ensures AlwaysFresh(steps) && AlwaysExact(steps) && Alone(After(steps).value)
    decreases |steps|
  {
    hide CommitsFresh, Exact, Do, Enabled;
    if steps != [] {
      var before := steps[..|steps| - 1];
      assert forall i | 0 <= i < |before| :: before[i] == steps[i];
      BookingsAloneAreExact(before);
      AloneStays(After(before).value, steps[|steps| - 1]);
    } else {
      assert Alone(INIT);
    }
    PositionsAreFoldsIff(steps);
  }

  lemma Then(steps: seq<Step>, s: State, step: Step)
    requires After(steps) == Some(s) && OneBookerThroughout(steps)
    requires Enabled(s, step) && OneBooker(Do(s, step))
    ensures After(steps + [step]) == Some(Do(s, step)) && OneBookerThroughout(steps + [step])
  {
    assert (steps + [step])[..|steps|] == steps;
  }

  const BLOCK := Key(0, "X")
  const CLIENT := Key(1, "X")

  function Bought(): Fill { Fill(Buy, 1.0, 10.0) }

  // The block portfolio has bought one unit.
  lemma BlockBought() returns (steps: seq<Step>, s: State)
    ensures After(steps) == Some(s) && OneBookerThroughout(steps)
    ensures s == State(map[BLOCK := ApplyFill(FLAT, Bought())], map[BLOCK := [Traded(Bought())]], map[])
  {
    NothingHeld();
    assert OneBookerThroughout([]);
    hide After, OneBookerThroughout, ApplyFill;
    var b := BookFill(0, BLOCK, Bought());
    Then([], INIT, b);
    var s1 := Do(INIT, b);
    Then([] + [b], s1, Load(0));
    var s2 := Do(s1, Load(0));
    Then([] + [b] + [Load(0)], s2, Write(0));
    var s3 := Do(s2, Write(0));
    Then([] + [b] + [Load(0)] + [Write(0)], s3, Commit(0));
    steps, s := [] + [b] + [Load(0)] + [Write(0)] + [Commit(0)], Do(s3, Commit(0));
    OneLeg(Leg(BLOCK, Traded(Bought())), BLOCK);
    assert [] + [Traded(Bought())] == [Traded(Bought())];
  }

  lemma OneLeg(leg: Leg, k: Key)
    ensures MovesOn([leg], k) == if leg.key == k then [leg.move] else []
  {
    assert [leg][..0] == [];
  }

  // A transfer of the unit to the client has loaded what it takes it from.
  lemma TransferBegun() returns (steps: seq<Step>, s: State, w: Writer)
    ensures After(steps) == Some(s) && OneBookerThroughout(steps)
    ensures s.writers == map[1 := w] && s.positions.Keys == {BLOCK} && s.history.Keys == {BLOCK}
    ensures w.legs == [Leg(BLOCK, GivenUp(1.0)), Leg(CLIENT, Traded(Bought()))]
    ensures !w.booker && w.written == 0 && w.phase.Loaded? && w.own == map[] && w.locked == {BLOCK} && w.absent == {}
  {
    var p, s0 := BlockBought();
    hide After, OneBookerThroughout, ApplyFill, TransferLegs;
    var t := BeginTransfer(1, BLOCK, Buy, 10.0, [Split(1, 1.0)]);
    OneSplit(BLOCK, Buy, 10.0, Split(1, 1.0));
    Then(p, s0, t);
    var s1 := Do(s0, t);
    Then(p + [t], s1, Load(1));
    steps, s := p + [t] + [Load(1)], Do(s1, Load(1));
    w := s.writers[1];
  }

  // And has found no row for the client.
  lemma TransferFoundNoRow() returns (steps: seq<Step>, s: State, w: Writer)
    ensures After(steps) == Some(s) && OneBookerThroughout(steps)
    ensures s.writers == map[1 := w] && s.positions.Keys == {BLOCK} && s.history.Keys == {BLOCK}
    ensures w.legs == [Leg(BLOCK, GivenUp(1.0)), Leg(CLIENT, Traded(Bought()))]
    ensures !w.booker && w.written == 1 && w.phase == Loaded(FLAT) && w.absent == {CLIENT}
    ensures w.own.Keys == {BLOCK} && w.locked == {BLOCK}
  {
    var p, s0, w0 := TransferBegun();
    hide After, OneBookerThroughout, ApplyMove;
    Then(p, s0, Write(1));
    var s1 := Do(s0, Write(1));
    Then(p + [Write(1)], s1, Load(1));
    steps, s := p + [Write(1)] + [Load(1)], Do(s1, Load(1));
    w := s.writers[1];
  }

  lemma OneSplit(giver: Key, side: Side, price: real, split: Split)
    ensures TransferLegs(giver, side, price, [split])
         == [Leg(giver, GivenUp(split.qty)),
             Leg(Key(split.portfolio, giver.instrument), Traded(Fill(side, split.qty, price)))]
  {
    assert [split][..0] == [];
  }

  // Meanwhile the engine has written the client's own first fill.
  lemma ClientWritten() returns (steps: seq<Step>, s: State, w: Writer, b: Writer)
    ensures After(steps) == Some(s) && OneBookerThroughout(steps)
    ensures s.writers == map[1 := w, 2 := b] && s.positions.Keys == {BLOCK} && s.history.Keys == {BLOCK}
    ensures w.legs == [Leg(BLOCK, GivenUp(1.0)), Leg(CLIENT, Traded(Bought()))]
    ensures !w.booker && w.written == 1 && w.phase == Loaded(FLAT) && w.absent == {CLIENT}
    ensures b.booker && !HasLeg(b) && b.own == map[CLIENT := ApplyFill(FLAT, Bought())]
  {
    var p, s0, w0 := TransferFoundNoRow();
    w := w0;
    hide After, OneBookerThroughout, ApplyFill;
    var f := BookFill(2, CLIENT, Bought());
    Then(p, s0, f);
    var s1 := Do(s0, f);
    Then(p + [f], s1, Load(2));
    var s2 := Do(s1, Load(2));
    assert KeyFree(s2, 2, CLIENT);
    Then(p + [f] + [Load(2)], s2, Write(2));
    steps, s := p + [f] + [Load(2)] + [Write(2)], Do(s2, Write(2));
    b := s.writers[2];
  }

  // And committed it.
  lemma ClientBoughtMeanwhile() returns (steps: seq<Step>, s: State, w: Writer)
    ensures After(steps) == Some(s) && OneBookerThroughout(steps)
    ensures s.writers == map[1 := w] && !w.booker && HasLeg(w) && w.written == 1 && |w.legs| == 2
    ensures w.legs[1] == Leg(CLIENT, Traded(Bought())) && w.phase == Loaded(FLAT) && w.absent == {CLIENT}
    ensures CLIENT in s.positions && s.positions[CLIENT] == ApplyFill(FLAT, Bought())
  {
    var p, s0, w0, b := ClientWritten();
    w := w0;
    hide After, OneBookerThroughout, ApplyFill, WithMoves;
    Then(p, s0, Commit(2));
    steps, s := p + [Commit(2)], Do(s0, Commit(2));
    assert s.writers == map[1 := w];
  }

  /** And a transfer beside the one booker breaks it: it finds no row for the client,
      the engine books the client's first fill, and the transfer's commit writes
      over that fill. */
  lemma TransferLosesAFill()
    ensures exists steps :: After(steps).Some? && OneBookerThroughout(steps) && !AlwaysExact(steps)
  {
    var p, s, w := ClientBoughtMeanwhile();
    hide After, OneBookerThroughout, AlwaysExact, Exact;
    Then(p, s, Write(1));
    var p1, s1 := p + [Write(1)], Do(s, Write(1));
    Then(p1, s1, Commit(1));
    var p2 := p1 + [Commit(1)];
    assert p2[..|p1|] == p1;
    BoughtIsNotFlat();
    NotFresh(p1, s1, Commit(1));
    PositionsAreFoldsIff(p2);
  }

  lemma BoughtIsNotFlat()
    ensures ApplyFill(FLAT, Bought()) != FLAT
  {}

  lemma NotFresh(steps: seq<Step>, s: State, step: Step)
    requires After(steps) == Some(s) && Enabled(s, step) && !CommitsFresh(s, step)
    ensures After(steps + [step]).Some? && !AlwaysFresh(steps + [step])
  {
    assert (steps + [step])[..|steps|] == steps;
  }
}
