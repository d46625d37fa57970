/**
The booking transactions are writers of the position table: what they load,
write and commit there is a run of the table's own machine, so what is proved of
all its runs, transfers included, holds of theirs.
*/
module BookingPositions {
  import opened Wrappers
  import opened Orders
  import opened Positions
  import opened Booking
  import opened BookingSafety
  import BookingHistory
  import W = PositionWrites

  // A booking transaction that has loaded its position.
  predicate IsWriter(c: Call) {
    c.phase.Open? && c.phase.tx.event.OrderFill? && c.phase.tx.stage.Rank() >= 2
  }

  function AsWriter(c: Call): W.Writer
    requires IsWriter(c)
  {
    var tx := c.phase.tx;
    var k, start, f := tx.base.key, tx.loaded.GetOr(FLAT), FillOf(tx.base.side, tx.event);
    W.Writer([W.Leg(k, W.Traded(f))], true,
             if tx.stage.SLoaded? then 0 else 1,
             if tx.stage.SLoaded? then W.Loaded(start) else W.Loading,
             if tx.stage.SLoaded? then map[] else map[k := ApplyFill(start, f)],
             if tx.loaded.Some? then {k} else {},
             if tx.loaded.Some? then {} else {k})
  }

  function Writers(calls: map<CallId, Call>): map<W.WriterId, W.Writer> {
    map id | id in calls && IsWriter(calls[id]) :: AsWriter(calls[id])
  }

  function Moves(booked: seq<Booked>): seq<W.Move> {
    seq(|booked|, i requires 0 <= i < |booked| => W.Traded(booked[i].fill))
  }

  function Histories(booked: map<Key, seq<Booked>>): map<Key, seq<W.Move>> {
    map k | k in booked :: Moves(booked[k])
  }

  function Project(s: State): W.State {
    W.State(s.db.positions, Histories(s.db.booked), Writers(s.calls))
  }

  // ---- each step ------------------------------------------------------------------------

  lemma HoldsAlike(c: Call, k: Key)
    requires IsWriter(c)
    ensures W.Holds(AsWriter(c), k) <==> HoldsPosition(c, k)
  {}

  lemma FreeAlike(s: State, id: CallId, k: Key)
    requires PositionFree(s, id, k)
    ensures W.KeyFree(Project(s), id, k)
  {
    forall d | d in Project(s).writers && d != id ensures !W.Holds(Project(s).writers[d], k) {
      HoldsAlike(s.calls[d], k);
    }
  }

  lemma {:induction false} OneStep(ws: seq<W.Step>, t: W.State, step: W.Step)
    requires W.After(ws) == Some(t) && W.Enabled(t, step)
    ensures W.After(ws + [step]) == Some(W.Do(t, step))
  {
    assert (ws + [step])[..|ws|] == ws;
  }

  // The table reaches `t` by some run.
  ghost predicate Reached(t: W.State) {
    exists ws :: W.After(ws) == Some(t)
  }

  lemma ReachedNext(t: W.State, step: W.Step)
    requires Reached(t) && W.Enabled(t, step)
    ensures Reached(W.Do(t, step))
  {
    var ws :| W.After(ws) == Some(t);
    OneStep(ws, t, step);
  }

  lemma LoadedAlike(db: Db, c: Call)
    requires c.phase.Open? && c.phase.tx.stage.SUpdated? && c.phase.tx.event.OrderFill?
    ensures var tx := c.phase.tx;
            var k, f := tx.base.key, FillOf(tx.base.side, tx.event);
            var c' := c.(phase := Open(tx.(stage := SLoaded, loaded := Lookup(db.positions, k))));
            IsWriter(c') && AsWriter(c') == W.AfterLoad(db.positions, W.Fresh([W.Leg(k, W.Traded(f))], true))
  {
    assert {} + {c.phase.tx.base.key} == {c.phase.tx.base.key};
  }

  lemma ProjectLoad(s: State, id: CallId, w: W.Writer)
    requires Enabled(s, LoadPosition(id))
    requires var tx := s.calls[id].phase.tx;
             w == W.AfterLoad(s.db.positions,
                 W.Fresh([W.Leg(tx.base.key, W.Traded(FillOf(tx.base.side, tx.event)))], true))
    ensures id !in Writers(s.calls)
    ensures Project(Do(s, LoadPosition(id))) == Project(s).(writers := Writers(s.calls)[id := w])
  {
    LoadedAlike(s.db, s.calls[id]);
    hide AsWriter, Histories, W.AfterLoad;
  }

  lemma LoadIsTwoSteps(s: State, id: CallId)
    requires Enabled(s, LoadPosition(id)) && Reached(Project(s))
    ensures Reached(Project(Do(s, LoadPosition(id))))
  {
    var tx := s.calls[id].phase.tx;
    var k, f := tx.base.key, FillOf(tx.base.side, tx.event);
    var begun := W.Fresh([W.Leg(k, W.Traded(f))], true);
    ProjectLoad(s, id, W.AfterLoad(s.db.positions, begun));
    if k in s.db.positions {
      FreeAlike(s, id, k);
    }
    hide Do, W.After, Histories, Writers, AsWriter, W.AfterLoad, ApplyFill;
    ReachedNext(Project(s), W.BookFill(id, k, f));
    var t := W.Do(Project(s), W.BookFill(id, k, f));
    assert t == Project(s).(writers := Writers(s.calls)[id := begun]);
    ReachedNext(t, W.Load(id));
    assert Writers(s.calls)[id := begun][id := W.AfterLoad(s.db.positions, begun)]
        == Writers(s.calls)[id := W.AfterLoad(s.db.positions, begun)];
  }

  lemma WriteIsOneStep(s: State, id: CallId)
    requires id in s.calls && TxInv(s.db, s.calls[id]) && Enabled(s, WritePosition(id)) && Reached(Project(s))
    ensures Reached(Project(Do(s, WritePosition(id))))
  {
    hide W.After, Histories, ApplyFill, Decided, SeesRow;
    FreeAlike(s, id, s.calls[id].phase.tx.base.key);
    ReachedNext(Project(s), W.Write(id));
    assert W.Do(Project(s), W.Write(id)).writers == Writers(Do(s, WritePosition(id)).calls);
  }

  lemma MovesSnoc(booked: seq<Booked>, b: Booked)
    ensures Moves(booked + [b]) == Moves(booked) + [W.Traded(b.fill)]
  {}

  lemma HistoryOfRow(booked: map<Key, seq<Booked>>, k: Key, b: Booked, k': Key)
    ensures var leg := W.Leg(k, W.Traded(b.fill));
            Get(Histories(booked), k') + W.MovesOn([leg], k')
            == Moves(Get(booked, k') + (if k' == k then [b] else []))
  {
    W.OneLeg(W.Leg(k, W.Traded(b.fill)), k');
    if k' == k {
      MovesSnoc(Get(booked, k), b);
    } else {
      assert Get(booked, k') + [] == Get(booked, k');
    }
  }

  lemma HistoryOfCommit(booked: map<Key, seq<Booked>>, w: W.Writer, k: Key, b: Booked)
    requires w.legs == [W.Leg(k, W.Traded(b.fill))] && w.own.Keys == {k}
    ensures W.WithMoves(Histories(booked), w) == Histories(booked[k := Get(booked, k) + [b]])
  {
    hide W.MovesOn, Moves;
    var booked' := booked[k := Get(booked, k) + [b]];
    forall k' | k' in booked' ensures Get(Histories(booked), k') + W.MovesOn(w.legs, k') == Moves(booked'[k']) {
      HistoryOfRow(booked, k, b, k');
      assert k' != k ==> booked[k'] + [] == booked[k'];
    }
  }

  lemma RowsOfCommit(db: Db, id: CallId, c: Call)
    requires IsWriter(c) && c.phase.tx.stage.SAppended?
    ensures db.positions + AsWriter(c).own == CommitDb(db, id, c).positions
  {}

  // A call that stays the writer it was, or stays none.
  predicate SameWriter(calls: map<CallId, Call>, id: CallId, c: Call) {
    && (IsWriter(c) <==> id in calls && IsWriter(calls[id]))
    && (IsWriter(c) ==> AsWriter(c) == AsWriter(calls[id]))
  }

  lemma SameWriters(calls: map<CallId, Call>, id: CallId, c: Call)
    requires SameWriter(calls, id, c)
    ensures Writers(calls[id := c]) == Writers(calls)
  {
    hide AsWriter, IsWriter;
  }

  lemma NoWriter(calls: map<CallId, Call>, id: CallId, c: Call)
    requires id in calls && !IsWriter(c)
    ensures Writers(calls[id := c]) == Writers(calls) - {id}
  {
    hide AsWriter, IsWriter;
  }

  lemma ProjectCommit(s: State, id: CallId, answered: bool)
    requires Enabled(s, Commit(id, answered))
    ensures var db' := CommitDb(s.db, id, s.calls[id]);
            Project(Do(s, Commit(id, answered)))
            == W.State(db'.positions, Histories(db'.booked), Writers(s.calls) - {id})
  {
    hide CommitDb, Histories, AsWriter;
    NoWriter(s.calls, id, AfterCommit(s.calls[id], answered));
  }

  lemma CommitIsOneStep(s: State, id: CallId, answered: bool)
    requires Enabled(s, Commit(id, answered)) && Reached(Project(s))
    ensures Reached(Project(Do(s, Commit(id, answered))))
  {
    var c := s.calls[id];
    var tx := c.phase.tx;
    ProjectCommit(s, id, answered);
    BookingHistory.CommitBooks(s.db, id, c);
    if tx.event.OrderFill? {
      ReachedNext(Project(s), W.Commit(id));
      HistoryOfCommit(s.db.booked, AsWriter(c), tx.base.key,
                      Booked(c.order, tx.event.version, FillOf(tx.base.side, tx.event)));
      RowsOfCommit(s.db, id, c);
    } else {
      assert Writers(s.calls) - {id} == Writers(s.calls);
    }
    hide Do, Histories, ApplyFill, CommitDb, W.After, W.WithMoves;
  }

  // The other steps move one call, if any: to another stage of the same writer, to
  // no writer, or from none to none.
  lemma MovesOneCall(s: State, step: Step)
    requires Enabled(s, step) && !step.Create? && !step.LoadPosition? && !step.WritePosition? && !step.Commit?
    ensures var s' := Do(s, step);
            && s'.db.positions == s.db.positions && s'.db.booked == s.db.booked
            && step.id in s'.calls && s'.calls == s.calls[step.id := s'.calls[step.id]]
            && (SameWriter(s.calls, step.id, s'.calls[step.id]) || (step.id in s.calls && !IsWriter(s'.calls[step.id])))
  {
    hide ApplyFill, Fold, ReadAndDecide;
  }

  lemma OtherSteps(s: State, step: Step)
    requires Enabled(s, step) && Reached(Project(s))
    requires !step.LoadPosition? && !step.WritePosition? && !step.Commit?
    ensures Reached(Project(Do(s, step)))
  {
    if step.Create? {
      CreateIsApart(s, step);
    } else {
      MovesOneCall(s, step);
      hide Do, Enabled, W.After, AsWriter, IsWriter, SameWriter;
      var c := Do(s, step).calls[step.id];
      if SameWriter(s.calls, step.id, c) {
        SameWriters(s.calls, step.id, c);
      } else {
        NoWriter(s.calls, step.id, c);
        if step.id in Project(s).writers {
          ReachedNext(Project(s), W.Abort(step.id));
        }
      }
    }
  }

  lemma CreateIsApart(s: State, step: Step)
    requires Enabled(s, step) && step.Create?
    ensures Project(Do(s, step)) == Project(s)
  {
    hide Fold;
  }

  /** Every run of booking transactions is, on the position table, a run of writers. */
  lemma {:induction false} BookingsAreWriters(steps: seq<Step>)
    requires After(steps).Some?
    ensures Reached(Project(After(steps).value))
    decreases |steps|
  {
    hide Do, Enabled, Inv;
    if steps == [] {
      StartsAlike();
    } else {
      var before, step := steps[..|steps| - 1], steps[|steps| - 1];
      BookingsAreWriters(before);
      RunKeepsInv(before);
      var s := After(before).value;
      match step
      case LoadPosition(id) => LoadIsTwoSteps(s, id);
      case WritePosition(id) => WriterKnows(s, id); WriteIsOneStep(s, id);
      case Commit(id, answered) => CommitIsOneStep(s, id, answered);
      case _ => OtherSteps(s, step);
    }
  }

  lemma WriterKnows(s: State, id: CallId)
    requires Inv(s) && Enabled(s, WritePosition(id))
    ensures id in s.calls && TxInv(s.db, s.calls[id])
  {}

  lemma StartsAlike()
    ensures After([]) == Some(INIT) && Reached(Project(INIT))
  {
    assert W.After([]) == Some(W.INIT);
    assert Project(INIT) == W.INIT;
  }

  lemma {:induction false} FilledHasFill(log: seq<Event>)
    requires Fold(log).Some? && Fold(log).value.cumQty > 0.0
    ensures exists i :: 0 <= i < |log| && log[i].OrderFill?
    decreases |log|
  {
    var n := |log| - 1;
    if !log[n].OrderFill? {
      FilledHasFill(log[..n]);
      var i :| 0 <= i < n && log[..n][i].OrderFill?;
      assert log[i].OrderFill?;
    }
  }

  /** In every run an order with a filled quantity has its position's row: what a
      transfer of it relies on to find and lock the row it takes from. */
  lemma FilledOrderHasPosition(steps: seq<Step>, o: OrderId)
    requires After(steps).Some? && o in After(steps).value.db.rows && After(steps).value.db.rows[o].cumQty > 0.0
    ensures After(steps).value.db.rows[o].key in After(steps).value.db.positions
  {
    var db := After(steps).value.db;
    BookingHistory.RunKeepsHistory(steps);
    hide After;
    RowAgainstFold(db.rows[o], db.log[o]);
    FilledHasFill(Events(db.log[o]));
    var i :| 0 <= i < |Events(db.log[o])| && Events(db.log[o])[i].OrderFill?;
    assert BookingHistory.IsFill(db, o, i + 1);
  }

  // ---- exactness is the same thing ------------------------------------------------------

  lemma {:induction false} FoldsAlike(booked: seq<Booked>)
    ensures W.FoldFrom(FLAT, Moves(booked)) == FoldFills(BookingHistory.Fills(booked))
    decreases |booked|
  {
    if booked != [] {
      var n := |booked| - 1;
      FoldsAlike(booked[..n]);
      assert Moves(booked)[..n] == Moves(booked[..n]);
      assert BookingHistory.Fills(booked)[..n] == BookingHistory.Fills(booked[..n]);
    }
  }

  /** A position is the fold of the fills booked on it exactly when the table says so. */
  lemma ExactAlike(s: State)
    ensures BookingHistory.Exact(s.db) <==> W.Exact(Project(s))
  {
    forall k | k in s.db.positions ensures BookingHistory.ExactAt(s.db, k) <==> W.ExactAt(Project(s), k) {
      if k in s.db.booked {
        FoldsAlike(s.db.booked[k]);
      }
    }
  }
}
