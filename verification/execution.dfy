/**
The retry loop around one execution report (src/execution.rs:41-63): each attempt
reads, decides and tries to commit against whatever other transactions have
committed by then.
*/
module Execution {
  import opened Wrappers
  import opened Orders
  import opened Booking
  import opened BookingOutcome

  // The database an attempt reads, and the one it appends to: other transactions
  // may commit in between, and between attempts.
  datatype World = World(atRead: Db, atAppend: Db)

  function Attempt(o: OrderId, report: Report, n: nat): Call {
    Call(o, Receive(report), n, Ready, None, None)
  }

  predicate TakesReport(db: Db, o: OrderId, report: Report) {
    Takes(db.rows, o, Receive(report))
  }

  // The order took the report, and its log moved on before the append.
  predicate Outrun(w: World, o: OrderId, report: Report) {
    TakesReport(w.atRead, o, report) && |Get(w.atAppend.log, o)| != w.atRead.rows[o].version
  }

  // The order took the report, and its log is where the read left it.
  predicate Clean(w: World, o: OrderId, report: Report) {
    TakesReport(w.atRead, o, report) && |Get(w.atAppend.log, o)| == w.atRead.rows[o].version
  }

  // What an attempt that got through its append commits.
  function Commits(w: World, id: CallId, c: Call): Db
    requires c.phase.Open?
  {
    var tx := c.phase.tx;
    var loaded := if tx.event.OrderFill? then Lookup(w.atAppend.positions, tx.base.key) else None;
    CommitDb(w.atAppend, id, c.(phase := Open(tx.(stage := SAppended, loaded := loaded))))
  }

  /** Booked, skipped or out of attempts. The first attempt that is not outrun decides:
      where the order takes the report as that attempt reads it -- it is there and open,
      and a fill is of no more than is left, at a price -- it is booked on what the
      attempt commits to, and otherwise it is skipped. Five outrun attempts write
      nothing. `attempts` is how many were made. */
  method ProcessExecutionReport(id: CallId, o: OrderId, report: Report, worlds: seq<World>)
    returns (outcome: Outcome, attempts: nat, db: Db)
    requires |worlds| == MAX_ATTEMPTS
    ensures 1 <= attempts <= 5
    ensures forall i | 0 <= i < attempts - 1 :: Outrun(worlds[i], o, report)
    ensures var w := worlds[attempts - 1];
            match outcome
            case Succeeded =>
              && Clean(w, o, report)
              && Books(w.atAppend, db, id, o, Receive(report), w.atRead.rows[o]) && db.bus == w.atAppend.bus
            case Skipped => !TakesReport(w.atRead, o, report) && db == w.atAppend
            case Conflict => attempts == 5 && Outrun(w, o, report) && db == w.atAppend
            case Failed => false
  {
    hide Takes, Books, CommitDb, ReadAndDecide;
    attempts := 1;
    while true
      invariant 1 <= attempts <= MAX_ATTEMPTS
      invariant forall i | 0 <= i < attempts - 1 :: Outrun(worlds[i], o, report)
      decreases MAX_ATTEMPTS - attempts
    {
      var w := worlds[attempts - 1];
      DecidedIff(w.atRead.rows, o, Receive(report));
      var c := AfterRead(w.atRead, Attempt(o, report, attempts));
      if c.phase.Done? {
        return Skipped, attempts, w.atAppend;
      }
      c := AfterUpdate(w.atAppend, c);
      var appended := AfterAppend(w.atAppend, c);
      if appended.phase.Open? {
        CommitsBooks(w, id, o, report, appended);
        return Succeeded, attempts, Commits(w, id, appended);
      }
      if attempts == MAX_ATTEMPTS {
        return Conflict, attempts, w.atAppend;
      }
      attempts := attempts + 1;
    }
  }

  lemma CommitsBooks(w: World, id: CallId, o: OrderId, report: Report, c: Call)
    requires TakesReport(w.atRead, o, report) && c.order == o && c.cmd == Receive(report)
    requires var row := w.atRead.rows[o];
             var matched := o in w.atAppend.rows && w.atAppend.rows[o].version == row.version;
             c.phase == Open(Tx(row, EventFor(row, c.cmd), SAppended, matched, None))
    ensures Books(w.atAppend, Commits(w, id, c), id, o, c.cmd, w.atRead.rows[o])
    ensures Commits(w, id, c).bus == w.atAppend.bus
  {
    var row := w.atRead.rows[o];
    OnlyFillsFill(row, c.cmd);
    var loaded := if IsFillReport(c.cmd) then Lookup(w.atAppend.positions, row.key) else None;
    hide CommitDb, Books, EventFor;
    BookingOutcome.CommitBooks(w.atAppend, id, c.(phase := Open(c.phase.tx.(stage := SAppended, loaded := loaded))),
                               row, c.phase.tx.matched);
  }

  // ---- across attempts ---------------------------------------------------------------

  // One world after another: an order's log only grows, from a read to its append
  // and from one attempt to the next, and a row read is at its log's version, as
  // every booking keeps it.
  ghost predicate Successive(worlds: seq<World>, o: OrderId) {
    && (forall i | 0 <= i < |worlds| ::
          && Get(worlds[i].atRead.log, o) <= Get(worlds[i].atAppend.log, o)
          && (o in worlds[i].atRead.rows ==> worlds[i].atRead.rows[o].version == |Get(worlds[i].atRead.log, o)|))
    && (forall i | 0 <= i < |worlds| - 1 :: Get(worlds[i].atAppend.log, o) <= Get(worlds[i + 1].atRead.log, o))
  }

  /** Each attempt that is outrun was outrun by a commit on its order: a report that
      gives up saw at least five others commit since it first read. */
  lemma {:induction false} EachConflictIsACommit(worlds: seq<World>, o: OrderId, report: Report, n: nat)
    requires Successive(worlds, o) && 0 < n <= |worlds|
    requires forall i | 0 <= i < n :: Outrun(worlds[i], o, report)
    ensures |Get(worlds[n - 1].atAppend.log, o)| >= |Get(worlds[0].atRead.log, o)| + n
    decreases n
  {
    assert Outrun(worlds[n - 1], o, report);
    if n > 1 {
      EachConflictIsACommit(worlds, o, report, n - 1);
      assert Get(worlds[n - 2].atAppend.log, o) <= Get(worlds[n - 2 + 1].atRead.log, o);
    }
  }

  /** The attempt that commits adds one entry to its order's log, the report's own, and
      nothing to any other. */
  lemma CleanCommitAddsOne(w: World, id: CallId, o: OrderId, report: Report, db: Db)
    requires Clean(w, o, report) && Books(w.atAppend, db, id, o, Receive(report), w.atRead.rows[o])
    ensures o in db.log && |db.log[o]| == |Get(w.atAppend.log, o)| + 1
    ensures db.log[o][..|db.log[o]| - 1] == Get(w.atAppend.log, o)
    ensures db.log[o][|db.log[o]| - 1].cmd == Receive(report) && db.log[o][|db.log[o]| - 1].writer == Some(id)
    ensures db.log[o][|db.log[o]| - 1].event.version == |db.log[o]|
    ensures forall p | p != o :: Get(db.log, p) == Get(w.atAppend.log, p)
  {
    OnlyFillsFill(w.atRead.rows[o], Receive(report));
    hide EventFor, RowsAfter, Takes;
  }

  /** With nobody else at work, a report is booked at the first attempt exactly when its
      order takes it, and moves the order's row with it; any other is skipped. */
  method BookedAtOnce(id: CallId, o: OrderId, report: Report, db: Db)
    returns (outcome: Outcome, db': Db)
    requires o in db.rows ==> db.rows[o].version == |Get(db.log, o)|
    ensures outcome == (if TakesReport(db, o, report) then Succeeded else Skipped)
    ensures outcome == Skipped ==> db' == db
    ensures outcome == Succeeded ==>
              && Books(db, db', id, o, Receive(report), db.rows[o])
              && db'.rows == db.rows[o := RowFor(db.rows[o], Receive(report))]
  {
    hide Books, RowFor, RowsAfter;
    var attempts;
    outcome, attempts, db' := ProcessExecutionReport(id, o, report, seq(MAX_ATTEMPTS, _ => World(db, db)));
    if outcome == Succeeded {
      BooksMatched(db, db', id, o, Receive(report));
    }
  }

  lemma BooksMatched(db: Db, db': Db, id: CallId, o: OrderId, cmd: Command)
    requires Takes(db.rows, o, cmd) && Books(db, db', id, o, cmd, db.rows[o])
    ensures db'.rows == db.rows[o := RowFor(db.rows[o], cmd)]
  {
    hide RowFor;
    MatchedRows(db.rows, o, cmd);
  }
}
