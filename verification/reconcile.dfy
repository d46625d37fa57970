/**
The reconcile coalescer: at most one reconcile per connection, and a request
made while one runs makes it run once more (src/order_engine.rs:86-125, 146-162).
A task that ends removes its slot, and its guard removes the slot once more
when it is dropped; the two are separate steps here, as they are in the code.
*/
module Reconcile {
  import opened Wrappers

  // A connection: its broker code and its adapter instance.
  datatype Connection = Connection(broker: string, adapter: nat)

  type TaskId = nat

  // ---- the slots -------------------------------------------------------------------

  function Requested(running: map<Connection, bool>, k: Connection): map<Connection, bool> {
    running[k := k in running]
  }

  // Whether a run that ends is followed by another, and the slots after it.
  function RunsAgain(running: map<Connection, bool>, k: Connection): bool {
    k in running && running[k]
  }

  function RunEnded(running: map<Connection, bool>, k: Connection): map<Connection, bool> {
    if RunsAgain(running, k) then running[k := false] else running - {k}
  }

  class ReconcileSlots {
    // Connections with a reconcile, and whether to run it again when it ends.
    var running: map<Connection, bool>

    constructor ()
      ensures running == map[]
    {
      running := map[];
    }

    /** A request: spawn a task, or have the one there is run again. */
    method Request(k: Connection) returns (spawn: bool)
      modifies this
      ensures spawn <==> k !in old(running)
      ensures running == Requested(old(running), k)
    {
      if k in running {
        running := running[k := true];
        return false;
      }
      running := running[k := false];
      return true;
    }

    /** The end of a run: go again, or give the slot up. */
    method EndRun(k: Connection) returns (again: bool)
      modifies this
      ensures again <==> RunsAgain(old(running), k)
      ensures running == RunEnded(old(running), k)
    {
      if k in running && running[k] {
        running := running[k := false];
        return true;
      }
      running := running - {k};
      return false;
    }

    /** The guard's drop, however the task ended. */
    method Drop(k: Connection)
      modifies this
      ensures running == old(running) - {k}
    {
      running := running - {k};
    }
  }

  // ---- tasks -----------------------------------------------------------------------

  // About to run, running, or out of its loop with its guard not yet dropped.
  datatype Phase = Ready | InRun | Leaving

  datatype Task = Task(connection: Connection, phase: Phase)

  // What happened on a connection: a request, a task taking the flag down before
  // a run, the start of that run, a panic in it.
  datatype Mark = Asked | Took | Started | Panicked

  datatype State = State(
    running: map<Connection, bool>,
    tasks: map<TaskId, Task>,
    history: map<Connection, seq<Mark>>)

  const INIT := State(map[], map[], map[])

  datatype Step =
    | Request(connection: Connection, spawned: TaskId)
    | Start(id: TaskId)
    | EndRun(id: TaskId)
    | Panic(id: TaskId)
    | Drop(id: TaskId)

  predicate At(s: State, id: TaskId, phase: Phase) {
    id in s.tasks && s.tasks[id].phase == phase
  }

  predicate Enabled(s: State, step: Step) {
    match step
    case Request(_, spawned) => spawned !in s.tasks
    case Start(id) => At(s, id, Ready)
    case EndRun(id) => At(s, id, InRun)
    case Panic(id) => At(s, id, InRun)
    case Drop(id) => At(s, id, Leaving)
  }

  function On(s: State, step: Step): Connection
    requires Enabled(s, step)
  {
    match step
    case Request(k, _) => k
    case Start(id) => s.tasks[id].connection
    case EndRun(id) => s.tasks[id].connection
    case Panic(id) => s.tasks[id].connection
    case Drop(id) => s.tasks[id].connection
  }

  function Of(history: map<Connection, seq<Mark>>, k: Connection): seq<Mark> {
    if k in history then history[k] else []
  }

  function Noted(s: State, k: Connection, marks: seq<Mark>): map<Connection, seq<Mark>> {
    s.history[k := Of(s.history, k) + marks]
  }

  function Do(s: State, step: Step): State
    requires Enabled(s, step)
  {
    var k := On(s, step);
    match step
    case Request(_, spawned) =>
      State(Requested(s.running, k),
            if k in s.running then s.tasks else s.tasks[spawned := Task(k, Ready)],
            Noted(s, k, if k in s.running then [Asked] else [Asked, Took]))
    case Start(id) => s.(tasks := s.tasks[id := Task(k, InRun)], history := Noted(s, k, [Started]))
    case EndRun(id) =>
      var again := RunsAgain(s.running, k);
      State(RunEnded(s.running, k), s.tasks[id := Task(k, if again then Ready else Leaving)],
            if again then Noted(s, k, [Took]) else s.history)
    // the guard is dropped as the panic unwinds
    case Panic(id) => State(s.running - {k}, s.tasks - {id}, Noted(s, k, [Panicked]))
    case Drop(id) => s.(running := s.running - {k}, tasks := s.tasks - {id})
  }

  // ---- slots and tasks agree ----------------------------------------------------------

  predicate Active(s: State, id: TaskId, k: Connection) {
    id in s.tasks && s.tasks[id].connection == k && !s.tasks[id].phase.Leaving?
  }

  ghost predicate HasTask(s: State, k: Connection) {
    exists id :: Active(s, id, k)
  }

  // A connection has a slot exactly while it has a task, and one task at most.
  ghost predicate Consistent(s: State) {
    && (forall k :: k in s.running <==> HasTask(s, k))
    && (forall k, c, d :: Active(s, c, k) && Active(s, d, k) ==> c == d)
  }

  lemma SameTask(s: State, s': State, id: TaskId, k: Connection)
    requires Consistent(s) && Active(s, id, k) && s'.tasks.Keys == s.tasks.Keys
    requires s'.tasks == s.tasks[id := s'.tasks[id]] && s'.tasks[id].connection == k
    requires s'.running == s.running - {k} || s'.running.Keys == s.running.Keys
    requires k in s'.running <==> Active(s', id, k)
    ensures Consistent(s')
  {
    forall k' ensures k' in s'.running <==> HasTask(s', k') {
      if k' != k {
        assert forall c :: Active(s', c, k') <==> Active(s, c, k');
      } else if HasTask(s', k) {
        var c :| Active(s', c, k);
        assert Active(s, c, k);
      }
    }
    forall k', c, d | Active(s', c, k') && Active(s', d, k') ensures c == d {
      assert Active(s, c, k') && Active(s, d, k');
    }
  }

  // A task that is gone, with its slot.
  lemma TaskGone(s: State, s': State, id: TaskId)
    requires Consistent(s) && id in s.tasks && s'.tasks == s.tasks - {id}
    requires var k := s.tasks[id].connection;
             s'.running == s.running - {k} && (Active(s, id, k) || k !in s.running)
    ensures Consistent(s')
  {
    var k := s.tasks[id].connection;
    assert forall c, k' :: Active(s', c, k') ==> Active(s, c, k') && c != id;
    assert forall c, k' :: Active(s, c, k') && c != id ==> Active(s', c, k');
    assert !HasTask(s', k);
    forall k' | k' != k ensures k' in s'.running <==> HasTask(s', k') {
      if HasTask(s, k') {
        var c :| Active(s, c, k');
        assert Active(s', c, k');
      }
    }
  }

  lemma RequestKeepsConsistent(s: State, k: Connection, spawned: TaskId)
    requires Consistent(s) && Enabled(s, Request(k, spawned))
    ensures Consistent(Do(s, Request(k, spawned)))
  {
    var s' := Do(s, Request(k, spawned));
    assert forall c, k' :: Active(s, c, k') ==> Active(s', c, k');
    assert forall c, k' :: Active(s', c, k') ==> Active(s, c, k') || (c == spawned && k' == k && k !in s.running);
    assert k !in s.running ==> Active(s', spawned, k);
    forall k' ensures k' in s'.running <==> HasTask(s', k') {
      if HasTask(s, k') {
        var c :| Active(s, c, k');
        assert Active(s', c, k');
      }
    }
    forall k', c, d | Active(s', c, k') && Active(s', d, k') ensures c == d {
      if c == spawned && k !in s.running {
        assert !HasTask(s, k);
        assert !Active(s, d, k);
      }
    }
  }

  // The slot was taken again between the end of the task and the drop of its guard.
  predicate SlotRetaken(s: State, step: Step)
    requires Enabled(s, step)
  {
    step.Drop? && s.tasks[step.id].connection in s.running
  }

  /** Every step keeps slots and tasks in agreement -- at most one reconcile per
      connection -- except one: the drop of a guard whose connection has a new
      slot, which always breaks it. */
  lemma ConsistentIff(s: State, step: Step)
    requires Consistent(s) && Enabled(s, step)
    ensures Consistent(Do(s, step)) <==> !SlotRetaken(s, step)
  {
    var s', k := Do(s, step), On(s, step);
    match step
    case Request(_, spawned) => RequestKeepsConsistent(s, k, spawned);
    case Start(id) => assert Active(s, id, k); SameTask(s, s', id, k);
    case EndRun(id) => assert Active(s, id, k); SameTask(s, s', id, k);
    case Panic(id) => assert Active(s, id, k); TaskGone(s, s', id);
    case Drop(id) =>
      if k in s.running {
        var c :| Active(s, c, k);
        assert Active(s', c, k);
        assert HasTask(s', k) && k !in s'.running;
      } else {
        TaskGone(s, s', id);
      }
  }

  /** A step on one connection leaves slot, tasks and history of every other as
      they were, and what its tasks may do next. */
  lemma ConnectionsAreApart(s: State, step: Step, k: Connection, id: TaskId)
    requires Enabled(s, step) && k != On(s, step)
    ensures var s' := Do(s, step);
            && (k in s'.running <==> k in s.running) && (k in s.running ==> s'.running[k] == s.running[k])
            && Of(s'.history, k) == Of(s.history, k)
            && (id in s.tasks && s.tasks[id].connection == k ==> id in s'.tasks && s'.tasks[id] == s.tasks[id])
            && (id in s'.tasks && s'.tasks[id].connection == k ==> id in s.tasks)
  {}

  // ---- requests and runs ---------------------------------------------------------------

  // A request since the last start, or since the panic that ended the task.
  predicate Owed(h: seq<Mark>)
    decreases |h|
  {
    h != [] && match h[|h| - 1]
               case Asked => true
               case Took => Owed(h[..|h| - 1])
               case _ => false
  }

  // A request since the flag was last taken down.
  predicate AskedSince(h: seq<Mark>)
    decreases |h|
  {
    h != [] && match h[|h| - 1]
               case Asked => true
               case Started => AskedSince(h[..|h| - 1])
               case _ => false
  }

  function Count(h: seq<Mark>, m: Mark): nat
    decreases |h|
  {
    if h == [] then 0 else Count(h[..|h| - 1], m) + (if h[|h| - 1] == m then 1 else 0)
  }

  lemma Snoc(h: seq<Mark>, m: Mark)
    ensures Owed(h + [m]) <==> m == Asked || (m == Took && Owed(h))
    ensures AskedSince(h + [m]) <==> m == Asked || (m == Started && AskedSince(h))
    ensures forall x :: Count(h + [m], x) == Count(h, x) + (if m == x then 1 else 0)
  {
    assert (h + [m])[..|h|] == h;
  }

  lemma AskedThenTook(h: seq<Mark>)
    ensures Owed(h + [Asked, Took]) && !AskedSince(h + [Asked, Took])
    ensures Count(h + [Asked, Took], Asked) == Count(h, Asked) + 1
    ensures Count(h + [Asked, Took], Took) == Count(h, Took) + 1
    ensures Count(h + [Asked, Took], Started) == Count(h, Started)
  {
    Snoc(h, Asked);
    Snoc(h + [Asked], Took);
    assert h + [Asked, Took] == h + [Asked] + [Took];
  }

  // What a connection's history says of its slot and its task: an owed request
  // has a run to come; the flag is up exactly for a request since it was taken
  // down; each run was asked for.
  ghost predicate Recorded(h: seq<Mark>, slot: Option<bool>, ready: bool) {
    && (Owed(h) ==> slot.Some? && (slot.value || ready))
    && (slot.Some? ==> (slot.value <==> AskedSince(h)))
    && Count(h, Took) == Count(h, Started) + (if ready then 1 else 0)
    && Count(h, Took) + (if slot == Some(true) then 1 else 0) <= Count(h, Asked)
  }

  function SlotOf(s: State, k: Connection): Option<bool> {
    if k in s.running then Some(s.running[k]) else None
  }

  ghost predicate HasReady(s: State, k: Connection) {
    exists id :: Active(s, id, k) && s.tasks[id].phase.Ready?
  }

  ghost predicate Inv(s: State) {
    Consistent(s) && forall k :: Recorded(Of(s.history, k), SlotOf(s, k), HasReady(s, k))
  }

  lemma ReadyIs(s: State, id: TaskId, k: Connection)
    requires Consistent(s) && Active(s, id, k)
    ensures HasReady(s, k) <==> s.tasks[id].phase.Ready?
    ensures k in s.running
  {
    assert HasTask(s, k);
  }

  lemma NoTaskNoReady(s: State, k: Connection)
    requires Consistent(s) && k !in s.running
    ensures !HasReady(s, k)
  {
    assert !HasTask(s, k);
  }

  lemma OthersReady(s: State, step: Step, k: Connection)
    requires Enabled(s, step) && k != On(s, step)
    ensures HasReady(Do(s, step), k) <==> HasReady(s, k)
    ensures SlotOf(Do(s, step), k) == SlotOf(s, k) && Of(Do(s, step).history, k) == Of(s.history, k)
  {
    forall id ensures Active(Do(s, step), id, k) <==> Active(s, id, k) {
      ConnectionsAreApart(s, step, k, id);
    }
    forall id | Active(s, id, k) ensures Do(s, step).tasks[id] == s.tasks[id] {
      ConnectionsAreApart(s, step, k, id);
    }
  }

  lemma OwnRecord(s: State, step: Step)
    requires Inv(s) && Enabled(s, step) && Consistent(Do(s, step))
    ensures var s', k := Do(s, step), On(s, step);
            Recorded(Of(s'.history, k), SlotOf(s', k), HasReady(s', k))
  {
    hide Count, Owed, AskedSince;
    var s', k := Do(s, step), On(s, step);
    var h := Of(s.history, k);
    assert Recorded(h, SlotOf(s, k), HasReady(s, k));
    match step
    case Request(_, spawned) =>
      if k in s.running {
        Snoc(h, Asked);
        var id :| Active(s, id, k);
        ReadyIs(s, id, k);
        ReadyIs(s', id, k);
      } else {
        AskedThenTook(h);
        NoTaskNoReady(s, k);
        ReadyIs(s', spawned, k);
      }
    case Start(id) =>
      Snoc(h, Started);
      ReadyIs(s, id, k);
      ReadyIs(s', id, k);
    case EndRun(id) =>
      ReadyIs(s, id, k);
      Snoc(h, Took);
      if RunsAgain(s.running, k) {
        ReadyIs(s', id, k);
      } else {
        NoTaskNoReady(s', k);
      }
    case Panic(id) =>
      ReadyIs(s, id, k);
      Snoc(h, Panicked);
      NoTaskNoReady(s', k);
    case Drop(id) =>
      ConsistentIff(s, step);
      NoTaskNoReady(s, k);
      NoTaskNoReady(s', k);
  }

  lemma StepKeepsInv(s: State, step: Step)
    requires Inv(s) && Enabled(s, step) && !SlotRetaken(s, step)
    ensures Inv(Do(s, step))
  {
    hide Consistent, Recorded, Do;
    ConsistentIff(s, step);
    OwnRecord(s, step);
    forall k | k != On(s, step)
      ensures Recorded(Of(Do(s, step).history, k), SlotOf(Do(s, step), k), HasReady(Do(s, step), k)) {
      OthersReady(s, step, k);
    }
  }

  // ---- runs ------------------------------------------------------------------------------

  function After(steps: seq<Step>): Option<State>
    decreases |steps|
  {
    if steps == [] then Some(INIT)
    else
      var before := After(steps[..|steps| - 1]);
      if before.Some? && Enabled(before.value, steps[|steps| - 1])
      then Some(Do(before.value, steps[|steps| - 1])) else None
  }

  // No slot is retaken between the end of a task and the drop of its guard; so
  // in particular where the two happen as one.
  predicate NoneRetaken(steps: seq<Step>)
    requires After(steps).Some?
    decreases |steps|
  {
    steps == [] ||
    (NoneRetaken(steps[..|steps| - 1]) && !SlotRetaken(After(steps[..|steps| - 1]).value, steps[|steps| - 1]))
  }

  // Slots and tasks agree at every point of the run.
  ghost predicate AlwaysConsistent(steps: seq<Step>)
    requires After(steps).Some?
    decreases |steps|
  {
    Consistent(After(steps).value) && (steps == [] || AlwaysConsistent(steps[..|steps| - 1]))
  }

  lemma {:induction false} RunKeepsInv(steps: seq<Step>)
    requires After(steps).Some? && NoneRetaken(steps)
    ensures Inv(After(steps).value)
    decreases |steps|
  {
    if steps != [] {
      RunKeepsInv(steps[..|steps| - 1]);
      StepKeepsInv(After(steps[..|steps| - 1]).value, steps[|steps| - 1]);
    }
  }

  /** In any schedule of requests, task ends, panics and drops: each connection has
      one task at most, and a slot exactly while it has one, at every point -- if and
      only if no guard is dropped after its slot was taken again. */
  lemma {:induction false} SlotsTrackTasksIff(steps: seq<Step>)
    requires After(steps).Some?
    ensures AlwaysConsistent(steps) <==> NoneRetaken(steps)
    decreases |steps|
  {
    if steps != [] {
      hide Consistent, SlotRetaken, Do;
      var init := steps[..|steps| - 1];
      SlotsTrackTasksIff(init);
      if AlwaysConsistent(init) {
        ConsistentIff(After(init).value, steps[|steps| - 1]);
      }
    }
  }

  /** Every request is followed by a run that starts after it: while one is owed a
      task is there that will start one, and when none is left none is owed --
      unless a panic ended it. A run is followed by another exactly when there was
      a request since its flag was taken down, and no run is made without one:
      requests made while one runs fold into one rerun. */
  lemma EveryRequestIsServed(steps: seq<Step>, k: Connection)
    requires After(steps).Some? && NoneRetaken(steps)
    ensures var s := After(steps).value;
            var h := Of(s.history, k);
            && (!HasTask(s, k) ==> !Owed(h))
            && (Owed(h) && !HasReady(s, k) ==> RunsAgain(s.running, k))
            && (HasTask(s, k) ==> (RunsAgain(s.running, k) <==> AskedSince(h)))
            && Count(h, Started) + (if HasReady(s, k) then 1 else 0) + (if RunsAgain(s.running, k) then 1 else 0)
               <= Count(h, Asked)
  {
    RunKeepsInv(steps);
    var s := After(steps).value;
    assert Recorded(Of(s.history, k), SlotOf(s, k), HasReady(s, k));
  }

  // ---- one task at most, slots apart ---------------------------------------------------------

  ghost predicate OneTask(s: State) {
    forall k, c, d :: Active(s, c, k) && Active(s, d, k) ==> c == d
  }

  // A request that finds no slot on a connection with a task still about.
  ghost predicate Doubles(s: State, step: Step)
    requires Enabled(s, step)
  {
    step.Request? && step.connection !in s.running && HasTask(s, step.connection)
  }

  lemma OneTaskStep(s: State, step: Step)
    requires OneTask(s) && Enabled(s, step)
    ensures OneTask(Do(s, step)) <==> !Doubles(s, step)
  {
    var s', k := Do(s, step), On(s, step);
    if Doubles(s, step) {
      var c :| Active(s, c, k);
      assert Active(s', c, k) && Active(s', step.spawned, k);
    } else {
      forall k', c, d | Active(s', c, k') && Active(s', d, k') ensures c == d {
        assert !step.Request? ==> Active(s, c, k') && Active(s, d, k');
        assert step.Request? ==> (Active(s, c, k') || (c == step.spawned && k' == k));
        assert step.Request? ==> (Active(s, d, k') || (d == step.spawned && k' == k));
      }
    }
  }

  ghost predicate AlwaysOneTask(steps: seq<Step>)
    requires After(steps).Some?
    decreases |steps|
  {
    OneTask(After(steps).value) && (steps == [] || AlwaysOneTask(steps[..|steps| - 1]))
  }

  ghost predicate NoneDoubles(steps: seq<Step>)
    requires After(steps).Some?
    decreases |steps|
  {
    steps == [] ||
    (NoneDoubles(steps[..|steps| - 1]) && !Doubles(After(steps[..|steps| - 1]).value, steps[|steps| - 1]))
  }

  /** Over every schedule: each connection has one task at most at every point exactly
      when no request finds its slot gone while a task is there. */
  lemma {:induction false} OneReconcileIff(steps: seq<Step>)
    requires After(steps).Some?
    ensures AlwaysOneTask(steps) <==> NoneDoubles(steps)
    decreases |steps|
  {
    if steps != [] {
      hide OneTask, Doubles, Do;
      var init := steps[..|steps| - 1];
      OneReconcileIff(init);
      if AlwaysOneTask(init) {
        OneTaskStep(After(init).value, steps[|steps| - 1]);
      }
    } else {
      assert forall k, c :: !Active(INIT, c, k);
    }
  }

  // ---- requests, in every schedule --------------------------------------------------------

  // A slot is never there without a task.
  ghost predicate SlotsHaveTasks(s: State) {
    forall k | k in s.running :: HasTask(s, k)
  }

  lemma StepKeepsSlotsHaveTasks(s: State, step: Step)
    requires SlotsHaveTasks(s) && Enabled(s, step)
    ensures SlotsHaveTasks(Do(s, step))
  {
    var s', k := Do(s, step), On(s, step);
    forall k' | k' in s'.running ensures HasTask(s', k') {
      if k' in s.running {
        var c :| Active(s, c, k');
        if k' != k { ConnectionsAreApart(s, step, k', c); }
        assert step.EndRun? && k' == k ==> Active(s', step.id, k');
        assert !(step.EndRun? && k' == k) ==> Active(s', c, k');
      } else {
        assert Active(s', step.spawned, k');
      }
    }
  }

  // A request that is owed has a run to come: a task about to start one, or one that
  // will find the flag up when its run ends.
  ghost predicate Served(s: State, k: Connection) {
    Owed(Of(s.history, k)) ==> HasReady(s, k) || (RunsAgain(s.running, k) && HasTask(s, k))
  }

  ghost predicate AllServed(s: State) {
    forall k :: Served(s, k)
  }

  // A drop that takes away a slot whose flag was raised since the last run started,
  // while no run is about to.
  ghost predicate LosesRequest(s: State, step: Step)
    requires Enabled(s, step)
  {
    step.Drop? && var k := s.tasks[step.id].connection;
    RunsAgain(s.running, k) && Owed(Of(s.history, k)) && !HasReady(s, k)
  }

  // What a step does to its own connection's requests.
  lemma OwnServed(s: State, step: Step)
    requires Enabled(s, step) && SlotsHaveTasks(s) && Served(s, On(s, step))
    ensures Served(Do(s, step), On(s, step)) <==> !LosesRequest(s, step)
  {
    hide Owed;
    var s', k := Do(s, step), On(s, step);
    var h := Of(s.history, k);
    match step
    case Request(_, spawned) =>
      if k in s.running {
        var c :| Active(s, c, k);
        assert Active(s', c, k);
      } else {
        assert Active(s', spawned, k) && s'.tasks[spawned].phase.Ready?;
      }
    case Start(_) => Snoc(h, Started);
    case EndRun(id) =>
      Snoc(h, Took);
      if RunsAgain(s.running, k) {
        assert Active(s', id, k) && s'.tasks[id].phase.Ready?;
      } else if HasReady(s, k) {
        var c :| Active(s, c, k) && s.tasks[c].phase.Ready?;
        assert Active(s', c, k) && s'.tasks[c].phase.Ready?;
      }
    case Panic(_) => Snoc(h, Panicked);
    case Drop(_) =>
      assert forall c :: Active(s', c, k) <==> Active(s, c, k);
      assert HasReady(s', k) <==> HasReady(s, k) by {
        assert forall c | Active(s, c, k) :: s'.tasks[c] == s.tasks[c];
      }
  }

  lemma OthersServed(s: State, step: Step, k: Connection)
    requires Enabled(s, step) && k != On(s, step)
    ensures Served(Do(s, step), k) <==> Served(s, k)
  {
    hide Owed;
    OthersReady(s, step, k);
    forall id ensures Active(Do(s, step), id, k) <==> Active(s, id, k) {
      ConnectionsAreApart(s, step, k, id);
    }
  }

  lemma AllServedStep(s: State, step: Step)
    requires SlotsHaveTasks(s) && AllServed(s) && Enabled(s, step)
    ensures AllServed(Do(s, step)) <==> !LosesRequest(s, step)
  {
    hide Served, LosesRequest, Do, SlotsHaveTasks;
    OwnServed(s, step);
    forall k | k != On(s, step) ensures Served(Do(s, step), k) { OthersServed(s, step, k); }
  }

  ghost predicate AlwaysServed(steps: seq<Step>)
    requires After(steps).Some?
    decreases |steps|
  {
    AllServed(After(steps).value) && (steps == [] || AlwaysServed(steps[..|steps| - 1]))
  }

  ghost predicate NoneLost(steps: seq<Step>)
    requires After(steps).Some?
    decreases |steps|
  {
    steps == [] ||
    (NoneLost(steps[..|steps| - 1]) && !LosesRequest(After(steps[..|steps| - 1]).value, steps[|steps| - 1]))
  }

  lemma {:induction false} RunKeepsSlotsHaveTasks(steps: seq<Step>)
    requires After(steps).Some?
    ensures SlotsHaveTasks(After(steps).value)
    decreases |steps|
  {
    hide SlotsHaveTasks, Do;
    if steps == [] {
      NothingAtFirst();
    } else {
      RunKeepsSlotsHaveTasks(steps[..|steps| - 1]);
      StepKeepsSlotsHaveTasks(After(steps[..|steps| - 1]).value, steps[|steps| - 1]);
    }
  }

  lemma NothingAtFirst()
    ensures SlotsHaveTasks(INIT) && AllServed(INIT)
  {}

  /** Over every schedule: each request has a run to come until one starts after it, or
      a panic ends it, if and only if no drop takes a slot with its flag raised since
      the last run started. */
  lemma {:induction false} EveryRequestIsServedIff(steps: seq<Step>)
    requires After(steps).Some?
    ensures AlwaysServed(steps) <==> NoneLost(steps)
    decreases |steps|
  {
    hide SlotsHaveTasks, AllServed, LosesRequest, Do;
    NothingAtFirst();
    if steps != [] {
      var init := steps[..|steps| - 1];
      EveryRequestIsServedIff(init);
      RunKeepsSlotsHaveTasks(init);
      if AlwaysServed(init) {
        AllServedStep(After(init).value, steps[|steps| - 1]);
      }
    }
  }

  // The tasks about to start a run.
  function ReadyIds(tasks: map<TaskId, Task>, k: Connection): set<TaskId> {
    set id | id in tasks && tasks[id] == Task(k, Ready)
  }

  // Each flag taken down is a run made or about to be; each was put up by a request.
  ghost predicate Counted(s: State, k: Connection) {
    var h := Of(s.history, k);
    && Count(h, Took) == Count(h, Started) + |ReadyIds(s.tasks, k)|
    && Count(h, Took) + (if RunsAgain(s.running, k) then 1 else 0) <= Count(h, Asked)
  }

  lemma OneMoreReady(tasks: map<TaskId, Task>, k: Connection, id: TaskId)
    requires !(id in tasks && tasks[id] == Task(k, Ready))
    ensures |ReadyIds(tasks[id := Task(k, Ready)], k)| == |ReadyIds(tasks, k)| + 1
  {
    assert ReadyIds(tasks[id := Task(k, Ready)], k) == ReadyIds(tasks, k) + {id};
  }

  lemma OneLessReady(tasks: map<TaskId, Task>, k: Connection, id: TaskId, t: Task)
    requires id in tasks && tasks[id] == Task(k, Ready) && !t.phase.Ready?
    ensures |ReadyIds(tasks[id := t], k)| == |ReadyIds(tasks, k)| - 1
  {
    assert ReadyIds(tasks[id := t], k) == ReadyIds(tasks, k) - {id};
  }

  lemma AsManyReady(tasks: map<TaskId, Task>, k: Connection, id: TaskId)
    requires id in tasks && !tasks[id].phase.Ready?
    ensures ReadyIds(tasks - {id}, k) == ReadyIds(tasks, k) == ReadyIds(tasks[id := Task(k, Leaving)], k)
  {}

  lemma OwnCounted(s: State, step: Step)
    requires Enabled(s, step) && Counted(s, On(s, step))
    ensures Counted(Do(s, step), On(s, step))
  {
    hide Count, ReadyIds;
    var s', k := Do(s, step), On(s, step);
    var h := Of(s.history, k);
    match step
    case Request(_, spawned) =>
      if k in s.running {
        Snoc(h, Asked);
      } else {
        AskedThenTook(h);
        OneMoreReady(s.tasks, k, spawned);
      }
    case Start(id) =>
      Snoc(h, Started);
      OneLessReady(s.tasks, k, id, Task(k, InRun));
    case EndRun(id) =>
      Snoc(h, Took);
      if RunsAgain(s.running, k) { OneMoreReady(s.tasks, k, id); } else { AsManyReady(s.tasks, k, id); }
    case Panic(id) =>
      Snoc(h, Panicked);
      AsManyReady(s.tasks, k, id);
    case Drop(id) => AsManyReady(s.tasks, k, id);
  }

  lemma OthersCounted(s: State, step: Step, k: Connection)
    requires Enabled(s, step) && k != On(s, step) && Counted(s, k)
    ensures Counted(Do(s, step), k)
  {
    hide Count;
    ConnectionsAreApart(s, step, k, 0);
    forall id ensures id in ReadyIds(Do(s, step).tasks, k) <==> id in ReadyIds(s.tasks, k) {
      ConnectionsAreApart(s, step, k, id);
    }
    assert ReadyIds(Do(s, step).tasks, k) == ReadyIds(s.tasks, k);
  }

  /** In every schedule, slots lost or not, no run is made without a request: runs made,
      about to be made and flagged are no more than the requests there were. */
  lemma {:induction false} RunsAreAskedFor(steps: seq<Step>, k: Connection)
    requires After(steps).Some?
    ensures var s := After(steps).value;
            var h := Of(s.history, k);
            && Counted(s, k)
            && Count(h, Started) + |ReadyIds(s.tasks, k)| + (if RunsAgain(s.running, k) then 1 else 0)
               <= Count(h, Asked)
    decreases |steps|
  {
    if steps == [] {
      assert ReadyIds(INIT.tasks, k) == {};
    } else {
      hide Do;
      var s, step := After(steps[..|steps| - 1]).value, steps[|steps| - 1];
      RunsAreAskedFor(steps[..|steps| - 1], k);
      if k == On(s, step) { OwnCounted(s, step); } else { OthersCounted(s, step, k); }
    }
  }

  // ---- the window --------------------------------------------------------------------------

  lemma Then(steps: seq<Step>, s: State, step: Step)
    requires After(steps) == Some(s) && Enabled(s, step)
    ensures After(steps + [step]) == Some(Do(s, step))
  {
    assert (steps + [step])[..|steps|] == steps;
  }

  // A run of a task, from its start to its end.
  lemma RunsOnce(steps: seq<Step>, s: State, id: TaskId, k: Connection) returns (steps': seq<Step>, s': State)
    requires After(steps) == Some(s) && id in s.tasks && s.tasks[id] == Task(k, Ready)
    ensures After(steps') == Some(s')
    ensures var again, h := RunsAgain(s.running, k), Of(s.history, k);
            && s'.running == RunEnded(s.running, k)
            && s'.tasks == s.tasks[id := Task(k, if again then Ready else Leaving)]
            && Of(s'.history, k) == h + [Started] + (if again then [Took] else [])
            && forall j | j != k :: Of(s'.history, j) == Of(s.history, j)
  {
    hide After;
    Then(steps, s, Start(id));
    var p, mid := steps + [Start(id)], Do(s, Start(id));
    Then(p, mid, EndRun(id));
    steps', s' := p + [EndRun(id)], Do(mid, EndRun(id));
  }

  /** A task about to run, left to itself, runs; runs once more exactly if its flag is up
      at the end; and goes, its slot with it and every request so far served. */
  lemma LoneTaskEnds(steps: seq<Step>, s: State, id: TaskId, k: Connection) returns (steps': seq<Step>, s': State)
    requires After(steps) == Some(s) && id in s.tasks && s.tasks[id] == Task(k, Ready)
    ensures After(steps') == Some(s') && s'.running == s.running - {k} && s'.tasks == s.tasks - {id}
    ensures var h, h' := Of(s.history, k), Of(s'.history, k);
            !Owed(h') && Count(h', Started) == Count(h, Started) + (if RunsAgain(s.running, k) then 2 else 1)
    ensures forall j | j != k :: Of(s'.history, j) == Of(s.history, j)
  {
    hide After, Owed, Count, Noted;
    var h := Of(s.history, k);
    var p, mid := RunsOnce(steps, s, id, k);
    Snoc(h, Started);
    if RunsAgain(s.running, k) {
      Snoc(h + [Started], Took);
      Snoc(h + [Started] + [Took], Started);
      p, mid := RunsOnce(p, mid, id, k);
      assert h + [Started] + [Took] + [Started] + [] == h + [Started] + [Took] + [Started];
    } else {
      assert h + [Started] + [] == h + [Started];
    }
    Then(p, mid, Drop(id));
    steps', s' := p + [Drop(id)], Do(mid, Drop(id));
  }

  // A request between the end of a task and the drop of its guard takes the slot.
  lemma SlotTakenAgain(k: Connection) returns (steps: seq<Step>, s: State)
    ensures After(steps) == Some(s)
    ensures s.running == map[k := false] && s.tasks == map[0 := Task(k, Leaving), 1 := Task(k, Ready)]
  {
    var s0 := INIT;
    assert After([]) == Some(s0);
    hide After, Noted;
    Then([], s0, Request(k, 0));
    var p1, s1 := [] + [Request(k, 0)], Do(s0, Request(k, 0));
    Then(p1, s1, Start(0));
    var p2, s2 := p1 + [Start(0)], Do(s1, Start(0));
    Then(p2, s2, EndRun(0));
    var p3, s3 := p2 + [EndRun(0)], Do(s2, EndRun(0));
    Then(p3, s3, Request(k, 1));
    steps, s := p3 + [Request(k, 1)], Do(s3, Request(k, 1));
  }

  /** The condition is needed: a request between the end of a task and the drop of
      its guard, then one more, and two reconciles of one connection are running. */
  lemma WindowBreaksIt(k: Connection)
    ensures exists steps, c, d :: After(steps).Some? && c != d
              && At(After(steps).value, c, InRun) && After(steps).value.tasks[c].connection == k
              && At(After(steps).value, d, InRun) && After(steps).value.tasks[d].connection == k
  {
    var p4, s4 := SlotTakenAgain(k);
    hide After, Noted;
    Then(p4, s4, Drop(0));
    var p5, s5 := p4 + [Drop(0)], Do(s4, Drop(0));
    Then(p5, s5, Request(k, 2));
    var p6, s6 := p5 + [Request(k, 2)], Do(s5, Request(k, 2));
    Then(p6, s6, Start(1));
    var p7, s7 := p6 + [Start(1)], Do(s6, Start(1));
    Then(p7, s7, Start(2));
    var p8, s8 := p7 + [Start(2)], Do(s7, Start(2));
    assert At(s8, 1, InRun) && At(s8, 2, InRun);
  }

  /** And a flag raised on that slot goes with it: one more request while the second
      task's run is on, then the drop, and that request is never served. */
  lemma DropLosesARequest(k: Connection)
    ensures exists steps :: After(steps).Some?
              && Owed(Of(After(steps).value.history, k)) && !HasTask(After(steps).value, k)
  {
    var p4, s4 := SlotTakenAgain(k);
    hide After, Noted, Owed;
    Then(p4, s4, Start(1));
    var p5, s5 := p4 + [Start(1)], Do(s4, Start(1));
    Then(p5, s5, Request(k, 2));
    var p6, s6 := p5 + [Request(k, 2)], Do(s5, Request(k, 2));
    NotedAsked(s5, k);
    Then(p6, s6, Drop(0));
    var p7, s7 := p6 + [Drop(0)], Do(s6, Drop(0));
    Then(p7, s7, EndRun(1));
    var p8, s8 := p7 + [EndRun(1)], Do(s7, EndRun(1));
    assert s8.history == Noted(s5, k, [Asked]) && !HasTask(s8, k);
  }

  lemma NotedAsked(s: State, k: Connection)
    ensures Owed(Of(Noted(s, k, [Asked]), k))
  {
    Snoc(Of(s.history, k), Asked);
  }
}
