/**
The loop that keeps the gateway's subscriptions in step with the held set, run
against commits, publishes and a bounded lane (src/market_data.rs:52-122,
src/execution.rs:242-254).

A commit may change what is held in any way, and is published some time later,
or never: a change nobody announces, to an instrument's status for one, is a
commit that is never published.
*/
module HeldSet {
  import opened Wrappers
  import MarketData

  type CommitId = nat

  // event_bus.rs:25
  const LANE_CAPACITY: nat := 1024

  datatype LaneEvent = Appended | PositionChanged

  // What the loop's receiver has yet to read: a full lane drops its oldest event
  // and says so on the next receive.
  datatype Lane = Lane(unread: seq<LaneEvent>, lagged: bool)

  function Sent(l: Lane, e: LaneEvent): Lane {
    if |l.unread| < LANE_CAPACITY then l.(unread := l.unread + [e])
    else Lane(l.unread[1..] + [e], true)
  }

  function Received(l: Lane): Lane {
    if l.lagged then l.(lagged := false)
    else if l.unread == [] then l
    else l.(unread := l.unread[1..])
  }

  // Where the loop is: about to read, holding what it read, having subscribed but
  // not yet unsubscribed, waiting for an event, emptying the lane.
  datatype Phase = Reading | Got(held: set<int>) | Subscribed(held: set<int>) | Waiting | Draining

  // `held` is what a read would return; `wants` the gateway's interests by owner.
  datatype State = State(
    held: set<int>,
    unpublished: set<CommitId>,
    lane: Lane,
    phase: Phase,
    lastReadOk: bool,
    sent: set<int>,
    wants: map<string, set<int>>)

  const INIT := State({}, {}, Lane([], false), Reading, false, {}, map[])

  function Of(wants: map<string, set<int>>, owner: string): set<int> {
    if owner in wants then wants[owner] else {}
  }

  datatype Step =
    | Commit(id: CommitId, held: set<int>)
    | Publish(id: CommitId)
    | PublishAppended
    | OtherOwner(owner: string, ids: set<int>)
    | Read(ok: bool)
    | Subscribe
    | Unsubscribe
    | Receive
    | Timeout
    | DrainOne

  predicate Enabled(s: State, step: Step) {
    match step
    case Commit(id, _) => id !in s.unpublished
    case Publish(id) => id in s.unpublished
    case PublishAppended => true
    case OtherOwner(owner, _) => owner != MarketData.HELD
    case Read(_) => s.phase.Reading?
    case Subscribe => s.phase.Got?
    case Unsubscribe => s.phase.Subscribed?
    case Receive => s.phase.Waiting? && (s.lane.lagged || s.lane.unread != [])
    case Timeout => s.phase.Waiting?
    case DrainOne => s.phase.Draining?
  }

  // market_data.rs:93-100: a position change or a lag warrants a re-read.
  function NeedsRecheck(l: Lane): bool
    requires l.lagged || l.unread != []
  {
    l.lagged || l.unread[0].PositionChanged?
  }

  function Do(s: State, step: Step): State
    requires Enabled(s, step)
  {
    match step
    case Commit(id, held) => s.(held := held, unpublished := s.unpublished + {id})
    case Publish(id) => s.(unpublished := s.unpublished - {id}, lane := Sent(s.lane, PositionChanged))
    case PublishAppended => s.(lane := Sent(s.lane, Appended))
    case OtherOwner(owner, ids) => s.(wants := s.wants[owner := ids])
    case Read(ok) => s.(lastReadOk := ok, phase := if ok then Got(s.held) else Waiting)
    case Subscribe =>
      var more := s.phase.held - s.sent;
      s.(phase := Subscribed(s.phase.held), sent := s.sent + more,
         wants := s.wants[MarketData.HELD := Of(s.wants, MarketData.HELD) + more])
    case Unsubscribe =>
      var gone := s.sent - s.phase.held;
      s.(phase := Waiting, sent := s.sent - gone,
         wants := s.wants[MarketData.HELD := Of(s.wants, MarketData.HELD) - gone])
    case Receive => s.(lane := Received(s.lane), phase := if NeedsRecheck(s.lane) then Draining else Waiting)
    case Timeout => s.(phase := Reading)
    case DrainOne =>
      if s.lane.lagged || s.lane.unread != [] then s.(lane := Received(s.lane)) else s.(phase := Reading)
  }

  // Something will make the loop look again: a commit yet to be published, or a
  // position change or a lag yet to be read.
  predicate NewsToCome(s: State) {
    s.unpublished != {} || PositionChanged in s.lane.unread || s.lane.lagged
  }

  ghost predicate Inv(s: State) {
    && Of(s.wants, MarketData.HELD) == s.sent
    && match s.phase
       case Got(held) => held != s.held ==> NewsToCome(s)
       case Subscribed(held) => held <= s.sent && (held != s.held ==> NewsToCome(s))
       case Waiting => s.lastReadOk && s.sent != s.held ==> NewsToCome(s)
       case _ => true
  }

  lemma SentStays(l: Lane, e: LaneEvent)
    ensures e.PositionChanged? || PositionChanged in l.unread || l.lagged
            ==> PositionChanged in Sent(l, e).unread || Sent(l, e).lagged
  {
    assert Sent(l, e).unread[|Sent(l, e).unread| - 1] == e;
  }

  lemma StepKeepsInv(s: State, step: Step)
    requires Inv(s) && Enabled(s, step)
    ensures Inv(Do(s, step))
  {
    match step
    case Commit(id, _) => assert id in Do(s, step).unpublished;
    case Publish(_) => SentStays(s.lane, PositionChanged);
    case PublishAppended => SentStays(s.lane, Appended);
    case Unsubscribe => assert s.sent - (s.sent - s.phase.held) == s.phase.held;
    case Receive =>
      if !NeedsRecheck(s.lane) {
        assert s.lane.unread == [s.lane.unread[0]] + s.lane.unread[1..];
      }
    case _ =>
  }

  function After(steps: seq<Step>): Option<State>
    decreases |steps|
  {
    if steps == [] then Some(INIT)
    else
      var before := After(steps[..|steps| - 1]);
      if before.Some? && Enabled(before.value, steps[|steps| - 1])
      then Some(Do(before.value, steps[|steps| - 1])) else None
  }

  lemma {:induction false} RunKeepsInv(steps: seq<Step>)
    requires After(steps).Some?
    ensures Inv(After(steps).value)
    decreases |steps|
  {
    if steps != [] {
      RunKeepsInv(steps[..|steps| - 1]);
      StepKeepsInv(After(steps[..|steps| - 1]).value, steps[|steps| - 1]);
    }
  }

  /** In every run: the gateway's set for the held owner is what was sent; and while
      the loop waits after a read that succeeded, it is what is held, unless a
      commit is unpublished or a position change or a lag unread. */
  lemma WaitingMeansInStep(steps: seq<Step>)
    requires After(steps).Some?
    ensures var s := After(steps).value;
            && Of(s.wants, MarketData.HELD) == s.sent
            && (s.phase.Waiting? && s.lastReadOk && !NewsToCome(s) ==> Of(s.wants, MarketData.HELD) == s.held)
  {
    RunKeepsInv(steps);
  }

  // ---- the loop by itself --------------------------------------------------------------

  lemma Then(steps: seq<Step>, s: State, step: Step)
    requires After(steps) == Some(s) && Enabled(s, step)
    ensures After(steps + [step]) == Some(Do(s, step))
  {
    assert (steps + [step])[..|steps|] == steps;
  }

  // The lane holds the last of what was sent on it, and has lagged if there was more.
  function SentAll(l: Lane, es: seq<LaneEvent>): Lane
    decreases |es|
  {
    if es == [] then l else Sent(SentAll(l, es[..|es| - 1]), es[|es| - 1])
  }

  lemma {:induction false} LaneKeepsTheLast(es: seq<LaneEvent>)
    ensures var l := SentAll(Lane([], false), es);
            && l.unread == (if |es| <= 1024 then es else es[|es| - 1024..])
            && (l.lagged <==> |es| > 1024)
    decreases |es|
  {
    if es != [] {
      var init := es[..|es| - 1];
      LaneKeepsTheLast(init);
      assert es == init + [es[|es| - 1]];
    }
  }

  // Reading the lane out, from the first change or lag it warrants a re-read for.
  lemma DrainsTheLane(steps: seq<Step>, s: State) returns (steps': seq<Step>, s': State)
    requires After(steps) == Some(s) && s.phase.Draining?
    ensures After(steps') == Some(s') && s' == s.(phase := Reading, lane := Lane([], false))
    decreases s.lane.lagged, |s.lane.unread|
  {
    Then(steps, s, DrainOne);
    var p, mid := steps + [DrainOne], Do(s, DrainOne);
    if mid.phase.Draining? {
      steps', s' := DrainsTheLane(p, mid);
    } else {
      steps', s' := p, mid;
    }
  }

  /** A position change or a lag on the lane wakes the waiting loop, whatever comes before
      it, and one re-read answers all there is on the lane. */
  lemma NewsWakesTheLoop(steps: seq<Step>, s: State) returns (steps': seq<Step>, s': State)
    requires After(steps) == Some(s) && s.phase.Waiting?
    requires s.lane.lagged || PositionChanged in s.lane.unread
    ensures After(steps') == Some(s') && s' == s.(phase := Reading, lane := Lane([], false))
    decreases |s.lane.unread|
  {
    Then(steps, s, Receive);
    var p, mid := steps + [Receive], Do(s, Receive);
    if mid.phase.Draining? {
      steps', s' := DrainsTheLane(p, mid);
    } else {
      assert s.lane.unread == [s.lane.unread[0]] + s.lane.unread[1..];
      steps', s' := NewsWakesTheLoop(p, mid);
    }
  }

  /** A commit that is published wakes the waiting loop, for a read of what it left held. */
  lemma CommitsAreHeard(steps: seq<Step>, s: State, id: CommitId, held: set<int>)
    returns (steps': seq<Step>, s': State)
    requires After(steps) == Some(s) && s.phase.Waiting? && id !in s.unpublished
    ensures After(steps') == Some(s') && s' == s.(phase := Reading, lane := Lane([], false), held := held)
  {
    Then(steps, s, Commit(id, held));
    var p1, s1 := steps + [Commit(id, held)], Do(s, Commit(id, held));
    Then(p1, s1, Publish(id));
    var p2, s2 := p1 + [Publish(id)], Do(s1, Publish(id));
    SentStays(s1.lane, PositionChanged);
    steps', s' := NewsWakesTheLoop(p2, s2);
    assert s1.unpublished - {id} == s.unpublished;
  }

  /** Any other order event is read and leaves the loop waiting, everything as it was. */
  lemma OtherEventsPassBy(steps: seq<Step>, s: State) returns (steps': seq<Step>)
    requires After(steps) == Some(s) && s.phase.Waiting? && s.lane == Lane([], false)
    ensures After(steps') == Some(s) && steps' == steps + [PublishAppended] + [Receive]
  {
    Then(steps, s, PublishAppended);
    var p, mid := steps + [PublishAppended], Do(s, PublishAppended);
    assert mid.lane.unread == [Appended] && mid.lane.unread[1..] == [];
    Then(p, mid, Receive);
    steps' := p + [Receive];
  }

  // One re-read, from the read on.
  lemma Rereads(steps: seq<Step>, s: State) returns (steps': seq<Step>, s': State)
    requires After(steps) == Some(s) && s.phase.Reading?
    ensures After(steps') == Some(s')
    ensures s' == s.(phase := Waiting, lastReadOk := true, sent := s.held, wants := s.wants[MarketData.HELD := s.held])
  {
    RunKeepsInv(steps);
    Then(steps, s, Read(true));
    var p1, s1 := steps + [Read(true)], Do(s, Read(true));
    Then(p1, s1, Subscribe);
    var p2, s2 := p1 + [Subscribe], Do(s1, Subscribe);
    Then(p2, s2, Unsubscribe);
    steps', s' := p2 + [Unsubscribe], Do(s2, Unsubscribe);
    assert s'.sent == s.held;
  }

  // And to the next read from wherever the loop is: what it may have on the way is to
  // subscribe and unsubscribe what it read last.
  lemma ReachesARead(steps: seq<Step>, s: State) returns (steps': seq<Step>, s': State)
    requires After(steps) == Some(s)
    ensures After(steps') == Some(s') && s'.phase.Reading?
    ensures s'.held == s.held && s'.unpublished == s.unpublished && OthersSame(s.wants, s'.wants)
  {
    steps', s' := steps, s;
    if s'.phase.Got? {
      Then(steps', s', Subscribe);
      steps', s' := steps' + [Subscribe], Do(s', Subscribe);
    }
    if s'.phase.Subscribed? {
      Then(steps', s', Unsubscribe);
      steps', s' := steps' + [Unsubscribe], Do(s', Unsubscribe);
    }
    if s'.phase.Waiting? {
      Then(steps', s', Timeout);
      steps', s' := steps' + [Timeout], Do(s', Timeout);
    } else if s'.phase.Draining? {
      steps', s' := DrainsTheLane(steps', s');
    }
  }

  ghost predicate OthersSame(wants: map<string, set<int>>, wants': map<string, set<int>>) {
    forall o | o != MarketData.HELD :: Of(wants, o) == Of(wants', o)
  }

  /** From any point of any run the loop, left alone with a database that answers, comes
      to wait with the gateway holding exactly the held set for it, and every other
      owner's interests as they were. */
  lemma LoopCatchesUp(steps: seq<Step>, s: State) returns (steps': seq<Step>, s': State)
    requires After(steps) == Some(s)
    ensures After(steps') == Some(s') && s'.phase.Waiting? && s'.held == s.held
    ensures s'.sent == s.held && Of(s'.wants, MarketData.HELD) == s.held && OthersSame(s.wants, s'.wants)
  {
    var p, mid := ReachesARead(steps, s);
    steps', s' := Rereads(p, mid);
  }

  // What another owner last asked for.
  function LastAsked(steps: seq<Step>, owner: string): set<int>
    decreases |steps|
  {
    if steps == [] then {}
    else
      var last := steps[|steps| - 1];
      if last.OtherOwner? && last.owner == owner then last.ids else LastAsked(steps[..|steps| - 1], owner)
  }

  /** In every run every other owner holds what it last asked for. */
  lemma {:induction false} OthersKeepTheirs(steps: seq<Step>, owner: string)
    requires After(steps).Some? && owner != MarketData.HELD
    ensures Of(After(steps).value.wants, owner) == LastAsked(steps, owner)
    decreases |steps|
  {
    if steps != [] {
      OthersKeepTheirs(steps[..|steps| - 1], owner);
    }
  }

  // ---- failed reads ---------------------------------------------------------------------

  // While the loop waits, the sets agree or it will hear of why they do not.
  predicate InStepOrNews(s: State) {
    s.phase.Waiting? ==> s.sent == s.held || NewsToCome(s)
  }

  // A failed read that finds the sets apart, the news of it already drained.
  predicate LosesNews(s: State, step: Step) {
    step == Read(false) && s.sent != s.held && !NewsToCome(s)
  }

  lemma StepKeepsNewsIff(s: State, step: Step)
    requires Inv(s) && Enabled(s, step) && InStepOrNews(s)
    ensures InStepOrNews(Do(s, step)) <==> !LosesNews(s, step)
  {
    match step
    case Commit(id, _) => assert id in Do(s, step).unpublished;
    case Publish(_) => SentStays(s.lane, PositionChanged);
    case PublishAppended => SentStays(s.lane, Appended);
    case Unsubscribe => assert s.sent - (s.sent - s.phase.held) == s.phase.held;
    case Receive =>
      if !NeedsRecheck(s.lane) {
        assert s.lane.unread == [s.lane.unread[0]] + s.lane.unread[1..];
      }
    case _ =>
  }

  predicate AlwaysInStepOrNews(steps: seq<Step>)
    requires After(steps).Some?
    decreases |steps|
  {
    InStepOrNews(After(steps).value) && (steps == [] || AlwaysInStepOrNews(steps[..|steps| - 1]))
  }

  predicate NoneLosesNews(steps: seq<Step>)
    requires After(steps).Some?
    decreases |steps|
  {
    steps == [] ||
    (NoneLosesNews(steps[..|steps| - 1]) && !LosesNews(After(steps[..|steps| - 1]).value, steps[|steps| - 1]))
  }

  /** Over every run: the loop never waits out of step with nothing but the timer to
      come if and only if no read fails that finds the sets apart with the news of it
      already drained. */
  lemma {:induction false} AlwaysInStepIff(steps: seq<Step>)
    requires After(steps).Some?
    ensures AlwaysInStepOrNews(steps) <==> NoneLosesNews(steps)
    decreases |steps|
  {
    hide Inv, InStepOrNews, LosesNews, Do, Enabled;
    if steps == [] {
      StartsInStep();
    } else {
      var before := steps[..|steps| - 1];
      AlwaysInStepIff(before);
      RunKeepsInv(before);
      if AlwaysInStepOrNews(before) {
        StepKeepsNewsIff(After(before).value, steps[|steps| - 1]);
      }
    }
  }

  lemma StartsInStep()
    ensures InStepOrNews(INIT)
  {}

  /** Such a read there can be: with it the loop waits out of step though nothing is
      to come but the timer. */
  lemma FailedReadLosesTheNews()
    ensures exists steps :: After(steps).Some? &&
              var s := After(steps).value;
              s.phase.Waiting? && s.sent != s.held && !NewsToCome(s)
  {
    var a, b, c, d, e := Read(false), Commit(0, {7}), Publish(0), Receive, DrainOne;
    var s1 := Do(INIT, a);
    Then([], INIT, a);
    var s2 := Do(s1, b);
    Then([] + [a], s1, b);
    var s3 := Do(s2, c);
    Then([] + [a] + [b], s2, c);
    var s4 := Do(s3, d);
    Then([] + [a] + [b] + [c], s3, d);
    var s5 := Do(s4, e);
    Then([] + [a] + [b] + [c] + [d], s4, e);
    Then([] + [a] + [b] + [c] + [d] + [e], s5, a);
    assert s4.lane.unread == [];
    assert 7 in s5.held;
  }
}
