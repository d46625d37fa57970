/**
Which source owns an instrument's mark: ranked sources, failover on silence
(src/mark_router.rs, src/marks.rs). Times are seconds as reals; a mark's own
wall-clock stamp and the log lines are left out.
*/
module MarkRouter {
  import opened Wrappers

  // mark_router.rs:37, 41
  const STALE_AFTER_SECS: int := 10
  const UNRANKED: int := 1000

  type Instrument = int

  datatype Quote = Quote(instrument: Instrument, bid: real, ask: real, at: real, source: string)

  // What ownership turns on: who quoted, at which rank, when. The owner's entry is
  // its latest tick.
  datatype Tick = Tick(source: string, rank: int, at: real)

  datatype Mark = Mark(bid: real, ask: real) {
    function Mid(): real { (bid + ask) / 2.0 }
  }

  predicate IsUsable(bid: real, ask: real) {
    ask > 0.0 && bid >= 0.0 && bid <= ask
  }

  // A duration's whole seconds, towards zero.
  function WholeSeconds(d: real): int {
    if d >= 0.0 then d.Floor else -((-d).Floor)
  }

  lemma StaleIsTenSeconds(d: real)
    ensures WholeSeconds(d) >= STALE_AFTER_SECS <==> d >= 10.0
  {}

  /** A quote is usable exactly when its sides are prices that do not cross and the
      point halfway between them, even over a zero bid, is above zero: its mid. */
  lemma UsableMid(bid: real, ask: real)
    ensures IsUsable(bid, ask) <==> 0.0 <= bid <= ask && Mark(bid, ask).Mid() > 0.0
    ensures ask - Mark(bid, ask).Mid() == Mark(bid, ask).Mid() - bid
  {}

  // ---- one instrument -----------------------------------------------------------------

  datatype Verdict = First | Incumbent | Promotion | Failover | Ignored

  function Judge(owner: Option<Tick>, q: Tick): Verdict {
    match owner
    case None => First
    case Some(cur) =>
      if cur.source == q.source then Incumbent
      else if q.rank < cur.rank then Promotion
      else if WholeSeconds(q.at - cur.at) >= STALE_AFTER_SECS then Failover
      else Ignored
  }

  function NextOwner(owner: Option<Tick>, q: Tick): Option<Tick> {
    if Judge(owner, q).Ignored? then owner else Some(q)
  }

  function OwnerAfter(ticks: seq<Tick>): Option<Tick>
    decreases |ticks|
  {
    if ticks == [] then None else NextOwner(OwnerAfter(ticks[..|ticks| - 1]), ticks[|ticks| - 1])
  }

  // How the last tick was judged.
  function LastVerdict(ticks: seq<Tick>): Verdict
    requires ticks != []
  {
    Judge(OwnerAfter(ticks[..|ticks| - 1]), ticks[|ticks| - 1])
  }

  function Failovers(ticks: seq<Tick>): nat
    decreases |ticks|
  {
    if ticks == [] then 0
    else Failovers(ticks[..|ticks| - 1]) + (if LastVerdict(ticks).Failover? then 1 else 0)
  }

  function Switches(ticks: seq<Tick>): nat
    decreases |ticks|
  {
    if ticks == [] then 0
    else Switches(ticks[..|ticks| - 1]) + (if LastVerdict(ticks) in {Promotion, Failover} then 1 else 0)
  }

  predicate InTime(ticks: seq<Tick>) {
    forall i, j | 0 <= i <= j < |ticks| :: ticks[i].at <= ticks[j].at
  }

  // A source keeps its rank: the policy is loaded once and an instrument's class never changes.
  predicate FixedRanks(ticks: seq<Tick>) {
    forall i, j | 0 <= i < |ticks| && 0 <= j < |ticks|
        && ticks[i].source == ticks[j].source :: ticks[i].rank == ticks[j].rank
  }

  lemma {:induction false} OwnerTicked(ticks: seq<Tick>)
    requires ticks != []
    ensures OwnerAfter(ticks).Some? && OwnerAfter(ticks).value in ticks
    decreases |ticks|
  {
    if |ticks| > 1 {
      OwnerTicked(ticks[..|ticks| - 1]);
    }
  }

  // The last tick's part in the counts, and what the owner before it has to do with it.
  lemma LastTick(ticks: seq<Tick>)
    requires ticks != [] && FixedRanks(ticks)
    ensures |ticks| == 1 ==> OwnerAfter(ticks) == Some(ticks[0]) && Failovers(ticks) == Switches(ticks) == 0
    ensures |ticks| > 1 ==>
              var init, q, v := ticks[..|ticks| - 1], ticks[|ticks| - 1], LastVerdict(ticks);
              && init != [] && init[0] == ticks[0] && FixedRanks(init) && (InTime(ticks) ==> InTime(init))
              && Failovers(ticks) == Failovers(init) + (if v.Failover? then 1 else 0)
              && Switches(ticks) == Switches(init) + (if v in {Promotion, Failover} then 1 else 0)
              && (OwnerAfter(init).Some? && OwnerAfter(init).value in init ==>
                    var cur := OwnerAfter(init).value;
                    && OwnerAfter(ticks) == Some(if v.Ignored? then cur else q)
                    && (InTime(ticks) ==> cur.at <= q.at) && !v.First?
                    && (v.Incumbent? <==> q.source == cur.source) && (v.Incumbent? ==> q.rank == cur.rank)
                       && (v.Promotion? <==> q.source != cur.source && q.rank < cur.rank)
                    && (v.Failover? <==> q.source != cur.source && q.rank >= cur.rank && q.at - cur.at >= 10.0))
  {
    if |ticks| == 1 {
      assert ticks[..0] == [];
    } else if OwnerAfter(ticks[..|ticks| - 1]).Some? {
      StaleIsTenSeconds(ticks[|ticks| - 1].at - OwnerAfter(ticks[..|ticks| - 1]).value.at);
    }
  }

  // ---- how often the owner changes ------------------------------------------------------

  function Better(ranks: set<int>, r: int): set<int> {
    set x | x in ranks && x < r
  }

  lemma FewerBetter(ranks: set<int>, r: int, r': int)
    requires r in ranks
    ensures |Better(ranks, r)| < |ranks|
    ensures r < r' ==> |Better(ranks, r)| < |Better(ranks, r')|
  {
    Within(Better(ranks, r) + {r}, ranks);
    if r < r' {
      Within(Better(ranks, r) + {r}, Better(ranks, r'));
    }
  }

  lemma {:induction false} Within<T>(a: set<T>, b: set<T>)
    requires a <= b
    ensures |a| <= |b|
  {
    if a != {} {
      var x :| x in a;
      Within(a - {x}, b - {x});
    }
  }

  // So many switches and better ranks to go after so many failovers.
  function Allowed(failovers: nat, ranks: nat): nat {
    (failovers + 1) * ranks
  }

  lemma NoneYet(ranks: nat)
    ensures Allowed(0, ranks) == ranks
  {}

  lemma OneMoreAllowed(failovers: nat, ranks: nat)
    ensures Allowed(failovers + 1, ranks) == Allowed(failovers, ranks) + ranks
  {}

  lemma BudgetStep(ranks: set<int>, cur: int, q: int, owner: int, v: Verdict, failovers: nat, switches: nat)
    requires cur in ranks && q in ranks && owner == (if v.Ignored? then cur else q)
    requires (v.Incumbent? ==> q == cur) && (v.Promotion? ==> q < cur) && !v.First?
    requires switches + 1 + |Better(ranks, cur)| <= Allowed(failovers, |ranks|)
    ensures switches + (if v in {Promotion, Failover} then 1 else 0) + 1 + |Better(ranks, owner)|
            <= Allowed(failovers + (if v.Failover? then 1 else 0), |ranks|)
  {
    hide Allowed, Better;
    FewerBetter(ranks, q, cur);
    OneMoreAllowed(failovers, |ranks|);
  }

  // Each failover takes ten seconds off the clock and allows at most one promotion
  // per better rank after it.
  lemma {:induction false} SwitchBudget(ticks: seq<Tick>, ranks: set<int>)
    requires ticks != [] && InTime(ticks) && FixedRanks(ticks)
    requires forall t <- ticks :: t.rank in ranks
    ensures var owner := OwnerAfter(ticks);
            && owner.Some? && owner.value in ticks
            && ticks[0].at + 10.0 * Failovers(ticks) as real <= owner.value.at
            && Switches(ticks) + 1 + |Better(ranks, owner.value.rank)| <= Allowed(Failovers(ticks), |ranks|)
    decreases |ticks|
  {
    hide *;
    LastTick(ticks);
    OwnerTicked(ticks);
    if |ticks| > 1 {
      var init, q := ticks[..|ticks| - 1], ticks[|ticks| - 1];
      SwitchBudget(init, ranks);
      var cur, owner := OwnerAfter(init).value, OwnerAfter(ticks).value;
      assert cur in ticks;
      BudgetStep(ranks, cur.rank, q.rank, owner.rank, LastVerdict(ticks), Failovers(init), Switches(init));
    } else {
      NoneYet(|ranks|);
      FewerBetter(ranks, ticks[0].rank, ticks[0].rank);
    }
  }

  lemma SpanOf(ticks: seq<Tick>)
    requires ticks != [] && InTime(ticks)
    ensures forall t <- ticks :: t.at <= ticks[|ticks| - 1].at
  {}

  lemma BudgetSpent(switches: nat, failovers: nat, better: nat, ranks: nat, span: real, windows: nat)
    requires switches + 1 + better <= Allowed(failovers, ranks)
    requires 10.0 * failovers as real <= span < 10.0 * windows as real
    ensures switches < windows * ranks
  {
    assert failovers + 1 <= windows;
    assert (failovers + 1) * ranks <= windows * ranks;
  }

  /** In a stretch that ten-second windows cover, floor(T/10) + 1 of them for T
      seconds, an instrument's owner changes fewer times than there are windows
      times ranks that quoted. */
  lemma SwitchesAreBounded(ticks: seq<Tick>, windows: nat)
    requires ticks != [] && InTime(ticks) && FixedRanks(ticks)
    requires ticks[|ticks| - 1].at - ticks[0].at < 10.0 * windows as real
    ensures Switches(ticks) < windows * |set t | t in ticks :: t.rank|
  {
    var ranks := set t | t in ticks :: t.rank;
    SpanOf(ticks);
    hide *;
    SwitchBudget(ticks, ranks);
    var owner := OwnerAfter(ticks).value;
    BudgetSpent(Switches(ticks), Failovers(ticks), |Better(ranks, owner.rank)|, |ranks|,
        ticks[|ticks| - 1].at - ticks[0].at, windows);
  }

  // ---- who the owner is -------------------------------------------------------------------

  // The tick with which the owner took over.
  function TookOverAt(ticks: seq<Tick>): nat
    requires ticks != []
    decreases |ticks|
  {
    if |ticks| == 1 || LastVerdict(ticks) in {Promotion, Failover} then |ticks| - 1
    else TookOverAt(ticks[..|ticks| - 1])
  }

  function LatestOf(ticks: seq<Tick>, source: string): Option<Tick>
    decreases |ticks|
  {
    if ticks == [] then None
    else if ticks[|ticks| - 1].source == source then Some(ticks[|ticks| - 1])
    else LatestOf(ticks[..|ticks| - 1], source)
  }

  // A tick of another source during a tenure: it ranks no better, and the owner
  // was last heard less than ten seconds before.
  predicate Outranked(ticks: seq<Tick>, owner: Tick, j: nat)
    requires j < |ticks|
  {
    && ticks[j].rank >= owner.rank
    && (ticks[j].source != owner.source ==>
          var heard := LatestOf(ticks[..j], owner.source);
          heard.Some? && ticks[j].at - heard.value.at < 10.0)
  }

  // The owner is a source that took over at `from` and that nothing since has
  // unseated; its clock is its latest tick.
  ghost predicate Owns(ticks: seq<Tick>, owner: Tick, from: nat) {
    && from < |ticks| && ticks[from].source == owner.source
    && LatestOf(ticks, owner.source) == Some(owner)
    && forall j | from <= j < |ticks| :: Outranked(ticks, owner, j)
  }

  lemma StillOutranked(ticks: seq<Tick>, q: Tick, owner: Tick, owner': Tick, j: nat)
    requires j < |ticks| && Outranked(ticks, owner, j)
    requires owner'.source == owner.source && owner'.rank == owner.rank
    ensures Outranked(ticks + [q], owner', j)
  {
    assert (ticks + [q])[..j] == ticks[..j];
  }

  /** At every point of a stream: the owner's clock is its latest tick, and since it
      took over no better-ranked source has ticked, nor has any other source ticked
      after ten seconds of the owner's silence. */
  lemma {:induction false} OwnerIsUnseated(ticks: seq<Tick>)
    requires ticks != [] && FixedRanks(ticks)
    ensures OwnerAfter(ticks).Some? && Owns(ticks, OwnerAfter(ticks).value, TookOverAt(ticks))
    decreases |ticks|
  {
    hide OwnerAfter, Judge, NextOwner, FixedRanks, Outranked;
    var init, q := ticks[..|ticks| - 1], ticks[|ticks| - 1];
    assert ticks == init + [q];
    LastTick(ticks);
    OwnerTicked(ticks);
    if |ticks| > 1 {
      OwnerIsUnseated(init);
      OwnerTicked(init);
      if LastVerdict(ticks) in {Incumbent, Ignored} {
        TenureGoesOn(init, q, OwnerAfter(init).value, TookOverAt(init), LastVerdict(ticks));
      }
    }
    NewTenure(ticks);
  }

  // A tenure that has just begun.
  lemma NewTenure(ticks: seq<Tick>)
    requires ticks != []
    ensures var q := ticks[|ticks| - 1]; Owns(ticks, q, |ticks| - 1)
  {}

  // A tick that leaves the owner's source alone.
  lemma TenureGoesOn(init: seq<Tick>, q: Tick, cur: Tick, from: nat, v: Verdict)
    requires Owns(init, cur, from) && v in {Incumbent, Ignored}
    requires v.Incumbent? ==> q.source == cur.source && q.rank == cur.rank
    requires v.Ignored? ==> q.source != cur.source && q.rank >= cur.rank && q.at - cur.at < 10.0
    ensures Owns(init + [q], if v.Ignored? then cur else q, from)
  {
    var ticks, owner := init + [q], if v.Ignored? then cur else q;
    assert ticks[..|init|] == init;
    forall j | from <= j < |ticks| ensures Outranked(ticks, owner, j) {
      if j < |init| { StillOutranked(init, q, cur, owner, j); }
    }
  }

  /** A failover comes no sooner than ten seconds after the old owner's latest tick,
      and goes to no better rank; a promotion always goes to a better one; anything
      else leaves the owner's source alone. */
  lemma SwitchesAreJustified(ticks: seq<Tick>)
    requires |ticks| > 1 && FixedRanks(ticks)
    ensures var init, q := ticks[..|ticks| - 1], ticks[|ticks| - 1];
            OwnerAfter(init).Some? && OwnerAfter(ticks).Some?
            && var cur := OwnerAfter(init).value;
            && LatestOf(init, cur.source) == Some(cur)
            && (LastVerdict(ticks).Failover? ==> q.at - cur.at >= 10.0 && q.rank >= cur.rank)
            && (LastVerdict(ticks).Promotion? ==> q.rank < cur.rank)
            && (OwnerAfter(ticks).value.source != cur.source <==> LastVerdict(ticks) in {Promotion, Failover})
  {
    var init, q := ticks[..|ticks| - 1], ticks[|ticks| - 1];
    OwnerIsUnseated(init);
    StaleIsTenSeconds(q.at - OwnerAfter(init).value.at);
  }

  // A source that ranks above the owner and ticked in the last ten seconds does not own the mark.
  predicate PassedOver(ticks: seq<Tick>, owner: Tick) {
    exists j :: 0 <= j < |ticks| && ticks[j].rank < owner.rank && ticks[|ticks| - 1].at - ticks[j].at < 10.0
  }

  // At each point the owner is the best of the sources still ticking.
  predicate AlwaysBest(ticks: seq<Tick>)
    decreases |ticks|
  {
    ticks == [] || (AlwaysBest(ticks[..|ticks| - 1]) && OwnerAfter(ticks).Some?
                    && !PassedOver(ticks, OwnerAfter(ticks).value))
  }

  // No failover goes to a source while a better one is still ticking.
  predicate FailoversToTheBest(ticks: seq<Tick>)
    decreases |ticks|
  {
    ticks == [] || (FailoversToTheBest(ticks[..|ticks| - 1])
                    && (LastVerdict(ticks).Failover? ==> !PassedOver(ticks, ticks[|ticks| - 1])))
  }

  // A tick that is no failover passes nobody over that was not passed over before.
  lemma StaysBest(init: seq<Tick>, q: Tick, cur: Tick, owner: Tick)
    requires init != [] && !PassedOver(init, cur) && init[|init| - 1].at <= q.at
    requires owner.rank <= cur.rank && owner.rank <= q.rank
    ensures !PassedOver(init + [q], owner)
  {
    assert forall j | 0 <= j < |init| :: (init + [q])[j] == init[j];
  }

  /** In every stream the owner is throughout the best source that ticked in the last
      ten seconds exactly when no failover passes over a better one. */
  lemma {:induction false} AlwaysBestIff(ticks: seq<Tick>)
    requires FixedRanks(ticks) && InTime(ticks)
    ensures AlwaysBest(ticks) <==> FailoversToTheBest(ticks)
    decreases |ticks|
  {
    if ticks != [] {
      hide OwnerAfter, Judge, NextOwner, PassedOver, FixedRanks;
      var init, q := ticks[..|ticks| - 1], ticks[|ticks| - 1];
      assert ticks == init + [q];
      LastTick(ticks);
      if |ticks| == 1 {
        FirstIsBest(ticks);
      } else {
        OwnerTicked(init);
        AlwaysBestIff(init);
        if AlwaysBest(init) && !LastVerdict(ticks).Failover? {
          StaysBest(init, q, OwnerAfter(init).value, OwnerAfter(ticks).value);
        }
      }
    }
  }

  lemma FirstIsBest(ticks: seq<Tick>)
    requires |ticks| == 1
    ensures !PassedOver(ticks, ticks[0]) && !LastVerdict(ticks).Failover?
  {
    assert ticks[..0] == [];
  }

  // No tick of a source is later than its latest.
  lemma {:induction false} LatestIsLatest(ticks: seq<Tick>, j: nat)
    requires InTime(ticks) && j < |ticks|
    ensures LatestOf(ticks, ticks[j].source).Some? && ticks[j].at <= LatestOf(ticks, ticks[j].source).value.at
    decreases |ticks|
  {
    if ticks[|ticks| - 1].source != ticks[j].source {
      LatestIsLatest(ticks[..|ticks| - 1], j);
    }
  }

  lemma TwoSourcesFailOver(ticks: seq<Tick>, a: string, b: string)
    requires FixedRanks(ticks) && InTime(ticks) && forall t | t in ticks :: t.source == a || t.source == b
    requires ticks != [] && LastVerdict(ticks).Failover?
    ensures !PassedOver(ticks, ticks[|ticks| - 1])
  {
    var init, q := ticks[..|ticks| - 1], ticks[|ticks| - 1];
    if |ticks| == 1 {
      FirstIsBest(ticks);
    } else {
      SwitchesAreJustified(ticks);
      OwnerTicked(init);
      hide OwnerAfter, Judge, NextOwner;
      var cur := OwnerAfter(init).value;
      if j :| 0 <= j < |ticks| && ticks[j].rank < q.rank && q.at - ticks[j].at < 10.0 {
        assert ticks[j] in ticks && cur in ticks && q in ticks;
        assert ticks[j].source == cur.source && init[j] == ticks[j];
        LatestIsLatest(init, j);
        assert false;
      }
    }
  }

  /** With two sources that is always so. */
  lemma {:induction false} TwoSourcesAreBest(ticks: seq<Tick>, a: string, b: string)
    requires FixedRanks(ticks) && InTime(ticks) && forall t | t in ticks :: t.source == a || t.source == b
    ensures FailoversToTheBest(ticks) && AlwaysBest(ticks)
    decreases |ticks|
  {
    AlwaysBestIff(ticks);
    if ticks != [] {
      TwoSourcesAreBest(ticks[..|ticks| - 1], a, b);
      if LastVerdict(ticks).Failover? {
        TwoSourcesFailOver(ticks, a, b);
      }
    }
  }

  /** With three sources the best one still ticking need not own the mark: a worse
      source that ticks first after the owner's silence takes it. */
  lemma MiddleSourceIsPassedOver()
    ensures var ticks := [Tick("A", 1, 0.0), Tick("B", 2, 9.0), Tick("C", 3, 10.0)];
            InTime(ticks) && FixedRanks(ticks) && OwnerAfter(ticks) == Some(ticks[2]) && PassedOver(ticks, ticks[2])
  {
    var ticks := [Tick("A", 1, 0.0), Tick("B", 2, 9.0), Tick("C", 3, 10.0)];
    assert ticks[1].rank < ticks[2].rank;
    assert ticks[..2] == [ticks[0], ticks[1]] && ticks[..2][..1] == [ticks[0]] && ticks[..2][..1][..0] == [];
    StaleIsTenSeconds(9.0);
    StaleIsTenSeconds(10.0);
    assert OwnerAfter(ticks[..2][..1]) == Some(ticks[0]);
    assert OwnerAfter(ticks[..2]) == Some(ticks[0]);
  }

  // ---- all instruments ---------------------------------------------------------------------

  // What ranking a quote takes: the policy by source and class, and each
  // instrument's class.
  datatype Policy = Policy(ranks: map<(string, string), int>, classes: map<Instrument, string>) {
    predicate Routes(q: Quote) {
      IsUsable(q.bid, q.ask) && q.instrument in classes
    }

    function TickOf(q: Quote): Tick
      requires q.instrument in classes
    {
      var k := (q.source, classes[q.instrument]);
      Tick(q.source, if k in ranks then ranks[k] else UNRANKED, q.at)
    }
  }

  /** A source the policy does not rank takes an instrument from a ranked one that is not
      silent only if that one's rank is beyond a thousand; and a ranked one below that
      takes it back at its next tick. */
  lemma UnrankedIsLast(p: Policy, ranked: Quote, other: Quote)
    requires ranked.instrument == other.instrument && other.instrument in p.classes && ranked.source != other.source
    requires (ranked.source, p.classes[ranked.instrument]) in p.ranks
    requires (other.source, p.classes[other.instrument]) !in p.ranks
    ensures var rank := p.ranks[(ranked.source, p.classes[ranked.instrument])];
            && (other.at < ranked.at + 10.0 ==>
                  (Judge(Some(p.TickOf(ranked)), p.TickOf(other)) == Promotion <==> rank > 1000)
                  && (Judge(Some(p.TickOf(ranked)), p.TickOf(other)) == Ignored <==> rank <= 1000))
            && (rank < 1000 ==> Judge(Some(p.TickOf(other)), p.TickOf(ranked)) == Promotion)
  {
    StaleIsTenSeconds(other.at - ranked.at);
  }

  predicate Accepts(p: Policy, active: map<Instrument, Tick>, q: Quote) {
    p.Routes(q) && !Judge(Lookup(active, q.instrument), p.TickOf(q)).Ignored?
  }

  function ActiveAfter(p: Policy, quotes: seq<Quote>): map<Instrument, Tick>
    decreases |quotes|
  {
    if quotes == [] then map[]
    else
      var before, q := ActiveAfter(p, quotes[..|quotes| - 1]), quotes[|quotes| - 1];
      if Accepts(p, before, q) then before[q.instrument := p.TickOf(q)] else before
  }

  function AcceptedOf(p: Policy, quotes: seq<Quote>): seq<Quote>
    decreases |quotes|
  {
    if quotes == [] then []
    else
      var init, q := quotes[..|quotes| - 1], quotes[|quotes| - 1];
      AcceptedOf(p, init) + (if Accepts(p, ActiveAfter(p, init), q) then [q] else [])
  }

  // What one instrument's sources ticked, leaving out all other instruments.
  function TicksOf(p: Policy, quotes: seq<Quote>, i: Instrument): seq<Tick>
    decreases |quotes|
  {
    if quotes == [] then []
    else
      var init, q := quotes[..|quotes| - 1], quotes[|quotes| - 1];
      TicksOf(p, init, i) + (if p.Routes(q) && q.instrument == i then [p.TickOf(q)] else [])
  }

  function Updates(quotes: seq<Quote>): seq<(Instrument, Mark)> {
    seq(|quotes|, i requires 0 <= i < |quotes| => (quotes[i].instrument, Mark(quotes[i].bid, quotes[i].ask)))
  }

  function Latest(quotes: seq<Quote>, i: Instrument): Option<Mark>
    decreases |quotes|
  {
    if quotes == [] then None
    else
      var q := quotes[|quotes| - 1];
      if q.instrument == i then Some(Mark(q.bid, q.ask)) else Latest(quotes[..|quotes| - 1], i)
  }

  class MarkStore {
    var marks: map<Instrument, Mark>

    constructor ()
      ensures marks == map[]
    {
      marks := map[];
    }

    method Set(i: Instrument, bid: real, ask: real)
      modifies this
      ensures marks == old(marks)[i := Mark(bid, ask)]
    {
      marks := marks[i := Mark(bid, ask)];
    }

    function Get(i: Instrument): Option<Mark>
      reads this
    {
      Lookup(marks, i)
    }
  }

  // The router's own state: owners, the classes it has looked up, its count of
  // accepted quotes, and the price lane it publishes on.
  class Router {
    const policy: Policy
    var active: map<Instrument, Tick>
    var classes: map<Instrument, string>
    var count: nat
    var lane: seq<(Instrument, Mark)>

    constructor (policy: Policy)
      ensures this.policy == policy && active == map[] && classes == map[] && count == 0 && lane == []
    {
      this.policy, active, classes, count, lane := policy, map[], map[], 0, [];
    }

    // The cache holds the class of exactly the instruments looked up so far.
    ghost predicate Valid(heard: seq<Quote>)
      reads this
    {
      && (forall i :: i in classes <==> Known(policy, heard, i))
      && (forall i | i in classes :: i in policy.classes && classes[i] == policy.classes[i])
    }

    /** The instrument's class, from the cache or from a lookup, which the database may
        fail to answer; only an answer is cached. */
    method ClassOf(i: Instrument, up: bool) returns (class_: Option<string>)
      requires forall j | j in classes :: j in policy.classes && classes[j] == policy.classes[j]
      modifies this`classes
      ensures class_ == if i in policy.classes && (up || i in old(classes)) then Some(policy.classes[i]) else None
      ensures classes == if class_.Some? then old(classes)[i := class_.value] else old(classes)
    {
      if i in classes {
        return Some(classes[i]);
      }
      if !up || i !in policy.classes {
        return None;
      }
      classes := classes[i := policy.classes[i]];
      class_ := Some(classes[i]);
    }

    method Accept(i: Instrument, q: Tick) returns (ok: bool)
      modifies this`active
      ensures ok <==> !Judge(old(Lookup(active, i)), q).Ignored?
      ensures active == if ok then old(active)[i := q] else old(active)
    {
      if i !in active {
        active := active[i := q];
        return true;
      }
      var cur := active[i];
      if cur.source == q.source || q.rank < cur.rank {
        active := active[i := q];
        return true;
      }
      ok := WholeSeconds(q.at - cur.at) >= STALE_AFTER_SECS;
      if ok {
        active := active[i := q];
      }
    }

    // What has been made of the quotes heard so far.
    ghost predicate Tracks(store: MarkStore, heard: seq<Quote>)
      reads this, store
    {
      && Valid(heard) && active == ActiveAfter(policy, heard)
      && lane == Updates(AcceptedOf(policy, heard)) && count == |AcceptedOf(policy, heard)|
      && forall i :: store.Get(i) == Latest(AcceptedOf(policy, heard), i)
    }

    // Set the mark and mirror it on the price lane.
    method ApplyAccepted(q: Quote, store: MarkStore)
      modifies this`lane, this`count, store
      ensures lane == old(lane) + [(q.instrument, Mark(q.bid, q.ask))] && count == old(count) + 1
      ensures store.marks == old(store.marks)[q.instrument := Mark(q.bid, q.ask)]
    {
      store.Set(q.instrument, q.bid, q.ask);
      lane := lane + [(q.instrument, Mark(q.bid, q.ask))];
      count := count + 1;
    }

    // One quote: nothing comes of it, or it is heard and may set the mark.
    method Route(q: Quote, answered: bool, store: MarkStore, ghost heard: seq<Quote>)
      requires Tracks(store, heard)
      modifies this, store
      ensures Tracks(store, HeardOne(policy, heard, q, answered))
    {
      hide Judge, WholeSeconds, Latest, Updates, ActiveAfter, AcceptedOf, Known, IsUsable;
      OneMore(policy, heard, q);
      if !IsUsable(q.bid, q.ask) {
        return;
      }
      var class_ := ClassOf(q.instrument, answered);
      if class_.None? {
        return;
      }
      var k := (q.source, class_.value);
      var rank := if k in policy.ranks then policy.ranks[k] else UNRANKED;
      var ok := Accept(q.instrument, Tick(q.source, rank, q.at));
      if ok {
        ApplyAccepted(q, store);
      }
    }

    /** Routes a stream of quotes, less those whose class lookup fails: owners as the
        one-instrument rule has them, the price lane exactly the accepted quotes in
        order, and the store each instrument's latest accepted quote. */
    method Run(quotes: seq<Quote>, up: seq<bool>, store: MarkStore)
      requires |up| == |quotes| && classes == map[] && active == map[] && count == 0 && lane == []
                && store.marks == map[]
      modifies this, store
      ensures Tracks(store, Heard(policy, quotes, up))
    {
      NothingAccepted();
      var n := 0;
      while n < |quotes|
        invariant 0 <= n <= |quotes| && Tracks(store, Heard(policy, quotes[..n], up[..n]))
      {
        HeardNext(policy, quotes, up, n);
        Route(quotes[n], up[n], store, Heard(policy, quotes[..n], up[..n]));
        n := n + 1;
      }
      assert quotes[..n] == quotes && up[..n] == up;
    }
  }

  // An instrument whose class was asked for, and answered, by a usable quote.
  predicate Known(p: Policy, heard: seq<Quote>, i: Instrument) {
    exists j :: 0 <= j < |heard| && p.Routes(heard[j]) && heard[j].instrument == i
  }

  // A usable quote of a known instrument is lost if its class is not cached and the
  // database does not answer.
  function HeardOne(p: Policy, heard: seq<Quote>, q: Quote, answered: bool): seq<Quote> {
    if p.Routes(q) && !answered && !Known(p, heard, q.instrument) then heard else heard + [q]
  }

  // The stream without the quotes lost that way.
  function Heard(p: Policy, quotes: seq<Quote>, up: seq<bool>): seq<Quote>
    requires |up| == |quotes|
    decreases |quotes|
  {
    if quotes == [] then []
    else
      var n := |quotes| - 1;
      HeardOne(p, Heard(p, quotes[..n], up[..n]), quotes[n], up[n])
  }

  lemma HeardNext(p: Policy, quotes: seq<Quote>, up: seq<bool>, n: nat)
    requires n < |quotes| == |up|
    ensures Heard(p, quotes[..n + 1], up[..n + 1]) == HeardOne(p, Heard(p, quotes[..n], up[..n]), quotes[n], up[n])
  {
    assert quotes[..n + 1][..n] == quotes[..n] && up[..n + 1][..n] == up[..n];
  }

  /** A database that always answers loses no quote. */
  lemma {:induction false} AllHeard(p: Policy, quotes: seq<Quote>, up: seq<bool>)
    requires |up| == |quotes| && forall i | 0 <= i < |up| :: up[i]
    ensures Heard(p, quotes, up) == quotes
    decreases |quotes|
  {
    if quotes != [] {
      AllHeard(p, quotes[..|quotes| - 1], up[..|quotes| - 1]);
    }
  }

  // One more quote, as the specification has it.
  lemma OneMore(p: Policy, heard: seq<Quote>, q: Quote)
    ensures forall i :: Known(p, heard + [q], i) <==> Known(p, heard, i) || (p.Routes(q) && q.instrument == i)
    ensures var before := ActiveAfter(p, heard);
            ActiveAfter(p, heard + [q]) == if Accepts(p, before, q) then before[q.instrument := p.TickOf(q)] else before
    ensures AcceptedOf(p, heard + [q])
         == AcceptedOf(p, heard) + (if Accepts(p, ActiveAfter(p, heard), q) then [q] else [])
    ensures Updates(AcceptedOf(p, heard) + [q]) == Updates(AcceptedOf(p, heard)) + [(q.instrument, Mark(q.bid, q.ask))]
    ensures forall i :: Latest(AcceptedOf(p, heard) + [q], i)
                     == if i == q.instrument then Some(Mark(q.bid, q.ask)) else Latest(AcceptedOf(p, heard), i)
    ensures AcceptedOf(p, heard) + [] == AcceptedOf(p, heard)
  {
    assert (heard + [q])[..|heard|] == heard;
    AcceptedMore(AcceptedOf(p, heard), q);
    KnownNext(p, heard, q);
  }

  lemma KnownNext(p: Policy, heard: seq<Quote>, q: Quote)
    ensures forall i :: Known(p, heard + [q], i) <==> Known(p, heard, i) || (p.Routes(q) && q.instrument == i)
  {
    assert (heard + [q])[|heard|] == q;
    forall i | Known(p, heard, i) ensures Known(p, heard + [q], i) {
      var j :| 0 <= j < |heard| && p.Routes(heard[j]) && heard[j].instrument == i;
      assert (heard + [q])[j] == heard[j];
    }
  }

  lemma NothingAccepted()
    ensures Updates([]) == [] && forall i :: Latest([], i).None?
  {}

  lemma AcceptedMore(accepted: seq<Quote>, q: Quote)
    ensures Updates(accepted + [q]) == Updates(accepted) + [(q.instrument, Mark(q.bid, q.ask))]
    ensures forall i ::
              Latest(accepted + [q], i) == if i == q.instrument then Some(Mark(q.bid, q.ask)) else Latest(accepted, i)
  {
    assert (accepted + [q])[..|accepted|] == accepted;
  }

  /** Interleaving changes nothing: an instrument's owner is what its own ticks make it. */
  lemma {:induction false} InstrumentsAreApart(p: Policy, quotes: seq<Quote>, i: Instrument)
    ensures Lookup(ActiveAfter(p, quotes), i) == OwnerAfter(TicksOf(p, quotes, i))
    decreases |quotes|
  {
    if quotes != [] {
      var init, q := quotes[..|quotes| - 1], quotes[|quotes| - 1];
      InstrumentsAreApart(p, init, i);
      if p.Routes(q) && q.instrument == i {
        var ticks := TicksOf(p, init, i);
        assert (ticks + [p.TickOf(q)])[..|ticks|] == ticks;
      } else {
        assert TicksOf(p, init, i) + [] == TicksOf(p, init, i);
      }
    }
  }

  // The policy gives a source one rank per instrument.
  lemma {:induction false} RanksAreFixed(p: Policy, quotes: seq<Quote>, i: Instrument)
    requires i in p.classes
    ensures forall t <- TicksOf(p, quotes, i) ::
              t.rank == (if (t.source, p.classes[i]) in p.ranks then p.ranks[(t.source, p.classes[i])] else UNRANKED)
    ensures FixedRanks(TicksOf(p, quotes, i))
    decreases |quotes|
  {
    if quotes != [] {
      RanksAreFixed(p, quotes[..|quotes| - 1], i);
    }
  }

  /** In every routed stream, for every instrument: its owner is the source its own
      ticks make it, unseated since it took over. */
  lemma RoutedOwnerIsUnseated(p: Policy, quotes: seq<Quote>, i: Instrument)
    requires i in ActiveAfter(p, quotes)
    ensures var ticks := TicksOf(p, quotes, i);
            ticks != [] && Owns(ticks, ActiveAfter(p, quotes)[i], TookOverAt(ticks))
  {
    InstrumentsAreApart(p, quotes, i);
    var ticks := TicksOf(p, quotes, i);
    assert ticks != [];
    ClassKnown(p, quotes, i);
    RanksAreFixed(p, quotes, i);
    OwnerIsUnseated(ticks);
  }

  lemma {:induction false} ClassKnown(p: Policy, quotes: seq<Quote>, i: Instrument)
    requires TicksOf(p, quotes, i) != []
    ensures i in p.classes
    decreases |quotes|
  {
    if quotes[|quotes| - 1].instrument != i || !p.Routes(quotes[|quotes| - 1]) {
      ClassKnown(p, quotes[..|quotes| - 1], i);
    }
  }
}
