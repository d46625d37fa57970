/**
What is held, told to the market data gateway: the gateway's interests by owner
(crates/gateway/src/md/mod.rs) and one re-read of the held set
(src/market_data.rs:44-74).
*/
module MarketData {
  import opened Wrappers

  datatype Instrument = Instrument(id: int, symbol: string)

  // What to subscribe, and who wants it.
  datatype Interest = Interest(instrument: Instrument, who: set<string>)

  // market_data.rs:20
  const HELD: string := "held"

  function Ids(instruments: seq<Instrument>): set<int> {
    set i | i in instruments :: i.id
  }

  class MdHandle {
    var owners: map<int, Interest>
    // The union the feed sessions watch.
    var watched: map<int, Instrument>

    constructor ()
      ensures Valid() && forall o, id :: !Wants(o, id)
    {
      owners, watched := map[], map[];
    }

    // An instrument is watched exactly while somebody wants it.
    ghost predicate Valid()
      reads this
    {
      && (forall id | id in owners :: owners[id].who != {} && owners[id].instrument.id == id)
      && watched == map id | id in owners :: owners[id].instrument
    }

    predicate Wants(owner: string, id: int)
      reads this
    {
      id in owners && owner in owners[id].who
    }

    // Drop what nobody wants, and tell the sessions.
    method Publish()
      requires forall id | id in owners :: owners[id].instrument.id == id
      modifies this
      ensures Valid() && forall o, id :: Wants(o, id) <==> old(Wants(o, id))
      ensures forall id | id in owners :: id in old(owners) && owners[id] == old(owners[id])
    {
      owners := map id | id in owners && owners[id].who != {} :: owners[id];
      watched := map id | id in owners :: owners[id].instrument;
    }

    /** `owner` wants these too, and nobody wants anything else than before. */
    method Subscribe(owner: string, instruments: seq<Instrument>)
      requires Valid()
      modifies this
      ensures Valid()
      ensures forall o, id :: Wants(o, id) <==> old(Wants(o, id)) || (o == owner && id in Ids(instruments))
      ensures forall id | id in owners && id !in Ids(instruments) ::
                id in old(owners) && owners[id].instrument == old(owners[id].instrument)
      ensures forall id | id in owners && id in Ids(instruments) :: owners[id].instrument in instruments
    {
      var n := 0;
      while n < |instruments|
        invariant 0 <= n <= |instruments|
        invariant forall id | id in owners :: owners[id].who != {} && owners[id].instrument.id == id
        invariant forall o, id :: Wants(o, id) <==> old(Wants(o, id)) || (o == owner && id in Ids(instruments[..n]))
        invariant forall id | id in owners && id !in Ids(instruments[..n]) ::
                    id in old(owners) && owners[id].instrument == old(owners[id].instrument)
        invariant forall id | id in owners && id in Ids(instruments[..n]) :: owners[id].instrument in instruments[..n]
      {
        var i := instruments[n];
        assert instruments[..n + 1] == instruments[..n] + [i];
        assert Ids(instruments[..n + 1]) == Ids(instruments[..n]) + {i.id};
        owners := owners[i.id := Interest(i, (if i.id in owners then owners[i.id].who else {}) + {owner})];
        n := n + 1;
      }
      assert instruments[..n] == instruments;
      Publish();
    }

    /** `owner` no longer wants these; what others want stays. */
    method Unsubscribe(owner: string, ids: seq<int>)
      requires Valid()
      modifies this
      ensures Valid()
      ensures forall o, id :: Wants(o, id) <==> old(Wants(o, id)) && !(o == owner && id in ids)
      ensures forall id | id in owners :: id in old(owners) && owners[id].instrument == old(owners[id].instrument)
    {
      var n := 0;
      while n < |ids|
        invariant 0 <= n <= |ids|
        invariant forall id | id in owners :: id in old(owners) && owners[id].instrument == old(owners[id].instrument)
        invariant forall o, id :: Wants(o, id) <==> old(Wants(o, id)) && !(o == owner && id in ids[..n])
      {
        var id := ids[n];
        if id in owners {
          owners := owners[id := owners[id].(who := owners[id].who - {owner})];
        }
        n := n + 1;
      }
      assert ids[..n] == ids;
      Publish();
    }

    /** Drop everything `owner` wanted, and nothing of anybody else's. */
    method UnsubscribeOwner(owner: string)
      requires Valid()
      modifies this
      ensures Valid()
      ensures forall o, id :: Wants(o, id) <==> old(Wants(o, id)) && o != owner
    {
      owners := map id | id in owners :: owners[id].(who := owners[id].who - {owner});
      Publish();
    }
  }

  /** What to tell the gateway: exactly what is held and was not sent, and exactly
      what was sent and is no longer held. */
  method Diff(sent: set<int>, held: seq<Instrument>) returns (subscribe: seq<Instrument>, unsubscribe: seq<int>)
    ensures forall i :: i in subscribe <==> i in held && i.id !in sent
    ensures forall id :: id in unsubscribe <==> id in sent && id !in Ids(held)
  {
    subscribe := [];
    var n := 0;
    while n < |held|
      invariant 0 <= n <= |held|
      invariant forall i :: i in subscribe <==> i in held[..n] && i.id !in sent
    {
      assert held[..n + 1] == held[..n] + [held[n]];
      if held[n].id !in sent {
        subscribe := subscribe + [held[n]];
      }
      n := n + 1;
    }
    assert held[..n] == held;
    unsubscribe := [];
    var gone := sent - Ids(held);
    while gone != {}
      invariant gone <= sent - Ids(held)
      invariant forall id :: id in unsubscribe <==> id in sent - Ids(held) - gone
      decreases |gone|
    {
      var id := Pick(gone);
      unsubscribe := unsubscribe + [id];
      gone := gone - {id};
    }
  }

  // The loop's own memory of what it told the gateway.
  class HeldLoop {
    const md: MdHandle
    var sent: set<int>

    constructor (md: MdHandle)
      requires md.Valid() && forall id :: !md.Wants(HELD, id)
      ensures this.md == md && sent == {} && Valid()
    {
      this.md, sent := md, {};
    }

    // What the gateway holds for the held set is what was sent.
    ghost predicate Valid()
      reads this, md
    {
      md.Valid() && forall id :: md.Wants(HELD, id) <==> id in sent
    }

    /** One pass: after a read that succeeds the gateway holds exactly what is held;
        a failed read changes nothing; other owners never notice. */
    method Reread(held: Option<seq<Instrument>>)
      requires Valid()
      modifies this, md
      ensures Valid()
      ensures sent == if held.Some? then Ids(held.value) else old(sent)
      ensures forall o, id | o != HELD :: md.Wants(o, id) <==> old(md.Wants(o, id))
    {
      if held.None? {
        return;
      }
      var subscribe, unsubscribe := Diff(sent, held.value);
      assert Ids(subscribe) == Ids(held.value) - sent;
      if subscribe != [] {
        sent := sent + Ids(subscribe);
        md.Subscribe(HELD, subscribe);
      }
      if unsubscribe != [] {
        sent := sent - set id | id in unsubscribe;
        md.Unsubscribe(HELD, unsubscribe);
      }
      assert forall id :: id in sent <==> id in Ids(held.value);
    }
  }
}
