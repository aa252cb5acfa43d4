/** The client registry: connected clients as mutable objects, refining the fan-out state machine. */
module Registry {
  import opened Wrappers
  import opened Filter
  import opened Fanout
  import opened Metrics

  class Client {
    const id: ClientId
    const callsign: string
    const profile: Profile
    const kind: PortKind
    const locked: bool
    const capacity: nat
    var chain: FilterChain
    /** The outbox: lines waiting for the writer, and whether the writer is still there. */
    var queue: seq<string>
    var open: bool
    var packetsSent: nat
    var packetsDropped: nat
    var bytesSent: nat
    ghost var drained: seq<string>
    ghost var log: seq<Attempt>

    ghost function State(): ClientState
      reads this
    {
      ClientState(callsign, profile, kind, chain, locked, capacity, open, queue, drained, log, packetsSent, packetsDropped, bytesSent)
    }

    constructor (id: ClientId, g: Registration)
      ensures this.id == id && State() == Joined(g)
    {
      this.id, callsign, profile, kind := id, g.callsign, g.profile, g.kind;
      locked, capacity, chain := g.locked, g.capacity, g.chain;
      queue, open, packetsSent, packetsDropped, bytesSent := [], true, 0, 0, 0;
      drained, log := [], [];
    }

    /** Replace the filter chain, unless the port forces its own. */
    method SetFilter(chain: FilterChain) returns (ok: bool)
      modifies `chain
      ensures ok == !locked
      ensures State() == if ok then old(State()).(chain := chain) else old(State())
    {
      if locked {
        return false;
      }
      this.chain := chain;
      return true;
    }

    /** Queue a line for delivery; false when the client is too slow, or gone. */
    method TrySend(line: string) returns (ok: bool)
      modifies `queue, `log
      ensures ok == HasRoom(old(State()))
      ensures queue == if ok then old(queue) + [line] else old(queue)
      ensures log == old(log) + [Attempt(line, ok)]
    {
      ok := open && |queue| < capacity;
      if ok {
        queue := queue + [line];
      }
      log := log + [Attempt(line, ok)];
    }

    /** The writer takes up to `n` lines off the queue. */
    method Take(n: nat) returns (lines: seq<string>)
      modifies `queue, `drained
      ensures State() == Drained(old(State()), n)
      ensures lines == old(queue)[..if n < |old(queue)| then n else |old(queue)|]
    {
      var k := if n < |queue| then n else |queue|;
      lines := queue[..k];
      queue := queue[k..];
      drained := drained + lines;
    }

    method CloseReceiver()
      modifies `open
      ensures State() == old(State()).(open := false)
    {
      open := false;
    }

    /** Whether this client should receive a packet. */
    method AcceptsPacket(offer: Offer) returns (ok: bool)
      ensures ok == Accepts(State(), offer)
    {
      match kind
      case FullFeed => ok := true;
      case UdpSubmit => ok := false;
      case DupeFeed => ok := false;
      case Igate => ok := Matches(chain, f => offer.hit(callsign, f));
    }
  }

  class ClientRegistry {
    var clients: map<ClientId, Client>
    var nextId: ClientId
    /** Every client ever inserted, by id. */
    ghost var everyone: seq<Client>

    ghost predicate Valid()
      reads this
    {
      && |everyone| == nextId
      && (forall i :: 0 <= i < |everyone| ==> everyone[i].id == i)
      && (forall id :: id in clients ==> id < nextId && clients[id] == everyone[id])
    }

    ghost function Records(): (r: seq<ClientState>)
      reads this, everyone
      ensures |r| == |everyone| && forall i :: 0 <= i < |r| ==> r[i] == everyone[i].State()
    {
      seq(|everyone|, i requires 0 <= i < |everyone| reads this, everyone => everyone[i].State())
    }

    ghost function View(m: Metrics): Roster
      reads this, everyone, m
    {
      Roster(Records(), clients.Keys, m.packetsSent, m.packetsDroppedSlow, m.bytesSent)
    }

    constructor ()
      ensures Valid() && everyone == [] && clients == map[]
    {
      clients, nextId, everyone := map[], 0, [];
    }

    method Insert(g: Registration, m: Metrics) returns (client: Client)
      requires Valid()
      modifies this
      ensures Valid() && fresh(client) && everyone == old(everyone) + [client]
      ensures client.id == old(nextId)
      ensures View(m) == Step(old(View(m)), Op.Insert(g))
    {
      client := new Client(nextId, g);
      clients := clients[nextId := client];
      nextId := nextId + 1;
      everyone := everyone + [client];
      assert Records() == old(Records()) + [Joined(g)];
    }

    method Remove(id: ClientId, m: Metrics) returns (client: Option<Client>)
      requires Valid()
      modifies `clients
      ensures Valid() && View(m) == Step(old(View(m)), Op.Remove(id))
      ensures client == if id in old(clients) then Some(old(clients)[id]) else None
    {
      client := if id in clients then Some(clients[id]) else None;
      clients := clients - {id};
    }

    /** One recipient of a broadcast. */
    method OfferTo(client: Client, offer: Offer, m: Metrics)
      modifies client, m`packetsSent, m`bytesSent, m`packetsDroppedSlow
      ensures client.State() == Offered(old(client.State()), offer)
      ensures m.packetsSent - old(m.packetsSent) == client.packetsSent - old(client.packetsSent)
      ensures m.packetsDroppedSlow - old(m.packetsDroppedSlow) == client.packetsDropped - old(client.packetsDropped)
      ensures m.bytesSent - old(m.bytesSent) == client.bytesSent - old(client.bytesSent)
    {
      var accepted := client.AcceptsPacket(offer);
      if !accepted {
        return;
      }
      var ok := client.TrySend(offer.line);
      if ok {
        client.packetsSent := client.packetsSent + 1;
        client.bytesSent := client.bytesSent + WireBytes(offer.line);
        m.packetsSent := m.packetsSent + 1;
        m.bytesSent := m.bytesSent + WireBytes(offer.line);
      } else {
        client.packetsDropped := client.packetsDropped + 1;
        m.packetsDroppedSlow := m.packetsDroppedSlow + 1;
      }
    }

    /** The totals changed since `before` by as much as the clients' own counters did. */
    ghost predicate InStep(m: Metrics, before: Roster)
      reads this, everyone, m
    {
      && m.packetsSent + SumSent(before.records) == before.sent + SumSent(Records())
      && m.packetsDroppedSlow + SumDropped(before.records) == before.dropped + SumDropped(Records())
      && m.bytesSent + SumBytes(before.records) == before.bytesSent + SumBytes(Records())
    }

    /** The broadcast is under way: the clients in `todo` are still waiting, and the totals kept up. */
    ghost predicate Midway(offer: Offer, m: Metrics, before: Roster, todo: set<ClientId>)
      reads this, everyone, m
    {
      && Valid() && InStep(m, before) && Records() == Partly(before, offer, todo)
      && todo <= clients.Keys == before.live
    }

    /** Offer a packet to one connected client. */
    method OfferOne(id: ClientId, offer: Offer, m: Metrics, ghost before: Roster)
      requires Valid() && id in clients && InStep(m, before)
      modifies everyone, m`packetsSent, m`bytesSent, m`packetsDroppedSlow
      ensures Valid() && InStep(m, before)
      ensures Records() == old(Records())[id := Offered(old(Records())[id], offer)]
    {
      ghost var now := Records();
      OfferTo(clients[id], offer, m);
      assert Records() == now[id := clients[id].State()];
      SumUpdate(now, id, clients[id].State());
    }

    /** One turn of the broadcast loop. */
    method Turn(id: ClientId, offer: Offer, m: Metrics, ghost before: Roster, ghost todo: set<ClientId>)
      requires Midway(offer, m, before, todo) && id in todo
      modifies everyone, m`packetsSent, m`bytesSent, m`packetsDroppedSlow
      ensures Midway(offer, m, before, todo - {id})
    {
      PartlyStep(before, offer, todo, id);
      if Some(id) != offer.origin {
        OfferOne(id, offer, m, before);
      }
    }

    /** The turn of any one client still waiting. */
    method NextTurn(offer: Offer, m: Metrics, ghost before: Roster, todo: set<ClientId>) returns (rest: set<ClientId>)
      requires Midway(offer, m, before, todo) && todo != {}
      modifies everyone, m`packetsSent, m`bytesSent, m`packetsDroppedSlow
      ensures Midway(offer, m, before, rest) && |rest| < |todo|
    {
      var id :| id in todo;
      Turn(id, offer, m, before, todo);
      rest := todo - {id};
      OneLess(todo, id);
    }

    /** Offer a packet to every connected client, in any order. */
    method OfferAll(offer: Offer, m: Metrics, ghost before: Roster)
      requires Valid() && before == View(m)
      modifies everyone, m`packetsSent, m`bytesSent, m`packetsDroppedSlow
      ensures Valid() && InStep(m, before) && Records() == OfferedAll(before, offer)
    {
      var todo := clients.Keys;
      PartlyBounds(before, offer);
      while todo != {}
        invariant Midway(offer, m, before, todo)
        decreases |todo|
      {
        todo := NextTurn(offer, m, before, todo);
      }
    }

    /** Deliver a packet to every connected client whose filter accepts it. */
    method Broadcast(offer: Offer, m: Metrics)
      requires Valid()
      modifies everyone, m`packetsSent, m`bytesSent, m`packetsDroppedSlow
      ensures Valid() && View(m) == Step(old(View(m)), Op.Broadcast(offer))
    {
      ghost var before := View(m);
      OfferAll(offer, m, before);
      BroadcastTotals(before, offer, View(m));
    }
  }

  /** The totals after every client had its turn. */
  lemma BroadcastTotals(before: Roster, offer: Offer, after: Roster)
    requires after.records == OfferedAll(before, offer) && after.live == before.live
    requires after.sent + SumSent(before.records) == before.sent + SumSent(after.records)
    requires after.dropped + SumDropped(before.records) == before.dropped + SumDropped(after.records)
    requires after.bytesSent + SumBytes(before.records) == before.bytesSent + SumBytes(after.records)
    ensures after == Step(before, Op.Broadcast(offer))
  {
    BroadcastSums(before, offer);
  }

  lemma OneLess(todo: set<ClientId>, id: ClientId)
    requires id in todo
    ensures |todo - {id}| < |todo|
  {
    assert todo == (todo - {id}) + {id};
  }

  lemma PartlyBounds(before: Roster, offer: Offer)
    ensures Partly(before, offer, before.live) == before.records
    ensures Partly(before, offer, {}) == OfferedAll(before, offer)
  {
  }

  lemma PartlyStep(before: Roster, offer: Offer, todo: set<ClientId>, id: ClientId)
    requires id in todo && todo <= before.live && id < |before.records|
    ensures Partly(before, offer, todo - {id}) ==
            if offer.origin == Some(id) then Partly(before, offer, todo)
            else Partly(before, offer, todo)[id := Offered(Partly(before, offer, todo)[id], offer)]
  {
  }

  /** The records when the clients in `todo` are still waiting for their turn. */
  ghost function Partly(before: Roster, offer: Offer, todo: set<ClientId>): (r: seq<ClientState>)
    ensures |r| == |before.records|
  {
    seq(|before.records|, i requires 0 <= i < |before.records| =>
      if i in todo then before.records[i] else OfferedTo(before, offer, i))
  }
}
