/** The dispatch loop over the server's mutable parts. */
module Server {
  import opened Wrappers
  import opened Dispatch
  import opened Packet
  import Q = QConstruct
  import D = DupeCheck
  import P = PositionCache
  import Fan = Fanout
  import R = Registry
  import M = Metrics
  import Filter

  class ServerState {
    const env: Env
    const metrics: M.Metrics
    const positions: P.PositionCache
    const registry: R.ClientRegistry

    constructor (env: Env)
      ensures this.env == env && fresh(metrics) && fresh(positions) && fresh(registry)
      ensures registry.Valid() && registry.everyone == []
      ensures CountersOf() == Counters(0, 0, 0, 0, 0, 0) && positions.entries == map[]
      ensures registry.View(metrics) == Fan.EMPTY
    {
      this.env := env;
      metrics := new M.Metrics();
      positions := new P.PositionCache();
      registry := new R.ClientRegistry();
      new;
      assert registry.Records() == [];
    }

    ghost function CountersOf(): Counters
      reads metrics
    {
      Counters(metrics.packetsReceived, metrics.packetsUnverified, metrics.packetsInvalid,
               metrics.packetsDuplicate, metrics.packetsRejected, metrics.bytesReceived)
    }

    /** The whole server as one value. */
    ghost function View(dupecheck: D.DupeCheck): World
      reads metrics, positions, registry, registry.everyone, dupecheck
    {
      World(CountersOf(), dupecheck.log, positions.entries, registry.View(metrics))
    }

    /** Record the position the packet carries, if any, and fan the line out. */
    method Deliver(ghost dupecheck: D.DupeCheck, origin: Option<Fan.ClientId>, line: string, p: Tnc2Packet, now: nat)
      requires registry.Valid()
      modifies positions, metrics`packetsSent, metrics`bytesSent, metrics`packetsDroppedSlow, registry.everyone
      ensures registry.Valid()
      ensures View(dupecheck) == DeliverTo(env, old(View(dupecheck)), origin, line, p, now)
    {
      var parsed := env.classify(p);
      if parsed.position.Some? {
        positions.Record(p.source, parsed.position.value, parsed.symbol, HeardAt(now));
      }
      registry.Broadcast(OfferFor(env, positions.entries, origin, line, p), metrics);
    }

    method IncrRejected(ghost dupecheck: D.DupeCheck)
      modifies metrics`packetsRejected
      ensures View(dupecheck) == CountRejected(old(View(dupecheck)))
    {
      metrics.packetsRejected := metrics.packetsRejected + 1;
    }

    method IncrInvalid(ghost dupecheck: D.DupeCheck)
      modifies metrics`packetsInvalid
      ensures View(dupecheck) == CountInvalid(old(View(dupecheck)))
    {
      metrics.packetsInvalid := metrics.packetsInvalid + 1;
    }

    method IncrDuplicate(ghost dupecheck: D.DupeCheck)
      modifies metrics`packetsDuplicate
      ensures View(dupecheck) == CountDuplicate(old(View(dupecheck)))
    {
      metrics.packetsDuplicate := metrics.packetsDuplicate + 1;
    }

    method IncrUnverified(ghost dupecheck: D.DupeCheck)
      modifies metrics`packetsUnverified
      ensures View(dupecheck) == CountUnverified(old(View(dupecheck)))
    {
      metrics.packetsUnverified := metrics.packetsUnverified + 1;
    }

    method IncrReceived(bytes: nat, ghost dupecheck: D.DupeCheck)
      modifies metrics`packetsReceived, metrics`bytesReceived
      ensures View(dupecheck) == Counted(old(View(dupecheck)), bytes)
    {
      metrics.packetsReceived := metrics.packetsReceived + 1;
      metrics.bytesReceived := metrics.bytesReceived + bytes;
    }

    /** Apply the q algorithm and relay the result. */
    method Relay(ghost dupecheck: D.DupeCheck, ingest: Ingest, p: Tnc2Packet, now: nat) returns (d: Disposition)
      requires registry.Valid() && p.raw == ingest.line
      modifies metrics, positions, registry.everyone
      ensures registry.Valid()
      ensures var o := Relayed(env, old(View(dupecheck)), ingest, p, now);
        d == o.disposition && View(dupecheck) == o.world
    {
      var outcome := Q.Apply(p.source, p.path, ContextOf(env, ingest));
      if outcome.Err? {
        IncrRejected(dupecheck);
        return Rejected(outcome.error);
      }
      var line := ingest.line;
      if outcome.value.rewritten {
        line := Render(p, outcome.value.path);
      }
      var final := Parse(line);
      if final.Err? {
        IncrInvalid(dupecheck);
        return Invalid(Empty);
      }
      Deliver(dupecheck, ingest.origin, line, final.value, now);
      return Delivered(line, outcome.value.code);
    }

    /** Ask the duplicate checker, leaving everything else as it was. */
    method Check(dupecheck: D.DupeCheck, call: D.Call) returns (duplicate: bool)
      requires dupecheck.Valid()
      modifies dupecheck, dupecheck.buckets
      ensures dupecheck.Valid()
      ensures View(dupecheck) == old(View(dupecheck)).(calls := old(View(dupecheck)).calls + [call])
      ensures duplicate == D.IsDuplicate(D.Replay(old(View(dupecheck)).calls, dupecheck.window), dupecheck.window, call)
    {
      duplicate := dupecheck.CheckDigest(call.digest, call.time);
    }

    /** Check a well-formed packet against the duplicate window, and relay it if it is new. */
    method Judge(dupecheck: D.DupeCheck, ingest: Ingest, p: Tnc2Packet, now: nat) returns (d: Disposition)
      requires dupecheck.Valid() && dupecheck.window == env.window && registry.Valid() && p.raw == ingest.line
      modifies dupecheck, dupecheck.buckets, metrics, positions, registry.everyone
      ensures dupecheck.Valid() && registry.Valid()
      ensures var o := Judged(env, old(View(dupecheck)), ingest, p, now);
        d == o.disposition && View(dupecheck) == o.world
    {
      var call := CallOf(env, p, now);
      var duplicate := Check(dupecheck, call);
      if duplicate {
        IncrDuplicate(dupecheck);
        return Duplicate;
      }
      d := Relay(dupecheck, ingest, p, now);
    }

    /** One submitted line, from the first counter to the last client. */
    method Process(ingest: Ingest, dupecheck: D.DupeCheck, now: nat) returns (d: Disposition)
      requires dupecheck.Valid() && dupecheck.window == env.window && registry.Valid()
      modifies dupecheck, dupecheck.buckets, metrics, positions, registry.everyone
      ensures dupecheck.Valid() && registry.Valid()
      ensures var o := Processed(env, old(View(dupecheck)), ingest, now);
        d == o.disposition && View(dupecheck) == o.world
    {
      IncrReceived(|ingest.line| + 2, dupecheck);
      if !ingest.verified {
        IncrUnverified(dupecheck);
        return UnverifiedSender;
      }
      var packet := Parse(ingest.line);
      if packet.Err? {
        IncrInvalid(dupecheck);
        return Invalid(packet.error);
      }
      ParseSplitsLine(ingest.line);
      d := Judge(dupecheck, ingest, packet.value, now);
    }

    // ----- What the other tasks do to the server -----

    /** The state with another roster. */
    ghost function WithRoster(w: World, roster: Fan.Roster): World {
      w.(roster := roster)
    }

    method Connect(ghost dupecheck: D.DupeCheck, g: Fan.Registration) returns (client: R.Client)
      requires registry.Valid()
      modifies registry
      ensures registry.Valid() && fresh(client) && registry.everyone == old(registry.everyone) + [client]
      ensures View(dupecheck) == WithRoster(old(View(dupecheck)), Fan.Step(old(View(dupecheck)).roster, Fan.Op.Insert(g)))
    {
      client := registry.Insert(g, metrics);
    }

    method Disconnect(ghost dupecheck: D.DupeCheck, id: Fan.ClientId) returns (client: Option<R.Client>)
      requires registry.Valid()
      modifies registry`clients
      ensures registry.Valid()
      ensures View(dupecheck) == WithRoster(old(View(dupecheck)), Fan.Step(old(View(dupecheck)).roster, Fan.Op.Remove(id)))
    {
      client := registry.Remove(id, metrics);
    }

    method SetFilter(ghost dupecheck: D.DupeCheck, client: R.Client, chain: Filter.FilterChain) returns (ok: bool)
      requires registry.Valid() && client in registry.everyone
      modifies client`chain
      ensures registry.Valid() && ok == !client.locked
      ensures View(dupecheck) ==
        WithRoster(old(View(dupecheck)), Fan.Step(old(View(dupecheck)).roster, Fan.Op.SetFilter(client.id, chain)))
    {
      ok := client.SetFilter(chain);
      assert registry.Records() == old(registry.Records())[client.id := client.State()];
    }

    /** The client's writer takes lines off its queue. */
    method Drain(ghost dupecheck: D.DupeCheck, client: R.Client, n: nat) returns (lines: seq<string>)
      requires registry.Valid() && client in registry.everyone
      modifies client`queue, client`drained
      ensures registry.Valid() && client.drained == old(client.drained) + lines
      ensures View(dupecheck) ==
        WithRoster(old(View(dupecheck)), Fan.Step(old(View(dupecheck)).roster, Fan.Op.Drain(client.id, n)))
    {
      lines := client.Take(n);
      assert registry.Records() == old(registry.Records())[client.id := client.State()];
    }

    /** The client's writer goes away. */
    method CloseReceiver(ghost dupecheck: D.DupeCheck, client: R.Client)
      requires registry.Valid() && client in registry.everyone
      modifies client`open
      ensures registry.Valid()
      ensures View(dupecheck) ==
        WithRoster(old(View(dupecheck)), Fan.Step(old(View(dupecheck)).roster, Fan.Op.Close(client.id)))
    {
      client.CloseReceiver();
      assert registry.Records() == old(registry.Records())[client.id := client.State()];
    }

    /** Positions not refreshed since `before` are evicted. */
    method Sweep(ghost dupecheck: D.DupeCheck, before: int) returns (dropped: nat)
      modifies positions
      ensures View(dupecheck) == old(View(dupecheck)).(entries := P.Evicted(old(View(dupecheck)).entries, before))
    {
      dropped := positions.EvictOlderThan(before);
    }
  }
}
