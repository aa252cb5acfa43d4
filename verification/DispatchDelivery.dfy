/** Which clients a delivered line reaches, over whole runs of the server. */
module DispatchDelivery {
  import opened Wrappers
  import opened Packet
  import opened Dispatch
  import opened DispatchRuns
  import DispatchClients
  import Fan = Fanout
  import Filter
  import P = PositionCache

  /** Queued when the writer is there and has room, and counted dropped otherwise; nothing else about the client changes. */
  predicate Got(before: Fan.ClientState, after: Fan.ClientState, line: string) {
    if before.open && |before.queue| < before.capacity then
      after == before.(queue := before.queue + [line], log := before.log + [Fan.Attempt(line, true)],
                       sent := before.sent + 1, bytesSent := before.bytesSent + |line| + 2)
    else
      after == before.(log := before.log + [Fan.Attempt(line, false)], dropped := before.dropped + 1)
  }

  /** Some filter of the chain hits the packet, and no negated one does. */
  ghost predicate Selects(env: Env, c: Fan.ClientState, p: Tnc2Packet, known: P.Entries) {
    && (exists k :: 0 <= k < |c.chain| && env.hit(p, known, c.callsign, c.chain[k].filter))
    && !exists k :: 0 <= k < |c.chain| && c.chain[k].negated && env.hit(p, known, c.callsign, c.chain[k].filter)
  }

  /** What a line delivered for `origin` does to client `id`, given the positions known by then. */
  ghost predicate Reached(env: Env, before: Fan.Roster, after: Fan.Roster, id: Fan.ClientId, origin: Option<Fan.ClientId>,
                          line: string, known: P.Entries)
    requires id < |before.records| && id < |after.records| && Parse(line).Ok?
  {
    var c, d := before.records[id], after.records[id];
    if id !in before.live || origin == Some(id) then d == c
    else match c.kind
      case FullFeed => Got(c, d, line)
      case Igate => if Selects(env, c, Parse(line).value, known) then Got(c, d, line) else d == c
      case UdpSubmit | DupeFeed => d == c
  }

  lemma OfferReaches(env: Env, r: Fan.Roster, id: Fan.ClientId, origin: Option<Fan.ClientId>, line: string, known: P.Entries)
    requires id < |r.records| && Parse(line).Ok?
    ensures var next := Fan.Step(r, Fan.Op.Broadcast(OfferFor(env, known, origin, line, Parse(line).value)));
      id < |next.records| && Reached(env, r, next, id, origin, line, known)
  {
    var c, offer := r.records[id], OfferFor(env, known, origin, line, Parse(line).value);
    assert forall f :: offer.hit(c.callsign, f) == env.hit(Parse(line).value, known, c.callsign, f);
  }

  lemma SubmissionBroadcasts(env: Env, w: World, ingest: Ingest, now: nat)
    ensures var o := Processed(env, w, ingest, now);
      if o.disposition.Delivered? then
        && Parse(o.disposition.line).Ok?
        && o.world.roster == Fan.Step(w.roster, Fan.Op.Broadcast(
             OfferFor(env, o.world.entries, ingest.origin, o.disposition.line, Parse(o.disposition.line).value)))
      else o.world.roster == w.roster
  {
  }

  /**
    A delivered line reaches every client connected except its sender's: a full feed always, an IGate
    client exactly when its filters select the packet in the light of every position known by now,
    the packet's own included, and a port for submissions or diagnostics never.
  */
  lemma DeliveryReaches(env: Env, events: seq<Event>, i: nat, id: Fan.ClientId)
    requires i < |events| && events[i].Submit? && Verdict(env, events, i).value.Delivered?
    requires id < |Run(env, events[..i]).roster.records|
    ensures var before, after := Run(env, events[..i]), Run(env, events[..i + 1]);
      var line := Verdict(env, events, i).value.line;
      && id < |after.roster.records| && Parse(line).Ok?
      && Reached(env, before.roster, after.roster, id, events[i].ingest.origin, line, after.entries)
  {
    var w, e := Run(env, events[..i]), events[i];
    RunStep(env, events, i);
    SubmissionBroadcasts(env, w, e.ingest, e.now);
    var o := Processed(env, w, e.ingest, e.now);
    OfferReaches(env, w.roster, id, e.ingest.origin, o.disposition.line, o.world.entries);
  }

  /** A submission that is not delivered reaches nobody. */
  lemma OnlyDeliveriesReach(env: Env, events: seq<Event>, i: nat)
    requires i < |events| && events[i].Submit? && !Verdict(env, events, i).value.Delivered?
    ensures Run(env, events[..i + 1]).roster == Run(env, events[..i]).roster
  {
    RunStep(env, events, i);
    SubmissionBroadcasts(env, Run(env, events[..i]), events[i].ingest, events[i].now);
  }

  // ----- Ports that get nothing -----

  /** Ports for submissions and for diagnostics. */
  predicate IsSilent(c: Fan.ClientState) {
    c.kind == Fan.UdpSubmit || c.kind == Fan.DupeFeed
  }

  predicate Untouched(c: Fan.ClientState) {
    c.queue == [] && c.drained == [] && c.sent == 0 && c.dropped == 0 && c.bytesSent == 0
  }

  ghost predicate SilentGotNothing(r: Fan.Roster) {
    forall id :: 0 <= id < |r.records| && IsSilent(r.records[id]) ==> Untouched(r.records[id])
  }

  lemma SilentStays(r: Fan.Roster, op: Fan.Op)
    requires SilentGotNothing(r)
    ensures SilentGotNothing(Fan.Step(r, op))
  {
  }

  lemma {:induction false} SilentInRun(ops: seq<Fan.Op>)
    ensures SilentGotNothing(Fan.Run(ops))
  {
    if ops != [] {
      SilentInRun(ops[..|ops| - 1]);
      SilentStays(Fan.Run(ops[..|ops| - 1]), ops[|ops| - 1]);
    }
  }

  /** In no run does a client of such a port ever get, or lose, a line. */
  lemma SilentPortsGetNothing(env: Env, events: seq<Event>, id: Fan.ClientId)
    requires id < |Run(env, events).roster.records|
    requires Run(env, events).roster.records[id].kind == Fan.UdpSubmit || Run(env, events).roster.records[id].kind == Fan.DupeFeed
    ensures var c := Run(env, events).roster.records[id];
      c.drained + c.queue == [] && c.sent == 0 && c.dropped == 0 && c.bytesSent == 0
  {
    DispatchClients.RosterIsFanOutRun(env, events);
    SilentInRun(DispatchClients.FanOutOf(env, events));
  }

  // ----- Clients come and go -----

  /** The filter last set for client `id` by the events from `from` up to `n`, and `chain` if none was. */
  function LastFilter(events: seq<Event>, from: nat, n: nat, id: Fan.ClientId, chain: Filter.FilterChain): Filter.FilterChain
    requires n <= |events|
  {
    if n <= from then chain
    else
      var e := events[n - 1];
      if e.Client? && e.op.SetFilter? && e.op.id == id then e.op.chain else LastFilter(events, from, n - 1, id, chain)
  }

  /** One of the events from `from` up to `n` is the command `op`. */
  ghost predicate Commanded(events: seq<Event>, from: nat, n: nat, op: Fan.Op)
    requires n <= |events|
  {
    exists k :: from <= k < n && events[k] == Client(op)
  }

  lemma CommandedMore(events: seq<Event>, from: nat, n: nat, op: Fan.Op)
    requires from <= n < |events|
    ensures Commanded(events, from, n + 1, op) <==> Commanded(events, from, n, op) || events[n] == Client(op)
  {
  }

  /** Client `id` is what it registered as, under this filter chain. */
  predicate StandsAs(r: Fan.Roster, id: Fan.ClientId, g: Fan.Registration, chain: Filter.FilterChain) {
    id < |r.records| && Fan.RecordOf(r.records[id], g, chain)
  }

  lemma NextStands(env: Env, w: World, e: Event, id: Fan.ClientId, g: Fan.Registration, chain: Filter.FilterChain)
    requires StandsAs(w.roster, id, g, chain)
    ensures var next := Next(env, w, e).roster;
      && StandsAs(next, id, g, if e.Client? && e.op.SetFilter? && e.op.id == id && !g.locked then e.op.chain else chain)
      && (next.records[id].open <==> w.roster.records[id].open && e != Client(Fan.Close(id)))
      && (id in next.live <==> id in w.roster.live && e != Client(Fan.Remove(id)))
  {
    DispatchClients.StepIsFanOut(env, w, e);
    var ops := DispatchClients.OpsOf(env, w, e);
    if ops != [] {
      Fan.RecordStays(w.roster, ops[0], id, g);
    }
  }

  /**
    After the events from `from` up to `n` client `id` still is what it registered as; its filter is
    the last one set, unless its port forces one; its queue is open unless the writer closed it; it
    is connected unless it was removed.
  */
  ghost predicate StandsSince(r: Fan.Roster, events: seq<Event>, from: nat, n: nat, id: Fan.ClientId, g: Fan.Registration)
    requires n <= |events|
  {
    && StandsAs(r, id, g, if g.locked then g.chain else LastFilter(events, from, n, id, g.chain))
    && (r.records[id].open <==> !Commanded(events, from, n, Fan.Close(id)))
    && (id in r.live <==> !Commanded(events, from, n, Fan.Remove(id)))
  }

  lemma StandsLonger(env: Env, events: seq<Event>, from: nat, n: nat, id: Fan.ClientId, g: Fan.Registration, w: World)
    requires from <= n < |events| && StandsSince(w.roster, events, from, n, id, g)
    ensures StandsSince(Next(env, w, events[n]).roster, events, from, n + 1, id, g)
  {
    NextStands(env, w, events[n], id, g, if g.locked then g.chain else LastFilter(events, from, n, id, g.chain));
    CommandedMore(events, from, n, Fan.Close(id));
    CommandedMore(events, from, n, Fan.Remove(id));
  }

  lemma JoinStands(env: Env, events: seq<Event>, i: nat, g: Fan.Registration, w: World)
    requires i < |events| && events[i] == Client(Fan.Insert(g))
    ensures var id, r := |w.roster.records|, Next(env, w, events[i]).roster;
      StandsSince(r, events, i + 1, i + 1, id, g) && Untouched(r.records[id])
  {
  }

  /** That, for the run up to `n`. */
  ghost predicate Stands(env: Env, events: seq<Event>, from: nat, n: nat, id: Fan.ClientId, g: Fan.Registration)
    requires n <= |events|
  {
    StandsSince(Run(env, events[..n]).roster, events, from, n, id, g)
  }

  lemma StandsNext(env: Env, events: seq<Event>, from: nat, n: nat, id: Fan.ClientId, g: Fan.Registration)
    requires from <= n < |events| && Stands(env, events, from, n, id, g)
    ensures Stands(env, events, from, n + 1, id, g)
  {
    RunStep(env, events, n);
    StandsLonger(env, events, from, n, id, g, Run(env, events[..n]));
  }

  lemma {:induction false} StandsOn(env: Env, events: seq<Event>, from: nat, n: nat, id: Fan.ClientId, g: Fan.Registration)
    requires from <= n <= |events| && Stands(env, events, from, from, id, g)
    ensures Stands(env, events, from, n, id, g)
  {
    if from < n {
      StandsOn(env, events, from, n - 1, id, g);
      StandsNext(env, events, from, n - 1, id, g);
    }
  }

  /** A client starts out with nothing queued, drained or counted. */
  lemma ClientJoins(env: Env, events: seq<Event>, i: nat, id: Fan.ClientId, g: Fan.Registration)
    requires i < |events| && events[i] == Client(Fan.Insert(g)) && id == |Run(env, events[..i]).roster.records|
    ensures Stands(env, events, i + 1, i + 1, id, g) && Untouched(Run(env, events[..i + 1]).roster.records[id])
  {
    RunStep(env, events, i);
    JoinStands(env, events, i, g, Run(env, events[..i]));
  }

  /** A client that event `i` registered stands so at any later point of the run. */
  lemma RegistrationStays(env: Env, events: seq<Event>, i: nat, n: nat, id: Fan.ClientId, g: Fan.Registration)
    requires i < n <= |events| && events[i] == Client(Fan.Insert(g)) && id == |Run(env, events[..i]).roster.records|
    ensures Stands(env, events, i + 1, n, id, g)
  {
    ClientJoins(env, events, i, id, g);
    StandsOn(env, events, i + 1, n, id, g);
  }
}
