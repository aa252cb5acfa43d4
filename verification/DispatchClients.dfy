/** What the clients see of whole runs of the server. */
module DispatchClients {
  import opened Wrappers
  import opened Packet
  import opened Transmission
  import opened Dispatch
  import opened DispatchRuns
  import Fan = Fanout

  // ----- A run of the fan-out machine -----

  /** What event `i` does to the clients: at most one fan-out step. */
  function OpsOf(env: Env, w: World, e: Event): seq<Fan.Op> {
    match e
    case Submit(ingest, now) => BroadcastOf(env, w, ingest, now)
    case Client(op) => if op.Broadcast? then [] else [op]
    case Sweep(_) => []
  }

  function BroadcastOf(env: Env, w: World, ingest: Ingest, now: nat): seq<Fan.Op> {
    var o := Processed(env, w, ingest, now);
    match o.disposition
    case Delivered(line, _) =>
      (match Parse(line)
       case Ok(p) => [Fan.Op.Broadcast(OfferFor(env, o.world.entries, ingest.origin, line, p))]
       case Err(_) => [])
    case _ => []
  }

  function FanOutOf(env: Env, events: seq<Event>): seq<Fan.Op> {
    if events == [] then []
    else FanOutOf(env, events[..|events| - 1]) + OpsOf(env, Run(env, events[..|events| - 1]), events[|events| - 1])
  }

  lemma StepIsFanOut(env: Env, w: World, e: Event)
    ensures Next(env, w, e).roster ==
            if OpsOf(env, w, e) == [] then w.roster else Fan.Step(w.roster, OpsOf(env, w, e)[0])
    ensures |OpsOf(env, w, e)| <= 1
  {
  }

  /** The clients see a run of the fan-out machine, broadcasting exactly the delivered lines. */
  lemma {:induction false} RosterIsFanOutRun(env: Env, events: seq<Event>)
    ensures Run(env, events).roster == Fan.Run(FanOutOf(env, events))
  {
    if events != [] {
      var n := |events| - 1;
      var before, ops := FanOutOf(env, events[..n]), OpsOf(env, Run(env, events[..n]), events[n]);
      RosterIsFanOutRun(env, events[..n]);
      StepIsFanOut(env, Run(env, events[..n]), events[n]);
      if ops != [] {
        assert before + ops == before + [ops[0]];
        assert (before + ops)[..|before|] == before;
      } else {
        assert before + ops == before;
      }
    }
  }

  /** So over any run of the server the clients' queues and counters keep all the fan-out guarantees. */
  lemma ClientsConserve(env: Env, events: seq<Event>)
    ensures Fan.Inv(Run(env, events).roster)
    ensures var r := Run(env, events).roster; Fan.SumAccepted(r.records) == r.sent + r.dropped
  {
    RosterIsFanOutRun(env, events);
    Fan.RunKeepsInv(FanOutOf(env, events));
    Fan.AcceptedIsSentPlusDropped(FanOutOf(env, events));
  }

  // ----- What a client sees -----

  /** Event `i` delivered `line`, and not on behalf of client `id`. */
  ghost predicate DeliveredAt(env: Env, events: seq<Event>, i: nat, line: string, id: Fan.ClientId) {
    && i < |events| && Verdict(env, events, i).Some? && Verdict(env, events, i).value.Delivered?
    && Verdict(env, events, i).value.line == line && events[i].ingest.origin != Some(id)
  }

  /** The fan-out steps of the leading `n` events. */
  function OpsBefore(env: Env, events: seq<Event>, n: nat): seq<Fan.Op>
    requires n <= |events|
  {
    FanOutOf(env, events[..n])
  }

  lemma OpsStep(env: Env, events: seq<Event>, n: nat)
    requires n < |events|
    ensures OpsBefore(env, events, n + 1) == OpsBefore(env, events, n) + OpsOf(env, Run(env, events[..n]), events[n])
  {
    assert events[..n + 1][..n] == events[..n];
  }

  lemma OpsStepGrows(env: Env, events: seq<Event>, n: nat)
    requires n < |events|
    ensures |OpsBefore(env, events, n)| <= |OpsBefore(env, events, n + 1)|
  {
    OpsStep(env, events, n);
  }

  lemma {:induction false} Ascending(counts: seq<nat>, i: nat, j: nat)
    requires i <= j < |counts| && forall k :: 0 < k < |counts| ==> counts[k - 1] <= counts[k]
    ensures counts[i] <= counts[j]
    decreases j - i
  {
    if i < j {
      Ascending(counts, i, j - 1);
    }
  }

  lemma OpsGrow(env: Env, events: seq<Event>, i: nat, j: nat)
    requires i <= j <= |events|
    ensures |OpsBefore(env, events, i)| <= |OpsBefore(env, events, j)|
  {
    var counts := seq(j + 1, n requires 0 <= n <= j => |OpsBefore(env, events, n)|);
    forall k | 0 < k <= j
      ensures counts[k - 1] <= counts[k]
    {
      OpsStepGrows(env, events, k - 1);
    }
    Ascending(counts, i, j);
  }

  /** Fan-out step `q` is an earlier one, or the one event `n` takes. */
  lemma OpsCases(env: Env, events: seq<Event>, n: nat, q: nat)
    requires n < |events| && q < |OpsBefore(env, events, n + 1)|
    ensures var before, op := OpsBefore(env, events, n), OpsBefore(env, events, n + 1)[q];
      && (q < |before| ==> before[q] == op)
      && (q >= |before| ==> q == |before| && OpsOf(env, Run(env, events[..n]), events[n]) == [op])
  {
    OpsStep(env, events, n);
    StepIsFanOut(env, Run(env, events[..n]), events[n]);
  }

  lemma BroadcastAt(env: Env, events: seq<Event>, n: nat, op: Fan.Op, id: Fan.ClientId)
    requires n < |events| && OpsOf(env, Run(env, events[..n]), events[n]) == [op]
    requires op.Broadcast? && op.offer.origin != Some(id)
    ensures DeliveredAt(env, events, n, op.offer.line, id)
  {
    BroadcastIsDelivery(env, Run(env, events[..n]), events[n], op);
  }

  lemma BroadcastIsDelivery(env: Env, w: World, e: Event, op: Fan.Op)
    requires OpsOf(env, w, e) == [op] && op.Broadcast?
    ensures e.Submit? && e.ingest.origin == op.offer.origin
    ensures var d := Processed(env, w, e.ingest, e.now).disposition;
      d.Delivered? && d.line == op.offer.line
  {
  }

  /** The event behind fan-out step `q`, among the leading `n`. */
  function EventAt(env: Env, events: seq<Event>, n: nat, q: nat): nat
    requires n <= |events|
  {
    if n == 0 then 0
    else if q < |OpsBefore(env, events, n - 1)| then EventAt(env, events, n - 1, q)
    else n - 1
  }

  /** Behind every broadcast stands an event that delivered its line. */
  lemma {:induction false} BroadcastWasDelivered(env: Env, events: seq<Event>, n: nat, q: nat, id: Fan.ClientId)
    requires n <= |events| && q < |OpsBefore(env, events, n)|
    requires OpsBefore(env, events, n)[q].Broadcast? && OpsBefore(env, events, n)[q].offer.origin != Some(id)
    ensures DeliveredAt(env, events, EventAt(env, events, n, q), OpsBefore(env, events, n)[q].offer.line, id)
  {
    assert n > 0;
    OpsCases(env, events, n - 1, q);
    if q < |OpsBefore(env, events, n - 1)| {
      BroadcastWasDelivered(env, events, n - 1, q, id);
    } else {
      BroadcastAt(env, events, n - 1, OpsBefore(env, events, n)[q], id);
    }
  }

  /** The steps in front of that event are those in front of `q`. */
  lemma {:induction false} EventPlace(env: Env, events: seq<Event>, n: nat, q: nat)
    requires n <= |events| && q < |OpsBefore(env, events, n)|
    ensures EventAt(env, events, n, q) < n && |OpsBefore(env, events, EventAt(env, events, n, q))| == q
  {
    assert n > 0;
    OpsCases(env, events, n - 1, q);
    if q < |OpsBefore(env, events, n - 1)| {
      EventPlace(env, events, n - 1, q);
    }
  }

  /** Later steps belong to later events. */
  lemma EventsInOrder(env: Env, events: seq<Event>, n: nat, q: nat, r: nat)
    requires n <= |events| && q < r < |OpsBefore(env, events, n)|
    ensures EventAt(env, events, n, q) < EventAt(env, events, n, r)
  {
    EventPlace(env, events, n, q);
    EventPlace(env, events, n, r);
    if EventAt(env, events, n, r) <= EventAt(env, events, n, q) {
      OpsGrow(env, events, EventAt(env, events, n, r), EventAt(env, events, n, q));
    }
  }

  /** `lines` were delivered one after another by the events `at`, none of them on behalf of client `id`. */
  ghost predicate DeliveredBy(env: Env, events: seq<Event>, lines: seq<string>, at: seq<nat>, id: Fan.ClientId) {
    && |at| == |lines|
    && (forall k :: 0 <= k < |at| ==> DeliveredAt(env, events, at[k], lines[k], id))
    && (forall k, m :: 0 <= k < m < |at| ==> at[k] < at[m])
  }

  lemma EventsOfBroadcasts(env: Env, events: seq<Event>, lines: seq<string>, steps: seq<nat>, id: Fan.ClientId)
    returns (at: seq<nat>)
    requires Fan.SentByOthers(OpsBefore(env, events, |events|), lines, steps, id)
    ensures DeliveredBy(env, events, lines, at, id)
  {
    var n, ops := |events|, OpsBefore(env, events, |events|);
    at := seq(|steps|, k requires 0 <= k < |steps| => EventAt(env, events, n, steps[k]));
    forall k | 0 <= k < |at|
      ensures steps[k] < |ops| && DeliveredAt(env, events, at[k], lines[k], id)
    {
      assert Fan.FromAnother(ops, steps[k], lines[k], id);
      BroadcastWasDelivered(env, events, n, steps[k], id);
    }
    forall k, m | 0 <= k < m < |at|
      ensures at[k] < at[m]
    {
      EventsInOrder(env, events, n, steps[k], steps[m]);
    }
  }

  /** What a client has drained and still has waiting was delivered, line by line and in this order, on behalf of others. */
  lemma ClientSeesDeliveries(env: Env, events: seq<Event>, id: Fan.ClientId) returns (at: seq<nat>)
    requires id < |Run(env, events).roster.records|
    ensures var c := Run(env, events).roster.records[id];
      DeliveredBy(env, events, c.drained + c.queue, at, id)
  {
    RosterIsFanOutRun(env, events);
    var ops := FanOutOf(env, events);
    var steps := Fan.NoEcho(ops, id);
    assert events[..|events|] == events;
    var c := Run(env, events).roster.records[id];
    at := EventsOfBroadcasts(env, events, c.drained + c.queue, steps, id);
  }

  /**
    No client is ever sent one transmission twice within the window: two of its lines with equal
    source, destination and trimmed payload were delivered more than a window of effective time apart.
  */
  lemma NoClientSeesTwins(env: Env, events: seq<Event>, id: Fan.ClientId, a: nat, b: nat) returns (i: nat, j: nat)
    requires ValidRun(env, events) && id < |Run(env, events).roster.records|
    requires var c := Run(env, events).roster.records[id];
      var lines := c.drained + c.queue;
      && a < b < |lines| && Parse(lines[a]).Ok? && Parse(lines[b]).Ok?
      && SameTransmission(Parse(lines[a]).value, Parse(lines[b]).value)
    ensures i < j < |events|
    ensures var c := Run(env, events).roster.records[id];
      var lines := c.drained + c.queue;
      DeliveredAt(env, events, i, lines[a], id) && DeliveredAt(env, events, j, lines[b], id)
    ensures EffectiveTime(events, j) >= EffectiveTime(events, i) + env.window + 1
  {
    var c := Run(env, events).roster.records[id];
    var lines := c.drained + c.queue;
    var at := ClientSeesDeliveries(env, events, id);
    i, j := at[a], at[b];
    assert DeliveredAt(env, events, i, lines[a], id) && DeliveredAt(env, events, j, lines[b], id);
    DeliveriesApart(env, events, i, j);
  }
}
