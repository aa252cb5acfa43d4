/**
  Fan-out as a state machine over every client that ever connected: what each step does to
  the clients' queues and counters, and what any run of steps guarantees.
*/
module Fanout {
  import opened Wrappers
  import opened Filter

  type ClientId = nat

  datatype PortKind = FullFeed | Igate | UdpSubmit | DupeFeed

  /** One line a client's filter accepted, and whether its queue had room for it. */
  datatype Attempt = Attempt(line: string, queued: bool)

  /** What a client keeps from its login and never changes. */
  datatype Profile = Profile(
    remote: string,
    listener: string,
    software: Option<string>,
    verified: bool,
    connectedAt: nat,
    sessionId: Option<int>)

  datatype ClientState = ClientState(
    callsign: string,
    profile: Profile,
    kind: PortKind,
    chain: FilterChain,
    locked: bool,
    capacity: nat,
    open: bool,
    queue: seq<string>,
    drained: seq<string>,
    log: seq<Attempt>,
    sent: nat,
    dropped: nat,
    bytesSent: nat)

  /** A packet on its way to the clients: its line, who sent it, and which filters it hits for whom. */
  datatype Offer = Offer(line: string, origin: Option<ClientId>, hit: (string, Filter) -> bool)

  predicate Accepts(c: ClientState, offer: Offer) {
    match c.kind
    case FullFeed => true
    case UdpSubmit | DupeFeed => false
    case Igate => ChainMatches(c.chain, f => offer.hit(c.callsign, f))
  }

  predicate HasRoom(c: ClientState) {
    c.open && |c.queue| < c.capacity
  }

  /** What the writer puts on the wire: the line and its CR/LF. */
  function WireBytes(line: string): nat {
    |line| + 2
  }

  /** Queue an accepted line, or count it dropped. */
  function Sent(c: ClientState, line: string): ClientState {
    if HasRoom(c) then
      c.(queue := c.queue + [line], log := c.log + [Attempt(line, true)],
         sent := c.sent + 1, bytesSent := c.bytesSent + WireBytes(line))
    else
      c.(log := c.log + [Attempt(line, false)], dropped := c.dropped + 1)
  }

  function Offered(c: ClientState, offer: Offer): ClientState {
    if Accepts(c, offer) then Sent(c, offer.line) else c
  }

  /** Every client ever registered, by id, which of them are connected, and the server-wide totals. */
  datatype Roster = Roster(records: seq<ClientState>, live: set<ClientId>, sent: nat, dropped: nat, bytesSent: nat)

  predicate Addressed(r: Roster, offer: Offer, id: ClientId) {
    id in r.live && Some(id) != offer.origin
  }

  function OfferedTo(r: Roster, offer: Offer, id: ClientId): ClientState
    requires id < |r.records|
  {
    if Addressed(r, offer, id) then Offered(r.records[id], offer) else r.records[id]
  }

  function OfferedAll(r: Roster, offer: Offer): (records: seq<ClientState>)
    ensures |records| == |r.records| && forall id :: 0 <= id < |records| ==> records[id] == OfferedTo(r, offer, id)
  {
    seq(|r.records|, id requires 0 <= id < |r.records| => OfferedTo(r, offer, id))
  }

  function SumSent(records: seq<ClientState>): nat {
    if records == [] then 0 else SumSent(records[..|records| - 1]) + records[|records| - 1].sent
  }

  function SumDropped(records: seq<ClientState>): nat {
    if records == [] then 0 else SumDropped(records[..|records| - 1]) + records[|records| - 1].dropped
  }

  function SumBytes(records: seq<ClientState>): nat {
    if records == [] then 0 else SumBytes(records[..|records| - 1]) + records[|records| - 1].bytesSent
  }

  function SumAccepted(records: seq<ClientState>): nat {
    if records == [] then 0 else SumAccepted(records[..|records| - 1]) + |records[|records| - 1].log|
  }

  /** The clients below `n` that queue the line, and those that lose it. */
  function Takers(r: Roster, offer: Offer, n: nat): nat
    requires n <= |r.records|
  {
    if n == 0 then 0
    else Takers(r, offer, n - 1) +
         if Addressed(r, offer, n - 1) && Accepts(r.records[n - 1], offer) && HasRoom(r.records[n - 1]) then 1 else 0
  }

  function Losers(r: Roster, offer: Offer, n: nat): nat
    requires n <= |r.records|
  {
    if n == 0 then 0
    else Losers(r, offer, n - 1) +
         if Addressed(r, offer, n - 1) && Accepts(r.records[n - 1], offer) && !HasRoom(r.records[n - 1]) then 1 else 0
  }

  datatype Registration = Registration(callsign: string, profile: Profile, kind: PortKind, chain: FilterChain, locked: bool, capacity: nat)

  function Joined(g: Registration): ClientState {
    ClientState(g.callsign, g.profile, g.kind, g.chain, g.locked, g.capacity, true, [], [], [], 0, 0, 0)
  }

  function Drained(c: ClientState, n: nat): ClientState {
    var k := if n < |c.queue| then n else |c.queue|;
    c.(queue := c.queue[k..], drained := c.drained + c.queue[..k])
  }

  datatype Op =
    | Insert(registration: Registration)
    | Remove(id: ClientId)
    | SetFilter(id: ClientId, chain: FilterChain)
    | Broadcast(offer: Offer)
    | Drain(id: ClientId, count: nat)
    | Close(id: ClientId)

  function WithRecord(r: Roster, id: ClientId, c: ClientState): Roster
    requires id < |r.records|
  {
    r.(records := r.records[id := c])
  }

  function Step(r: Roster, op: Op): Roster {
    match op
    case Insert(g) => r.(records := r.records + [Joined(g)], live := r.live + {|r.records|})
    case Remove(id) => r.(live := r.live - {id})
    case SetFilter(id, chain) =>
      if id < |r.records| && !r.records[id].locked then WithRecord(r, id, r.records[id].(chain := chain)) else r
    case Broadcast(offer) =>
      var taken, lost := Takers(r, offer, |r.records|), Losers(r, offer, |r.records|);
      Roster(OfferedAll(r, offer), r.live, r.sent + taken, r.dropped + lost,
             r.bytesSent + taken * WireBytes(offer.line))
    case Drain(id, n) =>
      if id < |r.records| then WithRecord(r, id, Drained(r.records[id], n)) else r
    case Close(id) =>
      if id < |r.records| then WithRecord(r, id, r.records[id].(open := false)) else r
  }

  const EMPTY: Roster := Roster([], {}, 0, 0, 0)

  function Run(ops: seq<Op>): Roster {
    if ops == [] then EMPTY else Step(Run(ops[..|ops| - 1]), ops[|ops| - 1])
  }

  // ----- What every step keeps -----

  /** The lines that found room, in order. */
  function Queued(log: seq<Attempt>): seq<string> {
    if log == [] then []
    else Queued(log[..|log| - 1]) + if log[|log| - 1].queued then [log[|log| - 1].line] else []
  }

  function Bytes(lines: seq<string>): nat {
    if lines == [] then 0 else Bytes(lines[..|lines| - 1]) + WireBytes(lines[|lines| - 1])
  }

  /** Everything queued was accepted and is drained or still waiting, in order; counters agree; the queue is bounded. */
  ghost predicate ClientInv(c: ClientState) {
    && |c.queue| <= c.capacity
    && c.drained + c.queue == Queued(c.log)
    && c.sent == |Queued(c.log)| && c.sent + c.dropped == |c.log|
    && c.bytesSent == Bytes(Queued(c.log))
  }

  ghost predicate Inv(r: Roster) {
    && (forall id :: 0 <= id < |r.records| ==> ClientInv(r.records[id]))
    && (forall id :: id in r.live ==> id < |r.records|)
    && r.sent == SumSent(r.records) && r.dropped == SumDropped(r.records) && r.bytesSent == SumBytes(r.records)
  }

  lemma SentKeepsInv(c: ClientState, line: string)
    requires ClientInv(c)
    ensures ClientInv(Sent(c, line))
  {
    var next := Sent(c, line);
    assert next.log[..|next.log| - 1] == c.log;
    if HasRoom(c) {
      var lines := Queued(c.log) + [line];
      assert lines[..|lines| - 1] == Queued(c.log);
      assert c.drained + (c.queue + [line]) == (c.drained + c.queue) + [line];
    } else {
      assert Queued(c.log) + [] == Queued(c.log);
    }
  }

  lemma DrainedKeepsInv(c: ClientState, n: nat)
    requires ClientInv(c)
    ensures ClientInv(Drained(c, n))
  {
    var k := if n < |c.queue| then n else |c.queue|;
    assert c.queue[..k] + c.queue[k..] == c.queue;
    assert (c.drained + c.queue[..k]) + c.queue[k..] == c.drained + c.queue;
  }

  /** Changing one record changes the sums by that record's difference. */
  lemma {:induction false} SumUpdate(records: seq<ClientState>, id: nat, c: ClientState)
    requires id < |records|
    ensures SumSent(records[id := c]) + records[id].sent == SumSent(records) + c.sent
    ensures SumDropped(records[id := c]) + records[id].dropped == SumDropped(records) + c.dropped
    ensures SumBytes(records[id := c]) + records[id].bytesSent == SumBytes(records) + c.bytesSent
  {
    var n, next := |records| - 1, records[id := c];
    if id < n {
      assert next[..n] == records[..n][id := c];
      SumUpdate(records[..n], id, c);
    } else {
      assert next[..n] == records[..n];
    }
  }

  lemma TakeLess(s: seq<ClientState>, n: nat)
    requires 0 < n <= |s|
    ensures s[..n][..n - 1] == s[..n - 1]
  {
  }

  lemma {:induction false} BroadcastSent(r: Roster, offer: Offer, n: nat)
    requires n <= |r.records|
    ensures SumSent(OfferedAll(r, offer)[..n]) == SumSent(r.records[..n]) + Takers(r, offer, n)
  {
    if n > 0 {
      BroadcastSent(r, offer, n - 1);
      TakeLess(r.records, n);
      TakeLess(OfferedAll(r, offer), n);
    }
  }

  lemma {:induction false} BroadcastDropped(r: Roster, offer: Offer, n: nat)
    requires n <= |r.records|
    ensures SumDropped(OfferedAll(r, offer)[..n]) == SumDropped(r.records[..n]) + Losers(r, offer, n)
  {
    if n > 0 {
      BroadcastDropped(r, offer, n - 1);
      TakeLess(r.records, n);
      TakeLess(OfferedAll(r, offer), n);
    }
  }

  lemma {:induction false} BroadcastBytes(r: Roster, offer: Offer, n: nat)
    requires n <= |r.records|
    ensures SumBytes(OfferedAll(r, offer)[..n]) ==
            SumBytes(r.records[..n]) + Takers(r, offer, n) * WireBytes(offer.line)
  {
    if n > 0 {
      BroadcastBytes(r, offer, n - 1);
      TakeLess(r.records, n);
      TakeLess(OfferedAll(r, offer), n);
      Distribute(Takers(r, offer, n - 1), WireBytes(offer.line));
    }
  }

  /** A broadcast adds to the sums exactly the clients that took, and that lost, the line. */
  lemma BroadcastSums(r: Roster, offer: Offer)
    ensures var after, n := OfferedAll(r, offer), |r.records|;
      && SumSent(after) == SumSent(r.records) + Takers(r, offer, n)
      && SumDropped(after) == SumDropped(r.records) + Losers(r, offer, n)
      && SumBytes(after) == SumBytes(r.records) + Takers(r, offer, n) * WireBytes(offer.line)
  {
    var n := |r.records|;
    BroadcastSent(r, offer, n);
    BroadcastDropped(r, offer, n);
    BroadcastBytes(r, offer, n);
    assert r.records[..n] == r.records && OfferedAll(r, offer)[..n] == OfferedAll(r, offer);
  }

  lemma Distribute(a: nat, b: nat)
    ensures (a + 1) * b == a * b + b
  {
  }

  lemma OfferedKeepsInv(r: Roster, offer: Offer, id: ClientId)
    requires id < |r.records| && ClientInv(r.records[id])
    ensures ClientInv(OfferedTo(r, offer, id))
  {
    SentKeepsInv(r.records[id], offer.line);
  }

  lemma BroadcastKeepsInv(r: Roster, offer: Offer)
    requires Inv(r)
    ensures Inv(Step(r, Broadcast(offer)))
  {
    BroadcastSums(r, offer);
    forall id | 0 <= id < |r.records|
      ensures ClientInv(OfferedTo(r, offer, id))
    {
      OfferedKeepsInv(r, offer, id);
    }
  }

  lemma RecordKeepsInv(r: Roster, id: ClientId, c: ClientState)
    requires Inv(r) && id < |r.records| && ClientInv(c)
    requires var b := r.records[id]; c.sent == b.sent && c.dropped == b.dropped && c.bytesSent == b.bytesSent
    ensures Inv(WithRecord(r, id, c))
  {
    SumUpdate(r.records, id, c);
  }

  lemma InsertKeepsInv(r: Roster, g: Registration)
    requires Inv(r)
    ensures Inv(Step(r, Insert(g)))
  {
    var records := r.records + [Joined(g)];
    assert records[..|records| - 1] == r.records;
  }

  lemma StepKeepsInv(r: Roster, op: Op)
    requires Inv(r)
    ensures Inv(Step(r, op))
  {
    match op
    case Insert(g) => InsertKeepsInv(r, g);
    case Remove(id) =>
    case SetFilter(id, chain) =>
      if id < |r.records| {
        RecordKeepsInv(r, id, r.records[id].(chain := chain));
      }
    case Broadcast(offer) => BroadcastKeepsInv(r, offer);
    case Drain(id, n) =>
      if id < |r.records| {
        DrainedKeepsInv(r.records[id], n);
        RecordKeepsInv(r, id, Drained(r.records[id], n));
      }
    case Close(id) =>
      if id < |r.records| {
        RecordKeepsInv(r, id, r.records[id].(open := false));
      }
  }

  lemma {:induction false} RunKeepsInv(ops: seq<Op>)
    ensures Inv(Run(ops))
  {
    if ops != [] {
      RunKeepsInv(ops[..|ops| - 1]);
      StepKeepsInv(Run(ops[..|ops| - 1]), ops[|ops| - 1]);
    }
  }

  // ----- What any run guarantees -----

  lemma {:induction false} SumsAdd(records: seq<ClientState>)
    requires forall id :: 0 <= id < |records| ==> ClientInv(records[id])
    ensures SumAccepted(records) == SumSent(records) + SumDropped(records)
  {
    if records != [] {
      SumsAdd(records[..|records| - 1]);
    }
  }

  /** In total, every accepted line was either sent or dropped. */
  lemma AcceptedIsSentPlusDropped(ops: seq<Op>)
    ensures SumAccepted(Run(ops).records) == Run(ops).sent + Run(ops).dropped
  {
    RunKeepsInv(ops);
    SumsAdd(Run(ops).records);
  }

  function Lines(log: seq<Attempt>): (r: seq<string>)
    ensures |r| == |log| && forall i :: 0 <= i < |r| ==> r[i] == log[i].line
  {
    seq(|log|, i requires 0 <= i < |log| => log[i].line)
  }

  /** The line step `op` offers client `id` and its filter in force accepts, if any. */
  function AcceptedBy(r: Roster, op: Op, id: ClientId): seq<string> {
    if op.Broadcast? && id < |r.records| && Addressed(r, op.offer, id) && Accepts(r.records[id], op.offer)
    then [op.offer.line] else []
  }

  /** All lines a run offered client `id` and its filter accepted, in order. */
  function AcceptedInRun(ops: seq<Op>, id: ClientId): seq<string> {
    if ops == [] then []
    else AcceptedInRun(ops[..|ops| - 1], id) + AcceptedBy(Run(ops[..|ops| - 1]), ops[|ops| - 1], id)
  }

  /** Nothing was accepted for a client before it existed, and its log is what was accepted since. */
  lemma {:induction false} LogIsAccepted(ops: seq<Op>, id: ClientId)
    ensures id < |Run(ops).records| ==> Lines(Run(ops).records[id].log) == AcceptedInRun(ops, id)
    ensures id >= |Run(ops).records| ==> AcceptedInRun(ops, id) == []
  {
    if ops != [] {
      var before, op := Run(ops[..|ops| - 1]), ops[|ops| - 1];
      LogIsAccepted(ops[..|ops| - 1], id);
      LogGrows(before, op, id);
    }
  }

  lemma LogGrows(r: Roster, op: Op, id: ClientId)
    ensures |Step(r, op).records| >= |r.records|
    ensures id < |Step(r, op).records| ==>
      Lines(Step(r, op).records[id].log) ==
      (if id < |r.records| then Lines(r.records[id].log) else []) + AcceptedBy(r, op, id)
    ensures id >= |r.records| ==> AcceptedBy(r, op, id) == []
  {
  }

  /** `a` is what remains of `b` after striking out some elements; `at` says which were kept. */
  ghost predicate KeptAt(a: seq<string>, b: seq<string>, at: seq<nat>) {
    && |at| == |a|
    && (forall k :: 0 <= k < |at| ==> at[k] < |b| && a[k] == b[at[k]])
    && (forall k, m :: 0 <= k < m < |at| ==> at[k] < at[m])
  }

  lemma KeepNext(a: seq<string>, b: seq<string>, at: seq<nat>, line: string)
    requires KeptAt(a, b, at)
    ensures KeptAt(a + [line], b + [line], at + [|b|]) && KeptAt(a, b + [line], at)
  {
  }

  lemma {:induction false} QueuedIsSubsequence(log: seq<Attempt>) returns (at: seq<nat>)
    ensures KeptAt(Queued(log), Lines(log), at)
  {
    at := [];
    if log != [] {
      var n := |log| - 1;
      at := QueuedIsSubsequence(log[..n]);
      assert Lines(log) == Lines(log[..n]) + [log[n].line];
      KeepNext(Queued(log[..n]), Lines(log[..n]), at, log[n].line);
      if log[n].queued {
        at := at + [n];
      } else {
        assert Queued(log) == Queued(log[..n]);
      }
    }
  }

  /**
    Each client's drained and waiting lines are an in-order subsequence of the lines its filter
    accepted; the rest were dropped and counted, and the queue never outgrew its capacity.
  */
  lemma DeliveredInOrder(ops: seq<Op>, id: ClientId) returns (at: seq<nat>)
    requires id < |Run(ops).records|
    ensures var c := Run(ops).records[id];
      && KeptAt(c.drained + c.queue, AcceptedInRun(ops, id), at)
      && c.sent + c.dropped == |AcceptedInRun(ops, id)| && c.sent == |at|
      && |c.queue| <= c.capacity && c.bytesSent == Bytes(c.drained + c.queue)
  {
    RunKeepsInv(ops);
    LogIsAccepted(ops, id);
    at := QueuedIsSubsequence(Run(ops).records[id].log);
  }

  /** Step `i` of a run broadcast `line` while client `id` was connected, and not on its behalf. */
  ghost predicate FromAnother(ops: seq<Op>, i: nat, line: string, id: ClientId) {
    && i < |ops| && ops[i].Broadcast? && ops[i].offer.line == line && ops[i].offer.origin != Some(id)
    && id in Run(ops[..i]).live
  }

  /** The lines `lines` were broadcast one after another by the steps `at`, none of them on behalf of client `id`. */
  ghost predicate SentByOthers(ops: seq<Op>, lines: seq<string>, at: seq<nat>, id: ClientId) {
    && |at| == |lines|
    && (forall k :: 0 <= k < |at| ==> FromAnother(ops, at[k], lines[k], id))
    && (forall k, m :: 0 <= k < m < |at| ==> at[k] < at[m])
  }

  lemma FromAnotherStays(before: seq<Op>, op: Op, i: nat, line: string, id: ClientId)
    requires FromAnother(before, i, line, id)
    ensures FromAnother(before + [op], i, line, id)
  {
    assert (before + [op])[..i] == before[..i];
  }

  lemma SentByOthersStays(before: seq<Op>, op: Op, lines: seq<string>, at: seq<nat>, id: ClientId)
    requires SentByOthers(before, lines, at, id)
    ensures SentByOthers(before + [op], lines, at, id)
  {
    forall k | 0 <= k < |at|
      ensures FromAnother(before + [op], at[k], lines[k], id)
    {
      FromAnotherStays(before, op, at[k], lines[k], id);
    }
  }

  lemma AcceptedFromAnother(before: seq<Op>, op: Op, id: ClientId)
    requires AcceptedBy(Run(before), op, id) != []
    ensures FromAnother(before + [op], |before|, AcceptedBy(Run(before), op, id)[0], id)
  {
    assert (before + [op])[..|before|] == before;
  }

  lemma SentByOthersMore(ops: seq<Op>, lines: seq<string>, at: seq<nat>, id: ClientId, i: nat, line: string)
    requires SentByOthers(ops, lines, at, id) && FromAnother(ops, i, line, id)
    requires forall k :: 0 <= k < |at| ==> at[k] < i
    ensures SentByOthers(ops, lines + [line], at + [i], id)
  {
    forall k | 0 <= k < |at + [i]|
      ensures FromAnother(ops, (at + [i])[k], (lines + [line])[k], id)
    {
      if k < |at| {
        assert FromAnother(ops, at[k], lines[k], id);
      }
    }
  }

  /** Every line a run offers a client comes from a broadcast of its own, on behalf of someone else. */
  lemma {:induction false} AcceptedFromOthers(ops: seq<Op>, id: ClientId) returns (at: seq<nat>)
    ensures SentByOthers(ops, AcceptedInRun(ops, id), at, id)
  {
    at := [];
    if ops != [] {
      var n := |ops| - 1;
      at := AcceptedFromOthers(ops[..n], id);
      assert ops == ops[..n] + [ops[n]];
      var lines, more := AcceptedInRun(ops[..n], id), AcceptedBy(Run(ops[..n]), ops[n], id);
      assert forall k :: 0 <= k < |at| ==> FromAnother(ops[..n], at[k], lines[k], id);
      SentByOthersStays(ops[..n], ops[n], lines, at, id);
      if more != [] {
        AcceptedFromAnother(ops[..n], ops[n], id);
        SentByOthersMore(ops, lines, at, id, n, more[0]);
        assert more == [more[0]];
        at := at + [n];
      } else {
        assert lines + more == lines;
      }
    }
  }

  /**
    No echo, over whole runs: what a client has drained and still has waiting was broadcast, line by
    line and in this order, on behalf of others and while the client was connected.
  */
  lemma NoEcho(ops: seq<Op>, id: ClientId) returns (at: seq<nat>)
    requires id < |Run(ops).records|
    ensures var c := Run(ops).records[id];
      SentByOthers(ops, c.drained + c.queue, at, id)
  {
    var accepted := AcceptedInRun(ops, id);
    var kept := DeliveredInOrder(ops, id);
    var from := AcceptedFromOthers(ops, id);
    at := seq(|kept|, k requires 0 <= k < |kept| => if kept[k] < |from| then from[kept[k]] else 0);
  }

  lemma LockedStep(r: Roster, op: Op, id: ClientId)
    requires id < |r.records| && r.records[id].locked
    ensures id < |Step(r, op).records| && Step(r, op).records[id].locked
    ensures Step(r, op).records[id].chain == r.records[id].chain
  {
  }

  /** A port's forced filter stays in force whatever happens. */
  lemma {:induction false} LockedFilterStays(ops: seq<Op>, i: nat, id: ClientId)
    requires i <= |ops| && id < |Run(ops[..i]).records| && Run(ops[..i]).records[id].locked
    ensures id < |Run(ops).records| && Run(ops).records[id].locked
    ensures Run(ops).records[id].chain == Run(ops[..i]).records[id].chain
  {
    if i == |ops| {
      assert ops[..i] == ops;
    } else {
      var n := |ops| - 1;
      assert ops[..n][..i] == ops[..i];
      LockedFilterStays(ops[..n], i, id);
      LockedStep(Run(ops[..n]), ops[n], id);
    }
  }

  // ----- What becomes of a registration -----

  /** The record is that of registration `g`, with this filter chain. */
  predicate RecordOf(c: ClientState, g: Registration, chain: FilterChain) {
    && c.callsign == g.callsign && c.profile == g.profile && c.kind == g.kind && c.locked == g.locked
    && c.capacity == g.capacity && c.chain == chain
  }

  lemma RecordStays(r: Roster, op: Op, id: ClientId, g: Registration)
    requires id < |r.records| && RecordOf(r.records[id], g, r.records[id].chain)
    ensures id < |Step(r, op).records|
    ensures var c, d := r.records[id], Step(r, op).records[id];
      && RecordOf(d, g, if op.SetFilter? && op.id == id && !g.locked then op.chain else c.chain)
      && (d.open <==> c.open && op != Close(id))
      && (id in Step(r, op).live <==> id in r.live && op != Remove(id))
  {
  }

  lemma DrainedFront(c: ClientState, n: nat)
    ensures var d := Drained(c, n);
      && d.drained + d.queue == c.drained + c.queue && c.drained <= d.drained
      && |d.queue| == if n < |c.queue| then |c.queue| - n else 0
  {
    var k := if n < |c.queue| then n else |c.queue|;
    assert c.queue[..k] + c.queue[k..] == c.queue;
    assert c.drained + c.queue == (c.drained + c.queue[..k]) + c.queue[k..];
  }

  /** The writer takes lines off the front of the queue, as many as it asks for and there are. */
  lemma DrainTakes(ops: seq<Op>, id: ClientId, n: nat)
    requires id < |Run(ops).records|
    ensures var c, d := Run(ops).records[id], Run(ops + [Drain(id, n)]).records[id];
      && d.drained + d.queue == c.drained + c.queue && c.drained <= d.drained
      && |d.queue| == if n < |c.queue| then |c.queue| - n else 0
  {
    assert (ops + [Drain(id, n)])[..|ops|] == ops;
    DrainedFront(Run(ops).records[id], n);
  }
}
