/** Safety of whole runs of the server: packets submitted, clients coming and going, positions swept. */
module DispatchRuns {
  import opened Wrappers
  import opened Packet
  import opened Transmission
  import opened Dispatch
  import Callsign
  import Q = QConstruct
  import Pr = QProperties
  import Rw = QRewrite
  import D = DupeCheck
  import H = DupeHistory
  import P = PositionCache
  import Fan = Fanout

  datatype Event =
    | Submit(ingest: Ingest, now: nat)
    | Client(op: Fan.Op)
    | Sweep(before: int)

  const INITIAL: World := World(Counters(0, 0, 0, 0, 0, 0), [], map[], Fan.EMPTY)

  /** One event; only submitted packets are ever broadcast. */
  function Next(env: Env, w: World, e: Event): World {
    match e
    case Submit(ingest, now) => Processed(env, w, ingest, now).world
    case Client(op) => if op.Broadcast? then w else w.(roster := Fan.Step(w.roster, op))
    case Sweep(before) => w.(entries := P.Evicted(w.entries, before))
  }

  function Run(env: Env, events: seq<Event>): World {
    if events == [] then INITIAL else Next(env, Run(env, events[..|events| - 1]), events[|events| - 1])
  }

  /** The verdict on event `i` of a run. */
  function Verdict(env: Env, events: seq<Event>, i: nat): Option<Disposition>
    requires i < |events|
  {
    match events[i]
    case Submit(ingest, now) => Some(Processed(env, Run(env, events[..i]), ingest, now).disposition)
    case Client(_) => None
    case Sweep(_) => None
  }

  /** A verified submission whose line is a packet: one the duplicate checker gets to see. */
  predicate Reaches(e: Event) {
    e.Submit? && e.ingest.verified && Parse(e.ingest.line).Ok?
  }

  /** The latest time of submission among those of the leading `n` events that reach the duplicate checker. */
  function Latest(events: seq<Event>, n: nat): nat
    requires n <= |events|
  {
    if n == 0 then 0
    else if Reaches(events[n - 1]) && Latest(events, n - 1) < events[n - 1].now then events[n - 1].now
    else Latest(events, n - 1)
  }

  /** The time event `i` is judged at: clocks that run backwards are not followed. */
  function EffectiveTime(events: seq<Event>, i: nat): nat
    requires i < |events|
  {
    Latest(events, i + 1)
  }

  /** It is the greatest submission time up to event `i`: no time exceeds it, and it is zero or one of them. */
  lemma {:induction false} LatestIsGreatest(events: seq<Event>, n: nat)
    requires n <= |events|
    ensures forall k :: 0 <= k < n && Reaches(events[k]) ==> events[k].now <= Latest(events, n)
    ensures Latest(events, n) == 0 || exists k :: 0 <= k < n && Reaches(events[k]) && events[k].now == Latest(events, n)
  {
    if n > 0 {
      LatestIsGreatest(events, n - 1);
    }
  }

  ghost predicate ValidRun(env: Env, events: seq<Event>) {
    && Callsign.IsLogin(env.serverId)
    && forall i :: 0 <= i < |events| && events[i].Submit? ==> Callsign.IsLogin(events[i].ingest.login)
  }

  lemma RunStep(env: Env, events: seq<Event>, i: nat)
    requires i < |events|
    ensures Run(env, events[..i + 1]) == Next(env, Run(env, events[..i]), events[i])
  {
    assert events[..i + 1][..i] == events[..i];
  }

  // ----- Conservation of the counters -----

  function DeliveredIn(env: Env, events: seq<Event>): nat {
    if events == [] then 0
    else
      var n := |events| - 1;
      var v := Verdict(env, events, n);
      DeliveredIn(env, events[..n]) + if v.Some? && v.value.Delivered? then 1 else 0
  }

  /** The verified submissions whose line is no packet at all. */
  function BadLines(events: seq<Event>): nat {
    if events == [] then 0
    else
      var e := events[|events| - 1];
      BadLines(events[..|events| - 1]) +
      if e.Submit? && e.ingest.verified && Parse(e.ingest.line).Err? then 1 else 0
  }

  /** The books balance, given how many packets were delivered and how many lines were malformed. */
  ghost predicate Balanced(env: Env, w: World, delivered: nat, badLines: nat) {
    var c := w.counters;
    && c.received == c.unverified + c.invalid + c.duplicate + c.rejected + delivered
    && c.duplicate + |D.Replay(w.calls, env.window).admitted| == |w.calls|
    && |w.calls| + c.unverified + badLines == c.received
  }

  lemma CallRecorded(calls: seq<D.Call>, window: nat, call: D.Call)
    ensures D.Replay(calls + [call], window) == D.Record(D.Replay(calls, window), window, call)
  {
    assert (calls + [call])[..|calls|] == calls;
  }

  /** A relayed packet is counted once, and the duplicate account stays as it is. */
  lemma RelayCounted(env: Env, w: World, ingest: Ingest, p: Tnc2Packet, now: nat)
    ensures var o := Relayed(env, w, ingest, p, now);
      var d := if o.disposition.Delivered? then 1 else 0;
      && o.world.calls == w.calls
      && o.world.counters.received == w.counters.received && o.world.counters.unverified == w.counters.unverified
      && o.world.counters.duplicate == w.counters.duplicate
      && o.world.counters.invalid + o.world.counters.rejected + d == w.counters.invalid + w.counters.rejected + 1
  {
  }

  lemma JudgeBalanced(env: Env, w: World, ingest: Ingest, p: Tnc2Packet, now: nat, delivered: nat, badLines: nat)
    requires Balanced(env, w, delivered, badLines)
    ensures var o := Judged(env, Counted(w, |ingest.line| + 2), ingest, p, now);
      Balanced(env, o.world, delivered + (if o.disposition.Delivered? then 1 else 0), badLines)
  {
    var call := CallOf(env, p, now);
    CallRecorded(w.calls, env.window, call);
    RelayCounted(env, Counted(w, |ingest.line| + 2).(calls := w.calls + [call]), ingest, p, now);
  }

  lemma SubmitBalanced(env: Env, w: World, ingest: Ingest, now: nat, delivered: nat, badLines: nat)
    requires Balanced(env, w, delivered, badLines)
    ensures var o := Processed(env, w, ingest, now);
      Balanced(env, o.world,
               delivered + (if o.disposition.Delivered? then 1 else 0),
               badLines + (if ingest.verified && Parse(ingest.line).Err? then 1 else 0))
  {
    if ingest.verified && Parse(ingest.line).Ok? {
      JudgeBalanced(env, w, ingest, Parse(ingest.line).value, now, delivered, badLines);
    }
  }

  /**
    Every packet received is accounted for once: unverified, invalid, duplicate, rejected or
    delivered.  The duplicate counter is the checker's, and the checker saw everything received
    except unverified senders and malformed lines.
  */
  lemma {:induction false} CountersBalance(env: Env, events: seq<Event>)
    ensures Balanced(env, Run(env, events), DeliveredIn(env, events), BadLines(events))
  {
    if events != [] {
      var n := |events| - 1;
      CountersBalance(env, events[..n]);
      if events[n].Submit? {
        SubmitBalanced(env, Run(env, events[..n]), events[n].ingest, events[n].now,
                       DeliveredIn(env, events[..n]), BadLines(events[..n]));
      }
    }
  }

  function Tick(c: Counters, d: Disposition): Counters {
    match d
    case UnverifiedSender => c.(unverified := c.unverified + 1)
    case Invalid(_) => c.(invalid := c.invalid + 1)
    case Duplicate => c.(duplicate := c.duplicate + 1)
    case Rejected(_) => c.(rejected := c.rejected + 1)
    case Delivered(_, _) => c
  }

  function Received(c: Counters, line: string): Counters {
    c.(received := c.received + 1, bytesReceived := c.bytesReceived + Fan.WireBytes(line))
  }

  /** What an event adds to the counters, by its verdict. */
  function Counting(c: Counters, e: Event, verdict: Option<Disposition>): Counters {
    if e.Submit? && verdict.Some? then Tick(Received(c, e.ingest.line), verdict.value) else c
  }

  /** The submissions of a run and their bytes on the wire, counted by verdict. */
  function Tally(env: Env, events: seq<Event>, n: nat): Counters
    requires n <= |events|
  {
    if n == 0 then Counters(0, 0, 0, 0, 0, 0)
    else Counting(Tally(env, events, n - 1), events[n - 1], Verdict(env, events, n - 1))
  }

  lemma RelayTicks(env: Env, w: World, ingest: Ingest, p: Tnc2Packet, now: nat)
    ensures var o := Relayed(env, w, ingest, p, now);
      o.world.counters == Tick(w.counters, o.disposition)
  {
  }

  lemma JudgeTicks(env: Env, w: World, ingest: Ingest, p: Tnc2Packet, now: nat)
    ensures var o := Judged(env, w, ingest, p, now);
      o.world.counters == Tick(w.counters, o.disposition)
  {
    RelayTicks(env, w.(calls := w.calls + [CallOf(env, p, now)]), ingest, p, now);
  }

  lemma SubmitCounts(env: Env, w: World, ingest: Ingest, now: nat)
    ensures var o := Processed(env, w, ingest, now);
      o.world.counters == Tick(Received(w.counters, ingest.line), o.disposition)
  {
    var counted := Counted(w, |ingest.line| + 2);
    assert counted.counters == Received(w.counters, ingest.line);
    if ingest.verified && Parse(ingest.line).Ok? {
      JudgeTicks(env, counted, ingest, Parse(ingest.line).value, now);
    }
  }

  lemma OtherCounts(env: Env, w: World, e: Event)
    requires !e.Submit?
    ensures Next(env, w, e).counters == Counting(w.counters, e, None)
  {
  }

  lemma EventCounts(env: Env, events: seq<Event>, n: nat, w: World)
    requires n < |events| && w == Run(env, events[..n])
    ensures Run(env, events[..n + 1]).counters == Counting(w.counters, events[n], Verdict(env, events, n))
  {
    RunStep(env, events, n);
    if events[n].Submit? {
      SubmitCounts(env, w, events[n].ingest, events[n].now);
    } else {
      OtherCounts(env, w, events[n]);
    }
  }

  /** Every counter is exactly the number of submissions with its verdict. */
  lemma {:induction false} CountersAreTally(env: Env, events: seq<Event>, n: nat)
    requires n <= |events|
    ensures Run(env, events[..n]).counters == Tally(env, events, n)
  {
    if n > 0 {
      CountersAreTally(env, events, n - 1);
      EventCounts(env, events, n - 1, Run(env, events[..n - 1]));
    }
  }

  // ----- Unverified senders -----

  /** The worlds differ at most in how much was received, and from unverified senders. */
  ghost predicate Alike(a: World, b: World) {
    && a.calls == b.calls && a.entries == b.entries && a.roster == b.roster
    && a.counters.invalid == b.counters.invalid && a.counters.duplicate == b.counters.duplicate
    && a.counters.rejected == b.counters.rejected
  }

  /** An unverified sender leaves the duplicate account, the positions and the queues untouched. */
  lemma UnverifiedChangesNothing(env: Env, w: World, ingest: Ingest, now: nat)
    requires !ingest.verified
    ensures Alike(Processed(env, w, ingest, now).world, w)
  {
  }

  lemma RelayedAlike(env: Env, a: World, b: World, ingest: Ingest, p: Tnc2Packet, now: nat)
    requires Alike(a, b)
    ensures var x, y := Relayed(env, a, ingest, p, now), Relayed(env, b, ingest, p, now);
      x.disposition == y.disposition && Alike(x.world, y.world)
  {
  }

  lemma JudgedAlike(env: Env, a: World, b: World, ingest: Ingest, p: Tnc2Packet, now: nat)
    requires Alike(a, b)
    ensures var x, y := Judged(env, a, ingest, p, now), Judged(env, b, ingest, p, now);
      x.disposition == y.disposition && Alike(x.world, y.world)
  {
    var call := CallOf(env, p, now);
    RelayedAlike(env, a.(calls := a.calls + [call]), b.(calls := b.calls + [call]), ingest, p, now);
  }

  lemma ProcessedAlike(env: Env, a: World, b: World, ingest: Ingest, now: nat)
    requires Alike(a, b)
    ensures var x, y := Processed(env, a, ingest, now), Processed(env, b, ingest, now);
      x.disposition == y.disposition && Alike(x.world, y.world)
  {
    if ingest.verified && Parse(ingest.line).Ok? {
      var bytes := |ingest.line| + 2;
      JudgedAlike(env, Counted(a, bytes), Counted(b, bytes), ingest, Parse(ingest.line).value, now);
    }
  }

  lemma NextAlike(env: Env, a: World, b: World, e: Event)
    requires Alike(a, b)
    ensures Alike(Next(env, a, e), Next(env, b, e))
  {
    if e.Submit? {
      ProcessedAlike(env, a, b, e.ingest, e.now);
    }
  }

  predicate FromUnverified(e: Event) {
    e.Submit? && !e.ingest.verified
  }

  /** The events without the submissions of unverified senders. */
  function Trusted(events: seq<Event>): seq<Event> {
    if events == [] then []
    else
      var n := |events| - 1;
      if FromUnverified(events[n]) then Trusted(events[..n]) else Trusted(events[..n]) + [events[n]]
  }

  lemma SkippedAlike(env: Env, w: World, e: Event)
    requires FromUnverified(e)
    ensures Alike(Next(env, w, e), w)
  {
    UnverifiedChangesNothing(env, w, e.ingest, e.now);
  }

  lemma RunMore(env: Env, events: seq<Event>, e: Event)
    ensures Run(env, events + [e]) == Next(env, Run(env, events), e)
  {
    assert (events + [e])[..|events|] == events;
  }

  /** Striking out every unverified submission leaves a run's account, positions, queues and other counters as they are. */
  lemma {:induction false} UnverifiedDoNotMatter(env: Env, events: seq<Event>)
    ensures Alike(Run(env, events), Run(env, Trusted(events)))
  {
    if events != [] {
      var n := |events| - 1;
      var w, e := Run(env, events[..n]), events[n];
      UnverifiedDoNotMatter(env, events[..n]);
      if FromUnverified(e) {
        SkippedAlike(env, w, e);
      } else {
        RunMore(env, Trusted(events[..n]), e);
        NextAlike(env, w, Run(env, Trusted(events[..n])), e);
      }
    }
  }

  /** Where an event of another kind stands once they are struck out. */
  lemma {:induction false} TrustedPlace(events: seq<Event>, i: nat, n: nat)
    requires i < n <= |events| && !FromUnverified(events[i])
    ensures var kept, k := Trusted(events[..n]), |Trusted(events[..i])|;
      k < |kept| && kept[k] == events[i] && kept[..k] == Trusted(events[..i])
  {
    assert events[..n][..n - 1] == events[..n - 1];
    if i < n - 1 {
      TrustedPlace(events, i, n - 1);
    }
  }

  /** Nor does it change the verdict on any other event. */
  lemma OtherVerdictsStay(env: Env, events: seq<Event>, i: nat)
    requires i < |events| && !FromUnverified(events[i])
    ensures var kept, k := Trusted(events), |Trusted(events[..i])|;
      k < |kept| && kept[k] == events[i] && Verdict(env, kept, k) == Verdict(env, events, i)
  {
    assert events[..|events|] == events;
    TrustedPlace(events, i, |events|);
    UnverifiedDoNotMatter(env, events[..i]);
    if events[i].Submit? {
      ProcessedAlike(env, Run(env, events[..i]), Run(env, Trusted(events[..i])), events[i].ingest, events[i].now);
    }
  }

  // ----- Delivery safety -----

  /** Event `i` reached the duplicate checker with packet `p`. */
  ghost predicate Checked(events: seq<Event>, i: nat, p: Tnc2Packet)
    requires i < |events|
  {
    events[i].Submit? && events[i].ingest.verified && Parse(events[i].ingest.line) == Ok(p)
  }

  function CallsBefore(env: Env, events: seq<Event>, i: nat): seq<D.Call>
    requires i <= |events|
  {
    Run(env, events[..i]).calls
  }

  /** A checked event adds its call; any other adds none. */
  lemma CallsStep(env: Env, events: seq<Event>, i: nat)
    requires i < |events|
    ensures forall p :: Checked(events, i, p) ==>
      CallsBefore(env, events, i + 1) == CallsBefore(env, events, i) + [CallOf(env, p, events[i].now)]
    ensures (forall p :: !Checked(events, i, p)) ==> CallsBefore(env, events, i + 1) == CallsBefore(env, events, i)
  {
    RunStep(env, events, i);
    if events[i].Submit? && events[i].ingest.verified && Parse(events[i].ingest.line).Ok? {
      assert Checked(events, i, Parse(events[i].ingest.line).value);
    }
  }

  lemma {:induction false} CallsGrow(env: Env, events: seq<Event>, i: nat, j: nat)
    requires i <= j <= |events|
    ensures CallsBefore(env, events, i) <= CallsBefore(env, events, j)
    decreases j - i
  {
    if i < j {
      CallsGrow(env, events, i, j - 1);
      CallsStep(env, events, j - 1);
    }
  }

  function ClockBefore(env: Env, events: seq<Event>, n: nat): nat
    requires n <= |events|
  {
    D.Replay(CallsBefore(env, events, n), env.window).now
  }

  /** A clock moves forward only, to the times of the events that reach the checker. */
  function Advanced(clock: nat, e: Event): nat {
    if Reaches(e) && clock < e.now then e.now else clock
  }

  lemma ClockStep(env: Env, events: seq<Event>, n: nat)
    requires n < |events|
    ensures ClockBefore(env, events, n + 1) == Advanced(ClockBefore(env, events, n), events[n])
  {
    CallsStep(env, events, n);
    if Reaches(events[n]) {
      var p := Parse(events[n].ingest.line).value;
      assert Checked(events, n, p);
      CallRecorded(CallsBefore(env, events, n), env.window, CallOf(env, p, events[n].now));
    }
  }

  lemma {:induction false} ClocksAreLatest(events: seq<Event>, clocks: seq<nat>, n: nat)
    requires n < |clocks| == |events| + 1 && clocks[0] == 0
    requires forall k :: 0 < k < |clocks| ==> clocks[k] == Advanced(clocks[k - 1], events[k - 1])
    ensures clocks[n] == Latest(events, n)
  {
    if n > 0 {
      ClocksAreLatest(events, clocks, n - 1);
    }
  }

  /** The checker's clock is the latest submission time. */
  lemma ClockIsLatest(env: Env, events: seq<Event>, n: nat)
    requires n <= |events|
    ensures ClockBefore(env, events, n) == Latest(events, n)
  {
    var clocks := seq(|events| + 1, k requires 0 <= k <= |events| => ClockBefore(env, events, k));
    CallsAtFirst(env, events);
    forall k | 0 < k < |clocks|
      ensures clocks[k] == Advanced(clocks[k - 1], events[k - 1])
    {
      ClockStep(env, events, k - 1);
    }
    ClocksAreLatest(events, clocks, n);
  }

  /** The place of event `i`'s call in the account of the whole run. */
  lemma CallPlace(env: Env, events: seq<Event>, i: nat, p: Tnc2Packet, n: nat)
    requires i < n <= |events| && Checked(events, i, p)
    ensures var calls, k := CallsBefore(env, events, n), |CallsBefore(env, events, i)|;
      && k < |calls| && calls[k] == CallOf(env, p, events[i].now)
      && calls[..k] == CallsBefore(env, events, i) && calls[..k + 1] == CallsBefore(env, events, i + 1)
      && H.EffectiveTime(calls, env.window, k) == EffectiveTime(events, i)
      && (H.Duplicate(calls, env.window, k) <==> Verdict(env, events, i) == Some(Duplicate))
  {
    CallsStep(env, events, i);
    CallsGrow(env, events, i + 1, n);
    var calls, k := CallsBefore(env, events, n), |CallsBefore(env, events, i)|;
    assert calls[..k + 1] == CallsBefore(env, events, i + 1);
    assert calls[..k] == calls[..k + 1][..k] == CallsBefore(env, events, i);
    assert calls[k] == calls[..k + 1][k];
    ClockIsLatest(env, events, i + 1);
  }

  /** A delivered line is a packet of the source, destination and payload of the line submitted. */
  lemma DeliveredIsSame(env: Env, events: seq<Event>, i: nat)
    requires i < |events| && ValidRun(env, events)
    requires Verdict(env, events, i).Some? && Verdict(env, events, i).value.Delivered?
    ensures var submitted, sent := Parse(events[i].ingest.line), Parse(Verdict(env, events, i).value.line);
      && submitted.Ok? && Checked(events, i, submitted.value) && sent.Ok?
      && sent.value.source == submitted.value.source && sent.value.destination == submitted.value.destination
      && sent.value.payload == submitted.value.payload
  {
    Rw.RewrittenReparses(events[i].ingest.line, ContextOf(env, events[i].ingest));
  }

  /**
    In any run, two delivered lines of one transmission are more than a duplicate window of
    effective time apart.
  */
  lemma DeliveriesApart(env: Env, events: seq<Event>, i: nat, j: nat)
    requires i < j < |events| && ValidRun(env, events)
    requires Verdict(env, events, i).Some? && Verdict(env, events, i).value.Delivered?
    requires Verdict(env, events, j).Some? && Verdict(env, events, j).value.Delivered?
    requires var a, b := Parse(Verdict(env, events, i).value.line), Parse(Verdict(env, events, j).value.line);
      a.Ok? && b.Ok? && SameTransmission(a.value, b.value)
    ensures EffectiveTime(events, j) >= EffectiveTime(events, i) + env.window + 1
  {
    DeliveredIsSame(env, events, i);
    DeliveredIsSame(env, events, j);
    KeyIdentifies(Parse(Verdict(env, events, i).value.line).value, Parse(Verdict(env, events, j).value.line).value);
    var n := |events|;
    CallPlace(env, events, i, Parse(events[i].ingest.line).value, n);
    CallPlace(env, events, j, Parse(events[j].ingest.line).value, n);
    var calls := CallsBefore(env, events, n);
    CallsInOrder(env, events, i, j, Parse(events[i].ingest.line).value);
    H.AdmissionsApart(calls, env.window, |CallsBefore(env, events, i)|, |CallsBefore(env, events, j)|);
  }

  // ----- Exactness of the duplicate verdict -----

  ghost predicate Injective(digest: Key -> nat) {
    forall a, b :: digest(a) == digest(b) ==> a == b
  }

  /** The event behind call `k`. */
  lemma {:induction false} EventOfCall(env: Env, events: seq<Event>, n: nat, k: nat) returns (i: nat)
    requires n <= |events| && k < |CallsBefore(env, events, n)|
    ensures i < n && |CallsBefore(env, events, i)| == k && exists p :: Checked(events, i, p)
    decreases n
  {
    CallsAtFirst(env, events);
    i := n - 1;
    CallsStep(env, events, i);
    if k < |CallsBefore(env, events, i)| {
      i := EventOfCall(env, events, i, k);
    }
  }

  lemma CallsAtFirst(env: Env, events: seq<Event>)
    ensures CallsBefore(env, events, 0) == []
  {
    assert events[..0] == [];
  }

  /** Event `i` admitted the transmission of packet `p`, checked at event `j`, within the window before it. */
  ghost predicate AdmittedTwin(env: Env, events: seq<Event>, i: nat, j: nat, p: Tnc2Packet)
    requires i < j < |events|
  {
    && Verdict(env, events, i) != Some(Duplicate)
    && EffectiveTime(events, j) <= EffectiveTime(events, i) + env.window
    && exists q :: Checked(events, i, q) && SameTransmission(q, p)
  }

  /** With a collision-free digest a packet is called a duplicate exactly when it has an admitted twin. */
  lemma DuplicateIffAdmittedTwin(env: Env, events: seq<Event>, j: nat, p: Tnc2Packet)
    requires Injective(env.digest) && j < |events| && Checked(events, j, p)
    ensures Verdict(env, events, j) == Some(Duplicate) <==>
            exists i :: 0 <= i < j && AdmittedTwin(env, events, i, j, p)
  {
    var n := |events|;
    var calls, m := CallsBefore(env, events, n), |CallsBefore(env, events, j)|;
    CallPlace(env, events, j, p, n);
    H.DuplicateIffTwin(calls, env.window, m);
    if Verdict(env, events, j) == Some(Duplicate) {
      var k :| 0 <= k < m && H.Twin(calls, env.window, k, m);
      var i := EventOfCall(env, events, j, k);
      var q :| Checked(events, i, q);
      CallPlace(env, events, i, q, n);
      KeyIdentifies(q, p);
      assert AdmittedTwin(env, events, i, j, p);
    }
    if i :| 0 <= i < j && AdmittedTwin(env, events, i, j, p) {
      TwinCall(env, events, i, j, p);
    }
  }

  lemma TwinCall(env: Env, events: seq<Event>, i: nat, j: nat, p: Tnc2Packet)
    requires i < j < |events| && Checked(events, j, p) && AdmittedTwin(env, events, i, j, p)
    ensures Verdict(env, events, j) == Some(Duplicate)
  {
    var q :| Checked(events, i, q) && SameTransmission(q, p);
    KeyIdentifies(q, p);
    TwinCalls(env, events, i, j, q, p);
  }

  lemma TwinCalls(env: Env, events: seq<Event>, i: nat, j: nat, q: Tnc2Packet, p: Tnc2Packet)
    requires i < j < |events| && Checked(events, i, q) && Checked(events, j, p) && KeyOf(q) == KeyOf(p)
    requires Verdict(env, events, i) != Some(Duplicate)
    requires EffectiveTime(events, j) <= EffectiveTime(events, i) + env.window
    ensures Verdict(env, events, j) == Some(Duplicate)
  {
    var n := |events|;
    CallPlace(env, events, i, q, n);
    CallPlace(env, events, j, p, n);
    CallsInOrder(env, events, i, j, q);
    H.TwinIsDuplicate(CallsBefore(env, events, n), env.window, |CallsBefore(env, events, i)|, |CallsBefore(env, events, j)|);
  }

  lemma CallsInOrder(env: Env, events: seq<Event>, i: nat, j: nat, q: Tnc2Packet)
    requires i < j < |events| && Checked(events, i, q)
    ensures |CallsBefore(env, events, i)| < |CallsBefore(env, events, j)|
  {
    CallsStep(env, events, i);
    CallsGrow(env, events, i + 1, j);
  }

  /** A packet is no duplicate once every admission of its transmission is more than a window back. */
  lemma ExpiredIsNoDuplicate(env: Env, events: seq<Event>, j: nat, p: Tnc2Packet)
    requires Injective(env.digest) && j < |events| && Checked(events, j, p)
    requires forall i, q ::
      (0 <= i < j && Checked(events, i, q) && SameTransmission(q, p) && Verdict(env, events, i) != Some(Duplicate)) ==>
      events[j].now > EffectiveTime(events, i) + env.window
    ensures Verdict(env, events, j) != Some(Duplicate)
  {
    DuplicateIffAdmittedTwin(env, events, j, p);
    LatestIsGreatest(events, j + 1);
    assert Reaches(events[j]);
  }

  /** Nor is one whose source, destination or payload no earlier one had, white space at the end of a payload aside. */
  lemma DifferentIsNoDuplicate(env: Env, events: seq<Event>, j: nat, p: Tnc2Packet)
    requires Injective(env.digest) && j < |events| && Checked(events, j, p) && !EndsInSpace(p.payload)
    requires forall i, q :: 0 <= i < j && Checked(events, i, q) ==>
               !EndsInSpace(q.payload) && (q.source, q.destination, q.payload) != (p.source, p.destination, p.payload)
    ensures Verdict(env, events, j) != Some(Duplicate)
  {
    DuplicateIffAdmittedTwin(env, events, j, p);
    forall i, q | 0 <= i < j && Checked(events, i, q)
      ensures !SameTransmission(q, p)
    {
      UnpaddedIdentify(q, p);
    }
  }

  // ----- What a delivered line carries -----

  /** A submission as the q algorithm is to see it: this server, and the client's own login, passcode, transport and port. */
  function Submission(env: Env, ingest: Ingest): Q.QContext {
    Q.QContext(
      serverId := env.serverId, login := ingest.login, verified := ingest.verified,
      viaUdp := ingest.viaUdp, sendOnly := ingest.sendOnly)
  }

  /**
    A delivered line carries the path the q algorithm gave it, with a construct in it that is not
    the server-internal one.
  */
  lemma DeliveredIsStamped(env: Env, events: seq<Event>, i: nat)
    requires i < |events| && ValidRun(env, events)
    requires Verdict(env, events, i).Some? && Verdict(env, events, i).value.Delivered?
    ensures var p, d := Parse(events[i].ingest.line), Verdict(env, events, i).value;
      && p.Ok? && Parse(d.line).Ok?
      && var out := Q.ApplyClient(p.value.source, p.value.path, Submission(env, events[i].ingest));
      && out.Ok? && Parse(d.line).value.path == out.value.path && d.code == out.value.code
      && Q.FindQ(out.value.path).Some? && Q.FindQ(out.value.path).value.code != Q.Internal
  {
    var p, ctx := Parse(events[i].ingest.line).value, Submission(env, events[i].ingest);
    Rw.RewrittenReparses(events[i].ingest.line, ctx);
    Pr.EntryPointRecorded(p.source, p.path, ctx);
  }

  // ----- Positions -----

  /** What event `i` does to the position cache. */
  function PositionOps(env: Env, events: seq<Event>, i: nat): seq<P.Op>
    requires i < |events|
  {
    match events[i]
    case Client(_) => []
    case Sweep(before) => [P.Evict(before)]
    case Submit(_, now) =>
      match Verdict(env, events, i).value
      case Delivered(line, _) => ReportIn(env, line, now)
      case _ => []
  }

  /** The report a delivered line makes, if it is a position. */
  function ReportIn(env: Env, line: string, now: nat): seq<P.Op> {
    match Parse(line)
    case Err(_) => []
    case Ok(p) =>
      var parsed := env.classify(p);
      if parsed.position.None? then []
      else
        var heardAt := if now < 0x8000_0000_0000_0000 then now else 0x7fff_ffff_ffff_ffff;
        [P.Record(p.source, P.Report(parsed.position.value, parsed.symbol, heardAt))]
  }

  function ReportsOf(env: Env, events: seq<Event>, n: nat): seq<P.Op>
    requires n <= |events|
  {
    if n == 0 then [] else ReportsOf(env, events, n - 1) + PositionOps(env, events, n - 1)
  }

  lemma OneReport(entries: P.Entries, ops: seq<P.Op>, more: seq<P.Op>)
    requires entries == P.Replay(ops) && |more| <= 1
    ensures P.Replay(ops + more) == if more == [] then entries else P.Applied(entries, more[0])
  {
    if more == [] {
      assert ops + more == ops;
    } else {
      assert (ops + more)[..|ops|] == ops;
    }
  }

  lemma SubmitReports(env: Env, w: World, ingest: Ingest, now: nat)
    ensures var o := Processed(env, w, ingest, now);
      var more := if o.disposition.Delivered? then ReportIn(env, o.disposition.line, now) else [];
      o.world.entries == if more == [] then w.entries else P.Applied(w.entries, more[0])
  {
  }

  lemma EventReports(env: Env, events: seq<Event>, n: nat, before: P.Entries, more: seq<P.Op>)
    requires n < |events| && before == Run(env, events[..n]).entries && more == PositionOps(env, events, n)
    ensures |more| <= 1
    ensures Run(env, events[..n + 1]).entries == if more == [] then before else P.Applied(before, more[0])
  {
    RunStep(env, events, n);
    if events[n].Submit? {
      SubmitReports(env, Run(env, events[..n]), events[n].ingest, events[n].now);
    }
  }

  /** The position cache is a replay of the reports in the delivered lines, and of the sweeps, in order. */
  lemma {:induction false} PositionsAreReports(env: Env, events: seq<Event>, n: nat)
    requires n <= |events|
    ensures Run(env, events[..n]).entries == P.Replay(ReportsOf(env, events, n))
  {
    if n > 0 {
      var before, more := P.Replay(ReportsOf(env, events, n - 1)), PositionOps(env, events, n - 1);
      PositionsAreReports(env, events, n - 1);
      EventReports(env, events, n - 1, before, more);
      OneReport(before, ReportsOf(env, events, n - 1), more);
    }
  }
}
