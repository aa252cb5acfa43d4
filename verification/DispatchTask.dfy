/**
  The server in motion: started, fed by the dispatch task, and changed by the tasks of its clients.
  After any events it stands where the run of those events leaves it.
*/
module DispatchTask {
  import opened Wrappers
  import opened Dispatch
  import opened DispatchRuns
  import D = DupeCheck
  import Fan = Fanout
  import R = Registry
  import Sv = Server

  /** The server stands where the first `n` events leave it. */
  ghost predicate At(state: Sv.ServerState, dupecheck: D.DupeCheck, events: seq<Event>, n: nat)
    reads state.metrics, state.positions, state.registry, state.registry.everyone, dupecheck, dupecheck.buckets
  {
    && dupecheck.Valid() && dupecheck.window == state.env.window && state.registry.Valid()
    && n <= |events| && state.View(dupecheck) == Run(state.env, events[..n])
  }

  /** The server's own counters and the duplicate checker's agree, wherever it stands. */
  lemma CountersAgree(state: Sv.ServerState, dupecheck: D.DupeCheck, events: seq<Event>, n: nat)
    requires At(state, dupecheck, events, n)
    ensures state.metrics.packetsDuplicate == dupecheck.duplicates
    ensures dupecheck.checked + state.metrics.packetsUnverified + BadLines(events[..n]) == state.metrics.packetsReceived
  {
    CountersBalance(state.env, events[..n]);
  }

  /** A fresh server with a fresh duplicate checker: nothing has happened yet. */
  method Start(env: Env, windowSecs: nat, ghost events: seq<Event>) returns (state: Sv.ServerState, dupecheck: D.DupeCheck)
    ensures state.env == env.(window := D.Max(windowSecs, 1))
    ensures fresh(dupecheck) && fresh(dupecheck.buckets)
    ensures fresh(state) && fresh(state.metrics) && fresh(state.positions) && fresh(state.registry)
    ensures At(state, dupecheck, events, 0) && state.registry.everyone == []
  {
    dupecheck := new D.DupeCheck(windowSecs);
    state := new Sv.ServerState(env.(window := dupecheck.window));
    assert events[..0] == [];
  }

  /** One turn of the loop: event `n` of `events`. */
  method Turn(state: Sv.ServerState, dupecheck: D.DupeCheck, ingest: Ingest, now: nat, ghost events: seq<Event>, ghost n: nat)
    returns (verdict: Disposition)
    requires At(state, dupecheck, events, n) && n < |events| && events[n] == Submit(ingest, now)
    modifies dupecheck, dupecheck.buckets, state.metrics, state.positions, state.registry.everyone
    ensures At(state, dupecheck, events, n + 1)
    ensures Some(verdict) == Verdict(state.env, events, n)
  {
    RunStep(state.env, events, n);
    verdict := state.Process(ingest, dupecheck, now);
  }

  /** Process every ingest in turn; the server is then where the run of all events so far leaves it. */
  method Serve(state: Sv.ServerState, dupecheck: D.DupeCheck, inbox: seq<(Ingest, nat)>, ghost events: seq<Event>, ghost n: nat)
    requires At(state, dupecheck, events, n) && n + |inbox| == |events| && Submitted(inbox, events, n)
    modifies dupecheck, dupecheck.buckets, state.metrics, state.positions, state.registry.everyone
    ensures At(state, dupecheck, events, |events|)
  {
    for i := 0 to |inbox|
      invariant At(state, dupecheck, events, n + i)
    {
      var verdict := Turn(state, dupecheck, inbox[i].0, inbox[i].1, events, n + i);
    }
  }

  /** From event `n` on, `events` are the submissions waiting in the inbox, in order. */
  ghost predicate Submitted(inbox: seq<(Ingest, nat)>, events: seq<Event>, n: nat)
    requires n + |inbox| <= |events|
  {
    forall i :: 0 <= i < |inbox| ==> events[n + i] == Submit(inbox[i].0, inbox[i].1)
  }

  // ----- Clients come, change their filters, drain their queues and go -----

  /** What a client's tasks do; a broadcast is not theirs to make. */
  method ClientTurn(state: Sv.ServerState, dupecheck: D.DupeCheck, clients: seq<R.Client>, op: Fan.Op)
    returns (after: seq<R.Client>)
    requires state.registry.Valid() && clients == state.registry.everyone
    modifies state.registry, clients
    ensures state.registry.Valid() && after == state.registry.everyone
    ensures after == clients || (|after| == |clients| + 1 && after[..|clients|] == clients && fresh(after[|clients|]))
    ensures state.View(dupecheck) == Next(state.env, old(state.View(dupecheck)), Event.Client(op))
  {
    after := clients;
    match op
    case Insert(g) =>
      var client := state.Connect(dupecheck, g);
      after := clients + [client];
    case Remove(id) =>
      var gone := state.Disconnect(dupecheck, id);
    case SetFilter(id, chain) =>
      if id < |clients| {
        var ok := state.SetFilter(dupecheck, clients[id], chain);
      }
    case Drain(id, n) =>
      if id < |clients| {
        var lines := state.Drain(dupecheck, clients[id], n);
      }
    case Close(id) =>
      if id < |clients| {
        state.CloseReceiver(dupecheck, clients[id]);
      }
    case Broadcast(_) =>
  }

  /** The verdicts on the leading `n` events, none where there is nothing to judge. */
  function Verdicts(env: Env, events: seq<Event>, n: nat): seq<Option<Disposition>>
    requires n <= |events|
  {
    if n == 0 then [] else Verdicts(env, events, n - 1) + [Verdict(env, events, n - 1)]
  }

  /** The handles of everyone who ever connected, and the verdicts so far, of a server at event `n`. */
  ghost predicate Standing(state: Sv.ServerState, dupecheck: D.DupeCheck, clients: seq<R.Client>,
                           verdicts: seq<Option<Disposition>>, events: seq<Event>, n: nat)
    reads state.metrics, state.positions, state.registry, state.registry.everyone, dupecheck, dupecheck.buckets
  {
    && At(state, dupecheck, events, n) && clients == state.registry.everyone
    && verdicts == Verdicts(state.env, events, n)
  }

  /** One event of any kind. */
  method Happen(state: Sv.ServerState, dupecheck: D.DupeCheck, clients: seq<R.Client>, events: seq<Event>, n: nat)
    returns (after: seq<R.Client>, verdict: Option<Disposition>)
    requires At(state, dupecheck, events, n) && n < |events| && clients == state.registry.everyone
    modifies dupecheck, dupecheck.buckets, state.metrics, state.positions, state.registry, clients
    ensures At(state, dupecheck, events, n + 1) && after == state.registry.everyone
    ensures after == clients || (|after| == |clients| + 1 && after[..|clients|] == clients && fresh(after[|clients|]))
    ensures verdict == Verdict(state.env, events, n)
  {
    RunStep(state.env, events, n);
    after, verdict := clients, None;
    match events[n]
    case Submit(ingest, now) =>
      var d := Turn(state, dupecheck, ingest, now, events, n);
      verdict := Some(d);
    case Client(op) =>
      after := ClientTurn(state, dupecheck, clients, op);
    case Sweep(before) =>
      var dropped := state.Sweep(dupecheck, before);
  }

  method Advance(state: Sv.ServerState, dupecheck: D.DupeCheck, clients: seq<R.Client>,
                 verdicts: seq<Option<Disposition>>, events: seq<Event>, n: nat)
    returns (after: seq<R.Client>, more: seq<Option<Disposition>>)
    requires Standing(state, dupecheck, clients, verdicts, events, n) && n < |events|
    modifies dupecheck, dupecheck.buckets, state.metrics, state.positions, state.registry, clients
    ensures Standing(state, dupecheck, after, more, events, n + 1)
    ensures after == clients || (|after| == |clients| + 1 && after[..|clients|] == clients && fresh(after[|clients|]))
  {
    var verdict;
    after, verdict := Happen(state, dupecheck, clients, events, n);
    more := verdicts + [verdict];
  }

  /** The events from `n` on, one by one. */
  method PlayOn(state: Sv.ServerState, dupecheck: D.DupeCheck, clients: seq<R.Client>,
                verdicts: seq<Option<Disposition>>, events: seq<Event>, n: nat)
    returns (after: seq<R.Client>, more: seq<Option<Disposition>>)
    requires Standing(state, dupecheck, clients, verdicts, events, n)
    modifies dupecheck, dupecheck.buckets, state.metrics, state.positions, state.registry, clients
    ensures Standing(state, dupecheck, after, more, events, |events|)
    decreases |events| - n
  {
    if n < |events| {
      after, more := Advance(state, dupecheck, clients, verdicts, events, n);
      after, more := PlayOn(state, dupecheck, after, more, events, n + 1);
    } else {
      after, more := clients, verdicts;
    }
  }

  /**
    From the start through any events: the mutable server ends where the run of those events ends,
    having given every submission the verdict the run gives it.
  */
  method Play(env: Env, windowSecs: nat, events: seq<Event>)
    returns (state: Sv.ServerState, dupecheck: D.DupeCheck, verdicts: seq<Option<Disposition>>)
    ensures state.env == env.(window := D.Max(windowSecs, 1)) && At(state, dupecheck, events, |events|)
    ensures verdicts == Verdicts(state.env, events, |events|)
  {
    state, dupecheck := Start(env, windowSecs, events);
    var clients;
    clients, verdicts := PlayOn(state, dupecheck, [], [], events, 0);
  }
}
