/**
  The ingest path.  `Processed` says what one submitted line does to the whole server: verdict,
  counters, duplicate account, positions and client queues.
*/
module Dispatch {
  import opened Wrappers
  import opened Packet
  import opened Transmission
  import Q = QConstruct
  import Rw = QRewrite
  import D = DupeCheck
  import P = PositionCache
  import Fan = Fanout
  import Filter

  datatype Ingest = Ingest(line: string, origin: Option<Fan.ClientId>, login: string, verified: bool, viaUdp: bool, sendOnly: bool)

  datatype Disposition =
    | Delivered(line: string, code: Q.QCode)
    | UnverifiedSender
    | Invalid(error: PacketError)
    | Duplicate
    | Rejected(reject: Q.QReject)

  datatype Parsed = Parsed(position: Option<P.Position>, symbol: Option<P.Symbol>)

  /** The parts the model leaves open: the hash, payload classification, and what a filter hits. */
  datatype Env = Env(
    serverId: string,
    window: nat,
    digest: Key -> nat,
    classify: Tnc2Packet -> Parsed,
    hit: (Tnc2Packet, P.Entries, string, Filter.Filter) -> bool)

  datatype Counters = Counters(received: nat, unverified: nat, invalid: nat, duplicate: nat, rejected: nat, bytesReceived: nat)

  datatype World = World(counters: Counters, calls: seq<D.Call>, entries: P.Entries, roster: Fan.Roster)

  datatype Outcome = Outcome(world: World, disposition: Disposition)

  const I64_MAX: nat := 0x7fff_ffff_ffff_ffff

  function HeardAt(now: nat): int {
    if now <= I64_MAX then now else I64_MAX
  }

  function ContextOf(env: Env, ingest: Ingest): Q.QContext {
    Q.QContext(env.serverId, ingest.login, ingest.verified, ingest.viaUdp, ingest.sendOnly)
  }

  function CallOf(env: Env, p: Tnc2Packet, now: nat): D.Call {
    D.Call(env.digest(KeyOf(p)), now)
  }

  function Counted(w: World, bytes: nat): World {
    w.(counters := w.counters.(received := w.counters.received + 1, bytesReceived := w.counters.bytesReceived + bytes))
  }

  /** Steps 5 and 6: remember the position, offer the line to the clients. */
  function DeliverTo(env: Env, w: World, origin: Option<Fan.ClientId>, line: string, p: Tnc2Packet, now: nat): World {
    var parsed := env.classify(p);
    var entries := if parsed.position.None? then w.entries
                   else P.Recorded(w.entries, p.source, P.Report(parsed.position.value, parsed.symbol, HeardAt(now)));
    w.(entries := entries, roster := Fan.Step(w.roster, Fan.Op.Broadcast(OfferFor(env, entries, origin, line, p))))
  }

  function OfferFor(env: Env, entries: P.Entries, origin: Option<Fan.ClientId>, line: string, p: Tnc2Packet): Fan.Offer {
    Fan.Offer(line, origin, (callsign, f) => env.hit(p, entries, callsign, f))
  }

  function CountRejected(w: World): World {
    w.(counters := w.counters.(rejected := w.counters.rejected + 1))
  }

  function CountInvalid(w: World): World {
    w.(counters := w.counters.(invalid := w.counters.invalid + 1))
  }

  function CountDuplicate(w: World): World {
    w.(counters := w.counters.(duplicate := w.counters.duplicate + 1))
  }

  function CountUnverified(w: World): World {
    w.(counters := w.counters.(unverified := w.counters.unverified + 1))
  }

  /** Steps 4 to 6, for a packet that is no duplicate. */
  function Relayed(env: Env, w: World, ingest: Ingest, p: Tnc2Packet, now: nat): Outcome {
    match Q.ApplyClient(p.source, p.path, ContextOf(env, ingest))
    case Err(reject) => Outcome(CountRejected(w), Rejected(reject))
    case Ok(out) =>
      var line := Rw.Rendered(p, out);
      match Parse(line)
      case Err(_) => Outcome(CountInvalid(w), Invalid(Empty))
      case Ok(final) => Outcome(DeliverTo(env, w, ingest.origin, line, final, now), Delivered(line, out.code))
  }

  /** Step 3: judge a well-formed packet against the duplicate window, and relay it if it is new. */
  function Judged(env: Env, w: World, ingest: Ingest, p: Tnc2Packet, now: nat): Outcome {
    var call := CallOf(env, p, now);
    var checked := w.(calls := w.calls + [call]);
    if D.IsDuplicate(D.Replay(w.calls, env.window), env.window, call) then Outcome(CountDuplicate(checked), Duplicate)
    else Relayed(env, checked, ingest, p, now)
  }

  function Processed(env: Env, before: World, ingest: Ingest, now: nat): Outcome {
    var w := Counted(before, |ingest.line| + 2);
    if !ingest.verified then Outcome(CountUnverified(w), UnverifiedSender)
    else match Parse(ingest.line)
      case Err(e) => Outcome(CountInvalid(w), Invalid(e))
      case Ok(p) => Judged(env, w, ingest, p, now)
  }
}
