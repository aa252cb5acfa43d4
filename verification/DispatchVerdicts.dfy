/** What becomes of a submission, by who sent it and what its path holds. */
module DispatchVerdicts {
  import opened Wrappers
  import opened Ascii
  import opened Packet
  import opened Path
  import opened Dispatch
  import opened DispatchRuns
  import Q = QConstruct
  import Pr = QProperties
  import Rw = QRewrite
  import P = PositionCache

  /** Who may not submit, and what is no packet. */
  lemma RefusedAtOnce(env: Env, events: seq<Event>, i: nat)
    requires i < |events| && events[i].Submit?
    ensures !events[i].ingest.verified ==> Verdict(env, events, i) == Some(UnverifiedSender)
    ensures events[i].ingest.verified && Parse(events[i].ingest.line).Err? ==>
      Verdict(env, events, i) == Some(Invalid(Parse(events[i].ingest.line).error))
  {
  }

  /** A line within 510 bytes is delivered; a longer one, which the rewrite made so, is not. */
  function SentAs(line: string, code: Q.QCode): Option<Disposition> {
    Some(if |line| > 510 then Invalid(PacketError.Empty) else Delivered(line, code))
  }

  /** What the q algorithm's answer `r` makes of packet `p`, submitted as `line`. */
  function Answered(p: Tnc2Packet, line: string, r: Result<Q.QOutcome, Q.QReject>): Option<Disposition> {
    match r
    case Err(reject) => Some(Rejected(reject))
    case Ok(out) => SentAs(if out.rewritten then WithPath(p, out.path) else line, out.code)
  }

  /** A packet that is no duplicate goes by the q algorithm, applied for this server and this client. */
  lemma NewPacket(env: Env, events: seq<Event>, i: nat, p: Tnc2Packet)
    requires i < |events| && ValidRun(env, events) && Checked(events, i, p) && Verdict(env, events, i) != Some(Duplicate)
    ensures Verdict(env, events, i) ==
      Answered(p, events[i].ingest.line, Q.ApplyClient(p.source, p.path, Submission(env, events[i].ingest)))
  {
    ParseSplitsLine(events[i].ingest.line);
    var r := Q.ApplyClient(p.source, p.path, Submission(env, events[i].ingest));
    if r.Ok? {
      Rw.RewrittenReparses(events[i].ingest.line, Submission(env, events[i].ingest));
    }
  }

  // ----- Packets without a construct -----

  /** The packet's line with the construct `wire` and `call` behind its path. */
  function Stamped(p: Tnc2Packet, wire: string, call: string): string {
    p.source + ">" + p.destination + "," + (if p.path == "" then "" else p.path + ",") + wire + "," + call + ":" + p.payload
  }

  lemma StampedIs(p: Tnc2Packet, code: Q.QCode, call: string)
    ensures WithPath(p, Q.Stamp(p.path, code, call)) == Stamped(p, Q.Wire(code), call)
  {
    var front := if p.path == "" then "" else p.path + ",";
    LineIsJoined(p, Q.Stamp(p.path, code, call));
    Regroup(p.source + ">" + p.destination + ",", front, Q.Wire(code), call);
  }

  lemma Regroup(head: string, front: string, wire: string, call: string)
    ensures head + (front + wire + "," + call) == head + front + wire + "," + call
  {
  }

  /** Event `i` brings packet `p`, and it is no duplicate. */
  ghost predicate New(env: Env, events: seq<Event>, i: nat, p: Tnc2Packet) {
    i < |events| && ValidRun(env, events) && Checked(events, i, p) && Verdict(env, events, i) != Some(Duplicate)
  }

  /** The path holds no construct, no station twice, and no `,I` tail unless UDP overrules it. */
  ghost predicate Unmarked(path: string, viaUdp: bool) {
    && (forall k :: 0 <= k < |Hops(path)| ==> Q.ParseCode(Hops(path)[k].call).None?)
    && FirstDuplicate(path).None? && (viaUdp || !EndsInI(Hops(path)))
  }

  /** Such a path is accepted, and what the rules call for is appended. */
  lemma UnmarkedAppends(source: string, path: string, ctx: Q.QContext)
    requires Unmarked(path, ctx.viaUdp) && ctx.verified
    ensures Q.ApplyClient(source, path, ctx) == Ok(
      if ctx.viaUdp then Q.Append(path, Q.Udp, ctx.serverId)
      else if !EqIgnoreCase(source, ctx.login) then Q.Append(path, Q.NonGated, ctx.login)
      else Q.Append(path, if ctx.sendOnly then Q.NonGated else Q.VerifiedClient, ctx.serverId))
  {
  }

  lemma AppendedIsSent(p: Tnc2Packet, line: string, code: Q.QCode, call: string)
    ensures Answered(p, line, Ok(Q.Append(p.path, code, call))) == SentAs(Stamped(p, Q.Wire(code), call), code)
  {
    StampedIs(p, code, call);
  }

  lemma UdpAnswer(p: Tnc2Packet, line: string, ctx: Q.QContext)
    requires Unmarked(p.path, true) && ctx.verified && ctx.viaUdp
    ensures Answered(p, line, Q.ApplyClient(p.source, p.path, ctx)) == SentAs(Stamped(p, "qAU", ctx.serverId), Q.Udp)
  {
    UnmarkedAppends(p.source, p.path, ctx);
    AppendedIsSent(p, line, Q.Udp, ctx.serverId);
  }

  lemma RelayedAnswer(p: Tnc2Packet, line: string, ctx: Q.QContext)
    requires Unmarked(p.path, false) && ctx.verified && !ctx.viaUdp && !EqIgnoreCase(p.source, ctx.login)
    ensures Answered(p, line, Q.ApplyClient(p.source, p.path, ctx)) == SentAs(Stamped(p, "qAO", ctx.login), Q.NonGated)
  {
    UnmarkedAppends(p.source, p.path, ctx);
    AppendedIsSent(p, line, Q.NonGated, ctx.login);
  }

  lemma OwnAnswer(p: Tnc2Packet, line: string, ctx: Q.QContext)
    requires Unmarked(p.path, false) && ctx.verified && !ctx.viaUdp && EqIgnoreCase(p.source, ctx.login)
    ensures Answered(p, line, Q.ApplyClient(p.source, p.path, ctx)) ==
      SentAs(Stamped(p, if ctx.sendOnly then "qAO" else "qAC", ctx.serverId),
             if ctx.sendOnly then Q.NonGated else Q.VerifiedClient)
  {
    UnmarkedAppends(p.source, p.path, ctx);
    AppendedIsSent(p, line, if ctx.sendOnly then Q.NonGated else Q.VerifiedClient, ctx.serverId);
  }

  /** Over UDP: `qAU` and this server. */
  lemma UdpBeacon(env: Env, events: seq<Event>, i: nat, p: Tnc2Packet)
    requires New(env, events, i, p) && Unmarked(p.path, true) && events[i].ingest.viaUdp
    ensures Verdict(env, events, i) == SentAs(Stamped(p, "qAU", env.serverId), Q.Udp)
  {
    NewPacket(env, events, i, p);
    UdpAnswer(p, events[i].ingest.line, Submission(env, events[i].ingest));
  }

  /** Another station's packet: `qAO` and the client that relayed it. */
  lemma RelayedBeacon(env: Env, events: seq<Event>, i: nat, p: Tnc2Packet)
    requires New(env, events, i, p) && Unmarked(p.path, false) && !events[i].ingest.viaUdp
    requires !EqIgnoreCase(p.source, events[i].ingest.login)
    ensures Verdict(env, events, i) == SentAs(Stamped(p, "qAO", events[i].ingest.login), Q.NonGated)
  {
    NewPacket(env, events, i, p);
    RelayedAnswer(p, events[i].ingest.line, Submission(env, events[i].ingest));
  }

  /** A station's own beacon: `qAC` and this server, or on a send-only port `qAO` and this server. */
  lemma OwnBeacon(env: Env, events: seq<Event>, i: nat, p: Tnc2Packet)
    requires New(env, events, i, p) && Unmarked(p.path, false) && !events[i].ingest.viaUdp
    requires EqIgnoreCase(p.source, events[i].ingest.login)
    ensures var sendOnly := events[i].ingest.sendOnly;
      Verdict(env, events, i) ==
        SentAs(Stamped(p, if sendOnly then "qAO" else "qAC", env.serverId), if sendOnly then Q.NonGated else Q.VerifiedClient)
  {
    NewPacket(env, events, i, p);
    OwnAnswer(p, events[i].ingest.line, Submission(env, events[i].ingest));
  }

  // ----- Packets with one -----

  /** The path ends in the construct `wire` and `call`. */
  predicate EndsWith(path: string, wire: string, call: string) {
    var hops := Hops(path);
    |hops| >= 2 && hops[|hops| - 2].call == wire && hops[|hops| - 1].call == call
  }

  lemma UdpEndsInMark(source: string, raw: string, ctx: Q.QContext)
    requires Pr.ValidContext(ctx) && ctx.viaUdp && Q.ApplyClient(source, raw, ctx).Ok?
    ensures var out := Q.ApplyClient(source, raw, ctx).value;
      out.code == Q.Udp && EndsWith(out.path, "qAU", ctx.serverId)
  {
    Pr.RewriteKeepsHead(source, raw, ctx);
  }

  /** Whatever a submission over UDP carried, what is delivered carries `qAU` and this server. */
  lemma UdpIsMarked(env: Env, events: seq<Event>, i: nat)
    requires i < |events| && ValidRun(env, events) && events[i].Submit? && events[i].ingest.viaUdp
    requires Verdict(env, events, i).value.Delivered?
    ensures var d := Verdict(env, events, i).value;
      d.code == Q.Udp && Parse(d.line).Ok? && EndsWith(Parse(d.line).value.path, "qAU", env.serverId)
  {
    DeliveredIsStamped(env, events, i);
    var p := Parse(events[i].ingest.line).value;
    UdpEndsInMark(p.source, p.path, Submission(env, events[i].ingest));
  }

  /** A new packet that names this server behind a construct has looped, and is rejected. */
  lemma LoopedIsRejected(env: Env, events: seq<Event>, i: nat, p: Tnc2Packet, m: nat, k: nat)
    requires i < |events| && ValidRun(env, events) && Checked(events, i, p) && Verdict(env, events, i) != Some(Duplicate)
    requires m < k < |Hops(p.path)| && Q.ParseCode(Hops(p.path)[m].call).Some?
    requires EqIgnoreCase(Hops(p.path)[k].call, env.serverId)
    ensures Verdict(env, events, i).value.Rejected?
  {
    NewPacket(env, events, i, p);
    OffsetsIncrease(p.path, 0);
    var q := Q.FirstQ(Hops(p.path), 0);
    assert q <= m && Q.IsQ(Hops(p.path)[m]);
    assert Q.LoopsBack(p.path, Q.FindQ(p.path).value, env.serverId);
  }

  // ----- Positions -----

  /** A position delivered is on record at once, heard now, unless a newer one of the station is. */
  lemma PositionIsKnown(env: Env, events: seq<Event>, i: nat, p: Tnc2Packet, position: P.Position)
    requires i < |events| && events[i].Submit? && events[i].now < 0x8000_0000_0000_0000
    requires Verdict(env, events, i).value.Delivered? && Parse(Verdict(env, events, i).value.line) == Ok(p)
    requires env.classify(p).position == Some(position)
    ensures var before, after := Run(env, events[..i]).entries, Run(env, events[..i + 1]).entries;
      var known := P.Lookup(before, p.source);
      P.Lookup(after, p.source) ==
        if known.Some? && known.value.heardAt > events[i].now then known
        else Some(P.Report(position, env.classify(p).symbol, events[i].now))
  {
    RunStep(env, events, i);
    SubmitReports(env, Run(env, events[..i]), events[i].ingest, events[i].now);
  }
}
