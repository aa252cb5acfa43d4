/** A packet with its path rewritten by the q algorithm is still the same packet. */
module QRewrite {
  import opened Wrappers
  import opened Ascii
  import opened Path
  import opened Packet
  import opened QConstruct
  import opened QProperties
  import Callsign

  lemma SliceIsPathText(s: string, from: nat, to: nat)
    requires PathText(s) && from <= to <= |s|
    ensures PathText(s[from..to])
  {
  }

  lemma LoginIsPathText(s: string)
    requires Callsign.IsLogin(s)
    ensures PathText(s)
  {
    Callsign.ValidIsPlain(s);
  }

  lemma HopIsPathText(raw: string, i: nat)
    requires PathText(raw) && i < |Hops(raw)|
    ensures PathText(Hops(raw)[i].call)
  {
    var end := HopsAreFields(raw, 0, i, Hops(raw)[i]);
    var h := Hops(raw)[i];
    CallIsSlice(raw, h, end);
    SliceIsPathText(raw, h.offset, h.offset + |h.call|);
  }

  lemma StampIsPathText(head: string, code: QCode, call: string)
    requires PathText(head) && PathText(call)
    ensures PathText(Stamp(head, code, call))
  {
    var front := if head == "" then "" else head + ",";
    assert PathText(front);
    assert PathText(Wire(code));
    assert PathText(front + Wire(code));
    assert PathText(front + Wire(code) + ",");
  }

  lemma RestampIsPathText(raw: string, n: nat, code: QCode)
    requires PathText(raw) && n < |Hops(raw)|
    ensures PathText(Stamp(TruncatedTo(raw, Hops(raw)[n].offset), code, Hops(raw)[n].call))
  {
    HopIsPathText(raw, n);
    var o := Hops(raw)[n].offset;
    SliceIsPathText(raw, 0, |TruncatedTo(raw, o)|);
    StampIsPathText(TruncatedTo(raw, o), code, Hops(raw)[n].call);
  }

  lemma IRewriteIsPathText(source: string, raw: string, ctx: QContext)
    requires ByIRule(raw, ctx) && PathText(raw) && ApplyClient(source, raw, ctx).Ok?
    ensures PathText(ApplyClient(source, raw, ctx).value.path)
  {
    RestampIsPathText(raw, |Hops(raw)| - 2, ApplyClient(source, raw, ctx).value.code);
  }

  lemma RewriteIsPathText(source: string, raw: string, ctx: QContext)
    requires ValidContext(ctx) && PathText(raw) && ApplyClient(source, raw, ctx).Ok?
    ensures PathText(ApplyClient(source, raw, ctx).value.path)
  {
    var hops, out := Hops(raw), ApplyClient(source, raw, ctx).value;
    LoginIsPathText(ctx.login);
    LoginIsPathText(ctx.serverId);
    if out.rewritten {
      if ByIRule(raw, ctx) {
        IRewriteIsPathText(source, raw, ctx);
      } else {
        var n := FirstQ(hops, 0);
        StampIsPathText(if n < |hops| then TruncatedTo(raw, hops[n].offset) else raw, out.code, EntryCall(source, ctx));
      }
    }
  }

  /** The line the server sends on. */
  function Rendered(p: Tnc2Packet, out: QOutcome): string {
    if out.rewritten then WithPath(p, out.path) else p.raw
  }

  /**
    The line sent on parses back to the same packet with the rewritten path; the only way it
    can fail is by having outgrown the length limit.
  */
  lemma RewrittenReparses(raw: string, ctx: QContext)
    requires ValidContext(ctx) && Parse(raw).Ok?
    requires ApplyClient(Parse(raw).value.source, Parse(raw).value.path, ctx).Ok?
    ensures var p := Parse(raw).value;
      var out := ApplyClient(p.source, p.path, ctx).value;
      var line := Rendered(p, out);
      && (Parse(line).Err? <==> |line| > MAX_PACKET_BODY_LEN)
      && (Parse(line).Err? ==> Parse(line).error == TooLong(|line|) && out.rewritten)
      && (Parse(line).Ok? ==>
            var q := Parse(line).value;
            q.source == p.source && q.destination == p.destination && q.payload == p.payload && q.path == out.path)
  {
    var p := Parse(raw).value;
    var out := ApplyClient(p.source, p.path, ctx).value;
    ParseSplitsLine(raw);
    RewriteIsPathText(p.source, p.path, ctx);
    if out.rewritten {
      ParsePieces(p, out.path);
    }
  }

  // ----- When the line sent on is too long -----

  /** What the rules' guards say before the call: the path is about to change. */
  predicate Rewrites(source: string, raw: string, ctx: QContext) {
    var existing := FindQ(raw);
    || ctx.viaUdp || !ctx.verified || EndsInI(Hops(raw)) || existing.None?
    || (!EqIgnoreCase(source, ctx.login) && Downgraded(existing.value.code).Some?)
  }

  /** The construct goes behind this many bytes of the path, the comma in front of it included. */
  function KeptBytes(raw: string, ctx: QContext): nat {
    var hops := Hops(raw);
    var cut := if ByIRule(raw, ctx) then |hops| - 2 else FirstQ(hops, 0);
    if cut < |hops| then Behind(hops[cut].offset) else Behind(|raw| + 1)
  }

  function Behind(offset: nat): nat {
    if offset <= 1 then 0 else offset
  }

  /** The callsign the construct names. */
  function NamedCall(source: string, raw: string, ctx: QContext): string {
    var hops := Hops(raw);
    if ByIRule(raw, ctx) then hops[|hops| - 2].call else EntryCall(source, ctx)
  }

  lemma CutLength(raw: string, n: nat, code: QCode, call: string)
    requires n < |Hops(raw)|
    ensures var o := Hops(raw)[n].offset;
      |Stamp(TruncatedTo(raw, o), code, call)| == Behind(o) + 4 + |call|
  {
    OffsetsIncrease(raw, 0);
  }

  lemma RewrittenPathLength(source: string, raw: string, ctx: QContext)
    requires ApplyClient(source, raw, ctx).Ok?
    ensures var out := ApplyClient(source, raw, ctx).value;
      && (out.rewritten <==> Rewrites(source, raw, ctx))
      && (out.rewritten ==> |out.path| == KeptBytes(raw, ctx) + 4 + |NamedCall(source, raw, ctx)|)
  {
    var hops, out := Hops(raw), ApplyClient(source, raw, ctx).value;
    var cut := if ByIRule(raw, ctx) then |hops| - 2 else FirstQ(hops, 0);
    if cut < |hops| {
      CutLength(raw, cut, out.code, NamedCall(source, raw, ctx));
    }
  }

  /** The bytes the path takes up in the line, its comma included. */
  function PathBytes(p: Tnc2Packet): int {
    p.colon - |p.source| - 1 - |p.destination|
  }

  /** That is what the path is printed as, or a bare comma. */
  lemma PathBytesAre(raw: string)
    requires Parse(raw).Ok?
    ensures var p := Parse(raw).value;
      PathBytes(p) == |PathField(p.path)| || (p.path == "" && PathBytes(p) == 1)
  {
    ParseSplitsLine(raw);
  }

  lemma LineLength(raw: string, path: string)
    requires Parse(raw).Ok? && path != ""
    ensures var p := Parse(raw).value;
      |WithPath(p, path)| + PathBytes(p) == |raw| + 1 + |path|
  {
    ParseSplitsLine(raw);
  }

  /**
    The line sent on fails to parse exactly when the path is rewritten and the line submitted is
    longer than what the construct, put in place of what it displaces, leaves room for.
  */
  lemma FailsIffOutgrown(raw: string, ctx: QContext)
    requires ValidContext(ctx) && Parse(raw).Ok?
    requires ApplyClient(Parse(raw).value.source, Parse(raw).value.path, ctx).Ok?
    ensures var p := Parse(raw).value;
      var out := ApplyClient(p.source, p.path, ctx).value;
      Parse(Rendered(p, out)).Err? <==>
        && Rewrites(p.source, p.path, ctx)
        && |raw| + KeptBytes(p.path, ctx) + 5 + |NamedCall(p.source, p.path, ctx)| > MAX_PACKET_BODY_LEN + PathBytes(p)
  {
    var p := Parse(raw).value;
    var out := ApplyClient(p.source, p.path, ctx).value;
    RewrittenReparses(raw, ctx);
    RewrittenPathLength(p.source, p.path, ctx);
    if out.rewritten {
      LineLength(raw, out.path);
    }
  }

  /** Outside the legacy rule, a path without a construct makes the line longer by the construct and the entry call. */
  lemma AppendOutgrows(raw: string, ctx: QContext)
    requires ValidContext(ctx) && Parse(raw).Ok?
    requires ApplyClient(Parse(raw).value.source, Parse(raw).value.path, ctx).Ok?
    requires var p := Parse(raw).value; FindQ(p.path).None? && !ByIRule(p.path, ctx) && PathBytes(p) != 1
    ensures var p := Parse(raw).value;
      var out := ApplyClient(p.source, p.path, ctx).value;
      Parse(Rendered(p, out)).Err? <==> |raw| + 5 + |EntryCall(p.source, ctx)| > MAX_PACKET_BODY_LEN
  {
    var p := Parse(raw).value;
    FailsIffOutgrown(raw, ctx);
    PathBytesAre(raw);
    assert FirstQ(Hops(p.path), 0) == |Hops(p.path)|;
  }

  lemma BeaconParses(source: string, destination: string, payload: string) returns (raw: string)
    requires Callsign.IsValid(source) && Callsign.IsValid(destination)
    requires Printable(payload) && payload != "" && |source| + |destination| + |payload| <= MAX_PACKET_BODY_LEN - 2
    ensures raw == source + ">" + destination + ":" + payload
    ensures Parse(raw) == Ok(Tnc2Packet(raw, source, destination, "", payload, |source| + 1 + |destination|))
  {
    raw := source + ">" + destination + ":" + payload;
    var p := Tnc2Packet(raw, source, destination, "", payload, |source| + 1 + |destination|);
    assert WithPath(p, "") == raw;
    ParsePieces(p, "");
  }

  lemma EmptyPathAccepted(serverId: string)
    ensures Hops("") == [] && Rejection("", serverId).None?
  {
    DuplicateFreeIffDistinct("");
  }

  /** Such a line exists: a beacon of 510 bytes from a verified client, which the server itself makes too long. */
  lemma LongBeaconFails(source: string, serverId: string, destination: string) returns (raw: string, ctx: QContext)
    requires source == "N0CALL" && serverId == "T2TEST" && destination == "APRS"
    ensures ValidContext(ctx) && |raw| == MAX_PACKET_BODY_LEN && Parse(raw).Ok? && Parse(raw).value.source == ctx.login
    ensures var p := Parse(raw).value;
      && ApplyClient(p.source, p.path, ctx).Ok?
      && Parse(Rendered(p, ApplyClient(p.source, p.path, ctx).value)).Err?
  {
    PlainIsValid(source);
    PlainIsValid(serverId);
    PlainIsValid(destination);
    var payload := seq(MAX_PACKET_BODY_LEN - |source| - |destination| - 2, _ => 'x');
    raw := BeaconParses(source, destination, payload);
    ctx := QContext(serverId, source, true, false, false);
    EmptyPathAccepted(serverId);
    AppendOutgrows(raw, ctx);
  }
}
