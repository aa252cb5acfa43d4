/** What one pass, two passes and any number of passes of the q algorithm guarantee. */
module QProperties {
  import opened Wrappers
  import opened Ascii
  import opened Path
  import opened QConstruct
  import Callsign

  // ----- Stamping a construct onto a path -----

  /** Where the construct begins in a stamped path. */
  function StampOffset(head: string): nat {
    if head == "" then 0 else |head| + 1
  }

  /** A stamped path has the hops of its head, the construct, and whatever hop the call reads as. */
  lemma StampHops(head: string, code: QCode, call: string)
    requires call != "" && Lacks(call, ',')
    ensures var s, o := Stamp(head, code, call), StampOffset(head);
      && o + 4 + |call| == |s|
      && Hops(s) == Hops(head) + [Hop(Wire(code), false, o)] + FieldHops(s, o + 4, |s|)
      && s[o + 4..] == call
  {
    var s, o := Stamp(head, code, call), StampOffset(head);
    if head != "" {
      assert s[..|head|] == head;
      HopsSplit(head, s, 0);
    }
    TailHops(s, o, code, call);
    if head != "" {
      AppendThrough(Hops(head), [Hop(Wire(code), false, o)], FieldHops(s, o + 4, |s|));
    }
  }

  lemma TailText(s: string, o: nat, code: QCode, call: string)
    requires o + 4 + |call| == |s| && s[o..] == Wire(code) + "," + call
    ensures s[o..o + 3] == Wire(code) && s[o + 3] == ',' && s[o + 4..] == call
  {
    var tail := s[o..];
    assert s[o..o + 3] == tail[..3] && s[o + 3] == tail[3] && s[o + 4..] == tail[4..];
  }

  /** From `o` on: the one hop `h`, and then `rest`. */
  predicate BeginsWith(s: string, o: nat, h: Hop, rest: seq<Hop>)
    requires o <= |s|
  {
    HopsFrom(s, o) == [h] + rest
  }

  lemma TailHops(s: string, o: nat, code: QCode, call: string)
    requires o + 4 + |call| == |s| && s[o..] == Wire(code) + "," + call && Lacks(call, ',')
    ensures s[o + 4..] == call
    ensures BeginsWith(s, o, Hop(Wire(code), false, o), FieldHops(s, o + 4, |s|))
  {
    TailText(s, o, code, call);
    CleanField(s, o, Wire(code));
    assert forall k :: o + 4 <= k < |s| ==> s[k] == call[k - (o + 4)];
    IndexIs(s, ',', o + 4, |s|);
    HopsUnfold(s, o);
    HopsUnfold(s, o + 4);
  }

  /** A clean call is the last hop of the path it is stamped on. */
  lemma StampClean(head: string, code: QCode, call: string)
    requires Clean(call)
    ensures var s, o := Stamp(head, code, call), StampOffset(head);
      Hops(s) == Hops(head) + [Hop(Wire(code), false, o), Hop(call, false, o + 4)]
  {
    var s, o := Stamp(head, code, call), StampOffset(head);
    StampHops(head, code, call);
    assert s[o + 4..o + 4 + |call|] == call;
    CleanField(s, o + 4, call);
  }

  lemma LoginIsClean(s: string)
    requires Callsign.IsLogin(s)
    ensures Clean(s) && ParseCode(s).None? && |s| >= 3
  {
    Callsign.ValidIsPlain(s);
  }

  /** Without a construct in front, the one stamped is the one found. */
  lemma {:induction false} FirstQAfter(hops: seq<Hop>, n: nat, i: nat)
    requires i <= n < |hops| && IsQ(hops[n]) && forall k :: i <= k < n ==> !IsQ(hops[k])
    ensures FirstQ(hops, i) == n
    decreases n - i
  {
    if i < n {
      FirstQAfter(hops, n, i + 1);
    }
  }

  // ----- One pass -----

  predicate ValidContext(ctx: QContext) {
    Callsign.IsLogin(ctx.serverId) && Callsign.IsLogin(ctx.login)
  }

  /** The legacy rule decides this packet. */
  predicate ByIRule(raw: string, ctx: QContext) {
    !ctx.viaUdp && ctx.verified && EndsInI(Hops(raw))
  }

  /** Who is to be recorded as the entry point, outside the legacy rule. */
  function EntryCall(source: string, ctx: QContext): string {
    if !ctx.viaUdp && ctx.verified && !EqIgnoreCase(source, ctx.login) then ctx.login else ctx.serverId
  }

  /** `hops` are the first `n` hops of `before`, then the construct and the call, and nothing else. */
  ghost predicate StampedAfter(hops: seq<Hop>, before: seq<Hop>, n: nat, code: QCode, call: string) {
    && n <= |before| && |hops| == n + 2 && hops[..n] == before[..n]
    && hops[n].call == Wire(code) && hops[n + 1].call == call
  }

  lemma ReplaceHops(raw: string, n: nat, code: QCode, call: string)
    requires n < |Hops(raw)| && Clean(call)
    ensures StampedAfter(Hops(Stamp(TruncatedTo(raw, Hops(raw)[n].offset), code, call)), Hops(raw), n, code, call)
  {
    CutAtHop(raw, n);
    StampClean(TruncatedTo(raw, Hops(raw)[n].offset), code, call);
  }

  lemma AppendHops(raw: string, code: QCode, call: string)
    requires Clean(call)
    ensures StampedAfter(Hops(Stamp(raw, code, call)), Hops(raw), |Hops(raw)|, code, call)
  {
    StampClean(raw, code, call);
  }

  /** Outside the legacy rule a rewrite keeps the hops before the construct and replaces the rest. */
  lemma RewriteKeepsHead(source: string, raw: string, ctx: QContext)
    requires ValidContext(ctx) && !ByIRule(raw, ctx)
    requires ApplyClient(source, raw, ctx).Ok? && ApplyClient(source, raw, ctx).value.rewritten
    ensures var out := ApplyClient(source, raw, ctx).value;
      && StampedAfter(Hops(out.path), Hops(raw), FirstQ(Hops(raw), 0), out.code, EntryCall(source, ctx))
      && out.code in {Udp, Unverified, NonGated, VerifiedClient, GatedClientOnly}
  {
    var n := FirstQ(Hops(raw), 0);
    var call := EntryCall(source, ctx);
    var out := ApplyClient(source, raw, ctx).value;
    LoginIsClean(call);
    if n < |Hops(raw)| {
      ReplaceHops(raw, n, out.code, call);
    } else {
      AppendHops(raw, out.code, call);
    }
  }

  /** The stamp is what `FindQ` sees, with the intended call behind it. */
  lemma StampIsFound(path: string, before: seq<Hop>, n: nat, code: QCode, call: string)
    requires StampedAfter(Hops(path), before, n, code, call) && forall k :: 0 <= k < n ==> !IsQ(before[k])
    ensures FirstQ(Hops(path), 0) == n
    ensures FindQ(path) == Some(FoundQ(code, Hops(path)[n].offset, Some(call)))
  {
    CodesRoundTrip(code, Wire(code));
    assert forall k :: 0 <= k < n ==> Hops(path)[k] == before[..n][k];
    FirstQAfter(Hops(path), n, 0);
  }

  // ----- The legacy rule -----

  /** The callsign of a hop is never empty and never holds a comma. */
  lemma HopCallIsField(raw: string, i: nat)
    requires i < |Hops(raw)|
    ensures Hops(raw)[i].call != "" && Lacks(Hops(raw)[i].call, ',')
  {
    var end := HopsAreFields(raw, 0, i, Hops(raw)[i]);
    CallIsSlice(raw, Hops(raw)[i], end);
  }

  /** The hop `call` is read back as: one `*` is taken for a used mark, and a bare `*` is no hop at all. */
  function ReadBack(call: string): seq<string> {
    if call == "*" then [] else if call != "" && call[|call| - 1] == '*' then [call[..|call| - 1]] else [call]
  }

  lemma FieldReadsBack(s: string, start: nat, call: string)
    requires start <= |s| && s[start..] == call && call != ""
    ensures Calls(FieldHops(s, start, |s|)) == ReadBack(call)
  {
    assert s[start..|s|] == call && call[|call| - 1] == s[|s| - 1];
    if call[|call| - 1] == '*' {
      assert s[start..|s| - 1] == call[..|call| - 1];
      assert call == "*" <==> |call| == 1;
    }
  }

  lemma CallsOfThree(x: seq<Hop>, h: Hop, y: seq<Hop>)
    ensures Calls(x + [h] + y) == Calls(x) + [h.call] + Calls(y)
  {
  }

  lemma StampCalls(head: string, code: QCode, call: string)
    requires call != "" && Lacks(call, ',')
    ensures Calls(Hops(Stamp(head, code, call))) == Calls(Hops(head)) + [Wire(code)] + ReadBack(call)
  {
    var s, o := Stamp(head, code, call), StampOffset(head);
    StampHops(head, code, call);
    FieldReadsBack(s, o + 4, call);
    CallsOfThree(Hops(head), Hop(Wire(code), false, o), FieldHops(s, o + 4, |s|));
  }

  /** Cutting at hop `n` and stamping the call found there. */
  lemma RestampCalls(raw: string, n: nat, code: QCode)
    requires n < |Hops(raw)|
    ensures var hops := Hops(raw);
      Calls(Hops(Stamp(TruncatedTo(raw, hops[n].offset), code, hops[n].call)))
      == Calls(hops[..n]) + [Wire(code)] + ReadBack(hops[n].call)
  {
    HopCallIsField(raw, n);
    CutAtHop(raw, n);
    StampCalls(TruncatedTo(raw, Hops(raw)[n].offset), code, Hops(raw)[n].call);
  }

  /** The legacy rule keeps all hops but the last two, then the construct, then the IGate as it reads back. */
  lemma IRuleCalls(source: string, raw: string, ctx: QContext)
    requires ByIRule(raw, ctx) && ApplyClient(source, raw, ctx).Ok?
    ensures var hops, out := Hops(raw), ApplyClient(source, raw, ctx).value;
      var n := |hops| - 2;
      && out.rewritten && (out.code == VerifiedIgate || out.code == RemoteIgate)
      && Calls(Hops(out.path)) == Calls(hops[..n]) + [Wire(out.code)] + ReadBack(hops[n].call)
  {
    RestampCalls(raw, |Hops(raw)| - 2, ApplyClient(source, raw, ctx).value.code);
  }

  /** Where the first construct of a rewritten `,I` path stands: an older one in front keeps the lead. */
  lemma IRuleFirstQ(source: string, raw: string, ctx: QContext)
    requires ByIRule(raw, ctx) && ApplyClient(source, raw, ctx).Ok?
    ensures var hops, path := Hops(raw), ApplyClient(source, raw, ctx).value.path;
      var n, m := |hops| - 2, FirstQ(hops, 0);
      && |Hops(path)| > n
      && FirstQ(Hops(path), 0) == (if m < n then m else n)
      && (forall k :: 0 <= k < n ==> Hops(path)[k].call == hops[k].call)
      && Hops(path)[n].call == Wire(ApplyClient(source, raw, ctx).value.code)
  {
    var hops, out := Hops(raw), ApplyClient(source, raw, ctx).value;
    var n, m := |hops| - 2, FirstQ(hops, 0);
    IRuleCalls(source, raw, ctx);
    CodesRoundTrip(out.code, Wire(out.code));
    var calls := Calls(Hops(out.path));
    assert |calls| == |Hops(out.path)| > n && calls[n] == Wire(out.code);
    assert forall k :: 0 <= k < n ==> calls[k] == hops[..n][k].call;
    FirstQAfter(Hops(out.path), if m < n then m else n, 0);
  }

  lemma IRuleRecords(source: string, raw: string, ctx: QContext)
    requires ApplyClient(source, raw, ctx).Ok? && ByIRule(raw, ctx)
    ensures var out, hops := ApplyClient(source, raw, ctx).value, Hops(raw);
      var m := FirstQ(hops, 0);
      && FindQ(out.path).Some? && FindQ(out.path).value.code != Internal
      && (FindQ(out.path).value.code == out.code <==>
          (m < |hops| - 2 ==> hops[m].call == if EqIgnoreCase(hops[|hops| - 2].call, ctx.login) then "qAR" else "qAr"))
  {
    var out, hops := ApplyClient(source, raw, ctx).value, Hops(raw);
    var m := FirstQ(hops, 0);
    IRuleFirstQ(source, raw, ctx);
    IRuleCalls(source, raw, ctx);
    CodesRoundTrip(out.code, Wire(out.code));
    if m < |hops| {
      CodesRoundTrip(ParseCode(hops[m].call).value, hops[m].call);
    }
  }

  lemma OtherRulesRecord(source: string, raw: string, ctx: QContext)
    requires ValidContext(ctx) && ApplyClient(source, raw, ctx).Ok? && !ByIRule(raw, ctx)
    ensures var out := ApplyClient(source, raw, ctx).value;
      FindQ(out.path).Some? && FindQ(out.path).value.code != Internal && FindQ(out.path).value.code == out.code
  {
    var out, hops := ApplyClient(source, raw, ctx).value, Hops(raw);
    if out.rewritten {
      RewriteKeepsHead(source, raw, ctx);
      StampIsFound(out.path, hops, FirstQ(hops, 0), out.code, EntryCall(source, ctx));
    }
  }

  /**
    The entry point is on record.  After an accepted pass the construct found in the path is the
    one the outcome names, unless the legacy rule rewrote a path that already held a different
    construct in front of the IGate; then, and only then, the older one is found.
  */
  lemma EntryPointRecorded(source: string, raw: string, ctx: QContext)
    requires ValidContext(ctx) && ApplyClient(source, raw, ctx).Ok?
    ensures var out, hops := ApplyClient(source, raw, ctx).value, Hops(raw);
      var m := FirstQ(hops, 0);
      && FindQ(out.path).Some? && FindQ(out.path).value.code != Internal
      && (FindQ(out.path).value.code == out.code <==>
          (ByIRule(raw, ctx) && m < |hops| - 2 ==>
            hops[m].call == if EqIgnoreCase(hops[|hops| - 2].call, ctx.login) then "qAR" else "qAr"))
  {
    if ByIRule(raw, ctx) {
      IRuleRecords(source, raw, ctx);
    } else {
      OtherRulesRecord(source, raw, ctx);
    }
  }

  /** Under the legacy rule, with no construct in front, the call on record is the IGate as it reads back. */
  lemma IRuleRecordsIgate(source: string, raw: string, ctx: QContext)
    requires ByIRule(raw, ctx) && ApplyClient(source, raw, ctx).Ok? && FirstQ(Hops(raw), 0) >= |Hops(raw)| - 2
    ensures var out, igate := ApplyClient(source, raw, ctx).value, ReadBack(IConstruct(raw).value);
      && FindQ(out.path).Some? && FindQ(out.path).value.code == out.code
      && FindQ(out.path).value.call == (if igate == [] then None else Some(igate[0]))
      && (out.code == VerifiedIgate <==> EqIgnoreCase(IConstruct(raw).value, ctx.login))
  {
    var path := ApplyClient(source, raw, ctx).value.path;
    var n := |Hops(raw)| - 2;
    IRuleFirstQ(source, raw, ctx);
    IRuleCalls(source, raw, ctx);
    CodesRoundTrip(ApplyClient(source, raw, ctx).value.code, Hops(path)[n].call);
    assert |Calls(Hops(path))| == |Hops(path)|;
    if |Hops(path)| > n + 1 {
      assert Calls(Hops(path))[n + 1] == Hops(path)[n + 1].call;
    }
  }

  lemma OlderConstructHops(raw: string)
    requires raw == "qAS,X2,I"
    ensures Hops(raw) == [Hop("qAS", false, 0), Hop("X2", false, 4), Hop("I", false, 7)]
  {
    assert raw[0..3] == "qAS" && raw[4..6] == "X2" && raw[7..8] == "I";
    CleanField(raw, 7, "I");
    CleanField(raw, 4, "X2");
    CleanField(raw, 0, "qAS");
    assert HopsFrom(raw, 4) == [Hop("X2", false, 4)] + HopsFrom(raw, 7);
  }

  /** Callsigns of different lengths name different stations. */
  lemma LengthsDiffer(raw: string)
    requires forall i, k :: 0 <= i < k < |Hops(raw)| ==> |Hops(raw)[i].call| != |Hops(raw)[k].call|
    ensures FirstDuplicate(raw).None?
  {
    DuplicateFreeIffDistinct(raw);
    forall i, k | 0 <= i < k < |Hops(raw)|
      ensures !SameStation(Hops(raw)[i], Hops(raw)[k])
    {
      assert |Lower(Hops(raw)[i].call)| != |Lower(Hops(raw)[k].call)|;
    }
  }

  lemma NoLoopBack(raw: string, found: FoundQ, serverId: string)
    requires forall i :: 0 <= i < |Hops(raw)| ==> |Hops(raw)[i].call| < |serverId|
    ensures !LoopsBack(raw, found, serverId)
  {
    forall i | 0 <= i < |Hops(raw)|
      ensures !EqIgnoreCase(Hops(raw)[i].call, serverId)
    {
      assert |Lower(Hops(raw)[i].call)| < |Lower(serverId)|;
    }
  }

  /** A `qAS` path of short callsigns of different lengths is not refused. */
  lemma ShortPathAccepted(raw: string, serverId: string)
    requires Hops(raw) != [] && ParseCode(Hops(raw)[0].call) == Some(Server)
    requires forall i :: 0 <= i < |Hops(raw)| ==> |Hops(raw)[i].call| < |serverId|
    requires forall i, k :: 0 <= i < k < |Hops(raw)| ==> |Hops(raw)[i].call| != |Hops(raw)[k].call|
    ensures Rejection(raw, serverId).None?
  {
    LengthsDiffer(raw);
    NoLoopBack(raw, FindQ(raw).value, serverId);
  }

  /** A path whose older construct keeps the lead: the outcome says qAR or qAr, the path still reads qAS. */
  lemma OlderConstructKeepsLead(source: string, raw: string, ctx: QContext)
    requires raw == "qAS,X2,I" && |ctx.serverId| > 3 && ctx.verified && !ctx.viaUdp
    ensures var r := ApplyClient(source, raw, ctx);
      && r.Ok? && (r.value.code == VerifiedIgate || r.value.code == RemoteIgate)
      && FindQ(r.value.path).Some? && FindQ(r.value.path).value.code == Server
  {
    OlderConstructHops(raw);
    ShortPathAccepted(raw, ctx.serverId);
    assert Lower("I") == "i";
    FirstHopLeads(source, raw, ctx);
  }

  lemma FirstHopLeads(source: string, raw: string, ctx: QContext)
    requires ByIRule(raw, ctx) && ApplyClient(source, raw, ctx).Ok? && |Hops(raw)| > 2 && Hops(raw)[0].call == "qAS"
    ensures var out := ApplyClient(source, raw, ctx).value;
      && (out.code == VerifiedIgate || out.code == RemoteIgate)
      && FindQ(out.path).Some? && FindQ(out.path).value.code == Server
  {
    assert IsQ(Hops(raw)[0]);
    IRuleFirstQ(source, raw, ctx);
  }

  /** Outside the legacy rule a rewritten path holds one construct, followed by the entry call and nothing else. */
  lemma RewriteRecordsEntryCall(source: string, raw: string, ctx: QContext)
    requires ValidContext(ctx) && !ByIRule(raw, ctx)
    requires ApplyClient(source, raw, ctx).Ok? && ApplyClient(source, raw, ctx).value.rewritten
    ensures var out := ApplyClient(source, raw, ctx).value;
      var hops, n := Hops(out.path), FirstQ(Hops(raw), 0);
      && |hops| == n + 2 && hops[..n] == Hops(raw)[..n]
      && FindQ(out.path) == Some(FoundQ(out.code, hops[n].offset, Some(EntryCall(source, ctx))))
      && forall k :: 0 <= k < |hops| ==> (IsQ(hops[k]) <==> k == n)
  {
    var out, n := ApplyClient(source, raw, ctx).value, FirstQ(Hops(raw), 0);
    RewriteKeepsHead(source, raw, ctx);
    LoginIsClean(EntryCall(source, ctx));
    StampIsFound(out.path, Hops(raw), n, out.code, EntryCall(source, ctx));
    assert forall k :: 0 <= k < n ==> Hops(out.path)[..n][k] == Hops(raw)[..n][k];
  }

  // ----- Coming back -----

  /**
    A path this server stamped with its own name is refused whenever it returns, on any connection
    and from any station, whatever hops were appended meanwhile.
  */
  lemma ReentryRejected(source: string, raw: string, ctx: QContext, later: string, sender: string, back: QContext)
    requires ValidContext(ctx) && !ByIRule(raw, ctx) && EntryCall(source, ctx) == ctx.serverId
    requires ApplyClient(source, raw, ctx).Ok? && ApplyClient(source, raw, ctx).value.rewritten
    requires Calls(Hops(ApplyClient(source, raw, ctx).value.path)) <= Calls(Hops(later))
    requires back.serverId == ctx.serverId
    ensures var out := ApplyClient(source, raw, ctx).value;
      ApplyClient(sender, later, back) ==
        Err(if out.code == VerifiedClient && !HasTcpip(later) then QacWithoutTcpip else Loop(ctx.serverId))
  {
    var out, n := ApplyClient(source, raw, ctx).value, FirstQ(Hops(raw), 0);
    RewriteKeepsHead(source, raw, ctx);
    RewriteRecordsEntryCall(source, raw, ctx);
    ReturnsLooped(Hops(out.path), n, out.code, later, ctx.serverId);
  }

  lemma ReturnsLooped(stamped: seq<Hop>, n: nat, code: QCode, later: string, serverId: string)
    requires |stamped| == n + 2 && stamped[n].call == Wire(code) && stamped[n + 1].call == serverId
    requires forall k :: 0 <= k < n ==> !IsQ(stamped[k])
    requires code != Internal && Calls(stamped) <= Calls(Hops(later))
    ensures Rejection(later, serverId) ==
            Some(if code == VerifiedClient && !HasTcpip(later) then QacWithoutTcpip else Loop(serverId))
  {
    var hops := Hops(later);
    CodesRoundTrip(code, Wire(code));
    assert forall k :: 0 <= k < n + 2 ==> hops[k].call == Calls(stamped)[k];
    FirstQAfter(hops, n, 0);
    OffsetsIncrease(later, 0);
    assert hops[n].offset < hops[n + 1].offset && EqIgnoreCase(hops[n + 1].call, serverId);
  }

  /** In particular when further text was appended after a comma. */
  lemma AppendedHopsKeepPrefix(path: string, more: string)
    ensures Calls(Hops(path)) <= Calls(Hops(path + "," + more))
  {
    var s := path + "," + more;
    assert s[..|path|] == path;
    HopsSplit(path, s, 0);
  }

  // ----- Several passes -----

  /** What a second pass may do to the result of a first: refuse it, or leave it alone. */
  predicate Settled(source: string, path: string, ctx: QContext) {
    var next := ApplyClient(source, path, ctx);
    next.Ok? ==> next.value.path == path && !next.value.rewritten
  }

  lemma SettlesWithoutI(source: string, raw: string, ctx: QContext)
    requires ValidContext(ctx) && !ByIRule(raw, ctx) && ApplyClient(source, raw, ctx).Ok?
    ensures Settled(source, ApplyClient(source, raw, ctx).value.path, ctx)
  {
    if !ApplyClient(source, raw, ctx).value.rewritten {
      assert ApplyClient(source, raw, ctx).value.path == raw;
    } else if EntryCall(source, ctx) == ctx.serverId {
      ReentryRejected(source, raw, ctx, ApplyClient(source, raw, ctx).value.path, source, ctx);
    } else {
      LoginStampSettles(source, raw, ctx);
    }
  }

  lemma LoginStampSettles(source: string, raw: string, ctx: QContext)
    requires ValidContext(ctx) && !ByIRule(raw, ctx) && EntryCall(source, ctx) != ctx.serverId
    requires ApplyClient(source, raw, ctx).Ok? && ApplyClient(source, raw, ctx).value.rewritten
    ensures Settled(source, ApplyClient(source, raw, ctx).value.path, ctx)
  {
    var out := ApplyClient(source, raw, ctx).value;
    RewriteKeepsHead(source, raw, ctx);
    RewriteRecordsEntryCall(source, raw, ctx);
    LoginStampStays(source, out.path, ctx, out.code);
  }

  /** A path stamped with the client's name is left alone when the client sends it again. */
  lemma LoginStampStays(source: string, path: string, ctx: QContext, code: QCode)
    requires ValidContext(ctx) && EntryCall(source, ctx) != ctx.serverId
    requires FindQ(path).Some? && FindQ(path).value.code == code && code in {NonGated, GatedClientOnly}
    requires Hops(path) != [] && Hops(path)[|Hops(path)| - 1].call == ctx.login
    ensures Settled(source, path, ctx)
  {
    NoIAfterLogin(path, ctx.login);
  }

  lemma NoIAfterLogin(path: string, login: string)
    requires |login| >= 3 && Hops(path) != [] && Hops(path)[|Hops(path)| - 1].call == login
    ensures !EndsInI(Hops(path))
  {
    assert |Lower(login)| != |Lower("I")|;
  }

  /** An IGate written `I*` leaves another `,I` tail behind; rewriting that one too repeats a station. */
  lemma DoubleRewriteRepeats(source: string, raw: string, ctx: QContext)
    requires ByIRule(raw, ctx) && ApplyClient(source, raw, ctx).Ok?
    requires var p := ApplyClient(source, raw, ctx).value.path;
             ByIRule(p, ctx) && ApplyClient(source, p, ctx).Ok?
    ensures var p := ApplyClient(source, raw, ctx).value.path;
            ApplyClient(source, ApplyClient(source, p, ctx).value.path, ctx).Err?
  {
    var first := ApplyClient(source, raw, ctx).value;
    var second := ApplyClient(source, first.path, ctx).value;
    var n := |Hops(raw)| - 2;
    IRuleCalls(source, raw, ctx);
    IRuleCalls(source, first.path, ctx);
    assert |Calls(Hops(first.path))| == |Hops(first.path)|;
    LastIsI(Hops(raw)[..n], first.code, Hops(raw)[n].call, Hops(first.path));
    IgateCodesRepeat(second.path, n, second.code, first.code);
  }

  lemma LastIsI(before: seq<Hop>, code: QCode, igate: string, hops: seq<Hop>)
    requires Calls(hops) == Calls(before) + [Wire(code)] + ReadBack(igate)
    requires EndsInI(hops)
    ensures |hops| == |before| + 2 && hops[|before|].call == Wire(code)
  {
    assert |Calls(hops)| == |hops|;
    assert Calls(hops)[|before|] == Wire(code);
    assert |Lower(Wire(code))| != |Lower("I")|;
  }

  lemma IgateCodesRepeat(path: string, n: nat, a: QCode, b: QCode)
    requires n + 1 < |Hops(path)| && Hops(path)[n].call == Wire(a) && Hops(path)[n + 1].call == Wire(b)
    requires a in {VerifiedIgate, RemoteIgate} && b in {VerifiedIgate, RemoteIgate}
    ensures FirstDuplicate(path).Some?
  {
    assert Lower(Wire(a)) == "qar" == Lower(Wire(b));
    NotAnAlias(Wire(a));
    NotAnAlias(Wire(b));
    assert SameStation(Hops(path)[n], Hops(path)[n + 1]);
    DuplicateFreeIffDistinct(path);
  }

  /** A name of another length than all of these is none of them. */
  lemma {:induction false} NamedByLength(call: string, names: seq<string>)
    requires forall i :: 0 <= i < |names| ==> |names[i]| != |call|
    ensures !NamedIn(call, names)
  {
    if names != [] {
      assert |Lower(call)| != |Lower(names[0])|;
      NamedByLength(call, names[1..]);
    }
  }

  lemma NotAnAlias(call: string)
    requires call == "qAR" || call == "qAr"
    ensures !IsGenericAlias(call)
  {
    NamedByLength(call, ALIASES);
    assert IndexFrom(call, '-', 0) == 3;
  }

  /** After two accepted passes on one connection the path is settled. */
  lemma TwoPassesSettle(source: string, raw: string, ctx: QContext)
    requires ValidContext(ctx) && ApplyClient(source, raw, ctx).Ok?
    requires ApplyClient(source, ApplyClient(source, raw, ctx).value.path, ctx).Ok?
    ensures Settled(source, ApplyClient(source, ApplyClient(source, raw, ctx).value.path, ctx).value.path, ctx)
  {
    var first := ApplyClient(source, raw, ctx).value;
    if !ByIRule(raw, ctx) {
      SettlesWithoutI(source, raw, ctx);
    } else if !ByIRule(first.path, ctx) {
      SettlesWithoutI(source, first.path, ctx);
    } else {
      DoubleRewriteRepeats(source, raw, ctx);
    }
  }

  /** The path after `k` accepted passes, if all of them were accepted. */
  function PathAfter(source: string, raw: string, ctx: QContext, k: nat): Option<string> {
    if k == 0 then Some(raw)
    else match PathAfter(source, raw, ctx, k - 1)
      case None => None
      case Some(path) =>
        match ApplyClient(source, path, ctx)
        case Ok(out) => Some(out.path)
        case Err(_) => None
  }

  /** However often it passes, a packet's path never changes after the second pass. */
  lemma {:induction false} PassesConverge(source: string, raw: string, ctx: QContext, k: nat)
    requires ValidContext(ctx) && k >= 2 && PathAfter(source, raw, ctx, k).Some?
    ensures PathAfter(source, raw, ctx, k) == PathAfter(source, raw, ctx, 2)
    ensures Settled(source, PathAfter(source, raw, ctx, k).value, ctx)
  {
    if k == 2 {
      assert PathAfter(source, raw, ctx, 1).Some? && PathAfter(source, raw, ctx, 0) == Some(raw);
      TwoPassesSettle(source, raw, ctx);
    } else {
      PassesConverge(source, raw, ctx, k - 1);
    }
  }
}
