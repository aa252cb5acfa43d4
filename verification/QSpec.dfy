/**
  The q algorithm at the level of callsigns: the same rules, over the list of callsigns in the path.
  The server works on byte offsets of one string instead; it is proved to do the same.
*/
module QSpec {
  import opened Wrappers
  import opened Ascii
  import opened Path
  import opened QConstruct
  import opened QProperties

  /** What a pass decides: the construct in force, the callsigns of the new path, and whether it is new. */
  datatype Ruling = Ruling(code: QCode, calls: seq<string>, rewritten: bool)

  predicate IsQCall(call: string) {
    ParseCode(call).Some?
  }

  /** The place of the first construct, or the number of callsigns. */
  function ConstructAt(calls: seq<string>): (m: nat)
    ensures m <= |calls| && (m < |calls| ==> IsQCall(calls[m]))
  {
    if calls == [] || IsQCall(calls[0]) then 0 else ConstructAt(calls[1..]) + 1
  }

  predicate Names(calls: seq<string>, from: nat, call: string) {
    exists i :: from <= i < |calls| && EqIgnoreCase(calls[i], call)
  }

  predicate Same(a: string, b: string) {
    !IsGenericAlias(a) && !IsGenericAlias(b) && EqIgnoreCase(a, b)
  }

  predicate HasRepeat(calls: seq<string>) {
    exists i, j :: 0 <= i < j < |calls| && Same(calls[i], calls[j])
  }

  /** The packets to be refused. */
  predicate Refused(calls: seq<string>, serverId: string) {
    var m := ConstructAt(calls);
    || (m < |calls| && calls[m] == "qAZ")
    || (m < |calls| && calls[m] == "qAC" && !Names(calls, 0, "TCPIP") && !Names(calls, 0, "TCPXX"))
    || (m < |calls| && Names(calls, m + 1, serverId))
    || HasRepeat(calls)
  }

  /** The rules for a packet that is not refused. */
  function Rule(source: string, calls: seq<string>, ctx: QContext): Ruling {
    var m, n := ConstructAt(calls), |calls|;
    var kept := calls[..m];
    if ctx.viaUdp then Ruling(Udp, kept + ["qAU", ctx.serverId], true)
    else if !ctx.verified then Ruling(Unverified, kept + ["qAX", ctx.serverId], true)
    else if n >= 2 && EqIgnoreCase(calls[n - 1], "I") then
      if EqIgnoreCase(calls[n - 2], ctx.login)
      then Ruling(VerifiedIgate, calls[..n - 2] + ["qAR"] + ReadBack(calls[n - 2]), true)
      else Ruling(RemoteIgate, calls[..n - 2] + ["qAr"] + ReadBack(calls[n - 2]), true)
    else if !EqIgnoreCase(source, ctx.login) then
      if m == n then Ruling(NonGated, calls + ["qAO", ctx.login], true)
      else if calls[m] == "qAR" || calls[m] == "qAr" then Ruling(GatedClientOnly, kept + ["qAo", ctx.login], true)
      else if calls[m] == "qAS" || calls[m] == "qAC" then Ruling(NonGated, kept + ["qAO", ctx.login], true)
      else Ruling(ParseCode(calls[m]).value, calls, false)
    else if m < n then Ruling(ParseCode(calls[m]).value, calls, false)
    else if ctx.sendOnly then Ruling(NonGated, calls + ["qAO", ctx.serverId], true)
    else Ruling(VerifiedClient, calls + ["qAC", ctx.serverId], true)
  }

  // ----- The list of callsigns says what the hops say -----

  lemma {:induction false} ConstructIs(calls: seq<string>, m: nat)
    requires m <= |calls| && (m < |calls| ==> IsQCall(calls[m])) && forall k :: 0 <= k < m ==> !IsQCall(calls[k])
    ensures ConstructAt(calls) == m
  {
    if m > 0 {
      ConstructIs(calls[1..], m - 1);
    }
  }

  lemma SameConstruct(raw: string)
    ensures ConstructAt(Calls(Hops(raw))) == FirstQ(Hops(raw), 0)
  {
    var m := FirstQ(Hops(raw), 0);
    assert forall k :: 0 <= k < m ==> !IsQ(Hops(raw)[k]);
    ConstructIs(Calls(Hops(raw)), m);
  }

  lemma SameLoop(raw: string, serverId: string)
    requires FindQ(raw).Some?
    ensures LoopsBack(raw, FindQ(raw).value, serverId) <==>
            Names(Calls(Hops(raw)), FirstQ(Hops(raw), 0) + 1, serverId)
  {
    var hops, m := Hops(raw), FirstQ(Hops(raw), 0);
    OffsetsIncrease(raw, 0);
    if LoopsBack(raw, FindQ(raw).value, serverId) {
      var i :| 0 <= i < |hops| && hops[i].offset > hops[m].offset && EqIgnoreCase(hops[i].call, serverId);
      assert i > m && EqIgnoreCase(Calls(hops)[i], serverId);
    }
    if Names(Calls(hops), m + 1, serverId) {
      var i :| m + 1 <= i < |Calls(hops)| && EqIgnoreCase(Calls(hops)[i], serverId);
      assert hops[m].offset < hops[i].offset;
    }
  }

  lemma SameTcpip(raw: string)
    ensures HasTcpip(raw) <==> Names(Calls(Hops(raw)), 0, "TCPIP") || Names(Calls(Hops(raw)), 0, "TCPXX")
  {
    var calls := Calls(Hops(raw));
    if HasTcpip(raw) {
      var i :| 0 <= i < |Hops(raw)|
        && (EqIgnoreCase(Hops(raw)[i].call, "TCPIP") || EqIgnoreCase(Hops(raw)[i].call, "TCPXX"));
      assert EqIgnoreCase(calls[i], "TCPIP") || EqIgnoreCase(calls[i], "TCPXX");
    }
  }

  lemma SameRepeat(raw: string)
    ensures FirstDuplicate(raw).Some? <==> HasRepeat(Calls(Hops(raw)))
  {
    var hops := Hops(raw);
    DuplicateFreeIffDistinct(raw);
    if FirstDuplicate(raw).Some? {
      var i, j :| 0 <= i < j < |hops| && SameStation(hops[i], hops[j]);
      assert Same(Calls(hops)[i], Calls(hops)[j]);
    }
    if HasRepeat(Calls(hops)) {
      var i, j :| 0 <= i < j < |hops| && Same(Calls(hops)[i], Calls(hops)[j]);
      assert SameStation(hops[i], hops[j]);
    }
  }

  /** The construct a rule looks at is the one found in the text. */
  lemma SameCode(raw: string)
    ensures var calls, m := Calls(Hops(raw)), FirstQ(Hops(raw), 0);
      && (FindQ(raw).None? <==> m == |calls|)
      && (m < |calls| ==> calls[m] == Wire(FindQ(raw).value.code) && ParseCode(calls[m]) == Some(FindQ(raw).value.code))
  {
    var hops, m := Hops(raw), FirstQ(Hops(raw), 0);
    if m < |hops| {
      CodesRoundTrip(ParseCode(hops[m].call).value, hops[m].call);
    }
  }

  /** The refusals that look at the construct. */
  lemma ConstructRefusals(raw: string, serverId: string)
    requires FindQ(raw).Some?
    ensures var calls, m, found := Calls(Hops(raw)), FirstQ(Hops(raw), 0), FindQ(raw).value;
      && m < |calls|
      && (found.code == Internal <==> calls[m] == "qAZ")
      && (found.code == VerifiedClient <==> calls[m] == "qAC")
      && (LoopsBack(raw, found, serverId) <==> Names(calls, m + 1, serverId))
  {
    SameCode(raw);
    SameLoop(raw, serverId);
    WireNames(FindQ(raw).value.code);
  }

  lemma WireNames(code: QCode)
    ensures code == Internal <==> Wire(code) == "qAZ"
    ensures code == VerifiedClient <==> Wire(code) == "qAC"
  {
  }

  /** The server refuses exactly the packets the specification refuses. */
  lemma RefusalRefinesSpec(raw: string, serverId: string)
    ensures Rejection(raw, serverId).Some? <==> Refused(Calls(Hops(raw)), serverId)
  {
    SameConstruct(raw);
    SameTcpip(raw);
    SameRepeat(raw);
    if FindQ(raw).Some? {
      ConstructRefusals(raw, serverId);
    }
  }

  /** The refusals by the construct. */
  predicate ConstructRefused(calls: seq<string>, serverId: string) {
    var m := ConstructAt(calls);
    m < |calls| && (calls[m] == "qAZ" || NoTcpip(calls) || Names(calls, m + 1, serverId))
  }

  predicate NoTcpip(calls: seq<string>) {
    var m := ConstructAt(calls);
    m < |calls| && calls[m] == "qAC" && !Names(calls, 0, "TCPIP") && !Names(calls, 0, "TCPXX")
  }

  /** Of the reasons that apply the first is given: internal, no TCPIP marker, a loop through this server. */
  lemma ConstructReason(raw: string, serverId: string)
    ensures var calls, r := Calls(Hops(raw)), Rejection(raw, serverId);
      var m := ConstructAt(calls);
      && (m < |calls| && calls[m] == "qAZ" ==> r == Some(RejectInternal))
      && (NoTcpip(calls) ==> r == Some(QacWithoutTcpip))
      && (ConstructRefused(calls, serverId) && calls[m] != "qAZ" && !NoTcpip(calls) ==> r == Some(Loop(serverId)))
  {
    SameConstruct(raw);
    SameTcpip(raw);
    if FindQ(raw).Some? {
      ConstructRefusals(raw, serverId);
    } else {
      SameCode(raw);
    }
  }

  /** Failing those, the station named twice: the first hop to name one already passed. */
  lemma RepeatReason(raw: string, serverId: string) returns (i: nat, k: nat)
    requires HasRepeat(Calls(Hops(raw))) && !ConstructRefused(Calls(Hops(raw)), serverId)
    ensures var calls := Calls(Hops(raw));
      && i < k < |calls| && Same(calls[i], calls[k]) && Rejection(raw, serverId) == Some(DuplicateInPath(calls[k]))
      && forall j, l :: 0 <= j < l < k ==> !Same(calls[j], calls[l])
  {
    SameRepeat(raw);
    i, k := DuplicateIsEarliest(raw);
    RepeatDecides(raw, serverId);
    forall j, l | 0 <= j < l < k
      ensures !Same(Calls(Hops(raw))[j], Calls(Hops(raw))[l])
    {
      assert !SameStation(Hops(raw)[j], Hops(raw)[l]);
    }
  }

  lemma RepeatDecides(raw: string, serverId: string)
    requires FirstDuplicate(raw).Some? && !ConstructRefused(Calls(Hops(raw)), serverId)
    ensures Rejection(raw, serverId) == Some(DuplicateInPath(FirstDuplicate(raw).value))
  {
    SameConstruct(raw);
    SameTcpip(raw);
    if FindQ(raw).Some? {
      ConstructRefusals(raw, serverId);
    }
  }

  lemma StampedCalls(path: string, before: seq<Hop>, n: nat, code: QCode, call: string)
    requires StampedAfter(Hops(path), before, n, code, call)
    ensures Calls(Hops(path)) == Calls(before)[..n] + [Wire(code), call]
  {
    var hops := Hops(path);
    assert hops == hops[..n] + [hops[n], hops[n + 1]];
    assert Calls(before[..n]) == Calls(before)[..n];
  }

  /** Outside the legacy rule the specification rules as the code's case analysis does. */
  ghost predicate RulesAlike(source: string, raw: string, ctx: QContext) {
    var out, calls := Accepted(source, raw, ctx), Calls(Hops(raw));
    var entry := [Wire(out.code), EntryCall(source, ctx)];
    Rule(source, calls, ctx) ==
      Ruling(out.code, if out.rewritten then calls[..FirstQ(Hops(raw), 0)] + entry else calls, out.rewritten)
  }

  lemma DowngradeNames(code: QCode)
    ensures Downgraded(code) == Some(GatedClientOnly) <==> Wire(code) == "qAR" || Wire(code) == "qAr"
    ensures Downgraded(code) == Some(NonGated) <==> Wire(code) == "qAS" || Wire(code) == "qAC"
    ensures Downgraded(code).Some? ==> Downgraded(code).value in {GatedClientOnly, NonGated}
  {
  }

  lemma DirectRulesAlike(source: string, raw: string, ctx: QContext)
    requires ctx.viaUdp || !ctx.verified
    ensures RulesAlike(source, raw, ctx)
  {
    var m := FirstQ(Hops(raw), 0);
    SameConstruct(raw);
    SameCode(raw);
  }

  lemma RelayRulesAlike(source: string, raw: string, ctx: QContext)
    requires !ctx.viaUdp && ctx.verified && !EndsInI(Hops(raw)) && !EqIgnoreCase(source, ctx.login)
    ensures RulesAlike(source, raw, ctx)
  {
    var calls, m := Calls(Hops(raw)), FirstQ(Hops(raw), 0);
    SameConstruct(raw);
    SameCode(raw);
    if m < |calls| {
      DowngradeNames(FindQ(raw).value.code);
    } else {
      assert calls[..m] == calls;
    }
  }

  lemma OwnRulesAlike(source: string, raw: string, ctx: QContext)
    requires !ctx.viaUdp && ctx.verified && !EndsInI(Hops(raw)) && EqIgnoreCase(source, ctx.login)
    ensures RulesAlike(source, raw, ctx)
  {
    var calls, m := Calls(Hops(raw)), FirstQ(Hops(raw), 0);
    SameConstruct(raw);
    SameCode(raw);
    if m == |calls| {
      assert calls[..m] == calls;
    }
  }

  lemma RuleOutsideI(source: string, raw: string, ctx: QContext)
    requires ValidContext(ctx) && !ByIRule(raw, ctx) && ApplyClient(source, raw, ctx).Ok?
    ensures var out := ApplyClient(source, raw, ctx).value;
      Rule(source, Calls(Hops(raw)), ctx) == Ruling(out.code, Calls(Hops(out.path)), out.rewritten)
  {
    var out := ApplyClient(source, raw, ctx).value;
    if ctx.viaUdp || !ctx.verified {
      DirectRulesAlike(source, raw, ctx);
    } else if EqIgnoreCase(source, ctx.login) {
      OwnRulesAlike(source, raw, ctx);
    } else {
      RelayRulesAlike(source, raw, ctx);
    }
    if out.rewritten {
      RewriteKeepsHead(source, raw, ctx);
      StampedCalls(out.path, Hops(raw), FirstQ(Hops(raw), 0), out.code, EntryCall(source, ctx));
    }
  }

  lemma RuleForI(source: string, raw: string, ctx: QContext)
    requires ByIRule(raw, ctx) && ApplyClient(source, raw, ctx).Ok?
    ensures var out := ApplyClient(source, raw, ctx).value;
      Rule(source, Calls(Hops(raw)), ctx) == Ruling(out.code, Calls(Hops(out.path)), out.rewritten)
  {
    var hops := Hops(raw);
    IRuleCalls(source, raw, ctx);
    assert Calls(hops[..|hops| - 2]) == Calls(hops)[..|hops| - 2];
  }

  /**
    The server's string rewriting refines the specification: it refuses the same packets, and an
    accepted path reads as the callsigns the rules give, under the construct they name.
  */
  lemma ApplyRefinesSpec(source: string, raw: string, ctx: QContext)
    requires ValidContext(ctx)
    ensures ApplyClient(source, raw, ctx).Err? <==> Refused(Calls(Hops(raw)), ctx.serverId)
    ensures ApplyClient(source, raw, ctx).Ok? ==>
      var out := ApplyClient(source, raw, ctx).value;
      Rule(source, Calls(Hops(raw)), ctx) == Ruling(out.code, Calls(Hops(out.path)), out.rewritten)
  {
    RefusalRefinesSpec(raw, ctx.serverId);
    if ApplyClient(source, raw, ctx).Ok? {
      if ByIRule(raw, ctx) {
        RuleForI(source, raw, ctx);
      } else {
        RuleOutsideI(source, raw, ctx);
      }
    }
  }
}
