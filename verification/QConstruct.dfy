/**
  The q construct algorithm: how a packet entered the network is recorded as a `qAx,CALL`
  pair at the end of its path, and packets that have looped are refused.
*/
module QConstruct {
  import opened Wrappers
  import opened Ascii
  import opened Path

  datatype QCode =
    | VerifiedClient | Unverified | Udp | GatedClientOnly | NonGated
    | Server | RemoteIgate | VerifiedIgate | Internal | Trace

  function Wire(code: QCode): (wire: string)
    ensures |wire| == 3
  {
    match code
    case VerifiedClient => "qAC"
    case Unverified => "qAX"
    case Udp => "qAU"
    case GatedClientOnly => "qAo"
    case NonGated => "qAO"
    case Server => "qAS"
    case RemoteIgate => "qAr"
    case VerifiedIgate => "qAR"
    case Internal => "qAZ"
    case Trace => "qAI"
  }

  function ParseCode(hop: string): Option<QCode> {
    if |hop| != 3 || hop[0] != 'q' || hop[1] != 'A' then None
    else match hop[2]
      case 'C' => Some(VerifiedClient)
      case 'X' => Some(Unverified)
      case 'U' => Some(Udp)
      case 'o' => Some(GatedClientOnly)
      case 'O' => Some(NonGated)
      case 'S' => Some(Server)
      case 'r' => Some(RemoteIgate)
      case 'R' => Some(VerifiedIgate)
      case 'Z' => Some(Internal)
      case 'I' => Some(Trace)
      case _ => None
  }

  /** The wire forms and the codes correspond one to one. */
  lemma CodesRoundTrip(code: QCode, hop: string)
    ensures ParseCode(Wire(code)) == Some(code)
    ensures ParseCode(hop) == Some(code) ==> hop == Wire(code)
    ensures Wire(Trace) == "qAI" && Wire(Server) == "qAS" && Wire(Internal) == "qAZ"
  {
  }

  // ----- Locating the construct -----

  datatype FoundQ = FoundQ(code: QCode, offset: nat, call: Option<string>)

  predicate IsQ(h: Hop) {
    ParseCode(h.call).Some?
  }

  /** The place of the first q construct at or after `i`, or the number of hops. */
  function FirstQ(hops: seq<Hop>, i: nat): (j: nat)
    requires i <= |hops|
    ensures i <= j <= |hops| && (j < |hops| ==> IsQ(hops[j]))
    ensures forall k :: i <= k < j ==> !IsQ(hops[k])
    decreases |hops| - i
  {
    if i == |hops| || IsQ(hops[i]) then i else FirstQ(hops, i + 1)
  }

  function FoundAt(hops: seq<Hop>, i: nat): Option<FoundQ>
    requires i < |hops| ==> IsQ(hops[i])
  {
    if i >= |hops| then None
    else Some(FoundQ(ParseCode(hops[i].call).value, hops[i].offset,
                     if i + 1 < |hops| then Some(hops[i + 1].call) else None))
  }

  function FindQ(raw: string): Option<FoundQ> {
    FoundAt(Hops(raw), FirstQ(Hops(raw), 0))
  }

  method FindConstruct(raw: string) returns (found: Option<FoundQ>)
    ensures found == FindQ(raw)
  {
    var hops := new HopIter(raw);
    while true
      invariant hops.Valid()
      invariant FirstQ(Hops(raw), 0) == FirstQ(Hops(raw), hops.count)
      decreases |Hops(raw)| - hops.count
    {
      var hop := hops.Next();
      if hop.None? {
        return None;
      }
      var code := ParseCode(hop.value.call);
      if code.Some? {
        var next := hops.Next();
        return Some(FoundQ(code.value, hop.value.offset, if next.None? then None else Some(next.value.call)));
      }
    }
  }

  // ----- Applying the algorithm -----

  datatype QReject =
    | RejectInternal
    | QacWithoutTcpip
    | Loop(serverId: string)
    | DuplicateInPath(call: string)

  datatype QContext = QContext(serverId: string, login: string, verified: bool, viaUdp: bool, sendOnly: bool)

  datatype QOutcome = QOutcome(code: QCode, path: string, rewritten: bool)

  function Unchanged(raw: string, code: QCode): QOutcome {
    QOutcome(code, raw, false)
  }

  function Stamp(head: string, code: QCode, call: string): string {
    (if head == "" then "" else head + ",") + Wire(code) + "," + call
  }

  function Append(raw: string, code: QCode, call: string): QOutcome {
    QOutcome(code, Stamp(raw, code, call), true)
  }

  function ReplaceAt(raw: string, offset: nat, code: QCode, call: string): QOutcome {
    QOutcome(code, Stamp(TruncatedTo(raw, offset), code, call), true)
  }

  function ReplaceOrAppend(raw: string, existing: Option<FoundQ>, code: QCode, call: string): QOutcome {
    match existing
    case Some(found) => ReplaceAt(raw, found.offset, code, call)
    case None => Append(raw, code, call)
  }

  /** Rewrite a trailing `,VIACALL,I` pair: cut at the second-to-last hop. */
  function RewriteI(raw: string, code: QCode, igate: string): QOutcome {
    var hops := Hops(raw);
    ReplaceAt(raw, if |hops| >= 2 then hops[|hops| - 2].offset else 0, code, igate)
  }

  method CollectOffsets(hops: HopIter) returns (offsets: seq<nat>)
    requires hops.Valid() && hops.count == 0
    modifies hops
    ensures |offsets| == |hops.all| && forall k :: 0 <= k < |offsets| ==> offsets[k] == hops.all[k].offset
  {
    offsets := [];
    while true
      invariant hops.Valid() && |offsets| == hops.count <= |hops.all|
      invariant forall k :: 0 <= k < |offsets| ==> offsets[k] == hops.all[k].offset
      decreases |hops.all| - hops.count
    {
      var hop := hops.Next();
      if hop.None? {
        break;
      }
      offsets := offsets + [hop.value.offset];
    }
  }

  method RewriteIConstruct(raw: string, code: QCode, igate: string) returns (r: QOutcome)
    ensures r == RewriteI(raw, code, igate)
  {
    var hops := new HopIter(raw);
    var offsets := CollectOffsets(hops);
    if offsets != [] {
      offsets := offsets[..|offsets| - 1];   // the literal `I`
    }
    r := ReplaceAt(raw, if offsets == [] then 0 else offsets[|offsets| - 1], code, igate);
  }

  /** The server appears among the hops behind the construct. */
  predicate LoopsBack(raw: string, found: FoundQ, serverId: string) {
    exists i :: 0 <= i < |Hops(raw)| && Hops(raw)[i].offset > found.offset && EqIgnoreCase(Hops(raw)[i].call, serverId)
  }

  /** Rule 1: the packets that must not be propagated. */
  function Rejection(raw: string, serverId: string): Option<QReject> {
    var existing := FindQ(raw);
    if existing.Some? && existing.value.code == Internal then Some(RejectInternal)
    else if existing.Some? && existing.value.code == VerifiedClient && !HasTcpip(raw) then Some(QacWithoutTcpip)
    else if existing.Some? && LoopsBack(raw, existing.value, serverId) then Some(Loop(serverId))
    else match FirstDuplicate(raw)
      case Some(call) => Some(DuplicateInPath(call))
      case None => None
  }

  function Downgraded(code: QCode): Option<QCode> {
    match code
    case VerifiedIgate | RemoteIgate => Some(GatedClientOnly)
    case Server | VerifiedClient => Some(NonGated)
    case _ => None
  }

  /** Rules 2 to 6, for a packet that was not rejected. */
  function Accepted(source: string, raw: string, ctx: QContext): QOutcome {
    var existing := FindQ(raw);
    if ctx.viaUdp then ReplaceOrAppend(raw, existing, Udp, ctx.serverId)
    else if !ctx.verified then ReplaceOrAppend(raw, existing, Unverified, ctx.serverId)
    else match IConstruct(raw)
      case Some(igate) =>
        RewriteI(raw, if EqIgnoreCase(igate, ctx.login) then VerifiedIgate else RemoteIgate, igate)
      case None =>
        if !EqIgnoreCase(source, ctx.login) then
          if existing.None? then Append(raw, NonGated, ctx.login)
          else match Downgraded(existing.value.code)
            case Some(code) => ReplaceAt(raw, existing.value.offset, code, ctx.login)
            case None => Unchanged(raw, existing.value.code)
        else if existing.Some? then Unchanged(raw, existing.value.code)
        else Append(raw, if ctx.sendOnly then NonGated else VerifiedClient, ctx.serverId)
  }

  /** The whole algorithm, for a packet from `source` with path `raw`. */
  function ApplyClient(source: string, raw: string, ctx: QContext): Result<QOutcome, QReject> {
    match Rejection(raw, ctx.serverId)
    case Some(reject) => Err(reject)
    case None => Ok(Accepted(source, raw, ctx))
  }

  /** The algorithm as the server runs it, over the hop iterator. */
  method Apply(source: string, raw: string, ctx: QContext) returns (r: Result<QOutcome, QReject>)
    ensures r == ApplyClient(source, raw, ctx)
  {
    var existing := FindConstruct(raw);
    if existing.Some? {
      var found := existing.value;
      if found.code == Internal {
        return Err(RejectInternal);
      }
      if found.code == VerifiedClient && !HasTcpip(raw) {
        return Err(QacWithoutTcpip);
      }
      if LoopsBack(raw, found, ctx.serverId) {
        return Err(Loop(ctx.serverId));
      }
    }
    var duplicate := FindFirstDuplicate(raw);
    if duplicate.Some? {
      return Err(DuplicateInPath(duplicate.value));
    }
    if ctx.viaUdp {
      return Ok(ReplaceOrAppend(raw, existing, Udp, ctx.serverId));
    }
    if !ctx.verified {
      return Ok(ReplaceOrAppend(raw, existing, Unverified, ctx.serverId));
    }
    var igate := FindIConstruct(raw);
    if igate.Some? {
      var code := if EqIgnoreCase(igate.value, ctx.login) then VerifiedIgate else RemoteIgate;
      var outcome := RewriteIConstruct(raw, code, igate.value);
      return Ok(outcome);
    }
    if !EqIgnoreCase(source, ctx.login) {
      if existing.Some? {
        var code := Downgraded(existing.value.code);
        if code.Some? {
          return Ok(ReplaceAt(raw, existing.value.offset, code.value, ctx.login));
        }
        return Ok(Unchanged(raw, existing.value.code));
      }
      return Ok(Append(raw, NonGated, ctx.login));
    }
    if existing.Some? {
      return Ok(Unchanged(raw, existing.value.code));
    }
    return Ok(Append(raw, if ctx.sendOnly then NonGated else VerifiedClient, ctx.serverId));
  }
}
