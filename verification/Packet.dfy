/**
  TNC2 framing: `SOURCE>DESTINATION[,PATH]:information field`, read from and written back to
  one line without its CR/LF.
*/
module Packet {
  import opened Wrappers
  import opened Ascii
  import Callsign

  const MAX_PACKET_LEN: nat := 512
  const MAX_PACKET_BODY_LEN: nat := MAX_PACKET_LEN - 2

  datatype PacketError =
    | Empty
    | TooLong(found: nat)
    | ControlCharacter(byte: char)
    | MissingDestination
    | MissingPayload
    | InvalidSource(source: string, sourceError: Callsign.CallsignError)
    | InvalidDestination(destination: string, destinationError: Callsign.CallsignError)
    | EmptyPayload

  datatype Tnc2Packet = Tnc2Packet(raw: string, source: string, destination: string, path: string, payload: string, colon: nat)

  predicate IsControl(c: char) {
    c < ' ' && c != '\t'
  }

  predicate Printable(s: string) {
    forall k :: 0 <= k < |s| ==> !IsControl(s[k])
  }

  /** The first control byte at or after `i`, or the length when there is none. */
  function FirstControl(s: string, i: nat): (j: nat)
    requires i <= |s|
    ensures i <= j <= |s| && (j < |s| ==> IsControl(s[j]))
    decreases |s| - i
  {
    if i == |s| || IsControl(s[i]) then i else FirstControl(s, i + 1)
  }

  /** There is none exactly when the text is printable; otherwise it is the earliest. */
  lemma {:induction false} FirstControlIsFirst(s: string, i: nat)
    requires i <= |s|
    ensures forall k :: i <= k < FirstControl(s, i) ==> !IsControl(s[k])
    decreases |s| - i
  {
    if i < |s| && !IsControl(s[i]) {
      FirstControlIsFirst(s, i + 1);
    }
  }

  function Parse(raw: string): Result<Tnc2Packet, PacketError> {
    if raw == "" then Err(Empty)
    else if |raw| > MAX_PACKET_BODY_LEN then Err(TooLong(|raw|))
    else if FirstControl(raw, 0) < |raw| then Err(ControlCharacter(raw[FirstControl(raw, 0)]))
    else match Find(raw, ':')
      case None => Err(MissingPayload)
      case Some(colon) =>
        if colon + 1 == |raw| then Err(EmptyPayload)
        else ParseHeader(raw, colon)
  }

  datatype Header = Header(source: string, destination: string, path: string)

  /** A header cut at its first `>` and then at the first comma behind it. */
  function CutHeader(header: string): Option<Header> {
    match Find(header, '>')
    case None => None
    case Some(gt) =>
      var rest := header[gt + 1..];
      var cut := IndexFrom(rest, ',', 0);
      Some(Header(header[..gt], rest[..cut], if cut < |rest| then rest[cut + 1..] else ""))
  }

  function ParseHeader(raw: string, colon: nat): Result<Tnc2Packet, PacketError>
    requires colon < |raw|
  {
    match CutHeader(raw[..colon])
    case None => Err(MissingDestination)
    case Some(h) => Assemble(Tnc2Packet(raw, h.source, h.destination, h.path, raw[colon + 1..], colon))
  }

  function Assemble(p: Tnc2Packet): Result<Tnc2Packet, PacketError> {
    match (Callsign.Validation(p.source), Callsign.Validation(p.destination))
    case (Err(e), _) => Err(InvalidSource(p.source, e))
    case (_, Err(e)) => Err(InvalidDestination(p.destination, e))
    case (Ok(_), Ok(_)) => Ok(p)
  }

  function PathField(path: string): string {
    if path == "" then "" else "," + path
  }

  /** The header of the packet with another path: source, `>`, destination, and the path if there is one. */
  function HeaderText(p: Tnc2Packet, path: string): string {
    p.source + ">" + (p.destination + PathField(path))
  }

  /** The packet's line with another path. */
  function WithPath(p: Tnc2Packet, path: string): string {
    HeaderText(p, path) + ":" + p.payload
  }

  /** As the server renders it: piece by piece onto a growing line. */
  method Render(p: Tnc2Packet, path: string) returns (out: string)
    ensures out == WithPath(p, path)
  {
    out := p.source;
    out := out + ">";
    out := out + p.destination;
    if path != "" {
      out := out + ",";
      out := out + path;
    }
    LineIsJoined(p, path);
    out := out + ":";
    out := out + p.payload;
  }

  // ----- The line as its pieces -----

  /** A text that can stand in the path of a line without changing its framing. */
  predicate PathText(path: string) {
    Printable(path) && Lacks(path, ':')
  }

  /** What a successful parse establishes about the pieces. */
  ghost predicate WellFormed(p: Tnc2Packet) {
    && Callsign.IsValid(p.source) && Callsign.IsValid(p.destination)
    && PathText(p.path) && Printable(p.payload) && p.payload != ""
  }

  /** A line whose first colon ends the header. */
  lemma ParseAtColon(line: string, header: string, payload: string)
    requires line == header + ":" + payload && PathText(header) && Printable(payload) && payload != ""
    ensures Parse(line) == if |line| > MAX_PACKET_BODY_LEN then Err(TooLong(|line|)) else ParseHeader(line, |header|)
    ensures line[..|header|] == header && line[|header| + 1..] == payload
  {
    assert line[..|header|] == header && line[|header| + 1..] == payload;
    assert forall k :: 0 <= k < |header| ==> line[k] == header[k];
    IndexIs(line, ':', 0, |header|);
    LinePrintable(header, payload);
    FirstControlIsFirst(line, 0);
  }

  /** `line` parses to `p`, unless it is too long. */
  predicate ParsesAs(line: string, p: Tnc2Packet) {
    Parse(line) == if |line| > MAX_PACKET_BODY_LEN then Err(TooLong(|line|)) else Ok(p)
  }

  lemma ParseJoined(line: string, header: string, rest: string, p: Tnc2Packet, path: string)
    requires line == header + ":" + p.payload && header == p.source + ">" + rest
    requires rest == p.destination + PathField(path)
    requires WellFormed(p) && PathText(path)
    ensures ParsesAs(line, Tnc2Packet(line, p.source, p.destination, path, p.payload, |header|))
  {
    HeaderPlain(header, rest, p, path);
    ParseAtColon(line, header, p.payload);
    NamesPlain(p);
    HeaderPieces(header, p.source, rest, p.destination, path);
    AssembleOk(Tnc2Packet(line, p.source, p.destination, path, p.payload, |header|));
  }

  lemma LineIsJoined(p: Tnc2Packet, path: string)
    ensures WithPath(p, path) == p.source + ">" + p.destination + PathField(path) + ":" + p.payload
    ensures path != "" ==> HeaderText(p, path) == p.source + ">" + p.destination + "," + path
  {
    assert HeaderText(p, path) == p.source + ">" + p.destination + PathField(path);
  }

  /** The pieces of a line, put together with a path text, parse back to the pieces. */
  lemma ParsePieces(p: Tnc2Packet, path: string)
    requires WellFormed(p) && PathText(path)
    ensures var line := WithPath(p, path);
      ParsesAs(line, Tnc2Packet(line, p.source, p.destination, path, p.payload, |HeaderText(p, path)|))
  {
    ParseJoined(WithPath(p, path), HeaderText(p, path), p.destination + PathField(path), p, path);
  }

  lemma NamesPlain(p: Tnc2Packet)
    requires Callsign.IsValid(p.source) && Callsign.IsValid(p.destination)
    ensures Lacks(p.source, '>') && Lacks(p.destination, ',')
  {
    Callsign.ValidIsPlain(p.source);
    Callsign.ValidIsPlain(p.destination);
  }

  lemma AssembleOk(p: Tnc2Packet)
    requires Callsign.IsValid(p.source) && Callsign.IsValid(p.destination)
    ensures Assemble(p) == Ok(p)
  {
  }

  lemma HeaderPlain(header: string, rest: string, p: Tnc2Packet, path: string)
    requires WellFormed(p) && PathText(path)
    requires header == p.source + ">" + rest && rest == p.destination + PathField(path)
    ensures PathText(header)
  {
    Callsign.ValidIsPlain(p.source);
    Callsign.ValidIsPlain(p.destination);
    assert PathText(rest);
  }

  lemma LinePrintable(header: string, payload: string)
    requires Printable(header) && Printable(payload)
    ensures Printable(header + ":" + payload)
  {
  }

  lemma RestPieces(rest: string, destination: string, path: string)
    requires rest == destination + PathField(path) && Lacks(destination, ',')
    ensures var cut := IndexFrom(rest, ',', 0);
      rest[..cut] == destination && path == if cut < |rest| then rest[cut + 1..] else ""
  {
    assert forall k :: 0 <= k < |destination| ==> rest[k] == destination[k];
    IndexIs(rest, ',', 0, |destination|);
  }

  lemma SourceCut(header: string, source: string, rest: string)
    requires header == source + ">" + rest && Lacks(source, '>')
    ensures Find(header, '>') == Some(|source|) && header[..|source|] == source && header[|source| + 1..] == rest
  {
    assert forall k :: 0 <= k < |source| ==> header[k] == source[k];
    IndexIs(header, '>', 0, |source|);
  }

  lemma HeaderPieces(header: string, source: string, rest: string, destination: string, path: string)
    requires header == source + ">" + rest && rest == destination + PathField(path)
    requires Lacks(source, '>') && Lacks(destination, ',')
    ensures CutHeader(header) == Some(Header(source, destination, path))
  {
    SourceCut(header, source, rest);
    RestPieces(rest, destination, path);
  }

  // ----- What a parse says about the line -----

  lemma ParseHeaderSplits(raw: string, colon: nat)
    requires colon < |raw| && PathText(raw[..colon]) && ParseHeader(raw, colon).Ok?
    ensures var p := ParseHeader(raw, colon).value;
      && Callsign.IsValid(p.source) && Callsign.IsValid(p.destination) && PathText(p.path)
      && p.raw == raw && p.colon == colon && p.payload == raw[colon + 1..]
      && HeaderIs(raw[..colon], p.source, p.destination, p.path)
  {
    HeaderSplits(raw[..colon]);
  }

  lemma ParseSplitsLine(raw: string)
    requires Parse(raw).Ok?
    ensures var p := Parse(raw).value;
      && WellFormed(p) && p.raw == raw && |raw| <= MAX_PACKET_BODY_LEN
      && p.colon < |raw| && raw[p.colon] == ':' && p.payload == raw[p.colon + 1..]
      && HeaderIs(raw[..p.colon], p.source, p.destination, p.path)
  {
    var colon := Find(raw, ':').value;
    FirstControlIsFirst(raw, 0);
    NoneBefore(raw, ':', 0);
    assert PathText(raw[..colon]);
    ParseHeaderSplits(raw, colon);
  }

  /** `header` is source, `>`, destination, and then the path behind a comma, or nothing. */
  ghost predicate HeaderIs(header: string, source: string, destination: string, path: string) {
    var rest := destination + "," + path;
    header == source + ">" + rest || (path == "" && header == source + ">" + destination)
  }

  /** Cutting a text at a byte it holds. */
  lemma CutText(s: string, i: nat, c: char)
    requires i < |s| && s[i] == c
    ensures s == s[..i] + [c] + s[i + 1..]
  {
  }

  lemma TailIsPathText(s: string, i: nat)
    requires PathText(s) && i <= |s|
    ensures PathText(s[i..])
  {
  }

  lemma HeaderSplits(header: string)
    requires PathText(header) && CutHeader(header).Some?
    ensures var h := CutHeader(header).value;
      HeaderIs(header, h.source, h.destination, h.path) && PathText(h.path)
  {
    var gt := Find(header, '>').value;
    var rest := header[gt + 1..];
    var cut := IndexFrom(rest, ',', 0);
    CutText(header, gt, '>');
    TailIsPathText(header, gt + 1);
    if cut < |rest| {
      CutText(rest, cut, ',');
      TailIsPathText(rest, cut + 1);
    } else {
      assert rest == rest[..cut];
    }
  }

  // ----- Why a line is refused -----

  /** Between 1 and 510 bytes, none of them a control byte but for tabs. */
  ghost predicate Clean(raw: string) {
    0 < |raw| <= 510 && forall k :: 0 <= k < |raw| ==> raw[k] as int >= 32 || raw[k] as int == 9
  }

  lemma RefusedLength(raw: string)
    ensures raw == "" ==> Parse(raw) == Err(Empty)
    ensures |raw| > 510 ==> Parse(raw) == Err(TooLong(|raw|))
  {
  }

  /** The first control byte is reported. */
  lemma RefusedControl(raw: string, k: nat)
    requires k < |raw| <= 510 && raw[k] as int < 32 && raw[k] as int != 9
    requires forall j :: 0 <= j < k ==> raw[j] as int >= 32 || raw[j] as int == 9
    ensures Parse(raw) == Err(ControlCharacter(raw[k]))
  {
    FirstControlIsFirst(raw, 0);
    FirstControlNotAfter(raw, 0, k);
  }

  lemma {:induction false} FirstControlNotAfter(s: string, i: nat, k: nat)
    requires i <= k < |s| && IsControl(s[k])
    ensures FirstControl(s, i) <= k
    decreases k - i
  {
    if i < k && !IsControl(s[i]) {
      FirstControlNotAfter(s, i + 1, k);
    }
  }

  lemma CleanHasNoControl(raw: string)
    requires Clean(raw)
    ensures FirstControl(raw, 0) == |raw|
  {
    assert FirstControl(raw, 0) < |raw| ==> IsControl(raw[FirstControl(raw, 0)]);
  }

  lemma RefusedColonless(raw: string)
    requires Clean(raw) && Lacks(raw, ':')
    ensures Parse(raw) == Err(MissingPayload)
  {
    CleanHasNoControl(raw);
    IndexIs(raw, ':', 0, |raw|);
  }

  /** The first colon ends the header: nothing behind it, or no `>` in front of it. */
  lemma RefusedAtColon(raw: string, colon: nat)
    requires Clean(raw) && colon < |raw| && raw[colon] == ':' && Lacks(raw[..colon], ':')
    ensures colon + 1 == |raw| ==> Parse(raw) == Err(EmptyPayload)
    ensures colon + 1 < |raw| && Lacks(raw[..colon], '>') ==> Parse(raw) == Err(MissingDestination)
  {
    CleanHasNoControl(raw);
    assert forall k :: 0 <= k < colon ==> raw[k] == raw[..colon][k];
    IndexIs(raw, ':', 0, colon);
    if Lacks(raw[..colon], '>') {
      IndexIs(raw[..colon], '>', 0, colon);
    }
  }

  /** Both names are checked, the source first. */
  lemma RefusedNames(raw: string, p: Tnc2Packet, rest: string)
    requires raw == (p.source + ">" + rest) + ":" + p.payload && rest == p.destination + PathField(p.path)
    requires Clean(raw) && p.payload != "" && Lacks(p.source + ">" + rest, ':')
    requires Lacks(p.source, '>') && Lacks(p.destination, ',')
    ensures Callsign.Validation(p.source).Err? ==>
      Parse(raw) == Err(InvalidSource(p.source, Callsign.Validation(p.source).error))
    ensures Callsign.IsValid(p.source) && Callsign.Validation(p.destination).Err? ==>
      Parse(raw) == Err(InvalidDestination(p.destination, Callsign.Validation(p.destination).error))
  {
    var header := p.source + ">" + rest;
    assert raw[..|header|] == header;
    assert forall k :: 0 <= k < |header| ==> raw[k] == header[k];
    CleanHasNoControl(raw);
    IndexIs(raw, ':', 0, |header|);
    HeaderPieces(header, p.source, rest, p.destination, p.path);
  }

  /**
    Re-rendering with the path as parsed gives the line back byte for byte, unless the line held a
    bare comma behind the destination: that comma is dropped.
  */
  lemma RerenderIsIdentity(raw: string)
    requires Parse(raw).Ok?
    ensures var p := Parse(raw).value;
      && 0 < p.colon <= |raw|
      && (WithPath(p, p.path) == raw <==> !(p.path == "" && raw[p.colon - 1] == ','))
      && (WithPath(p, p.path) != raw ==> raw == p.source + ">" + p.destination + "," + ":" + p.payload)
  {
    ParseSplitsLine(raw);
    RerenderPieces(raw, Parse(raw).value);
  }

  lemma RerenderPieces(raw: string, p: Tnc2Packet)
    requires WellFormed(p) && p.colon < |raw| && raw[p.colon] == ':' && p.payload == raw[p.colon + 1..]
    requires HeaderIs(raw[..p.colon], p.source, p.destination, p.path)
    ensures 0 < p.colon
    ensures WithPath(p, p.path) == raw <==> !(p.path == "" && raw[p.colon - 1] == ',')
    ensures WithPath(p, p.path) != raw ==> raw == p.source + ">" + p.destination + "," + ":" + p.payload
  {
    Callsign.ValidIsPlain(p.destination);
    LineIsJoined(p, p.path);
    assert raw == raw[..p.colon] + ":" + p.payload;
    var plain := p.source + ">" + p.destination;
    assert raw[..p.colon] != plain ==> raw[..p.colon] == plain + "," + p.path;
    Rerender(raw, raw[..p.colon], plain, p.path, p.payload);
  }

  lemma Rerender(raw: string, header: string, plain: string, path: string, payload: string)
    requires raw == header + ":" + payload && plain != "" && plain[|plain| - 1] != ','
    requires if header == plain then path == "" else header == plain + "," + path
    ensures var line := plain + PathField(path) + ":" + payload;
      && |header| > 0
      && (line == raw <==> !(path == "" && raw[|header| - 1] == ','))
      && (line != raw ==> raw == plain + "," + ":" + payload)
  {
    assert raw[|header| - 1] == header[|header| - 1];
    if header != plain && path == "" {
      assert header == plain + ",";
      assert |raw| != |plain + PathField(path) + ":" + payload|;
    }
  }

  /** The comma that is lost: a line with one, its parse, and the line rendered from it. */
  lemma BareCommaLost(raw: string, source: string, destination: string, payload: string)
    requires source == "N0CALL" && destination == "APRS" && payload == "x"
    requires raw == source + ">" + (destination + ",") + ":" + payload
    ensures Parse(raw) == Ok(Tnc2Packet(raw, source, destination, "", payload, |source| + |destination| + 2))
    ensures raw[|source| + |destination| + 1] == ','
    ensures WithPath(Parse(raw).value, "") == source + ">" + destination + ":" + payload != raw
  {
    var rest := destination + ",";
    var header := source + ">" + rest;
    PlainIsValid(source);
    PlainIsValid(destination);
    Callsign.ValidIsPlain(source);
    Callsign.ValidIsPlain(destination);
    ParseAtColon(raw, header, payload);
    SourceCut(header, source, rest);
    IndexIs(rest, ',', 0, |destination|);
    assert rest[..|destination|] == destination && rest[|destination| + 1..] == "";
    assert raw[..|header|] == header;
  }

  lemma PlainIsValid(s: string)
    requires 0 < |s| <= Callsign.MAX_CALLSIGN_LEN && forall k :: 0 <= k < |s| ==> Callsign.IsCallChar(s[k])
    ensures Callsign.IsValid(s)
  {
    Callsign.ValidationIsExact(s, None);
  }
}
