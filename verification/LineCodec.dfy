/**
  Line framing.  `Drain` says what a buffer means: the lines it completes, what is left
  waiting for more bytes, and whether the tail of an over-long line is still being dropped.
  `LineCodec` is the incremental decoder over a growing buffer.
*/
module LineCodec {
  import opened Wrappers
  import opened Ascii

  datatype Line = Text(text: string) | Oversized | NotUtf8

  /** The length limit, and which byte strings are UTF-8. */
  datatype Rules = Rules(maxLength: nat, isUtf8: string -> bool)

  function StripCarriageReturn(bytes: string): string {
    if bytes != "" && bytes[|bytes| - 1] == '\r' then bytes[..|bytes| - 1] else bytes
  }

  function DecodeLine(rules: Rules, bytes: string): Line {
    if rules.isUtf8(bytes) then Text(bytes) else NotUtf8
  }

  /** What one segment between newlines stands for. */
  function SegmentLine(rules: Rules, segment: string): Line {
    if |segment| > rules.maxLength then Oversized else DecodeLine(rules, StripCarriageReturn(segment))
  }

  // ----- One-shot reference: split at LF -----

  /** The segments of a stream; the last one is what follows the final newline. */
  function Segments(s: string): (r: seq<string>)
    ensures r != []
    decreases |s|
  {
    var i := IndexFrom(s, '\n', 0);
    if i == |s| then [s] else [s[..i]] + Segments(s[i + 1..])
  }

  function JoinLf(segments: seq<string>): string
    requires segments != []
  {
    if |segments| == 1 then segments[0] else segments[0] + "\n" + JoinLf(segments[1..])
  }

  /** Splitting loses nothing: the segments hold no newline, and joined by newlines they are the stream. */
  lemma {:induction false} SegmentsJoin(s: string)
    ensures JoinLf(Segments(s)) == s
    ensures forall k :: 0 <= k < |Segments(s)| ==> NoNewline(Segments(s)[k], |Segments(s)[k]|)
    decreases |s|
  {
    var i := IndexFrom(s, '\n', 0);
    NoneBefore(s, '\n', 0);
    if i < |s| {
      SegmentsJoin(s[i + 1..]);
      assert s == s[..i] + "\n" + s[i + 1..];
      assert Segments(s)[1..] == Segments(s[i + 1..]);
    }
  }

  function SegmentLines(rules: Rules, segments: seq<string>): (r: seq<Line>)
    ensures |r| == |segments| && forall i :: 0 <= i < |r| ==> r[i] == SegmentLine(rules, segments[i])
  {
    seq(|segments|, i requires 0 <= i < |segments| => SegmentLine(rules, segments[i]))
  }

  /** Nothing after the final newline is no segment. */
  function Ended(segments: seq<string>): seq<string>
    requires segments != []
  {
    var last := |segments| - 1;
    if segments[last] == "" then segments[..last] else segments
  }

  function OneShot(rules: Rules, s: string): seq<Line> {
    SegmentLines(rules, Ended(Segments(s)))
  }

  // ----- What a buffer means -----

  datatype Drained = Drained(lines: seq<Line>, rest: string, discarding: bool)

  /** A finished segment in front: its line, or nothing when it is the tail of a dropped line. */
  function WithSegment(rules: Rules, discarding: bool, segment: string, after: Drained): Drained {
    if discarding then after else after.(lines := [SegmentLine(rules, segment)] + after.lines)
  }

  function Drain(rules: Rules, discarding: bool, s: string): Drained
    decreases |s|
  {
    var i := IndexFrom(s, '\n', 0);
    if i < |s| then WithSegment(rules, discarding, s[..i], Drain(rules, false, s[i + 1..]))
    else if discarding then Drained([], "", true)
    else if |s| > rules.maxLength then Drained([Oversized], "", true)
    else Drained([], s, false)
  }

  ghost predicate NoNewline(s: string, n: nat)
    requires n <= |s|
  {
    forall k :: 0 <= k < n ==> s[k] != '\n'
  }

  /** Bytes of a line being dropped do not matter. */
  lemma SkipDropped(rules: Rules, s: string, n: nat)
    requires n <= |s| && NoNewline(s, n)
    ensures Drain(rules, true, s) == Drain(rules, true, s[n..])
  {
    var i := IndexFrom(s, '\n', 0);
    NoneBefore(s, '\n', 0);
    assert i >= n;
    assert forall k :: 0 <= k < i - n ==> s[n..][k] == s[n + k];
    IndexIs(s[n..], '\n', 0, i - n);
    if i < |s| {
      assert s[n..][i - n + 1..] == s[i + 1..];
    }
  }

  /** Reporting an over-long line early, and then dropping it, is what the whole line means. */
  lemma ReportEarly(rules: Rules, s: string, n: nat)
    requires rules.maxLength < n <= |s| && NoNewline(s, n)
    ensures var dropped := Drain(rules, true, s);
      Drain(rules, false, s) == dropped.(lines := [Oversized] + dropped.lines)
  {
  }

  lemma FirstLine(rules: Rules, s: string, newline: nat)
    requires newline < |s| && IndexFrom(s, '\n', 0) == newline <= rules.maxLength
    ensures var line, after := s[..newline + 1], Drain(rules, false, s[newline + 1..]);
      Drain(rules, false, s) ==
      after.(lines := [DecodeLine(rules, StripCarriageReturn(line[..|line| - 1]))] + after.lines)
  {
    assert s[..newline + 1][..newline] == s[..newline];
  }

  /** The lines still to come when the stream ends here: an unterminated line is a line too. */
  function AtEof(rules: Rules, d: Drained): seq<Line> {
    d.lines + if d.rest == "" then [] else [DecodeLine(rules, StripCarriageReturn(d.rest))]
  }

  lemma AtEofCons(rules: Rules, line: Line, d: Drained)
    ensures AtEof(rules, d.(lines := [line] + d.lines)) == [line] + AtEof(rules, d)
  {
  }

  lemma DrainNewline(rules: Rules, discarding: bool, a: string, b: string, i: nat)
    requires i < |a| && IndexFrom(a, '\n', 0) == i
    ensures IndexFrom(a + b, '\n', 0) == i
    ensures (a + b)[..i] == a[..i] && (a + b)[i + 1..] == a[i + 1..] + b
  {
    NoneBefore(a, '\n', 0);
    IndexIs(a + b, '\n', 0, i);
  }

  lemma AppendToDropped(rules: Rules, a: string, b: string)
    requires NoNewline(a, |a|)
    ensures NoNewline(a + b, |a|) && Drain(rules, true, a + b) == Drain(rules, true, b)
  {
    SkipDropped(rules, a + b, |a|);
    assert (a + b)[|a|..] == b;
  }

  /** `whole` is what reading on from `first` with `second` as the outcome amounts to. */
  predicate Continues(whole: Drained, first: Drained, second: Drained) {
    whole == second.(lines := first.lines + second.lines)
  }

  lemma ContinuesBehind(rules: Rules, discarding: bool, segment: string, whole: Drained, first: Drained, second: Drained)
    requires Continues(whole, first, second)
    ensures Continues(WithSegment(rules, discarding, segment, whole), WithSegment(rules, discarding, segment, first), second)
  {
  }

  lemma AppendToUnfinished(rules: Rules, discarding: bool, a: string, b: string)
    requires NoNewline(a, |a|)
    ensures var first := Drain(rules, discarding, a);
      Continues(Drain(rules, discarding, a + b), first, Drain(rules, first.discarding, first.rest + b))
  {
    AppendToDropped(rules, a, b);
    IndexIs(a, '\n', 0, |a|);
    assert "" + b == b;
    if !discarding && |a| > rules.maxLength {
      ReportEarly(rules, a + b, |a|);
    }
  }

  lemma DrainAt(rules: Rules, discarding: bool, s: string, i: nat)
    requires i < |s| && IndexFrom(s, '\n', 0) == i
    ensures Drain(rules, discarding, s) == WithSegment(rules, discarding, s[..i], Drain(rules, false, s[i + 1..]))
  {
  }

  lemma AppendBehind(rules: Rules, discarding: bool, a: string, b: string, i: nat)
    requires i < |a| && IndexFrom(a, '\n', 0) == i
    requires var first := Drain(rules, false, a[i + 1..]);
      Continues(Drain(rules, false, a[i + 1..] + b), first, Drain(rules, first.discarding, first.rest + b))
    ensures var first := Drain(rules, discarding, a);
      Continues(Drain(rules, discarding, a + b), first, Drain(rules, first.discarding, first.rest + b))
  {
    var first := Drain(rules, false, a[i + 1..]);
    DrainNewline(rules, discarding, a, b, i);
    DrainAt(rules, discarding, a, i);
    DrainAt(rules, discarding, a + b, i);
    ContinuesBehind(rules, discarding, a[..i], Drain(rules, false, a[i + 1..] + b), first,
                    Drain(rules, first.discarding, first.rest + b));
  }

  /** Reading in two pieces: the second continues from what the first left waiting. */
  lemma {:induction false} DrainAppend(rules: Rules, discarding: bool, a: string, b: string)
    ensures var first := Drain(rules, discarding, a);
      Continues(Drain(rules, discarding, a + b), first, Drain(rules, first.discarding, first.rest + b))
    decreases |a|
  {
    var i := IndexFrom(a, '\n', 0);
    if i < |a| {
      var t := a[i + 1..];
      DrainAppend(rules, false, t, b);
      AppendBehind(rules, discarding, a, b, i);
    } else {
      NoneBefore(a, '\n', 0);
      AppendToUnfinished(rules, discarding, a, b);
    }
  }

  lemma DrainStep(rules: Rules, s: string, i: nat)
    requires i < |s| && IndexFrom(s, '\n', 0) == i
    ensures AtEof(rules, Drain(rules, false, s)) ==
            [SegmentLine(rules, s[..i])] + AtEof(rules, Drain(rules, false, s[i + 1..]))
  {
    AtEofCons(rules, SegmentLine(rules, s[..i]), Drain(rules, false, s[i + 1..]));
  }

  lemma LastSegment(rules: Rules, s: string)
    requires IndexFrom(s, '\n', 0) == |s|
    ensures AtEof(rules, Drain(rules, false, s)) == OneShot(rules, s)
  {
    assert Segments(s) == [s];
  }

  /** Draining the whole stream and then its end gives the one-shot lines. */
  lemma {:induction false} DrainIsOneShot(rules: Rules, s: string)
    ensures AtEof(rules, Drain(rules, false, s)) == OneShot(rules, s)
    decreases |s|
  {
    var i := IndexFrom(s, '\n', 0);
    if i < |s| {
      DrainIsOneShot(rules, s[i + 1..]);
      DrainStep(rules, s, i);
      OneShotStep(rules, s, i);
    } else {
      LastSegment(rules, s);
    }
  }

  lemma OneShotStep(rules: Rules, s: string, i: nat)
    requires i < |s| && IndexFrom(s, '\n', 0) == i
    ensures OneShot(rules, s) == [SegmentLine(rules, s[..i])] + OneShot(rules, s[i + 1..])
  {
    EndedCons(s[..i], Segments(s[i + 1..]));
    SegmentLinesCons(rules, s[..i], Ended(Segments(s[i + 1..])));
  }

  lemma EndedCons(segment: string, segments: seq<string>)
    requires segments != []
    ensures Ended([segment] + segments) == [segment] + Ended(segments)
  {
    assert ([segment] + segments)[..|segments|] == [segment] + segments[..|segments| - 1];
  }

  lemma SegmentLinesCons(rules: Rules, segment: string, segments: seq<string>)
    ensures SegmentLines(rules, [segment] + segments) == [SegmentLine(rules, segment)] + SegmentLines(rules, segments)
  {
  }

  // ----- What a client wrote -----

  /** A line as a client writes it, closed by CR LF or by LF alone. */
  datatype Written = Written(text: string, crlf: bool)

  /** The text is one line, and a CR it ends in cannot be taken for part of the line ending. */
  predicate OneLine(w: Written) {
    Lacks(w.text, '\n') && (!w.crlf && w.text != "" ==> w.text[|w.text| - 1] != '\r')
  }

  predicate AllOneLine(lines: seq<Written>) {
    forall k :: 0 <= k < |lines| ==> OneLine(lines[k])
  }

  /** The line without its LF; the last one of a stream may stop there. */
  function Open(w: Written): string {
    w.text + if w.crlf then "\r" else ""
  }

  function Stream(lines: seq<Written>): string {
    if lines == [] then "" else Open(lines[0]) + "\n" + Stream(lines[1..])
  }

  /** What the server should make of it: the text itself, unless it is too long with its CR, or not UTF-8. */
  function Heard(rules: Rules, w: Written): Line {
    if |w.text| + (if w.crlf then 1 else 0) > rules.maxLength then Oversized
    else if rules.isUtf8(w.text) then Text(w.text) else NotUtf8
  }

  function AllHeard(rules: Rules, lines: seq<Written>): (r: seq<Line>)
    ensures |r| == |lines| && forall k :: 0 <= k < |r| ==> r[k] == Heard(rules, lines[k])
  {
    seq(|lines|, k requires 0 <= k < |lines| => Heard(rules, lines[k]))
  }

  /** A stream cut off behind an unfinished line, or behind nothing. */
  function LastHeard(rules: Rules, last: Written): seq<Line> {
    if Open(last) == "" then [] else [Heard(rules, last)]
  }

  lemma SegmentIsHeard(rules: Rules, w: Written)
    requires OneLine(w)
    ensures SegmentLine(rules, Open(w)) == Heard(rules, w) && Lacks(Open(w), '\n')
  {
    assert Open(w) == if w.crlf then w.text + "\r" else w.text;
    assert (w.text + "\r")[..|w.text|] == w.text;
  }

  lemma LastIsHeard(rules: Rules, last: Written)
    requires OneLine(last)
    ensures OneShot(rules, Open(last)) == LastHeard(rules, last)
  {
    SegmentIsHeard(rules, last);
    IndexIs(Open(last), '\n', 0, |Open(last)|);
    assert Segments(Open(last)) == [Open(last)];
    assert [Open(last)][..0] == [];
  }

  lemma StreamStep(first: Written, more: seq<Written>, tail: string)
    requires OneLine(first)
    ensures var s, i := Stream([first] + more) + tail, |Open(first)|;
      && i < |s| && IndexFrom(s, '\n', 0) == i && s[..i] == Open(first) && s[i + 1..] == Stream(more) + tail
  {
    var s, i := Stream([first] + more) + tail, |Open(first)|;
    assert ([first] + more)[1..] == more;
    assert s == Open(first) + "\n" + (Stream(more) + tail);
    assert Lacks(Open(first), '\n');
    assert forall k :: 0 <= k < i ==> s[k] == Open(first)[k];
    IndexIs(s, '\n', 0, i);
  }

  lemma FirstIsHeard(rules: Rules, segment: string, line: Line, s: string, rest: string)
    requires |segment| < |s| && IndexFrom(s, '\n', 0) == |segment| && SegmentLine(rules, segment) == line
    requires s[..|segment|] == segment && s[|segment| + 1..] == rest
    ensures OneShot(rules, s) == [line] + OneShot(rules, rest)
  {
    OneShotStep(rules, s, |segment|);
  }

  lemma HeardMore(rules: Rules, first: Written, more: seq<Written>, tail: seq<Line>)
    ensures AllHeard(rules, [first] + more) + tail == [Heard(rules, first)] + (AllHeard(rules, more) + tail)
  {
  }

  /** What was written is what is read: every line its text, without its CR LF or LF. */
  lemma {:induction false} WrittenIsHeard(rules: Rules, lines: seq<Written>, last: Written)
    requires AllOneLine(lines) && OneLine(last)
    ensures OneShot(rules, Stream(lines) + Open(last)) == AllHeard(rules, lines) + LastHeard(rules, last)
    decreases |lines|
  {
    if lines == [] {
      LastIsHeard(rules, last);
      assert Stream(lines) + Open(last) == Open(last);
    } else {
      assert lines == [lines[0]] + lines[1..];
      WrittenIsHeard(rules, lines[1..], last);
      StreamStep(lines[0], lines[1..], Open(last));
      SegmentIsHeard(rules, lines[0]);
      FirstIsHeard(rules, Open(lines[0]), Heard(rules, lines[0]), Stream(lines) + Open(last), Stream(lines[1..]) + Open(last));
      HeardMore(rules, lines[0], lines[1..], LastHeard(rules, last));
    }
  }

  class Buffer {
    var bytes: string

    constructor ()
      ensures bytes == ""
    {
      bytes := "";
    }

    method Extend(more: string)
      modifies this
      ensures bytes == old(bytes) + more
    {
      bytes := bytes + more;
    }

    method Advance(n: nat)
      requires n <= |bytes|
      modifies this
      ensures bytes == old(bytes)[n..]
    {
      bytes := bytes[n..];
    }

    method SplitTo(n: nat) returns (front: string)
      requires n <= |bytes|
      modifies this
      ensures front == old(bytes)[..n] && bytes == old(bytes)[n..]
    {
      front := bytes[..n];
      bytes := bytes[n..];
    }
  }

  class LineCodec {
    const rules: Rules
    /** True while dropping the tail of an over-long line. */
    var discarding: bool
    /** The scan cursor: where the search for a newline goes on. */
    var nextIndex: nat

    constructor (rules: Rules)
      ensures this.rules == rules && !discarding && nextIndex == 0
    {
      this.rules := rules;
      discarding, nextIndex := false, 0;
    }

    /** The scan cursor is honest: no newline lies in front of it. */
    ghost predicate Valid(buf: Buffer)
      reads this, buf
    {
      nextIndex <= |buf.bytes| && nextIndex <= rules.maxLength && NoNewline(buf.bytes, nextIndex)
    }

    ghost function Meaning(buf: Buffer): Drained
      reads this, buf
    {
      Drain(rules, discarding, buf.bytes)
    }

    /** How far this call looks: one byte past the limit is enough to know the line is too long. */
    function ReadTo(buf: Buffer): (n: nat)
      reads this, buf
      ensures n <= |buf.bytes|
    {
      if rules.maxLength + 1 < |buf.bytes| then rules.maxLength + 1 else |buf.bytes|
    }

    /** The arms for an over-long line: drop up to its newline, or everything looked at. */
    method DropStep(buf: Buffer, newline: nat)
      requires Valid(buf) && discarding
      requires newline == IndexFrom(buf.bytes[..ReadTo(buf)], '\n', nextIndex)
      modifies this, buf
      ensures Valid(buf) && Meaning(buf) == old(Meaning(buf))
      ensures |buf.bytes| < |old(buf.bytes)| || (buf.bytes == old(buf.bytes) == "" && discarding)
    {
      var readTo := ReadTo(buf);
      if newline < readTo {
        NewlineFound(buf.bytes, readTo, newline);
        buf.Advance(newline + 1);
        discarding, nextIndex := false, 0;
      } else {
        NothingYet(buf.bytes, readTo, newline);
        SkipDropped(rules, buf.bytes, readTo);
        buf.Advance(readTo);
        nextIndex := 0;
      }
    }

    /** The arm for a complete line. */
    method TakeLine(buf: Buffer, newline: nat) returns (line: Line)
      requires Valid(buf) && !discarding
      requires newline == IndexFrom(buf.bytes[..ReadTo(buf)], '\n', nextIndex) < ReadTo(buf)
      modifies this`nextIndex, buf
      ensures Valid(buf) && |buf.bytes| < |old(buf.bytes)|
      ensures old(Meaning(buf)) == Meaning(buf).(lines := [line] + Meaning(buf).lines)
    {
      NewlineFound(buf.bytes, ReadTo(buf), newline);
      FirstLine(rules, buf.bytes, newline);
      nextIndex := 0;
      var front := buf.SplitTo(newline + 1);
      front := front[..|front| - 1];
      line := DecodeLine(rules, StripCarriageReturn(front));
    }

    /**
      The next line, or none until more bytes arrive.  A line returned is the first the buffer
      means, and what is left means the rest.  None means the buffer completes no line, and then
      at most `maxLength` bytes stay buffered, none while dropping.
    */
    method Decode(buf: Buffer) returns (r: Option<Line>)
      requires Valid(buf)
      modifies this, buf
      ensures Valid(buf)
      ensures r.Some? ==> old(Meaning(buf)) == Meaning(buf).(lines := [r.value] + Meaning(buf).lines)
      ensures r.None? ==> old(Meaning(buf)) == Meaning(buf) == Drained([], buf.bytes, discarding)
      ensures r.None? ==> |buf.bytes| <= rules.maxLength && (discarding ==> buf.bytes == "")
    {
      while true
        invariant Valid(buf) && Meaning(buf) == old(Meaning(buf))
        decreases |buf.bytes|
      {
        var readTo := ReadTo(buf);
        var newline := IndexFrom(buf.bytes[..readTo], '\n', nextIndex);
        if discarding {
          DropStep(buf, newline);
          if discarding && buf.bytes == "" {
            return None;
          }
        } else if newline < readTo {
          var line := TakeLine(buf, newline);
          return Some(line);
        } else if |buf.bytes| > rules.maxLength {
          NothingYet(buf.bytes, readTo, newline);
          ReportEarly(rules, buf.bytes, readTo);
          discarding := true;
          return Some(Oversized);
        } else {
          NothingYet(buf.bytes, readTo, newline);
          nextIndex := |buf.bytes|;
          return None;
        }
      }
    }

    /** At the end of the stream: first the complete lines, then whatever is still waiting. */
    method DecodeEof(buf: Buffer) returns (r: Option<Line>)
      requires Valid(buf)
      modifies this, buf
      ensures Valid(buf)
      ensures r.Some? ==> AtEof(rules, old(Meaning(buf))) == [r.value] + AtEof(rules, Meaning(buf))
      ensures r.None? ==> AtEof(rules, old(Meaning(buf))) == [] && buf.bytes == ""
    {
      r := Decode(buf);
      if r.Some? {
        AtEofCons(rules, r.value, Meaning(buf));
      }
      if r.Some? || buf.bytes == "" {
        return;
      }
      ghost var waiting := buf.bytes;
      var line := buf.SplitTo(|buf.bytes|);
      assert line == waiting && buf.bytes == "";
      nextIndex := 0;
      r := Some(DecodeLine(rules, StripCarriageReturn(line)));
    }

    lemma NewlineFound(bytes: string, readTo: nat, newline: nat)
      requires nextIndex <= readTo <= |bytes| && NoNewline(bytes, nextIndex)
      requires newline == IndexFrom(bytes[..readTo], '\n', nextIndex) < readTo
      ensures IndexFrom(bytes, '\n', 0) == newline
    {
      assert forall k :: 0 <= k < readTo ==> bytes[..readTo][k] == bytes[k];
      NoneBefore(bytes[..readTo], '\n', nextIndex);
      IndexIs(bytes, '\n', 0, newline);
    }

    lemma NothingYet(bytes: string, readTo: nat, newline: nat)
      requires nextIndex <= readTo <= |bytes| && NoNewline(bytes, nextIndex)
      requires newline == IndexFrom(bytes[..readTo], '\n', nextIndex) == readTo
      ensures NoNewline(bytes, readTo)
    {
      NoneBefore(bytes[..readTo], '\n', nextIndex);
      assert forall k :: 0 <= k < readTo ==> bytes[..readTo][k] == bytes[k];
    }
  }

  function Concat(chunks: seq<string>): string {
    if chunks == [] then "" else Concat(chunks[..|chunks| - 1]) + chunks[|chunks| - 1]
  }

  /**
    The framed reader over a socket: extend the buffer by each read, decode until no line is
    left, and at the end of the stream decode what remains.  However the socket chops the
    stream, the lines are those of a one-shot split: every line as it was written.
  */
  method ReadStream(rules: Rules, chunks: seq<string>) returns (lines: seq<Line>)
    ensures lines == OneShot(rules, Concat(chunks))
    ensures forall written, last ::
      AllOneLine(written) && OneLine(last) && Concat(chunks) == Stream(written) + Open(last) ==>
      lines == AllHeard(rules, written) + LastHeard(rules, last)
  {
    var codec := new LineCodec(rules);
    var buf := new Buffer();
    lines := [];
    for i := 0 to |chunks|
      invariant codec.Valid(buf) && codec.rules == rules
      invariant codec.Meaning(buf) == Drained([], buf.bytes, codec.discarding)
      invariant Drain(rules, false, Concat(chunks[..i])) == codec.Meaning(buf).(lines := lines)
    {
      assert chunks[..i + 1][..i] == chunks[..i];
      DrainAppend(rules, false, Concat(chunks[..i]), chunks[i]);
      buf.Extend(chunks[i]);
      lines := DrainBuffer(codec, buf, lines);
    }
    assert chunks[..|chunks|] == chunks;
    ghost var all := AtEof(rules, Drain(rules, false, Concat(chunks)));
    while true
      invariant codec.Valid(buf) && codec.rules == rules
      invariant all == lines + AtEof(rules, codec.Meaning(buf))
      decreases |AtEof(rules, codec.Meaning(buf))|
    {
      var line := codec.DecodeEof(buf);
      if line.None? {
        break;
      }
      lines := lines + [line.value];
    }
    DrainIsOneShot(rules, Concat(chunks));
    forall written, last | AllOneLine(written) && OneLine(last) && Concat(chunks) == Stream(written) + Open(last)
      ensures lines == AllHeard(rules, written) + LastHeard(rules, last)
    {
      WrittenIsHeard(rules, written, last);
    }
  }

  /** In particular CR LF and LF are stripped alike, and of two CRs only the one in the line ending. */
  lemma EndingsStripped(rules: Rules, text: string)
    requires Lacks(text, '\n') && |text| + 2 <= rules.maxLength && rules.isUtf8(text) && rules.isUtf8(text + "\r")
    ensures OneShot(rules, text + "\r\n") == [Text(text)]
    ensures text != "" && text[|text| - 1] != '\r' ==> OneShot(rules, text + "\n") == [Text(text)]
    ensures OneShot(rules, text + "\r\r\n") == [Text(text + "\r")]
  {
    OneWrittenLine(rules, Written(text, true), text + "\r\n");
    OneWrittenLine(rules, Written(text + "\r", true), text + "\r\r\n");
    if text != "" && text[|text| - 1] != '\r' {
      OneWrittenLine(rules, Written(text, false), text + "\n");
    }
  }

  lemma OneWrittenLine(rules: Rules, w: Written, s: string)
    requires OneLine(w) && s == Open(w) + "\n"
    ensures OneShot(rules, s) == [Heard(rules, w)]
  {
    var last := Written("", false);
    WrittenIsHeard(rules, [w], last);
    assert [w][1..] == [];
    assert Stream([w]) + Open(last) == s;
    assert AllHeard(rules, [w]) + LastHeard(rules, last) == [Heard(rules, w)];
  }

  method DrainBuffer(codec: LineCodec, buf: Buffer, before: seq<Line>) returns (lines: seq<Line>)
    requires codec.Valid(buf)
    modifies codec, buf
    ensures codec.Valid(buf) && codec.Meaning(buf) == Drained([], buf.bytes, codec.discarding)
    ensures |buf.bytes| <= codec.rules.maxLength && (codec.discarding ==> buf.bytes == "")
    ensures old(codec.Meaning(buf)) == codec.Meaning(buf).(lines := old(codec.Meaning(buf)).lines)
    ensures lines == before + old(codec.Meaning(buf)).lines
  {
    lines := before;
    while true
      invariant codec.Valid(buf)
      invariant old(codec.Meaning(buf)) == codec.Meaning(buf).(lines := old(codec.Meaning(buf)).lines)
      invariant before + old(codec.Meaning(buf)).lines == lines + codec.Meaning(buf).lines
      decreases |codec.Meaning(buf).lines|
    {
      var line := codec.Decode(buf);
      if line.None? {
        break;
      }
      lines := lines + [line.value];
    }
  }
}
