/**
  The digipeater path: a comma-separated list of hops, each optionally marked used with one
  trailing `*`.
*/
module Path {
  import opened Wrappers
  import opened Ascii
  import opened Repeats

  datatype Hop = Hop(call: string, used: bool, offset: nat)

  /** The hop of the field `raw[start..end]`, one trailing `*` stripped; nothing when that leaves no callsign. */
  function FieldHops(raw: string, start: nat, end: nat): seq<Hop>
    requires start <= end <= |raw|
  {
    var used := start < end && raw[end - 1] == '*';
    var stop := if used then end - 1 else end;
    if start == stop then [] else [Hop(raw[start..stop], used, start)]
  }

  /** Where the field starting at `start` ends: the next comma, or the end of the path. */
  function FieldEnd(raw: string, start: nat): nat
    requires start <= |raw|
  {
    IndexFrom(raw, ',', start)
  }

  /** The hops from the field at `start` on: split on commas, strip one `*`, drop empty callsigns. */
  function HopsFrom(raw: string, start: nat): seq<Hop>
    requires start <= |raw|
    decreases |raw| - start
  {
    var end := FieldEnd(raw, start);
    if end == |raw| then FieldHops(raw, start, end)
    else FieldHops(raw, start, end) + HopsFrom(raw, end + 1)
  }

  function Hops(raw: string): seq<Hop> {
    HopsFrom(raw, 0)
  }

  function Calls(hops: seq<Hop>): (r: seq<string>)
    ensures |r| == |hops| && forall i :: 0 <= i < |hops| ==> r[i] == hops[i].call
  {
    seq(|hops|, i requires 0 <= i < |hops| => hops[i].call)
  }

  /** The path up to the hop at `offset`, without the comma in front of it. */
  function TruncatedTo(raw: string, offset: nat): string {
    var end := if offset == 0 then 0 else offset - 1;
    raw[..if end < |raw| then end else |raw|]
  }

  // ----- Laying two paths side by side -----

  /** `s` is `a`, a comma, and more. */
  predicate Extends(s: string, a: string) {
    |a| < |s| && s[|a|] == ',' && s[..|a|] == a
  }

  lemma SameField(s: string, a: string, start: nat, end: nat)
    requires start <= end <= |a| && Extends(s, a)
    ensures FieldHops(s, start, end) == FieldHops(a, start, end)
  {
    assert forall k :: 0 <= k < |a| ==> s[k] == s[..|a|][k];
    assert s[start..end] == a[start..end];
    if start < end {
      assert s[start..end - 1] == a[start..end - 1];
    }
  }

  lemma SameEnd(s: string, a: string, start: nat)
    requires start <= |a| && Extends(s, a)
    ensures FieldEnd(s, start) == FieldEnd(a, start)
  {
    assert forall k :: 0 <= k < |a| ==> s[k] == s[..|a|][k];
    NoneBefore(a, ',', start);
    IndexIs(s, ',', start, FieldEnd(a, start));
  }

  /** The hop list, one field at a time. */
  lemma HopsUnfold(raw: string, start: nat)
    requires start <= |raw|
    ensures var end := FieldEnd(raw, start);
      HopsFrom(raw, start) ==
      FieldHops(raw, start, end) + (if end == |raw| then [] else HopsFrom(raw, end + 1))
  {
  }

  lemma AppendThrough<T>(f: seq<T>, x: seq<T>, y: seq<T>)
    ensures f + (x + y) == (f + x) + y
  {
  }

  /** From `start` on, the hops of `s` are those of `a`, and then `behind`. */
  predicate SplitsAt(s: string, a: string, start: nat, behind: seq<Hop>)
    requires start <= |a| && start <= |s|
  {
    HopsFrom(s, start) == HopsFrom(a, start) + behind
  }

  lemma SplitLast(s: string, a: string, start: nat)
    requires start <= |a| && Extends(s, a) && FieldEnd(a, start) == |a|
    ensures SplitsAt(s, a, start, HopsFrom(s, |a| + 1))
  {
    SameEnd(s, a, start);
    SameField(s, a, start, |a|);
    HopsUnfold(a, start);
    HopsUnfold(s, start);
  }

  lemma SplitStep(s: string, a: string, start: nat, behind: seq<Hop>)
    requires start <= |a| && Extends(s, a) && FieldEnd(a, start) < |a|
    requires SplitsAt(s, a, FieldEnd(a, start) + 1, behind)
    ensures SplitsAt(s, a, start, behind)
  {
    var end := FieldEnd(a, start);
    SameEnd(s, a, start);
    SameField(s, a, start, end);
    HopsUnfold(a, start);
    HopsUnfold(s, start);
    AppendThrough(FieldHops(a, start, end), HopsFrom(a, end + 1), behind);
  }

  /** A comma separates: the hops of `a,…` are those of `a`, then those of the field after the comma. */
  lemma {:induction false} HopsSplit(a: string, s: string, start: nat)
    requires start <= |a| && Extends(s, a)
    ensures SplitsAt(s, a, start, HopsFrom(s, |a| + 1))
    decreases |a| - start
  {
    if FieldEnd(a, start) < |a| {
      HopsSplit(a, s, FieldEnd(a, start) + 1);
      SplitStep(s, a, start, HopsFrom(s, |a| + 1));
    } else {
      SplitLast(s, a, start);
    }
  }

  /** A callsign that survives printing and reading as one hop. */
  predicate Clean(call: string) {
    call != "" && call[|call| - 1] != '*' && Lacks(call, ',')
  }

  /** A clean callsign written as a field reads back as itself. */
  lemma CleanField(s: string, start: nat, call: string)
    requires Clean(call) && start + |call| <= |s| && s[start..start + |call|] == call
    requires start + |call| == |s| || s[start + |call|] == ','
    ensures FieldEnd(s, start) == start + |call|
    ensures FieldHops(s, start, start + |call|) == [Hop(call, false, start)]
  {
    var end := start + |call|;
    assert forall k :: start <= k < end ==> s[k] == s[start..end][k - start];
    IndexIs(s, ',', start, end);
    assert s[end - 1] == call[|call| - 1];
  }

  // ----- What a hop is, independently of how the list is built -----

  /** The field is the callsign, which is not empty, and for a used hop one `*` behind it. */
  predicate ReadsAs(field: string, h: Hop) {
    h.call != "" && field == h.call + (if h.used then "*" else "") && (!h.used ==> h.call[|h.call| - 1] != '*')
  }

  lemma FieldReads(raw: string, start: nat, end: nat, h: Hop)
    requires start <= end <= |raw|
    ensures FieldHops(raw, start, end) == [h] <==> h.offset == start && ReadsAs(raw[start..end], h)
  {
    var field := raw[start..end];
    assert h.call + "" == h.call;
    if start < end {
      assert raw[start..end] == field && (h.call + "*")[..|h.call|] == h.call;
      assert raw[end - 1] == field[|field| - 1];
      assert raw[start..end - 1] == field[..|field| - 1];
      assert h.used && field == h.call + "*" ==> field[..|field| - 1] == h.call;
    }
  }

  lemma CallIsSlice(raw: string, h: Hop, end: nat)
    requires IsField(raw, h, end)
    ensures h.offset + |h.call| <= end && h.call == raw[h.offset..h.offset + |h.call|]
  {
    var field := raw[h.offset..end];
    assert h.call == field[..|h.call|];
  }

  /** `h` is the callsign of the maximal comma-free stretch `[h.offset..end)` of the path. */
  ghost predicate IsField(raw: string, h: Hop, end: nat) {
    && h.offset <= end <= |raw|
    && (h.offset == 0 || raw[h.offset - 1] == ',')
    && (end == |raw| || raw[end] == ',')
    && (forall k :: h.offset <= k < end ==> raw[k] != ',')
    && ReadsAs(raw[h.offset..end], h)
  }

  ghost predicate IsHop(raw: string, h: Hop) {
    exists end: nat :: IsField(raw, h, end)
  }

  ghost predicate Increasing(hops: seq<Hop>) {
    forall i, j :: 0 <= i < j < |hops| ==> hops[i].offset < hops[j].offset
  }

  predicate IsStart(raw: string, start: nat)
    requires start <= |raw|
  {
    start == 0 || raw[start - 1] == ','
  }

  /** Offsets increase strictly, and stay within the path. */
  lemma {:induction false} OffsetsIncrease(raw: string, start: nat)
    requires start <= |raw|
    ensures Increasing(HopsFrom(raw, start))
    ensures forall j :: 0 <= j < |HopsFrom(raw, start)| ==> start <= HopsFrom(raw, start)[j].offset < |raw|
    decreases |raw| - start
  {
    var end := FieldEnd(raw, start);
    if end < |raw| {
      OffsetsIncrease(raw, end + 1);
    }
  }

  lemma HeadIsField(raw: string, start: nat)
    requires start <= |raw| && IsStart(raw, start)
    ensures var end := FieldEnd(raw, start);
      FieldHops(raw, start, end) != [] ==> IsField(raw, FieldHops(raw, start, end)[0], end)
  {
    var end := FieldEnd(raw, start);
    NoneBefore(raw, ',', start);
    if FieldHops(raw, start, end) != [] {
      FieldReads(raw, start, end, FieldHops(raw, start, end)[0]);
    }
  }

  /** `h` is hop `j` of those from the field at `start` on. */
  predicate ListedAt(raw: string, start: nat, j: nat, h: Hop)
    requires start <= |raw|
  {
    j < |HopsFrom(raw, start)| && HopsFrom(raw, start)[j] == h
  }

  lemma ListedFirst(raw: string, start: nat, h: Hop)
    requires start <= |raw| && FieldHops(raw, start, FieldEnd(raw, start)) == [h]
    ensures ListedAt(raw, start, 0, h)
  {
    HopsUnfold(raw, start);
  }

  lemma ListedBehind(raw: string, start: nat, j: nat, h: Hop)
    requires start <= |raw| && FieldEnd(raw, start) < |raw|
    ensures var end := FieldEnd(raw, start);
      ListedAt(raw, end + 1, j, h) <==> ListedAt(raw, start, |FieldHops(raw, start, end)| + j, h)
  {
    HopsUnfold(raw, start);
  }

  lemma ListedHere(raw: string, start: nat, j: nat, h: Hop)
    requires start <= |raw| && ListedAt(raw, start, j, h)
    ensures var end := FieldEnd(raw, start);
      var here := FieldHops(raw, start, end);
      (j < |here| && here == [h]) || (j >= |here| && end < |raw|)
  {
    HopsUnfold(raw, start);
  }

  /** Every hop listed is a field of the path. */
  lemma {:induction false} HopsAreFields(raw: string, start: nat, j: nat, h: Hop) returns (end: nat)
    requires start <= |raw| && IsStart(raw, start) && ListedAt(raw, start, j, h)
    ensures IsField(raw, h, end)
    decreases |raw| - start
  {
    end := FieldEnd(raw, start);
    var here := |FieldHops(raw, start, end)|;
    ListedHere(raw, start, j, h);
    if j < here {
      HeadIsField(raw, start);
    } else {
      ListedBehind(raw, start, j - here, h);
      end := HopsAreFields(raw, end + 1, j - here, h);
    }
  }

  /** A field with a callsign does not lie across another field's comma. */
  lemma FieldIsLater(raw: string, start: nat, h: Hop, end: nat)
    requires start < h.offset && start <= |raw| && IsField(raw, h, end)
    ensures FieldEnd(raw, start) < h.offset
  {
    NoneBefore(raw, ',', start);
    assert raw[h.offset - 1] == ',';
  }

  /** And every field with a callsign is listed. */
  lemma {:induction false} FieldsAreHops(raw: string, start: nat, h: Hop, end: nat) returns (j: nat)
    requires start <= h.offset && start <= |raw| && IsStart(raw, start) && IsField(raw, h, end)
    ensures ListedAt(raw, start, j, h)
    decreases |raw| - start
  {
    var here := FieldEnd(raw, start);
    j := 0;
    if h.offset == start {
      IndexIs(raw, ',', start, end);
      FieldReads(raw, start, end, h);
      ListedFirst(raw, start, h);
    } else {
      FieldIsLater(raw, start, h, end);
      j := FieldsAreHops(raw, here + 1, h, end);
      ListedBehind(raw, start, j, h);
      j := |FieldHops(raw, start, here)| + j;
    }
  }

  /** The hop list refines split / strip / filter: exactly the named fields, left to right. */
  lemma HopsRefineSplit(raw: string, h: Hop)
    ensures h in Hops(raw) <==> IsHop(raw, h)
    ensures Increasing(Hops(raw))
  {
    OffsetsIncrease(raw, 0);
    if IsHop(raw, h) {
      var end: nat :| IsField(raw, h, end);
      var j := FieldsAreHops(raw, 0, h, end);
    } else if h in Hops(raw) {
      var j :| 0 <= j < |Hops(raw)| && Hops(raw)[j] == h;
      var end := HopsAreFields(raw, 0, j, h);
    }
  }

  // ----- Cutting the path at a hop -----

  /** Reading on from a hop's own offset begins with that hop, and goes no further back. */
  lemma ReadOnFromHop(raw: string, i: nat) returns (j: nat)
    requires i < |Hops(raw)|
    ensures var o := Hops(raw)[i].offset;
            && o < |raw| && IsStart(raw, o)
            && j < |HopsFrom(raw, o)| && HopsFrom(raw, o)[j] == Hops(raw)[i]
            && forall k :: 0 <= k < |HopsFrom(raw, o)| ==> o <= HopsFrom(raw, o)[k].offset
  {
    var h := Hops(raw)[i];
    OffsetsIncrease(raw, 0);
    var end := HopsAreFields(raw, 0, i, Hops(raw)[i]);
    j := FieldsAreHops(raw, h.offset, h, end);
    OffsetsIncrease(raw, h.offset);
  }

  lemma CutAtStart(raw: string, i: nat)
    requires i < |Hops(raw)| && Hops(raw)[i].offset == 0
    ensures i == 0
  {
    OffsetsIncrease(raw, 0);
    FirstIsLeast(Hops(raw), i);
  }

  lemma FirstIsLeast(hops: seq<Hop>, i: nat)
    requires Increasing(hops) && i < |hops|
    ensures hops[i].offset >= hops[0].offset + if i > 0 then 1 else 0
  {
  }

  lemma CutInside(raw: string, i: nat)
    requires i < |Hops(raw)| && Hops(raw)[i].offset > 0
    ensures var o := Hops(raw)[i].offset;
            && Hops(TruncatedTo(raw, o)) == Hops(raw)[..i]
            && o < |raw| && HopsFrom(raw, o) == Hops(raw)[i..] && Extends(raw, TruncatedTo(raw, o))
  {
    var o := Hops(raw)[i].offset;
    var j := ReadOnFromHop(raw, i);
    CutAtComma(raw, o);
    OffsetsIncrease(raw, 0);
    SameCut(Hops(raw), Hops(TruncatedTo(raw, o)), HopsFrom(raw, o), i, j);
  }

  /** Cutting at hop `i` leaves exactly hops 0..i, and the rest of the text holds the others. */
  lemma CutAtHop(raw: string, i: nat)
    requires i < |Hops(raw)|
    ensures var o := Hops(raw)[i].offset;
            && Hops(TruncatedTo(raw, o)) == Hops(raw)[..i]
            && o < |raw| && HopsFrom(raw, o) == Hops(raw)[i..]
            && (o > 0 ==> Extends(raw, TruncatedTo(raw, o)))
  {
    if Hops(raw)[i].offset > 0 {
      CutInside(raw, i);
    } else {
      CutAtStart(raw, i);
      OffsetsIncrease(raw, 0);
      assert Hops(raw)[0..] == Hops(raw);
    }
  }

  lemma CutAtComma(raw: string, o: nat)
    requires 0 < o <= |raw| && raw[o - 1] == ','
    ensures var head := TruncatedTo(raw, o);
            && Extends(raw, head) && Hops(raw) == Hops(head) + HopsFrom(raw, o)
            && forall k :: 0 <= k < |Hops(head)| ==> Hops(head)[k].offset < o
  {
    HopsSplit(TruncatedTo(raw, o), raw, 0);
    OffsetsIncrease(TruncatedTo(raw, o), 0);
  }

  /** In an increasing list, the part before hop `i` is determined by its offset. */
  lemma SameCut(hops: seq<Hop>, before: seq<Hop>, from: seq<Hop>, i: nat, j: nat)
    requires i < |hops| && hops == before + from && Increasing(hops)
    requires j < |from| && from[j] == hops[i]
    requires forall k :: 0 <= k < |before| ==> before[k].offset < hops[i].offset
    requires forall k :: 0 <= k < |from| ==> hops[i].offset <= from[k].offset
    ensures before == hops[..i] && from == hops[i..]
  {
    assert hops[|before| + j] == hops[i];
    assert hops[|before|] == from[0];
  }

  // ----- Reading a path -----

  predicate HasTcpip(raw: string) {
    exists i :: 0 <= i < |Hops(raw)| &&
      (EqIgnoreCase(Hops(raw)[i].call, "TCPIP") || EqIgnoreCase(Hops(raw)[i].call, "TCPXX"))
  }

  predicate EndsInI(hops: seq<Hop>) {
    |hops| >= 2 && EqIgnoreCase(hops[|hops| - 1].call, "I")
  }

  /** The IGate of a trailing `IGATE,I` pair. */
  function IConstruct(raw: string): Option<string> {
    var hops := Hops(raw);
    if EndsInI(hops) then Some(hops[|hops| - 2].call) else None
  }

  /** The length of `s[..n]` once its trailing digits are gone. */
  function TrimDigits(s: string, n: nat): (m: nat)
    requires n <= |s|
    ensures m <= n
  {
    if n > 0 && IsDigit(s[n - 1]) then TrimDigits(s, n - 1) else n
  }

  const ALIASES: seq<string> := ["RELAY", "ECHO", "GATE", "TCPIP", "TCPXX"]
  const NUMBERED_ALIASES: seq<string> := ["WIDE", "TRACE", "SS", "SAR"]

  predicate NamedIn(call: string, names: seq<string>) {
    names != [] && (EqIgnoreCase(call, names[0]) || NamedIn(call, names[1..]))
  }

  /** `WIDEn-N` and the like: one of the stems, and then a digit at least. */
  predicate IsNumberedAlias(call: string, dash: nat)
    requires dash <= |call|
  {
    var stem := TrimDigits(call, dash);
    stem < dash && NamedIn(call[..stem], NUMBERED_ALIASES)
  }

  predicate IsGenericAlias(call: string) {
    NamedIn(call, ALIASES) || IsNumberedAlias(call, IndexFrom(call, '-', 0))
  }

  // ----- What a routing alias is -----

  /** `WIDEn-N` and the like: a stem, at least one digit, and then the end or a `-`. */
  predicate NumberedAs(call: string, stem: nat, end: nat) {
    && stem < end <= |call| && (end == |call| || call[end] == '-')
    && (forall k :: stem <= k < end ==> '0' <= call[k] <= '9')
    && IsStem(call[..stem])
  }

  predicate IsStem(s: string) {
    EqIgnoreCase(s, "WIDE") || EqIgnoreCase(s, "TRACE") || EqIgnoreCase(s, "SS") || EqIgnoreCase(s, "SAR")
  }

  lemma {:induction false} NamedInFrom(call: string, names: seq<string>, i: nat)
    requires i <= |names|
    ensures NamedIn(call, names[i..]) <==> exists k :: i <= k < |names| && EqIgnoreCase(call, names[k])
    decreases |names| - i
  {
    if i < |names| {
      NamedInFrom(call, names, i + 1);
      assert names[i..][1..] == names[i + 1..];
    }
  }

  lemma NamedInTables(call: string)
    ensures NamedIn(call, NUMBERED_ALIASES) <==> IsStem(call)
    ensures NamedIn(call, ALIASES) <==>
      || EqIgnoreCase(call, "RELAY") || EqIgnoreCase(call, "ECHO") || EqIgnoreCase(call, "GATE")
      || EqIgnoreCase(call, "TCPIP") || EqIgnoreCase(call, "TCPXX")
  {
    NamedInFrom(call, NUMBERED_ALIASES, 0);
    NamedInFrom(call, ALIASES, 0);
    assert NUMBERED_ALIASES[0..] == NUMBERED_ALIASES && ALIASES[0..] == ALIASES;
    assert NUMBERED_ALIASES[0] == "WIDE" && NUMBERED_ALIASES[1] == "TRACE";
    assert NUMBERED_ALIASES[2] == "SS" && NUMBERED_ALIASES[3] == "SAR";
    assert ALIASES[0] == "RELAY" && ALIASES[1] == "ECHO" && ALIASES[2] == "GATE";
    assert ALIASES[3] == "TCPIP" && ALIASES[4] == "TCPXX";
  }

  lemma {:induction false} TrimDigitsIs(s: string, n: nat)
    requires n <= |s|
    ensures forall k :: TrimDigits(s, n) <= k < n ==> '0' <= s[k] <= '9'
    ensures TrimDigits(s, n) > 0 ==> !('0' <= s[TrimDigits(s, n) - 1] <= '9')
  {
    if n > 0 && IsDigit(s[n - 1]) {
      TrimDigitsIs(s, n - 1);
    }
  }

  /** Nothing but letters in a stem. */
  lemma StemIsLetters(s: string)
    requires IsStem(s)
    ensures s != "" && forall k :: 0 <= k < |s| ==> s[k] != '-' && !('0' <= s[k] <= '9')
  {
    var name := if EqIgnoreCase(s, "WIDE") then "WIDE" else if EqIgnoreCase(s, "TRACE") then "TRACE"
                else if EqIgnoreCase(s, "SS") then "SS" else "SAR";
    EqIgnoreCaseIs(s, name);
    assert forall k :: 0 <= k < |s| ==> SameLetter(s[k], name[k]) && 'A' <= name[k] <= 'Z';
  }

  lemma NumberedAliasIs(call: string, stem: nat, end: nat)
    requires NumberedAs(call, stem, end)
    ensures IsNumberedAlias(call, IndexFrom(call, '-', 0))
  {
    StemIsLetters(call[..stem]);
    assert forall k :: 0 <= k < stem ==> call[k] == call[..stem][k];
    IndexIs(call, '-', 0, end);
    TrimDigitsIs(call, end);
    assert stem > 0 && call[stem - 1] == call[..stem][stem - 1];
    assert TrimDigits(call, end) == stem;
    NamedInTables(call[..stem]);
  }

  /** A routing alias is one of five names, or one of four stems with a number; case does not matter. */
  lemma AliasIs(call: string)
    ensures IsGenericAlias(call) <==>
      || EqIgnoreCase(call, "RELAY") || EqIgnoreCase(call, "ECHO") || EqIgnoreCase(call, "GATE")
      || EqIgnoreCase(call, "TCPIP") || EqIgnoreCase(call, "TCPXX")
      || exists stem: nat, end: nat :: NumberedAs(call, stem, end)
  {
    NamedInTables(call);
    var dash := IndexFrom(call, '-', 0);
    if IsNumberedAlias(call, dash) {
      TrimDigitsIs(call, dash);
      NamedInTables(call[..TrimDigits(call, dash)]);
      assert NumberedAs(call, TrimDigits(call, dash), dash);
    }
    if exists stem: nat, end: nat :: NumberedAs(call, stem, end) {
      var stem: nat, end: nat :| NumberedAs(call, stem, end);
      NumberedAliasIs(call, stem, end);
    }
  }

  /** Two hops naming the same station: equal callsigns, neither a routing alias. */
  predicate SameStation(a: Hop, b: Hop) {
    !IsGenericAlias(a.call) && !IsGenericAlias(b.call) && EqIgnoreCase(a.call, b.call)
  }

  predicate SameCall(a: Hop, b: Hop) {
    EqIgnoreCase(a.call, b.call)
  }

  predicate IsStation(h: Hop) {
    !IsGenericAlias(h.call)
  }

  function CallOf(found: Option<Hop>): Option<string> {
    if found.None? then None else Some(found.value.call)
  }

  /** The callsign of the first hop that repeats an earlier station. */
  function FirstDuplicate(raw: string): Option<string> {
    CallOf(FirstRepeat(Hops(raw), SameStation, |Hops(raw)|))
  }

  lemma DuplicateFreeIffDistinct(raw: string)
    ensures var hops := Hops(raw);
      FirstDuplicate(raw).None? <==> forall i, k :: 0 <= i < k < |hops| ==> !SameStation(hops[i], hops[k])
  {
    NoRepeatFound(Hops(raw), SameStation, |Hops(raw)|);
  }

  /** A loop is reported at the hop that closes it: the first to name a station already passed. */
  lemma DuplicateIsEarliest(raw: string) returns (i: nat, k: nat)
    requires FirstDuplicate(raw).Some?
    ensures var hops := Hops(raw);
      && i < k < |hops| && SameStation(hops[i], hops[k]) && FirstDuplicate(raw) == Some(hops[k].call)
      && forall j, m :: 0 <= j < m < k ==> !SameStation(hops[j], hops[m])
  {
    k := EarliestRepeat(Hops(raw), SameStation, |Hops(raw)|);
    i :| 0 <= i < k && SameStation(Hops(raw)[i], Hops(raw)[k]);
  }

  // ----- The hop iterator and the loops over it -----

  lemma FieldIs(raw: string, start: nat, end: nat, h: Hop)
    requires start <= end <= |raw| && h.offset == start && (h.used <==> start < end && raw[end - 1] == '*')
    requires h.call == raw[start..if h.used then end - 1 else end]
    ensures FieldHops(raw, start, end) == if h.call == "" then [] else [h]
  {
  }

  /** The field at `start`, read as `named`, and then the hops from `next` on. */
  predicate Yields(raw: string, start: nat, named: seq<Hop>, next: nat)
    requires start <= |raw|
  {
    HopsFrom(raw, start) == named + if next > |raw| then [] else HopsFrom(raw, next)
  }

  lemma FieldYields(raw: string, start: nat)
    requires start <= |raw|
    ensures var end := FieldEnd(raw, start);
      Yields(raw, start, FieldHops(raw, start, end), end + 1)
  {
    HopsUnfold(raw, start);
  }

  /** The iterator behind `hops()`: a cursor that moves along the raw path. */
  class HopIter {
    const raw: string
    /** Everything the iterator hands out. */
    ghost const all: seq<Hop>
    var offset: nat
    /** How many hops have been handed out. */
    ghost var count: nat

    ghost predicate Valid()
      reads this
    {
      count <= |all| && forall k: nat :: Ahead(k) == if count + k < |all| then Some(all[count + k]) else None
    }

    constructor (raw: string)
      ensures this.raw == raw && all == Hops(raw) && Valid() && count == 0
    {
      this.raw := raw;
      all := Hops(raw);
      offset, count := 0, 0;
    }

    ghost function Remaining(): seq<Hop>
      reads this
    {
      if offset > |raw| then [] else HopsFrom(raw, offset)
    }

    /** The `k`th of the hops still to come. */
    ghost function Ahead(k: nat): Option<Hop>
      reads this
    {
      if k < |Remaining()| then Some(Remaining()[k]) else None
    }

    /** One field, its callsign possibly empty. */
    method NextField() returns (r: Option<Hop>)
      modifies `offset
      ensures r.None? ==> old(Remaining()) == [] && Remaining() == []
      ensures r.Some? ==> old(offset) < offset <= |raw| + 1
      ensures r.Some? ==>
        old(Remaining()) == (if r.value.call == "" then [] else [r.value]) + Remaining()
    {
      if offset > |raw| || (offset == |raw| && offset > 0) {
        return None;
      }
      var end := IndexFrom(raw, ',', offset);
      var start := offset;
      offset := if end == |raw| then |raw| + 1 else end + 1;
      var used := start < end && raw[end - 1] == '*';
      var call := raw[start..if used then end - 1 else end];
      r := Some(Hop(call, used, start));
      FieldIs(raw, start, end, r.value);
      FieldYields(raw, start);
    }

    /** Fields without a callsign are passed over. */
    method NextNamed() returns (r: Option<Hop>)
      modifies `offset
      ensures r.None? ==> old(Remaining()) == [] && Remaining() == []
      ensures r.Some? ==> old(Remaining()) == [r.value] + Remaining()
    {
      while true
        invariant Remaining() == old(Remaining())
        decreases |raw| + 1 - offset
      {
        r := NextField();
        if r.None? || r.value.call != "" {
          return;
        }
      }
    }

    /** The next hop with a callsign: the hops come one by one, left to right. */
    method Next() returns (r: Option<Hop>)
      requires Valid()
      modifies this
      ensures Valid()
      ensures r == if old(count) < |all| then Some(all[old(count)]) else None
      ensures count == if r.Some? then old(count) + 1 else old(count)
    {
      ghost var before := Remaining();
      r := NextNamed();
      assert old(Ahead(0)) == r;
      if r.Some? {
        count := count + 1;
        forall k: nat
          ensures Ahead(k) == old(Ahead(k + 1))
        {
        }
      }
    }
  }

  /** The last two hops still to come. */
  method LastTwo(hops: HopIter) returns (previous: Option<Hop>, last: Option<Hop>)
    requires hops.Valid() && hops.count == 0
    modifies hops
    ensures last == if hops.all == [] then None else Some(hops.all[|hops.all| - 1])
    ensures previous == if |hops.all| < 2 then None else Some(hops.all[|hops.all| - 2])
  {
    previous, last := None, None;
    while true
      invariant hops.Valid() && hops.count <= |hops.all|
      invariant last == if hops.count == 0 then None else Some(hops.all[hops.count - 1])
      invariant previous == if hops.count < 2 then None else Some(hops.all[hops.count - 2])
      decreases |hops.all| - hops.count
    {
      var hop := hops.Next();
      if hop.None? {
        break;
      }
      previous, last := last, hop;
    }
  }

  method FindIConstruct(raw: string) returns (igate: Option<string>)
    ensures igate == IConstruct(raw)
  {
    var hops := new HopIter(raw);
    var previous, last := LastTwo(hops);
    if last.None? || !EqIgnoreCase(last.value.call, "I") || previous.None? {
      return None;
    }
    return Some(previous.value.call);
  }

  method CollectStations(hops: HopIter) returns (stations: seq<Hop>)
    requires hops.Valid() && hops.count == 0
    modifies hops
    ensures stations == Keeping(hops.all, IsStation, |hops.all|)
  {
    stations := [];
    while true
      invariant hops.Valid() && hops.count <= |hops.all|
      invariant stations == Keeping(hops.all, IsStation, hops.count)
      decreases |hops.all| - hops.count
    {
      var hop := hops.Next();
      if hop.None? {
        break;
      }
      stations := Keep(stations, IsStation, hop.value);
    }
  }

  method FindFirstDuplicate(raw: string) returns (call: Option<string>)
    ensures call == FirstDuplicate(raw)
  {
    var hops := new HopIter(raw);
    var stations := CollectStations(hops);
    var found := FindRepeat(stations, SameCall);
    FilterFirst(Hops(raw), SameStation, SameCall, IsStation, |Hops(raw)|);
    return CallOf(found);
  }
}
