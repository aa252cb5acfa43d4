/** What identifies a transmission: source, destination and the information field without trailing whitespace. */
module Transmission {
  import opened Wrappers
  import opened Packet
  import Unicode

  datatype Key = Key(source: string, destination: string, payload: string)

  /** The byte length of the whitespace character `s` ends with, as UTF-8, or zero. */
  function TrailingSpace(s: string): (n: nat)
    ensures n <= |s|
  {
    var n := |s|;
    if n >= 1 && ('\t' <= s[n - 1] <= '\r' || s[n - 1] == ' ') then 1
    else if n >= 2 && s[n - 2] == '\U{C2}' && (s[n - 1] == '\U{85}' || s[n - 1] == '\U{A0}') then 2
    else if n >= 3 && WideSpace(s[n - 3], s[n - 2], s[n - 1]) then 3
    else 0
  }

  /** U+1680, U+2000 to U+200A, U+2028, U+2029, U+202F, U+205F and U+3000. */
  predicate WideSpace(a: char, b: char, c: char) {
    || (a == '\U{E1}' && b == '\U{9A}' && c == '\U{80}')
    || (a == '\U{E2}' && b == '\U{80}' && ('\U{80}' <= c <= '\U{8A}' || c in ['\U{A8}', '\U{A9}', '\U{AF}']))
    || (a == '\U{E2}' && b == '\U{81}' && c == '\U{9F}')
    || (a == '\U{E3}' && b == '\U{80}' && c == '\U{80}')
  }

  function TrimEnd(s: string): (r: string)
    ensures r <= s && TrailingSpace(r) == 0
    decreases |s|
  {
    var n := TrailingSpace(s);
    if n == 0 then s else TrimEnd(s[..|s| - n])
  }

  function KeyOf(p: Tnc2Packet): Key {
    Key(p.source, p.destination, TrimEnd(p.payload))
  }

  /** White space and nothing else, of any kind. */
  predicate Blank(s: string) {
    TrimEnd(s) == ""
  }

  /** The white space a text ends with is the white space its end ends with. */
  lemma SameTrailing(front: string, s: string)
    requires TrailingSpace(s) > 0
    ensures TrailingSpace(front + s) == TrailingSpace(s)
    ensures (front + s)[..|front + s| - TrailingSpace(s)] == front + s[..|s| - TrailingSpace(s)]
  {
    var n := TrailingSpace(s);
    assert (front + s)[|front|..] == s;
  }

  /** A copy padded with white space is the same transmission. */
  lemma {:induction false} PaddingIgnored(payload: string, padding: string)
    requires Blank(padding)
    ensures TrimEnd(payload + padding) == TrimEnd(payload)
    decreases |padding|
  {
    var n := TrailingSpace(padding);
    if n == 0 {
      assert payload + padding == payload;
    } else {
      SameTrailing(payload, padding);
      PaddingIgnored(payload, padding[..|padding| - n]);
    }
  }

  // ----- White space, encoding by encoding -----

  /** The UTF-8 encoding of a character. */
  function Utf8(c: char): string {
    var n := c as int;
    if n < 0x80 then [c]
    else if n < 0x800 then [(0xC0 + n / 0x40) as char, (0x80 + n % 0x40) as char]
    else if n < 0x1_0000 then
      [(0xE0 + n / 0x1000) as char, (0x80 + n / 0x40 % 0x40) as char, (0x80 + n % 0x40) as char]
    else
      [(0xF0 + n / 0x4_0000) as char, (0x80 + n / 0x1000 % 0x40) as char, (0x80 + n / 0x40 % 0x40) as char,
       (0x80 + n % 0x40) as char]
  }

  /** The white-space characters, by code point. */
  predicate IsSpaceCode(n: int) {
    || 9 <= n <= 13 || n == 32 || n == 0x85 || n == 0xA0 || n == 0x1680 || 0x2000 <= n <= 0x200A
    || n == 0x2028 || n == 0x2029 || n == 0x202F || n == 0x205F || n == 0x3000
  }

  /** The encoding of one white-space character. */
  ghost predicate IsSpace(s: string) {
    exists c: char :: IsSpaceCode(c as int) && s == Utf8(c)
  }

  function Flatten(parts: seq<string>): string {
    if parts == [] then "" else parts[0] + Flatten(parts[1..])
  }

  ghost predicate AllSpaces(parts: seq<string>) {
    forall k :: 0 <= k < |parts| ==> IsSpace(parts[k])
  }

  function Last(s: string, n: nat): string
    requires n <= |s|
  {
    s[|s| - n..]
  }

  ghost predicate EndsInSpace(s: string) {
    exists n: nat :: n <= |s| && IsSpace(Last(s, n))
  }

  /** Unicode text is trimmed of the same characters. */
  lemma SpacesAgree(c: char)
    ensures Unicode.IsWhitespace(c) <==> IsSpaceCode(c as int)
  {
  }

  /** The bytes of a white-space character. */
  lemma SpaceBytes(c: char)
    requires IsSpaceCode(c as int)
    ensures var n, u := c as int, Utf8(c);
      && (n < 0x80 ==> |u| == 1 && ('\t' <= u[0] <= '\r' || u[0] == ' '))
      && (0x80 <= n < 0x800 ==> |u| == 2 && u[0] == '\U{C2}' && (u[1] == '\U{85}' || u[1] == '\U{A0}'))
      && (0x800 <= n ==> |u| == 3 && WideSpace(u[0], u[1], u[2]))
  {
  }

  /** A text that ends in one is recognised. */
  lemma SpaceIsTrailing(s: string, c: char)
    requires IsSpaceCode(c as int) && |Utf8(c)| <= |s| && Last(s, |Utf8(c)|) == Utf8(c)
    ensures TrailingSpace(s) == |Utf8(c)| > 0
  {
    var n, u := |s|, Utf8(c);
    SpaceBytes(c);
    assert forall k :: 0 <= k < |u| ==> u[k] == s[n - |u| + k];
  }

  lemma NarrowIsSpace(c: char)
    requires '\t' <= c <= '\r' || c == ' '
    ensures IsSpace([c])
  {
    assert IsSpaceCode(c as int) && Utf8(c) == [c];
  }

  lemma LatinIsSpace(c: char)
    requires c == '\U{85}' || c == '\U{A0}'
    ensures IsSpace(['\U{C2}', c])
  {
    assert IsSpaceCode(c as int) && Utf8(c) == ['\U{C2}', c];
  }

  lemma WideIsSpace(a: char, b: char, c: char)
    requires WideSpace(a, b, c)
    ensures IsSpace([a, b, c])
  {
    var d: char := if a == '\U{E1}' then '\U{1680}'
                   else if a == '\U{E3}' then '\U{3000}'
                   else if b == '\U{81}' then '\U{205F}'
                   else (0x2000 + (c as int - 0x80)) as char;
    assert IsSpaceCode(d as int) && Utf8(d) == [a, b, c];
  }

  /** What is recognised at the end of a text is one white-space character. */
  lemma TrailingIsSpace(s: string)
    requires TrailingSpace(s) > 0
    ensures IsSpace(Last(s, TrailingSpace(s)))
  {
    var n, k := |s|, TrailingSpace(s);
    if k == 1 {
      NarrowIsSpace(s[n - 1]);
      assert Last(s, k) == [s[n - 1]];
    } else if k == 2 {
      LatinIsSpace(s[n - 1]);
      assert Last(s, k) == ['\U{C2}', s[n - 1]];
    } else {
      WideIsSpace(s[n - 3], s[n - 2], s[n - 1]);
      assert Last(s, k) == [s[n - 3], s[n - 2], s[n - 1]];
    }
  }

  lemma {:induction false} FlattenSnoc(parts: seq<string>, last: string)
    ensures Flatten(parts + [last]) == Flatten(parts) + last
  {
    if parts == [] {
      assert parts + [last] == [last] && [last][1..] == [];
    } else {
      FlattenSnoc(parts[1..], last);
      assert (parts + [last])[1..] == parts[1..] + [last];
    }
  }

  lemma CutLast(s: string, n: nat)
    requires n <= |s|
    ensures s == s[..|s| - n] + Last(s, n)
  {
  }

  lemma Regroup(a: string, b: string, c: string)
    ensures (a + b) + c == a + (b + c)
  {
  }

  /** `s` is `text` and then white space. */
  ghost predicate TextThenSpaces(s: string, text: string, parts: seq<string>) {
    s == text + Flatten(parts) && AllSpaces(parts)
  }

  lemma OneMoreSpace(s: string, text: string, parts: seq<string>, last: string)
    requires TextThenSpaces(s, text, parts) && IsSpace(last)
    ensures TextThenSpaces(s + last, text, parts + [last])
  {
    FlattenSnoc(parts, last);
    Regroup(text, Flatten(parts), last);
  }

  lemma TrimStep(s: string, n: nat, rest: string, last: string)
    requires n == TrailingSpace(s) > 0 && rest == s[..|s| - n] && last == Last(s, n)
    ensures TrimEnd(s) == TrimEnd(rest) && s == rest + last && IsSpace(last)
  {
    TrailingIsSpace(s);
    CutLast(s, n);
  }

  /** Trimming takes away white space and nothing else. */
  lemma {:induction false} TrimTakesSpaces(s: string) returns (parts: seq<string>)
    ensures TextThenSpaces(s, TrimEnd(s), parts)
    decreases |s|
  {
    parts := [];
    var n := TrailingSpace(s);
    if n > 0 {
      var rest, last := s[..|s| - n], Last(s, n);
      TrimStep(s, n, rest, last);
      parts := TrimTakesSpaces(rest);
      OneMoreSpace(rest, TrimEnd(rest), parts, last);
      parts := parts + [last];
    } else {
      assert s == s + "";
    }
  }

  lemma EndsInSpaceIs(s: string)
    ensures EndsInSpace(s) <==> TrailingSpace(s) > 0
  {
    if EndsInSpace(s) {
      var n: nat :| n <= |s| && IsSpace(Last(s, n));
      var c: char :| IsSpaceCode(c as int) && Last(s, n) == Utf8(c);
      SpaceIsTrailing(s, c);
    }
    if TrailingSpace(s) > 0 {
      TrailingIsSpace(s);
    }
  }

  /** And it takes all of it. */
  lemma TrimLeavesNone(s: string)
    ensures !EndsInSpace(TrimEnd(s))
    ensures !EndsInSpace(s) ==> TrimEnd(s) == s
  {
    EndsInSpaceIs(TrimEnd(s));
    EndsInSpaceIs(s);
  }

  lemma {:induction false} SpacesAreBlank(parts: seq<string>)
    requires AllSpaces(parts)
    ensures Blank(Flatten(parts))
    decreases |parts|
  {
    if parts != [] {
      var n := |parts| - 1;
      var rest, last := Flatten(parts[..n]), parts[n];
      SpacesAreBlank(parts[..n]);
      assert parts == parts[..n] + [last];
      FlattenSnoc(parts[..n], last);
      var c: char :| IsSpaceCode(c as int) && last == Utf8(c);
      assert Last(rest + last, |last|) == last && (rest + last)[..|rest|] == rest;
      SpaceIsTrailing(rest + last, c);
    }
  }

  /** The payloads are one text, padded in either with white space. */
  ghost predicate Padded(a: string, b: string, text: string, x: seq<string>, y: seq<string>) {
    a == text + Flatten(x) && b == text + Flatten(y) && AllSpaces(x) && AllSpaces(y)
  }

  /** Two copies of one transmission: same source and destination, and the same payload but for white space at its end. */
  ghost predicate SameTransmission(p: Tnc2Packet, q: Tnc2Packet) {
    && p.source == q.source && p.destination == q.destination
    && exists text, x, y :: Padded(p.payload, q.payload, text, x, y)
  }

  /** Copies share their key, and nothing else does. */
  lemma KeyIdentifies(p: Tnc2Packet, q: Tnc2Packet)
    ensures KeyOf(p) == KeyOf(q) <==> SameTransmission(p, q)
  {
    if KeyOf(p) == KeyOf(q) {
      var x := TrimTakesSpaces(p.payload);
      var y := TrimTakesSpaces(q.payload);
      assert Padded(p.payload, q.payload, TrimEnd(p.payload), x, y);
    }
    if SameTransmission(p, q) {
      var text, x, y :| Padded(p.payload, q.payload, text, x, y);
      SpacesAreBlank(x);
      SpacesAreBlank(y);
      PaddingIgnored(text, Flatten(x));
      PaddingIgnored(text, Flatten(y));
    }
  }

  /** Payloads that end in no white space are one transmission only when they are equal. */
  lemma UnpaddedIdentify(p: Tnc2Packet, q: Tnc2Packet)
    requires !EndsInSpace(p.payload) && !EndsInSpace(q.payload)
    ensures KeyOf(p) == Key(p.source, p.destination, p.payload)
    ensures SameTransmission(p, q) <==>
      p.source == q.source && p.destination == q.destination && p.payload == q.payload
  {
    KeyIdentifies(p, q);
    TrimLeavesNone(p.payload);
    TrimLeavesNone(q.payload);
  }
}
