/**
  Byte text.  The protocol crates work on UTF-8 slices through byte offsets, byte lengths
  and ASCII comparisons, so a text is a `string` holding one char per byte (the char whose
  code is that byte).  Lengths and offsets are then the byte lengths and offsets of the source.
  Case and digits concern ASCII characters alone, so they serve Unicode text as well.
*/
module Ascii {
  import opened Wrappers

  function LowerChar(c: char): char {
    if 'A' <= c <= 'Z' then (c as int + 32) as char else c
  }

  function UpperChar(c: char): char {
    if 'a' <= c <= 'z' then (c as int - 32) as char else c
  }

  function Lower(s: string): (r: string)
    ensures |r| == |s| && forall i :: 0 <= i < |s| ==> r[i] == LowerChar(s[i])
  {
    seq(|s|, i requires 0 <= i < |s| => LowerChar(s[i]))
  }

  function Upper(s: string): (r: string)
    ensures |r| == |s| && forall i :: 0 <= i < |s| ==> r[i] == UpperChar(s[i])
  {
    seq(|s|, i requires 0 <= i < |s| => UpperChar(s[i]))
  }

  predicate EqIgnoreCase(a: string, b: string) {
    Lower(a) == Lower(b)
  }

  /** The same byte, or the two cases of one letter. */
  predicate SameLetter(a: char, b: char) {
    a == b || ('A' <= a <= 'Z' && b as int == a as int + 32) || ('A' <= b <= 'Z' && a as int == b as int + 32)
  }

  /** Texts are equal but for case exactly when they are so byte by byte. */
  lemma EqIgnoreCaseIs(a: string, b: string)
    ensures EqIgnoreCase(a, b) <==> |a| == |b| && forall i :: 0 <= i < |a| ==> SameLetter(a[i], b[i])
  {
    if EqIgnoreCase(a, b) {
      forall i | 0 <= i < |a|
        ensures SameLetter(a[i], b[i])
      {
        assert Lower(a)[i] == Lower(b)[i];
      }
    }
  }

  /** The upper-case text holds no lower-case letter, and two texts share it exactly when they are equal but for case. */
  lemma UpperIs(a: string, b: string)
    ensures forall i :: 0 <= i < |a| ==> SameLetter(a[i], Upper(a)[i]) && !('a' <= Upper(a)[i] <= 'z')
    ensures Upper(a) == Upper(b) <==> EqIgnoreCase(a, b)
  {
    EqIgnoreCaseIs(a, b);
    if Upper(a) == Upper(b) {
      forall i | 0 <= i < |a|
        ensures SameLetter(a[i], b[i])
      {
        assert Upper(a)[i] == Upper(b)[i];
      }
    }
  }

  /** The length of the UTF-8 sequence that a leading byte announces. */
  function SequenceLength(lead: char): nat {
    if lead < '\U{80}' then 1 else if lead < '\U{E0}' then 2 else if lead < '\U{F0}' then 3 else 4
  }

  /** The bytes of the character that starts at `i`. */
  function CharAt(s: string, i: nat): string
    requires i < |s|
  {
    var end := i + SequenceLength(s[i]);
    s[i..if end < |s| then end else |s|]
  }

  predicate IsDigit(c: char) {
    '0' <= c <= '9'
  }

  /** The first occurrence of `c` at or after `start`, or the length when there is none. */
  function IndexFrom(s: string, c: char, start: nat): (i: nat)
    requires start <= |s|
    ensures start <= i <= |s| && (i < |s| ==> s[i] == c)
    decreases |s| - start
  {
    if start == |s| || s[start] == c then start else IndexFrom(s, c, start + 1)
  }

  predicate Lacks(s: string, c: char) {
    forall k :: 0 <= k < |s| ==> s[k] != c
  }

  /** Nothing in front of it. */
  lemma {:induction false} NoneBefore(s: string, c: char, start: nat)
    requires start <= |s|
    ensures forall k :: start <= k < IndexFrom(s, c, start) ==> s[k] != c
    decreases |s| - start
  {
    if start < |s| && s[start] != c {
      NoneBefore(s, c, start + 1);
    }
  }

  /** The only place the search can stop. */
  lemma IndexIs(s: string, c: char, start: nat, i: nat)
    requires start <= i <= |s| && (i < |s| ==> s[i] == c) && forall k :: start <= k < i ==> s[k] != c
    ensures IndexFrom(s, c, start) == i
  {
    NoneBefore(s, c, start);
  }

  function Find(s: string, c: char): Option<nat> {
    var i := IndexFrom(s, c, 0);
    if i == |s| then None else Some(i)
  }
}
