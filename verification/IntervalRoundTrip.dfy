/** The interval grammar, exactly when parsing overflows, and the inverse of printing. */
module IntervalRoundTrip {
  import opened Ascii
  import opened Interval
  import opened Unicode
  import opened Wrappers

  // ----- The grammar -----

  /** A number and its unit. */
  datatype Term = Term(digits: string, unit: char)

  predicate ValidTerm(t: Term) {
    t.digits != "" && AllDigits(t.digits) && Multiplier(t.unit).Some?
  }

  predicate ValidTerms(terms: seq<Term>) {
    forall k :: 0 <= k < |terms| ==> ValidTerm(terms[k])
  }

  function Seconds(t: Term): nat
    requires ValidTerm(t)
  {
    NumberOf(t.digits) * Multiplier(t.unit).value
  }

  /** The sum of number times unit. */
  function Total(terms: seq<Term>): nat
    requires ValidTerms(terms)
  {
    if terms == [] then 0 else Total(terms[..|terms| - 1]) + Seconds(terms[|terms| - 1])
  }

  function Text(terms: seq<Term>): string {
    if terms == [] then ""
    else Text(terms[..|terms| - 1]) + terms[|terms| - 1].digits + [terms[|terms| - 1].unit]
  }

  /** `text` is a list of terms, and then digits still waiting for a unit. */
  ghost predicate ReadsAs(text: string, terms: seq<Term>, rest: string) {
    ValidTerms(terms) && AllDigits(rest) && text == Text(terms) + rest
  }

  function Pending(rest: string): Option<nat>
    requires AllDigits(rest)
  {
    if rest == "" then None else Some(NumberOf(rest))
  }

  /** What scanning these terms and then these digits should give. */
  function Scanned(terms: seq<Term>, rest: string): Result<Scan, Fault>
    requires ValidTerms(terms) && AllDigits(rest)
  {
    if Total(terms) <= U64_MAX && NumberOf(rest) <= U64_MAX then Ok(Scan(Total(terms), Pending(rest)))
    else Err(Overflow)
  }

  lemma TimesUnit(n: nat, m: nat)
    requires m > 0
    ensures n <= n * m
  {
  }

  lemma UnitIsNoDigit(c: char)
    requires Multiplier(c).Some?
    ensures !IsDigit(c) && !IsWhitespace(c) && Multiplier(c).value > 0
  {
  }

  /** One more digit of the number being read. */
  lemma ScanDigit(text: string, terms: seq<Term>, front: string, c: char)
    requires text != "" && text[|text| - 1] == c && IsDigit(c) && ValidTerms(terms) && AllDigits(front)
    requires ScanText(text[..|text| - 1]) == Scanned(terms, front)
    ensures ScanText(text) == Scanned(terms, front + [c])
  {
    assert (front + [c])[..|front|] == front;
  }

  lemma UnitStep(total: nat, number: nat, c: char)
    requires Multiplier(c).Some? && total <= U64_MAX
    ensures var sum := total + number * Multiplier(c).value;
      StepChar(Scan(total, Some(number)), c) == if sum <= U64_MAX then Ok(Scan(sum, None)) else Err(Overflow)
  {
    UnitIsNoDigit(c);
  }

  lemma TotalSnoc(terms: seq<Term>, t: Term)
    requires ValidTerms(terms) && ValidTerm(t)
    ensures ValidTerms(terms + [t]) && Total(terms + [t]) == Total(terms) + Seconds(t)
  {
    assert (terms + [t])[..|terms|] == terms;
  }

  lemma OneMoreTerm(front: seq<Term>, last: Term)
    requires ValidTerms(front) && ValidTerm(last)
    ensures Total(front + [last]) == Total(front) + Seconds(last) && Seconds(last) >= NumberOf(last.digits)
  {
    TotalSnoc(front, last);
    UnitIsNoDigit(last.unit);
    TimesUnit(NumberOf(last.digits), Multiplier(last.unit).value);
  }

  /** The unit that completes a term. */
  lemma ScanUnit(text: string, front: seq<Term>, last: Term)
    requires text != "" && text[|text| - 1] == last.unit && ValidTerms(front) && ValidTerm(last)
    requires ScanText(text[..|text| - 1]) == Scanned(front, last.digits)
    ensures ScanText(text) == Scanned(front + [last], "")
  {
    OneMoreTerm(front, last);
    if Total(front) <= U64_MAX {
      UnitStep(Total(front), NumberOf(last.digits), last.unit);
    }
  }

  /** Scanning a readable text yields its value and pending number, unless one of them exceeds 64 bits. */
  lemma {:induction false} ScanReadable(text: string, terms: seq<Term>, rest: string)
    requires ReadsAs(text, terms, rest)
    ensures ScanText(text) == Scanned(terms, rest)
    decreases |terms|, |rest|
  {
    var n := |text| - 1;
    if rest != "" {
      var front := rest[..|rest| - 1];
      assert text[..n] == Text(terms) + front && text[n] == rest[|rest| - 1] && rest == front + [text[n]];
      ScanReadable(text[..n], terms, front);
      ScanDigit(text, terms, front, text[n]);
    } else if terms != [] {
      var last, front := terms[|terms| - 1], terms[..|terms| - 1];
      assert text[..n] == Text(front) + last.digits && text[n] == last.unit && terms == front + [last];
      ScanReadable(text[..n], front, last.digits);
      ScanUnit(text, front, last);
    } else {
      assert text == "";
    }
  }

  /** Conversely, whatever scans without error is readable. */
  lemma {:induction false} ScannedIsReadable(text: string) returns (terms: seq<Term>, rest: string)
    requires ScanText(text).Ok?
    ensures ReadsAs(text, terms, rest)
  {
    terms, rest := [], "";
    if text != "" {
      var n := |text| - 1;
      terms, rest := ScannedIsReadable(text[..n]);
      ScanReadable(text[..n], terms, rest);
      if IsDigit(text[n]) {
        rest := rest + [text[n]];
      } else {
        var more := terms + [Term(rest, text[n])];
        assert more[..|terms|] == terms;
        assert text == Text(more) + "";
        terms, rest := more, "";
      }
    }
  }

  /** A unit string is accepted with value `v` exactly when it is a list of terms of that sum, in 64 bits. */
  lemma AcceptedIffTerms(text: string, v: nat)
    ensures ParseUnits(text) == Ok(v) <==>
            v <= U64_MAX && exists terms :: ReadsAs(text, terms, "") && Total(terms) == v
  {
    if ParseUnits(text).Ok? {
      var terms, rest := ScannedIsReadable(text);
      ScanReadable(text, terms, rest);
    }
    if exists terms :: ReadsAs(text, terms, "") && Total(terms) == v {
      var terms :| ReadsAs(text, terms, "") && Total(terms) == v;
      ScanReadable(text, terms, "");
    }
  }

  /** Up to `i` the text is readable, and its value or its pending number exceeds 64 bits. */
  ghost predicate TooLargeAt(text: string, i: nat, terms: seq<Term>, rest: string) {
    i <= |text| && ReadsAs(text[..i], terms, rest) && (Total(terms) > U64_MAX || NumberOf(rest) > U64_MAX)
  }

  /** Overflow is reported exactly when some readable prefix really exceeds 64 bits. */
  lemma OverflowIffTooLarge(text: string)
    ensures ParseUnits(text) == Err(Overflow) <==>
            exists i: nat, terms, rest :: TooLargeAt(text, i, terms, rest)
  {
    if ScanText(text) == Err(Overflow) {
      assert text[..|text|] == text;
      var i, terms, rest := FirstOverflow(text, |text|);
      assert TooLargeAt(text, i, terms, rest);
    }
    if exists i: nat, terms, rest :: TooLargeAt(text, i, terms, rest) {
      var i: nat, terms, rest :| TooLargeAt(text, i, terms, rest);
      ScanReadable(text[..i], terms, rest);
      ScanFails(text, i);
    }
  }

  lemma {:induction false} FirstOverflow(text: string, n: nat) returns (i: nat, terms: seq<Term>, rest: string)
    requires n <= |text| && ScanText(text[..n]) == Err(Overflow)
    ensures TooLargeAt(text, i, terms, rest)
    decreases n
  {
    ScanPrefix(text, n);
    if ScanText(text[..n - 1]).Err? {
      i, terms, rest := FirstOverflow(text, n - 1);
    } else {
      i := n;
      terms, rest := ScannedIsReadable(text[..n - 1]);
      ScanReadable(text[..n - 1], terms, rest);
      terms, rest := OverflowingStep(text, n, terms, rest);
    }
  }

  lemma OverflowingStep(text: string, n: nat, terms: seq<Term>, rest: string) returns (terms': seq<Term>, rest': string)
    requires 0 < n <= |text| && ReadsAs(text[..n - 1], terms, rest)
    requires StepChar(Scan(Total(terms), Pending(rest)), text[n - 1]) == Err(Overflow)
    ensures TooLargeAt(text, n, terms', rest')
  {
    var c := text[n - 1];
    assert text[..n] == text[..n - 1] + [c];
    if IsDigit(c) {
      OverflowingDigit(text[..n - 1], terms, rest, c);
      terms', rest' := terms, rest + [c];
    } else {
      OverflowingUnit(text[..n - 1], terms, rest, c);
      terms', rest' := terms + [Term(rest, c)], "";
    }
  }

  lemma OverflowingDigit(text: string, terms: seq<Term>, rest: string, c: char)
    requires ReadsAs(text, terms, rest) && IsDigit(c)
    requires StepChar(Scan(Total(terms), Pending(rest)), c) == Err(Overflow)
    ensures ReadsAs(text + [c], terms, rest + [c]) && NumberOf(rest + [c]) > U64_MAX
  {
    assert (rest + [c])[..|rest|] == rest;
  }

  lemma OverflowingUnit(text: string, terms: seq<Term>, rest: string, c: char)
    requires ReadsAs(text, terms, rest) && !IsDigit(c)
    requires StepChar(Scan(Total(terms), Pending(rest)), c) == Err(Overflow)
    ensures ReadsAs(text + [c], terms + [Term(rest, c)], "") && Total(terms + [Term(rest, c)]) > U64_MAX
  {
    TextSnoc(terms, Term(rest, c));
    assert (terms + [Term(rest, c)])[..|terms|] == terms;
  }

  /** The units and what they are worth, and the largest value. */
  lemma UnitsAre(c: char)
    ensures Multiplier(c) ==
      if c in "dD" then Some(86400) else if c in "hH" then Some(3600) else if c in "mM" then Some(60)
      else if c in "sS" then Some(1) else None
    ensures U64_MAX == 18446744073709551615
  {
  }

  /** Behind a readable prefix in range, a character that is neither digit nor unit is at fault, and so is a unit without a number. */
  lemma CharacterAtFault(text: string, i: nat, terms: seq<Term>, rest: string)
    requires i < |text| && ReadsAs(text[..i], terms, rest) && Total(terms) <= U64_MAX && NumberOf(rest) <= U64_MAX
    ensures !('0' <= text[i] <= '9') && text[i] !in "dDhHmMsS" ==>
      ParseUnits(text) == Err(InvalidCharacter(if 'A' <= text[i] <= 'Z' then (text[i] as int + 32) as char else text[i]))
    ensures text[i] in "dDhHmMsS" && rest == "" ==> ParseUnits(text) == Err(MissingNumber)
  {
    ScanReadable(text[..i], terms, rest);
    ScanPrefix(text, i + 1);
    UnitsAre(text[i]);
    if StepChar(Scan(Total(terms), Pending(rest)), text[i]).Err? {
      ScanFails(text, i + 1);
    }
  }

  /** A number left over at the end has no unit. */
  lemma NumberLeftOver(text: string, terms: seq<Term>, rest: string)
    requires ReadsAs(text, terms, rest) && rest != "" && Total(terms) <= U64_MAX && NumberOf(rest) <= U64_MAX
    ensures ParseUnits(text) == Err(TrailingNumber)
  {
    ScanReadable(text, terms, rest);
  }

  // ----- Whole inputs -----

  lemma {:induction false} TrimStartSplits(s: string) returns (i: nat)
    ensures i <= |s| && TrimStart(s) == s[i..] && forall k :: 0 <= k < i ==> IsWhitespace(s[k])
    ensures TrimStart(s) != "" ==> !IsWhitespace(TrimStart(s)[0])
  {
    i := 0;
    if s != "" && IsWhitespace(s[0]) {
      i := TrimStartSplits(s[1..]);
      assert s[1..][i..] == s[i + 1..] && forall k :: 0 <= k < i ==> s[1..][k] == s[k + 1];
      i := i + 1;
    }
  }

  lemma {:induction false} TrimEndSplits(s: string) returns (j: nat)
    ensures j <= |s| && TrimEnd(s) == s[..j] && forall k :: j <= k < |s| ==> IsWhitespace(s[k])
    ensures j > 0 ==> !IsWhitespace(s[j - 1])
  {
    j := |s|;
    if s != "" && IsWhitespace(s[j - 1]) {
      j := TrimEndSplits(s[..j - 1]);
    }
  }

  /** Trimming takes away the white space at both ends, and nothing else. */
  lemma TrimSplits(input: string) returns (i: nat, j: nat)
    ensures i <= j <= |input| && Trim(input) == input[i..j]
    ensures forall k :: 0 <= k < i || j <= k < |input| ==> IsWhitespace(input[k])
    ensures i < j ==> !IsWhitespace(input[i]) && !IsWhitespace(input[j - 1])
  {
    i := TrimStartSplits(input);
    var rest := input[i..];
    j := TrimEndSplits(rest);
    assert forall k :: j <= k < |rest| ==> rest[k] == input[i + k];
    assert forall k :: i + j <= k < |input| ==> input[k] == rest[k - i];
    j := i + j;
  }

  /** `text` is a bare number, with or without a `+`. */
  predicate IsBare(text: string, v: nat) {
    BareDigits(text) != "" && AllDigits(BareDigits(text)) && NumberOf(BareDigits(text)) == v
  }

  /** A list of terms begins with a digit and ends with a unit. */
  lemma {:induction false} TextEdges(terms: seq<Term>)
    requires ValidTerms(terms) && terms != []
    ensures Text(terms) != "" && IsDigit(Text(terms)[0]) && Multiplier(Text(terms)[|Text(terms)| - 1]).Some?
  {
    if |terms| > 1 {
      TextEdges(terms[..|terms| - 1]);
    } else {
      assert terms[..0] == [];
    }
  }

  /** No list of terms is a bare number. */
  lemma TermsAreNotBare(terms: seq<Term>)
    requires ValidTerms(terms)
    ensures ParseU64(Text(terms)).None?
  {
    if terms != [] {
      var text := Text(terms);
      TextEdges(terms);
      UnitIsNoDigit(text[|text| - 1]);
      assert |text| > 1 ==> BareDigits(text)[|BareDigits(text)| - 1] == text[|text| - 1];
    }
  }

  /** An input is accepted with value `v` exactly when, trimmed, it is a bare number or a list of terms of that value. */
  lemma IntervalAccepted(input: string, v: nat)
    ensures ParseInterval(input) == Ok(v) <==>
            && v <= U64_MAX && Trim(input) != ""
            && (IsBare(Trim(input), v) || exists terms :: ReadsAs(Trim(input), terms, "") && Total(terms) == v)
  {
    var text := Trim(input);
    AcceptedIffTerms(text, v);
    if exists terms :: ReadsAs(text, terms, "") && Total(terms) == v {
      var terms :| ReadsAs(text, terms, "") && Total(terms) == v;
      TermsAreNotBare(terms);
      assert text == Text(terms);
    }
  }

  /** A bare number in range does not overflow when read as a number without a unit. */
  lemma BareScans(text: string)
    requires ParseU64(text).Some?
    ensures ParseUnits(text) != Err(Overflow)
  {
    if text[0] == '+' {
      ScanPrefix(text, 1);
      assert text[..0] == "";
      ScanFails(text, 1);
    } else {
      assert text == Text([]) + text;
      ScanReadable(text, [], text);
    }
  }

  /** An input overflows exactly when some readable prefix of it, trimmed, exceeds 64 bits; a bare number is no exception. */
  lemma IntervalOverflows(input: string)
    ensures ParseInterval(input) == Err(BadText(input, Overflow)) <==>
            exists i: nat, terms, rest :: TooLargeAt(Trim(input), i, terms, rest)
  {
    OverflowIffTooLarge(Trim(input));
    if ParseU64(Trim(input)).Some? {
      BareScans(Trim(input));
    }
  }

  /** In particular a bare number beyond 64 bits is read on as a unit string, and overflows. */
  lemma LongNumberOverflows(input: string)
    requires AllDigits(Trim(input)) && NumberOf(Trim(input)) > U64_MAX
    ensures ParseInterval(input) == Err(BadText(input, Overflow))
  {
    var text := Trim(input);
    assert text[..|text|] == text == Text([]) + text;
    assert TooLargeAt(text, |text|, [], text);
    IntervalOverflows(input);
  }

  // ----- Printing -----

  /** The decimal digits of a number. */
  function Decimal(n: nat): string {
    var last := ('0' as int + n % 10) as char;
    if n < 10 then [last] else Decimal(n / 10) + [last]
  }

  lemma {:induction false} DecimalNames(n: nat)
    ensures AllDigits(Decimal(n)) && Decimal(n) != "" && NumberOf(Decimal(n)) == n
  {
    var s := Decimal(n);
    if n >= 10 {
      DecimalNames(n / 10);
      assert s[..|s| - 1] == Decimal(n / 10);
    } else {
      assert s[..0] == "";
    }
  }

  const UNIT_COUNT: nat := 4

  /** The units largest first, and their sizes. */
  function UnitChar(i: nat): (c: char)
    requires i < UNIT_COUNT
    ensures Multiplier(c) == Some(UnitSize(i))
  {
    match i
    case 0 => 'd'
    case 1 => 'h'
    case 2 => 'm'
    case _ => 's'
  }

  function UnitSize(i: nat): (size: nat)
    requires i < UNIT_COUNT
    ensures size > 0
  {
    match i
    case 0 => SECONDS_PER_DAY
    case 1 => SECONDS_PER_HOUR
    case 2 => SECONDS_PER_MINUTE
    case _ => 1
  }

  /** Unit `i` printed behind other terms: nothing at all when it does not fit. */
  function WithUnit(before: seq<Term>, count: nat, i: nat): seq<Term>
    requires i < UNIT_COUNT
  {
    if count > 0 then before + [Term(Decimal(count), UnitChar(i))] else before
  }

  /** What the first `i` units leave of a duration. */
  function Left(secs: nat, i: nat): nat
    requires i <= UNIT_COUNT
  {
    if i == 0 then secs else Left(secs, i - 1) % UnitSize(i - 1)
  }

  /** The terms the first `i` units are printed as. */
  function Written(secs: nat, i: nat): seq<Term>
    requires i <= UNIT_COUNT
  {
    if i == 0 then [] else WithUnit(Written(secs, i - 1), Left(secs, i - 1) / UnitSize(i - 1), i - 1)
  }

  function RenderTerms(secs: nat): seq<Term> {
    if secs == 0 then [Term("0", 's')] else Written(secs, UNIT_COUNT)
  }

  /** The most compact form: each unit as often as it fits. */
  method Render(total: nat) returns (out: string)
    ensures out == Text(RenderTerms(total))
  {
    var secs: nat := total;
    if secs == 0 {
      assert Text([Term("0", 's')]) == "0s";
      return "0s";
    }
    out := "";
    for i := 0 to UNIT_COUNT
      invariant secs == Left(total, i) && out == Text(Written(total, i))
    {
      out, secs := WriteUnit(out, secs, i, Written(total, i));
    }
  }

  /** One turn of the loop: print unit `i` if it fits, and go on with what it leaves. */
  method WriteUnit(before: string, secs: nat, i: nat, ghost written: seq<Term>) returns (out: string, left: nat)
    requires i < UNIT_COUNT && before == Text(written)
    ensures out == Text(WithUnit(written, secs / UnitSize(i), i)) && left == secs % UnitSize(i)
  {
    var count := secs / UnitSize(i);
    Remainder(secs, UnitSize(i));
    out, left := before, secs;
    if count > 0 {
      out := out + Decimal(count) + [UnitChar(i)];
      left := secs - count * UnitSize(i);
      TextSnoc(written, Term(Decimal(count), UnitChar(i)));
    }
  }

  lemma Remainder(secs: nat, size: nat)
    requires size > 0
    ensures secs / size * size + secs % size == secs
  {
  }

  lemma TextSnoc(terms: seq<Term>, t: Term)
    ensures Text(terms + [t]) == Text(terms) + t.digits + [t.unit]
  {
    assert (terms + [t])[..|terms|] == terms;
  }

  /** Printing one more unit moves its share from what is left to what is printed. */
  lemma AddUnit(before: seq<Term>, secs: nat, left: nat, i: nat)
    requires i < UNIT_COUNT && ValidTerms(before) && Total(before) + left == secs
    ensures var terms := WithUnit(before, left / UnitSize(i), i);
      ValidTerms(terms) && Total(terms) + left % UnitSize(i) == secs
  {
    var count := left / UnitSize(i);
    Remainder(left, UnitSize(i));
    DecimalNames(count);
    if count > 0 {
      TotalSnoc(before, Term(Decimal(count), UnitChar(i)));
    }
  }

  lemma WrittenStep(secs: nat, i: nat, before: seq<Term>, left: nat)
    requires i < UNIT_COUNT && before == Written(secs, i) && left == Left(secs, i)
    requires ValidTerms(before) && Total(before) + left == secs
    ensures ValidTerms(Written(secs, i + 1)) && Total(Written(secs, i + 1)) + Left(secs, i + 1) == secs
  {
    AddUnit(before, secs, left, i);
  }

  /** What is printed and what is left always make up the duration. */
  lemma {:induction false} WrittenSum(secs: nat, i: nat)
    requires i <= UNIT_COUNT
    ensures ValidTerms(Written(secs, i)) && Total(Written(secs, i)) + Left(secs, i) == secs
  {
    if i > 0 {
      WrittenSum(secs, i - 1);
      WrittenStep(secs, i - 1, Written(secs, i - 1), Left(secs, i - 1));
    }
  }

  lemma RenderedTermsSum(secs: nat)
    ensures ValidTerms(RenderTerms(secs)) && RenderTerms(secs) != [] && Total(RenderTerms(secs)) == secs
  {
    if secs == 0 {
      assert RenderTerms(secs)[..0] == [];
      assert "0"[..0] == "";
    } else {
      WrittenSum(secs, UNIT_COUNT);
      assert Left(secs, UNIT_COUNT) == 0;
    }
  }

  lemma {:induction false} DecimalIsShort(n: nat)
    requires n > 0
    ensures Decimal(n)[0] != '0'
  {
    if n >= 10 {
      DecimalIsShort(n / 10);
    }
  }

  /** One unit as it is printed: not at all when there is none of it. */
  function Part(count: nat, unit: string): string {
    if count == 0 then "" else Decimal(count) + unit
  }

  lemma PartAppended(before: seq<Term>, count: nat, i: nat)
    requires i < UNIT_COUNT
    ensures Text(WithUnit(before, count, i)) == Text(before) + Part(count, [UnitChar(i)])
  {
    if count > 0 {
      TextSnoc(before, Term(Decimal(count), UnitChar(i)));
    }
  }

  /** Unit `i` of a duration. */
  function PartAt(secs: nat, i: nat): string
    requires i < UNIT_COUNT
  {
    Part(Left(secs, i) / UnitSize(i), [UnitChar(i)])
  }

  lemma PartWritten(secs: nat, i: nat)
    requires i < UNIT_COUNT
    ensures Text(Written(secs, i + 1)) == Text(Written(secs, i)) + PartAt(secs, i)
  {
    PartAppended(Written(secs, i), Left(secs, i) / UnitSize(i), i);
  }

  lemma Concatenated(texts: seq<string>, parts: seq<string>)
    requires |texts| == 5 && |parts| == 4 && texts[0] == ""
    requires forall i :: 0 <= i < |parts| ==> texts[i + 1] == texts[i] + parts[i]
    ensures texts[4] == parts[0] + parts[1] + parts[2] + parts[3]
  {
    assert texts[1] == parts[0];
  }

  lemma PartsWritten(secs: nat)
    ensures Text(Written(secs, UNIT_COUNT)) == PartAt(secs, 0) + PartAt(secs, 1) + PartAt(secs, 2) + PartAt(secs, 3)
  {
    var texts := seq(5, i requires 0 <= i < 5 => Text(Written(secs, i)));
    var parts := seq(4, i requires 0 <= i < 4 => PartAt(secs, i));
    forall i | 0 <= i < |parts|
      ensures texts[i + 1] == texts[i] + parts[i]
    {
      PartWritten(secs, i);
    }
    Concatenated(texts, parts);
  }

  lemma PartsAre(secs: nat)
    ensures PartAt(secs, 0) == Part(secs / 86400, "d")
    ensures PartAt(secs, 1) == Part(secs % 86400 / 3600, "h")
    ensures PartAt(secs, 2) == Part(secs % 86400 % 3600 / 60, "m")
    ensures PartAt(secs, 3) == Part(secs % 86400 % 3600 % 60, "s")
  {
    assert secs % 86400 % 3600 % 60 / 1 == secs % 86400 % 3600 % 60;
  }

  /** Days, hours, minutes and seconds, each as often as it fits in what the larger ones leave. */
  lemma RenderIs(secs: nat)
    ensures Text(RenderTerms(secs)) ==
      if secs == 0 then "0s"
      else Part(secs / 86400, "d") + Part(secs % 86400 / 3600, "h") +
           Part(secs % 86400 % 3600 / 60, "m") + Part(secs % 86400 % 3600 % 60, "s")
  {
    if secs == 0 {
      assert RenderTerms(secs)[..0] == [];
    } else {
      PartsAre(secs);
      PartsWritten(secs);
    }
  }

  lemma EdgesStay(s: string)
    requires s != "" && IsDigit(s[0]) && Multiplier(s[|s| - 1]).Some?
    ensures Trim(s) == s && ParseU64(s).None?
  {
    UnitIsNoDigit(s[|s| - 1]);
    assert !AllDigits(s);
  }

  /** Parsing a printed duration gives the duration back, for every 64-bit value. */
  lemma RenderParses(secs: nat)
    requires secs <= U64_MAX
    ensures ParseInterval(Text(RenderTerms(secs))) == Ok(secs)
  {
    var terms := RenderTerms(secs);
    RenderedTermsSum(secs);
    TextEdges(terms);
    EdgesStay(Text(terms));
    assert Text(terms) == Text(terms) + "";
    AcceptedIffTerms(Text(terms), secs);
  }
}
