/**
  Interval strings: `600`, `5m`, `1d3h15m24s`.  Texts here are Unicode strings, one char per
  code point, and numbers are held to the 64-bit range by checked arithmetic.
*/
module Interval {
  import opened Ascii
  import opened Unicode
  import opened Wrappers

  const U64_MAX: nat := 0xffff_ffff_ffff_ffff

  const SECONDS_PER_MINUTE: nat := 60
  const SECONDS_PER_HOUR: nat := 60 * SECONDS_PER_MINUTE
  const SECONDS_PER_DAY: nat := 24 * SECONDS_PER_HOUR

  datatype Fault = InvalidCharacter(ch: char) | TrailingNumber | MissingNumber | Overflow

  datatype IntervalError = Empty | BadText(input: string, fault: Fault)

  function TrimStart(s: string): string {
    if s != "" && IsWhitespace(s[0]) then TrimStart(s[1..]) else s
  }

  function TrimEnd(s: string): string {
    if s != "" && IsWhitespace(s[|s| - 1]) then TrimEnd(s[..|s| - 1]) else s
  }

  function Trim(s: string): string {
    TrimEnd(TrimStart(s))
  }

  function DigitValue(c: char): nat
    requires IsDigit(c)
  {
    c as int - '0' as int
  }

  predicate AllDigits(s: string) {
    forall k :: 0 <= k < |s| ==> IsDigit(s[k])
  }

  /** The number a digit string names. */
  function NumberOf(digits: string): nat
    requires AllDigits(digits)
  {
    if digits == "" then 0
    else NumberOf(digits[..|digits| - 1]) * 10 + DigitValue(digits[|digits| - 1])
  }

  function CheckedMul(a: nat, b: nat): Option<nat> {
    if a * b <= U64_MAX then Some(a * b) else None
  }

  function CheckedAdd(a: nat, b: nat): Option<nat> {
    if a + b <= U64_MAX then Some(a + b) else None
  }

  function BareDigits(s: string): string {
    if s != "" && s[0] == '+' then s[1..] else s
  }

  /** A bare unsigned number, as the language's own integer parser reads it: an optional `+`, then digits. */
  function ParseU64(s: string): Option<nat> {
    var digits := BareDigits(s);
    if digits != "" && AllDigits(digits) && NumberOf(digits) <= U64_MAX then Some(NumberOf(digits)) else None
  }

  function Multiplier(unit: char): Option<nat> {
    match LowerChar(unit)
    case 'd' => Some(SECONDS_PER_DAY)
    case 'h' => Some(SECONDS_PER_HOUR)
    case 'm' => Some(SECONDS_PER_MINUTE)
    case 's' => Some(1)
    case _ => None
  }

  /** The loop's accumulators: the seconds so far, and the number being read. */
  datatype Scan = Scan(total: nat, current: Option<nat>)

  function Digit(s: Scan, c: char): Result<Scan, Fault>
    requires IsDigit(c)
  {
    var acc := if s.current.None? then 0 else s.current.value;
    match CheckedMul(acc, 10)
    case None => Err(Overflow)
    case Some(v) =>
      match CheckedAdd(v, DigitValue(c))
      case None => Err(Overflow)
      case Some(next) => Ok(s.(current := Some(next)))
  }

  function Unit(s: Scan, c: char): Result<Scan, Fault> {
    match Multiplier(c)
    case None => Err(InvalidCharacter(LowerChar(c)))
    case Some(multiplier) =>
      match s.current
      case None => Err(MissingNumber)
      case Some(value) =>
        match CheckedMul(value, multiplier)
        case None => Err(Overflow)
        case Some(v) =>
          match CheckedAdd(s.total, v)
          case None => Err(Overflow)
          case Some(total) => Ok(Scan(total, None))
  }

  function StepChar(s: Scan, c: char): Result<Scan, Fault> {
    if IsDigit(c) then Digit(s, c) else Unit(s, c)
  }

  /** The accumulators after a whole text. */
  function ScanText(text: string): Result<Scan, Fault> {
    if text == "" then Ok(Scan(0, None))
    else match ScanText(text[..|text| - 1])
      case Err(e) => Err(e)
      case Ok(s) => StepChar(s, text[|text| - 1])
  }

  function ParseUnits(text: string): Result<nat, Fault> {
    match ScanText(text)
    case Err(e) => Err(e)
    case Ok(s) => if s.current.Some? then Err(TrailingNumber) else Ok(s.total)
  }

  function ParseTrimmed(input: string, trimmed: string): Result<nat, IntervalError> {
    if trimmed == "" then Err(Empty)
    else match ParseU64(trimmed)
      case Some(secs) => Ok(secs)
      case None =>
        match ParseUnits(trimmed)
        case Ok(secs) => Ok(secs)
        case Err(fault) => Err(BadText(input, fault))
  }

  function ParseInterval(input: string): Result<nat, IntervalError> {
    ParseTrimmed(input, Trim(input))
  }

  method Parse(input: string) returns (r: Result<nat, IntervalError>)
    ensures r == ParseInterval(input)
  {
    var trimmed := Trim(input);
    if trimmed == "" {
      return Err(Empty);
    }
    var bare := ParseU64(trimmed);
    if bare.Some? {
      return Ok(bare.value);
    }
    var total: nat := 0;
    var current: Option<nat> := None;
    for i := 0 to |trimmed|
      invariant ScanText(trimmed[..i]) == Ok(Scan(total, current))
    {
      var ch := trimmed[i];
      ScanPrefix(trimmed, i + 1);
      if IsDigit(ch) {
        var acc := current.GetOr(0);
        var tens := CheckedMul(acc, 10);
        if tens.None? {
          ScanFails(trimmed, i + 1);
          return Err(BadText(input, Overflow));
        }
        current := CheckedAdd(tens.value, DigitValue(ch));
        if current.None? {
          ScanFails(trimmed, i + 1);
          return Err(BadText(input, Overflow));
        }
        continue;
      }
      var multiplier := Multiplier(ch);
      if multiplier.None? {
        ScanFails(trimmed, i + 1);
        return Err(BadText(input, InvalidCharacter(LowerChar(ch))));
      }
      if current.None? {
        ScanFails(trimmed, i + 1);
        return Err(BadText(input, MissingNumber));
      }
      var seconds := CheckedMul(current.value, multiplier.value);
      current := None;
      if seconds.None? {
        ScanFails(trimmed, i + 1);
        return Err(BadText(input, Overflow));
      }
      var sum := CheckedAdd(total, seconds.value);
      if sum.None? {
        ScanFails(trimmed, i + 1);
        return Err(BadText(input, Overflow));
      }
      total := sum.value;
    }
    assert trimmed[..|trimmed|] == trimmed;
    if current.Some? {
      return Err(BadText(input, TrailingNumber));
    }
    return Ok(total);
  }

  lemma ScanPrefix(text: string, i: nat)
    requires 0 < i <= |text|
    ensures ScanText(text[..i]) ==
            match ScanText(text[..i - 1])
            case Err(e) => Err(e)
            case Ok(s) => StepChar(s, text[i - 1])
  {
    assert text[..i][..i - 1] == text[..i - 1];
  }

  /** The first error decides. */
  lemma {:induction false} ScanFails(text: string, i: nat)
    requires i <= |text| && ScanText(text[..i]).Err?
    ensures ScanText(text) == ScanText(text[..i])
    decreases |text| - i
  {
    if i == |text| {
      assert text[..i] == text;
    } else {
      ScanPrefix(text, i + 1);
      ScanFails(text, i + 1);
    }
  }
}
