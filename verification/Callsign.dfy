/** Callsign validation: an uppercase alphanumeric base with an optional `-SSID`. */
module Callsign {
  import opened Wrappers
  import opened Ascii

  const MAX_CALLSIGN_LEN := 9
  const MIN_LOGIN_LEN := 3
  const MAX_SSID_LEN := 2

  datatype CallsignError =
    | Empty
    | TooLong(found: nat)
    | TooShortForLogin(found: nat)
    | InvalidCharacter(ch: string)
    | MultipleSeparators
    | EmptyBase
    | EmptySsid
    | SsidTooLong

  predicate IsCallChar(c: char) {
    'A' <= c <= 'Z' || IsDigit(c)
  }

  /** The verdict on `s[i..]`, given the separator found in `s[..i]`. */
  function Scan(s: string, i: nat, separator: Option<nat>): Result<Option<nat>, CallsignError>
    requires i <= |s|
    decreases |s| - i
  {
    if i == |s| then
      if separator.None? then Ok(separator)
      else if |s| <= separator.value + 1 then Err(EmptySsid)
      else if |s| - separator.value - 1 > MAX_SSID_LEN then Err(SsidTooLong)
      else Ok(separator)
    else if s[i] == '-' then
      if separator.Some? then Err(MultipleSeparators)
      else if i == 0 then Err(EmptyBase)
      else Scan(s, i + 1, Some(i))
    else if !IsCallChar(s[i]) then Err(InvalidCharacter(CharAt(s, i)))
    else Scan(s, i + 1, separator)
  }

  /** The offset of the `-`, if there is one, or why the text is no callsign. */
  function Validation(s: string): Result<Option<nat>, CallsignError> {
    if s == "" then Err(Empty)
    else if |s| > MAX_CALLSIGN_LEN then Err(TooLong(|s|))
    else Scan(s, 0, None)
  }

  predicate IsValid(s: string) {
    Validation(s).Ok?
  }

  /** The stricter rules for a login identity and for the server's own name. */
  predicate IsLogin(s: string) {
    MIN_LOGIN_LEN <= |s| && IsValid(s)
  }

  method Validate(s: string) returns (r: Result<Option<nat>, CallsignError>)
    ensures r == Validation(s)
  {
    if s == "" {
      return Err(Empty);
    }
    if |s| > MAX_CALLSIGN_LEN {
      return Err(TooLong(|s|));
    }
    var separator: Option<nat> := None;
    for i := 0 to |s|
      invariant separator.Some? ==> 0 < separator.value < i
      invariant Validation(s) == Scan(s, i, separator)
    {
      if s[i] == '-' {
        if separator.Some? {
          return Err(MultipleSeparators);
        }
        if i == 0 {
          return Err(EmptyBase);
        }
        separator := Some(i);
      } else if !IsCallChar(s[i]) {
        return Err(InvalidCharacter(CharAt(s, i)));
      }
    }
    if separator.Some? {
      var ssidLen := |s| - separator.value - 1;
      if ssidLen == 0 {
        return Err(EmptySsid);
      }
      if ssidLen > MAX_SSID_LEN {
        return Err(SsidTooLong);
      }
    }
    return Ok(separator);
  }

  /** A callsign: a base, and perhaps one `-` followed by an SSID of one or two characters; nine bytes at most. */
  ghost predicate WellFormed(s: string, separator: Option<nat>) {
    && 0 < |s| <= 9 && ScannedTo(s, |s|, separator)
    && (separator.Some? ==> separator.value < |s| - 1 <= separator.value + 2)
  }

  /** `separator` is where the `-` of `s[..i]` stands, everything else there being an upper-case letter or a digit. */
  ghost predicate ScannedTo(s: string, i: nat, separator: Option<nat>) {
    && i <= |s|
    && (forall k :: 0 <= k < i ==>
          if separator == Some(k) then s[k] == '-' else 'A' <= s[k] <= 'Z' || '0' <= s[k] <= '9')
    && (separator.Some? ==> 0 < separator.value < i)
  }

  lemma {:induction false} ScanSound(s: string, i: nat, separator: Option<nat>)
    requires ScannedTo(s, i, separator) && 0 < |s| <= MAX_CALLSIGN_LEN
    ensures Scan(s, i, separator).Ok? ==> WellFormed(s, Scan(s, i, separator).value)
    decreases |s| - i
  {
    if i < |s| {
      if s[i] != '-' && IsCallChar(s[i]) {
        ScanSound(s, i + 1, separator);
      } else if s[i] == '-' && separator.None? && i > 0 {
        ScanSound(s, i + 1, Some(i));
      }
    }
  }

  lemma {:induction false} ScanComplete(s: string, i: nat, separator: Option<nat>)
    requires WellFormed(s, separator) && i <= |s|
    ensures Scan(s, i, if separator.Some? && separator.value < i then separator else None) == Ok(separator)
    decreases |s| - i
  {
    if i < |s| {
      ScanComplete(s, i + 1, separator);
    }
  }

  /** Validation accepts exactly the callsigns, and reports the one separator they have. */
  lemma ValidationIsExact(s: string, separator: Option<nat>)
    ensures Validation(s) == Ok(separator) <==> WellFormed(s, separator)
  {
    if WellFormed(s, separator) {
      ScanComplete(s, 0, separator);
    } else if 0 < |s| <= MAX_CALLSIGN_LEN {
      ScanSound(s, 0, None);
    }
  }

  /** A text that has been fine up to `i` is judged by what follows. */
  lemma {:induction false} ScanReaches(s: string, i: nat, separator: Option<nat>)
    requires ScannedTo(s, i, separator)
    ensures Scan(s, 0, None) == Scan(s, i, separator)
    decreases i
  {
    if i > 0 {
      ScanReaches(s, i - 1, if separator == Some(i - 1) then None else separator);
    }
  }

  /** The first byte that cannot stand where it does decides. */
  lemma RefusedAt(s: string, i: nat, separator: Option<nat>)
    requires |s| <= 9 && i < |s| && ScannedTo(s, i, separator)
    ensures s[i] == '-' && separator.Some? ==> Validation(s) == Err(MultipleSeparators)
    ensures s[i] == '-' && i == 0 ==> Validation(s) == Err(EmptyBase)
    ensures s[i] != '-' && !('A' <= s[i] <= 'Z' || '0' <= s[i] <= '9') ==>
      Validation(s) == Err(InvalidCharacter(CharAt(s, i)))
  {
    ScanReaches(s, i, separator);
  }

  /** Otherwise it is the length, or the SSID. */
  lemma RefusedByLength(s: string, separator: nat)
    ensures s == "" ==> Validation(s) == Err(Empty)
    ensures |s| > 9 ==> Validation(s) == Err(TooLong(|s|))
    ensures |s| <= 9 && ScannedTo(s, |s|, Some(separator)) && separator + 1 == |s| ==> Validation(s) == Err(EmptySsid)
    ensures |s| <= 9 && ScannedTo(s, |s|, Some(separator)) && separator + 3 < |s| ==> Validation(s) == Err(SsidTooLong)
  {
    if ScannedTo(s, |s|, Some(separator)) {
      ScanReaches(s, |s|, Some(separator));
    }
  }

  /** No byte of a callsign can be taken for framing. */
  lemma ValidIsPlain(s: string)
    requires IsValid(s)
    ensures s != "" && forall k :: 0 <= k < |s| ==> IsCallChar(s[k]) || s[k] == '-'
  {
    ValidationIsExact(s, Validation(s).value);
  }
}
