/**
  The APRS-IS passcode: a 15-bit hash of the base callsign.  Bytes and hashes are bit vectors,
  as in the code.
*/
module Passcode {
  type Byte = bv8

  const SEED: bv16 := 0x73e2
  const MASK: bv16 := 0x7fff
  const RECEIVE_ONLY: int := -1
  const DASH: Byte := 0x2d

  datatype Verification = Verified | ReceiveOnly | Invalid

  function UpperByte(b: Byte): Byte {
    if 0x61 <= b <= 0x7a then b - 0x20 else b
  }

  /** The callsign up to its first `-`. */
  function Base(callsign: seq<Byte>): seq<Byte> {
    if callsign == [] || callsign[0] == DASH then [] else [callsign[0]] + Base(callsign[1..])
  }

  /** The bytes of one parity class, upper-cased: those at offsets 0, 2, 4, and so on. */
  function EveryOther(s: seq<Byte>): seq<Byte> {
    if s == [] then [] else [UpperByte(s[0])] + if |s| >= 2 then EveryOther(s[2..]) else []
  }

  function Evens(base: seq<Byte>): seq<Byte> {
    EveryOther(base)
  }

  function Odds(base: seq<Byte>): seq<Byte> {
    if base == [] then [] else EveryOther(base[1..])
  }

  function XorAll(s: seq<Byte>): bv16 {
    if s == [] then 0 else (s[0] as bv16) ^ XorAll(s[1..])
  }

  /** A hash, its high byte XORed by the even-position bytes and its low byte by the odd-position ones. */
  function Mixed(hash: bv16, base: seq<Byte>): bv16 {
    hash ^ (XorAll(Evens(base)) << 8) ^ XorAll(Odds(base))
  }

  /** The closed form of the passcode. */
  function PasscodeOf(callsign: seq<Byte>): bv16 {
    Mixed(SEED, Base(callsign)) & MASK
  }

  lemma XorShift(h: bv16, a: bv16, b: bv16, rest: bv16, others: bv16)
    ensures h ^ ((a ^ rest) << 8) ^ (b ^ others) == (h ^ (a << 8) ^ b) ^ (rest << 8) ^ others
    ensures h ^ ((a ^ rest) << 8) ^ others == (h ^ (a << 8)) ^ (rest << 8) ^ others
    ensures h ^ ((0 as bv16) << 8) ^ 0 == h
  {
  }

  function High(hash: bv16, b: Byte): bv16 {
    hash ^ ((UpperByte(b) as bv16) << 8)
  }

  function Low(hash: bv16, b: Byte): bv16 {
    hash ^ (UpperByte(b) as bv16)
  }

  lemma EvensStep(s: seq<Byte>)
    requires s != []
    ensures XorAll(Evens(s)) == (UpperByte(s[0]) as bv16) ^ if |s| >= 2 then XorAll(Evens(s[2..])) else 0
  {
    assert Evens(s)[1..] == if |s| >= 2 then EveryOther(s[2..]) else [];
  }

  lemma OddsStep(s: seq<Byte>)
    requires |s| >= 2
    ensures XorAll(Odds(s)) == (UpperByte(s[1]) as bv16) ^ XorAll(Odds(s[2..]))
  {
    EvensStep(s[1..]);
    assert |s| >= 3 ==> s[1..][2..] == s[2..][1..];
  }

  /** One turn of the loop takes one byte of each class. */
  lemma MixedStep(h: bv16, s: seq<Byte>)
    requires |s| >= 2
    ensures Mixed(h, s) == Mixed(Low(High(h, s[0]), s[1]), s[2..])
  {
    EvensStep(s);
    OddsStep(s);
    XorShift(h, UpperByte(s[0]) as bv16, UpperByte(s[1]) as bv16, XorAll(Evens(s[2..])), XorAll(Odds(s[2..])));
  }

  lemma MixedNone(h: bv16)
    ensures Mixed(h, []) == h
  {
    XorShift(h, 0, 0, 0, 0);
  }

  lemma OddsOfOne(s: seq<Byte>)
    requires |s| == 1
    ensures XorAll(Odds(s)) == 0
  {
    assert s[1..] == [];
  }

  lemma OneByte(h: bv16, evens: bv16, odds: bv16, a: bv16)
    requires evens == a ^ 0 && odds == 0
    ensures h ^ (evens << 8) ^ odds == h ^ (a << 8)
  {
  }

  lemma MixedOne(h: bv16, s: seq<Byte>)
    requires |s| == 1
    ensures Mixed(h, s) == High(h, s[0])
  {
    EvensStep(s);
    OddsOfOne(s);
    OneByte(h, XorAll(Evens(s)), XorAll(Odds(s)), UpperByte(s[0]) as bv16);
  }

  method Generate(callsign: seq<Byte>) returns (code: bv16)
    ensures code == PasscodeOf(callsign)
  {
    var base := Base(callsign);
    var hash := SEED;
    var i := 0;
    while i < |base|
      invariant i <= |base| + 1
      invariant Mixed(SEED, base) == Mixed(hash, if i < |base| then base[i..] else [])
    {
      ghost var rest, before := base[i..], hash;
      hash := High(hash, base[i]);
      if i + 1 < |base| {
        hash := Low(hash, base[i + 1]);
        MixedStep(before, rest);
        assert rest[2..] == base[i + 2..];
      } else {
        MixedOne(before, rest);
      }
      i := i + 2;
      MixedNone(hash);
      assert i == |base| ==> base[i..] == [];
    }
    MixedNone(hash);
    return hash & MASK;
  }

  /** The verdict on a presented code, an `i32` on the wire. */
  function Verdict(callsign: seq<Byte>, presented: int): Verification {
    if presented == RECEIVE_ONLY then ReceiveOnly
    else if presented == PasscodeOf(callsign) as int then Verified
    else Invalid
  }

  method Verify(callsign: seq<Byte>, presented: int) returns (v: Verification)
    ensures v == Verdict(callsign, presented)
  {
    if presented == RECEIVE_ONLY {
      return ReceiveOnly;
    }
    if presented < 0 || presented >= 0x1_0000 {
      return Invalid;
    }
    var code := Generate(callsign);
    return if presented == code as int then Verified else Invalid;
  }

  // ----- Its values -----

  /** An ASCII letter counts as its upper-case one. */
  function Letter(b: Byte): bv16 {
    (if 0x61 <= b <= 0x7a then b - 0x20 else b) as bv16
  }

  /** What two bytes add to the code: the first 256 times, within 15 bits. */
  function PairBits(first: bv16, second: bv16): bv16 {
    ((first << 8) ^ second) & 0x7fff
  }

  lemma PairMasked(h: bv16, a: bv16, b: bv16, evens: bv16, odds: bv16)
    ensures (h ^ ((a ^ evens) << 8) ^ (b ^ odds)) & 0x7fff == ((h ^ (evens << 8) ^ odds) & 0x7fff) ^ PairBits(a, b)
    ensures (h ^ (a << 8)) & 0x7fff == (h & 0x7fff) ^ PairBits(a, 0)
  {
  }

  lemma PairMixed(h: bv16, s: seq<Byte>)
    requires |s| >= 2
    ensures Mixed(h, s) & 0x7fff == (Mixed(h, s[2..]) & 0x7fff) ^ PairBits(Letter(s[0]), Letter(s[1]))
  {
    EvensStep(s);
    OddsStep(s);
    PairMasked(h, Letter(s[0]), Letter(s[1]), XorAll(Evens(s[2..])), XorAll(Odds(s[2..])));
  }

  /** The code is 29666, XORed with what each pair of the base's bytes adds, and a last byte on its own. */
  lemma PairsAdd(base: seq<Byte>)
    requires DASH !in base
    ensures base == [] ==> PasscodeOf(base) == 29666
    ensures |base| == 1 ==> PasscodeOf(base) == 29666 ^ PairBits(Letter(base[0]), 0)
    ensures |base| >= 2 ==> PasscodeOf(base) == PasscodeOf(base[2..]) ^ PairBits(Letter(base[0]), Letter(base[1]))
  {
    BaseEnds(base, []);
    if base == [] {
      MixedNone(SEED);
    } else if |base| == 1 {
      MixedOne(SEED, base);
      PairMasked(SEED, Letter(base[0]), 0, 0, 0);
    } else {
      BaseEnds(base[2..], []);
      PairMixed(SEED, base);
    }
  }

  /** Two known passcodes, those of W1AW and K1A. */
  lemma KnownPasscodes()
    ensures PasscodeOf([0x57, 0x31, 0x41, 0x57]) == 25988
    ensures PasscodeOf([0x4b, 0x31, 0x41]) == 31187
  {
    var base := [0x57 as Byte, 0x31, 0x41, 0x57];
    PairsAdd(base);
    PairsAdd(base[2..]);
    assert base[2..][2..] == [];
    PairsAdd([]);
    base := [0x4b, 0x31, 0x41];
    PairsAdd(base);
    assert base[2..] == [0x41];
    PairsAdd([0x41]);
  }

  /** And that of N0CALL, here in lower case and with an SSID. */
  lemma KnownPasscode(ssid: seq<Byte>)
    ensures PasscodeOf([0x6e, 0x30, 0x63, 0x61, 0x6c, 0x6c] + [0x2d] + ssid) == 13023
  {
    var base := [0x6e as Byte, 0x30, 0x63, 0x61, 0x6c, 0x6c];
    SsidIgnored(base, ssid);
    PairsAdd(base);
    assert base[2..] == [0x63, 0x61, 0x6c, 0x6c];
    PairsAdd([0x63, 0x61, 0x6c, 0x6c]);
    assert [0x63 as Byte, 0x61, 0x6c, 0x6c][2..] == [0x6c, 0x6c];
    PairsAdd([0x6c, 0x6c]);
    assert [0x6c as Byte, 0x6c][2..] == [];
    PairsAdd([]);
  }

  // ----- What the passcode depends on -----

  /** The passcode has 15 bits, and presenting it, and nothing else, verifies, for every callsign. */
  lemma OwnPasscodeVerifies(callsign: seq<Byte>)
    ensures PasscodeOf(callsign) <= MASK
    ensures forall code: int :: Verdict(callsign, code) == Verified <==> code == PasscodeOf(callsign) as int
    ensures forall code: int :: Verdict(callsign, code) == ReceiveOnly <==> code == -1
  {
    MaskBounds(Mixed(SEED, Base(callsign)));
  }

  lemma MaskBounds(h: bv16)
    ensures h & MASK <= MASK
  {
  }

  lemma {:induction false} BaseEnds(base: seq<Byte>, ssid: seq<Byte>)
    requires DASH !in base
    ensures Base(base + [DASH] + ssid) == base == Base(base)
  {
    if base != [] {
      BaseEnds(base[1..], ssid);
      assert (base + [DASH] + ssid)[1..] == base[1..] + [DASH] + ssid;
    }
  }

  /** The SSID does not matter. */
  lemma SsidIgnored(base: seq<Byte>, ssid: seq<Byte>)
    requires DASH !in base
    ensures PasscodeOf(base + [DASH] + ssid) == PasscodeOf(base)
  {
    BaseEnds(base, ssid);
  }

  lemma UpperKeepsDash(b: Byte)
    ensures UpperByte(b) == DASH <==> b == DASH
  {
  }

  ghost predicate SameUpToCase(a: seq<Byte>, b: seq<Byte>) {
    |a| == |b| && forall k :: 0 <= k < |a| ==> UpperByte(a[k]) == UpperByte(b[k])
  }

  lemma {:induction false} BaseKeepsCase(a: seq<Byte>, b: seq<Byte>)
    requires SameUpToCase(a, b)
    ensures SameUpToCase(Base(a), Base(b))
  {
    if a != [] {
      UpperKeepsDash(a[0]);
      UpperKeepsDash(b[0]);
      BaseKeepsCase(a[1..], b[1..]);
    }
  }

  lemma {:induction false} ClassesKeepCase(a: seq<Byte>, b: seq<Byte>)
    requires SameUpToCase(a, b)
    ensures EveryOther(a) == EveryOther(b)
  {
    if |a| >= 2 {
      ClassesKeepCase(a[2..], b[2..]);
    }
  }

  /** Nor does letter case. */
  lemma CaseIgnored(a: seq<Byte>, b: seq<Byte>)
    requires SameUpToCase(a, b)
    ensures PasscodeOf(a) == PasscodeOf(b)
  {
    BaseKeepsCase(a, b);
    var x, y := Base(a), Base(b);
    ClassesKeepCase(x, y);
    if x != [] {
      ClassesKeepCase(x[1..], y[1..]);
    }
  }

  lemma {:induction false} XorRemove(s: seq<Byte>, i: nat)
    requires i < |s|
    ensures XorAll(s) == (s[i] as bv16) ^ XorAll(s[..i] + s[i + 1..])
  {
    var left := s[..i] + s[i + 1..];
    if i > 0 {
      XorRemove(s[1..], i - 1);
      assert left[0] == s[0] && left[1..] == s[1..][..i - 1] + s[1..][i..];
      Swap(s[0] as bv16, s[i] as bv16, XorAll(left[1..]));
    } else {
      assert left == s[1..];
    }
  }

  lemma Swap(a: bv16, b: bv16, c: bv16)
    ensures a ^ (b ^ c) == b ^ (a ^ c)
  {
  }

  lemma RemoveOne(t: seq<Byte>, i: nat)
    requires i < |t|
    ensures multiset(t) == multiset(t[..i] + t[i + 1..]) + multiset{t[i]}
  {
    assert t == t[..i] + [t[i]] + t[i + 1..];
  }

  lemma Cancel(a: multiset<Byte>, b: multiset<Byte>, x: Byte)
    requires a + multiset{x} == b + multiset{x}
    ensures a == b
  {
    assert a == (a + multiset{x}) - multiset{x};
    assert b == (b + multiset{x}) - multiset{x};
  }

  lemma RestPermuted(s: seq<Byte>, t: seq<Byte>, i: nat)
    requires multiset(s) == multiset(t) && s != [] && i < |t| && t[i] == s[0]
    ensures multiset(s[1..]) == multiset(t[..i] + t[i + 1..])
  {
    RemoveOne(t, i);
    RemoveOne(s, 0);
    assert s[..0] + s[1..] == s[1..];
    Cancel(multiset(s[1..]), multiset(t[..i] + t[i + 1..]), s[0]);
  }

  /** Take the first byte of `s` out of its permutation `t`. */
  lemma TakeOut(s: seq<Byte>, t: seq<Byte>) returns (left: seq<Byte>)
    requires multiset(s) == multiset(t) && s != []
    ensures multiset(s[1..]) == multiset(left) && XorAll(t) == (s[0] as bv16) ^ XorAll(left)
  {
    assert s[0] in multiset(t);
    var i :| 0 <= i < |t| && t[i] == s[0];
    left := t[..i] + t[i + 1..];
    RestPermuted(s, t, i);
    XorRemove(t, i);
  }

  lemma EmptyPermuted(t: seq<Byte>)
    requires multiset(t) == multiset{}
    ensures t == []
  {
    assert |multiset(t)| == |t|;
  }

  lemma {:induction false} XorPermuted(s: seq<Byte>, t: seq<Byte>)
    requires multiset(s) == multiset(t)
    ensures XorAll(s) == XorAll(t)
    decreases |s|
  {
    if s == [] {
      EmptyPermuted(t);
    } else {
      var left := TakeOut(s, t);
      XorPermuted(s[1..], left);
    }
  }

  /** Nor does the order of the bytes within a parity class. */
  lemma OrderWithinClassIgnored(a: seq<Byte>, b: seq<Byte>)
    requires multiset(Evens(Base(a))) == multiset(Evens(Base(b)))
    requires multiset(Odds(Base(a))) == multiset(Odds(Base(b)))
    ensures PasscodeOf(a) == PasscodeOf(b)
  {
    XorPermuted(Evens(Base(a)), Evens(Base(b)));
    XorPermuted(Odds(Base(a)), Odds(Base(b)));
  }
}
