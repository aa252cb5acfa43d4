/**
  Duplicate suppression.  `History` is the plain account: every admission ever made, with the
  second it was made in.  `DupeCheck` is the server's structure, a map and a ring of buckets
  that forgets what has aged out, and is proved to answer as the plain account does.
*/
module DupeCheck {
  type Digest = nat

  datatype Call = Call(digest: Digest, time: nat)

  datatype Admission = Admission(digest: Digest, at: nat)

  /** What has been admitted so far, and the latest time seen. */
  datatype History = History(now: nat, admitted: seq<Admission>)

  function Max(a: nat, b: nat): nat {
    if a < b then b else a
  }

  /** `digest` was admitted no more than `window` seconds before `now`. */
  predicate Recent(admitted: seq<Admission>, window: nat, digest: Digest, now: nat) {
    exists i :: 0 <= i < |admitted| && admitted[i].digest == digest && now <= admitted[i].at + window
  }

  /** The verdict of a plain scan of the history: time never runs backwards. */
  predicate IsDuplicate(h: History, window: nat, call: Call) {
    Recent(h.admitted, window, call.digest, Max(h.now, call.time))
  }

  /** A duplicate is not admitted, and refreshes nothing. */
  function Record(h: History, window: nat, call: Call): History {
    var now := Max(h.now, call.time);
    History(now, if IsDuplicate(h, window, call) then h.admitted
                 else h.admitted + [Admission(call.digest, now)])
  }

  function Replay(calls: seq<Call>, window: nat): History {
    if calls == [] then History(0, [])
    else Record(Replay(calls[..|calls| - 1], window), window, calls[|calls| - 1])
  }

  // ----- The ring -----

  /** Where the second `t` is filed in a ring of `n` buckets. */
  function Slot(t: nat, n: nat): nat
    requires n > 0
    ensures Slot(t, n) < n
  {
    t % n
  }

  lemma Multiple(k: int, n: nat)
    requires n > 0
    ensures k >= 1 ==> k * n >= n
    ensures k <= -1 ==> k * n + n <= 0
  {
    if k >= 1 {
      assert (k - 1) * n >= 0;
    } else {
      assert (-k - 1) * n >= 0 || k == 0;
    }
  }

  /** Within one turn of the ring no two seconds share a bucket. */
  lemma SlotsDistinct(t: nat, u: nat, n: nat)
    requires n > 0 && Slot(t, n) == Slot(u, n) && t < u + n && u < t + n
    ensures t == u
  {
    var k := u / n - t / n;
    assert u == u / n * n + u % n && t == t / n * n + t % n;
    assert u - t == k * n;
    Multiple(k, n);
  }

  /** One turn later the same bucket is used again. */
  lemma SlotTurn(t: nat, n: nat)
    requires n > 0
    ensures Slot(t + n, n) == Slot(t, n)
  {
    var u := t + n;
    var k := u / n - t / n - 1;
    assert u == u / n * n + u % n && t == t / n * n + t % n;
    assert k * n == t % n - u % n;
    Multiple(k, n);
  }

  // ----- What the map remembers -----

  /** `seen` is the part of the history no older than `window` seconds at time `now`. */
  ghost predicate Remembers(seen: map<Digest, nat>, admitted: seq<Admission>, window: nat, now: nat) {
    && (forall d :: d in seen ==> now <= seen[d] + window && Admission(d, seen[d]) in admitted)
    && (forall i :: 0 <= i < |admitted| && now <= admitted[i].at + window ==>
          admitted[i].digest in seen && seen[admitted[i].digest] == admitted[i].at)
  }

  /** The entries still inside the window at time `now`. */
  ghost function Keep(seen: map<Digest, nat>, window: nat, now: nat): map<Digest, nat> {
    map d | d in seen && now <= seen[d] + window :: seen[d]
  }

  lemma KeepRemembers(seen: map<Digest, nat>, admitted: seq<Admission>, window: nat, before: nat, now: nat)
    requires Remembers(seen, admitted, window, before) && before <= now
    ensures Remembers(Keep(seen, window, now), admitted, window, now)
  {
  }

  lemma SeenIffRecent(seen: map<Digest, nat>, admitted: seq<Admission>, window: nat, now: nat, digest: Digest)
    requires Remembers(seen, admitted, window, now)
    ensures digest in seen <==> Recent(admitted, window, digest, now)
  {
    if digest in seen {
      var i :| 0 <= i < |admitted| && admitted[i] == Admission(digest, seen[digest]);
    }
  }

  lemma AdmitRemembers(seen: map<Digest, nat>, admitted: seq<Admission>, window: nat, now: nat, digest: Digest)
    requires Remembers(seen, admitted, window, now) && digest !in seen
    ensures Remembers(seen[digest := now], admitted + [Admission(digest, now)], window, now)
  {
    var more := admitted + [Admission(digest, now)];
    assert more[|admitted|] == Admission(digest, now);
    assert forall a :: a in admitted ==> a in more;
  }

  // ----- The ring of buckets -----

  ghost predicate NoRepeats(s: seq<Digest>) {
    forall i, j :: 0 <= i < j < |s| ==> s[i] != s[j]
  }

  /** The buckets hold exactly the keys of the map, each once, under the second it was seen in. */
  ghost predicate Filed(seen: map<Digest, nat>, buckets: seq<seq<Digest>>) {
    && |buckets| > 0
    && (forall d :: d in seen ==> d in buckets[Slot(seen[d], |buckets|)])
    && (forall s :: 0 <= s < |buckets| ==> FiledAt(seen, buckets[s], s, |buckets|))
  }

  ghost predicate FiledAt(seen: map<Digest, nat>, bucket: seq<Digest>, s: nat, n: nat)
    requires n > 0
  {
    NoRepeats(bucket) && forall k :: 0 <= k < |bucket| ==> bucket[k] in seen && Slot(seen[bucket[k]], n) == s
  }

  /** Emptying one bucket and forgetting its digests leaves the rest filed. */
  lemma DropBucket(seen: map<Digest, nat>, buckets: seq<seq<Digest>>, s: nat, left: map<Digest, nat>)
    requires Filed(seen, buckets) && s < |buckets|
    requires left == map d | d in seen && d !in buckets[s] :: seen[d]
    ensures Filed(left, buckets[s := []])
    ensures forall d :: d in left <==> d in seen && Slot(seen[d], |buckets|) != s
  {
    var now := buckets[s := []];
    forall d | d in left
      ensures Slot(seen[d], |buckets|) != s && d in now[Slot(left[d], |buckets|)]
    {
    }
    assert FiledAt(seen, buckets[s], s, |buckets|);
    assert forall d :: d in buckets[s] ==> d in seen && Slot(seen[d], |buckets|) == s;
    forall r | 0 <= r < |now|
      ensures FiledAt(left, now[r], r, |now|)
    {
      assert FiledAt(seen, buckets[r], r, |buckets|);
    }
  }

  /** Filing a new digest under the current second. */
  lemma FileDigest(seen: map<Digest, nat>, buckets: seq<seq<Digest>>, digest: Digest, now: nat)
    requires Filed(seen, buckets) && digest !in seen
    ensures var s := Slot(now, |buckets|);
      Filed(seen[digest := now], buckets[s := buckets[s] + [digest]])
  {
    var n, s := |buckets|, Slot(now, |buckets|);
    var more, filed := seen[digest := now], buckets[s := buckets[s] + [digest]];
    assert filed[s][|buckets[s]|] == digest;
    forall d | d in more
      ensures d in filed[Slot(more[d], n)]
    {
      if d != digest && Slot(more[d], n) == s {
        assert d in buckets[s];
        assert filed[s] == buckets[s] + [digest];
      }
    }
    forall r | 0 <= r < n
      ensures FiledAt(more, filed[r], r, n)
    {
      assert FiledAt(seen, buckets[r], r, n);
    }
  }

  /** All entries lie in one turn of the ring, so the bucket reused at `t` holds the entries one turn old. */
  lemma OneTurnOld(seen: map<Digest, nat>, d: Digest, t: nat, n: nat)
    requires n > 0 && d in seen && seen[d] < t <= seen[d] + n
    ensures Slot(seen[d], n) == Slot(t, n) <==> t == seen[d] + n
  {
    SlotTurn(seen[d], n);
    if Slot(seen[d], n) == Slot(t, n) {
      SlotsDistinct(t, seen[d] + n, n);
    }
  }

  class DupeCheck {
    const window: nat
    var seen: map<Digest, nat>
    const buckets: array<seq<Digest>>
    var now: nat
    var checked: nat
    var duplicates: nat
    /** Every call made so far. */
    ghost var log: seq<Call>

    /** The structure agrees with the plain account of all calls made. */
    ghost predicate Valid()
      reads this, buckets
    {
      var h := Replay(log, window);
      && window > 0 && Ring()
      && now == h.now && checked == |log| && duplicates + |h.admitted| == |log|
      && Remembers(seen, h.admitted, window, now)
    }

    ghost predicate Ring()
      reads this, buckets
    {
      && buckets.Length == window + 1 && Filed(seen, buckets[..])
      && forall d :: d in seen ==> seen[d] <= now <= seen[d] + window
    }

    /** A window of zero is treated as one second. */
    constructor (windowSecs: nat)
      ensures Valid() && log == [] && fresh(buckets)
      ensures window == Max(windowSecs, 1)
    {
      window := Max(windowSecs, 1);
      seen, now, checked, duplicates, log := map[], 0, 0, 0, [];
      buckets := new seq<Digest>[Max(windowSecs, 1) + 1](_ => []);
    }

    /** Empty one bucket into the bin, forgetting its digests one by one. */
    method DrainBucket(s: nat)
      requires s < buckets.Length
      modifies `seen, buckets
      ensures buckets[..] == old(buckets[..])[s := []]
      ensures seen == map d | d in old(seen) && d !in old(buckets[s]) :: old(seen)[d]
    {
      var bucket := buckets[s];
      for k := 0 to |bucket|
        invariant buckets[..] == old(buckets[..])
        invariant seen == map d | d in old(seen) && d !in bucket[..k] :: old(seen)[d]
      {
        assert bucket[..k + 1] == bucket[..k] + [bucket[k]];
        seen := seen - {bucket[k]};
      }
      assert bucket[..|bucket|] == bucket;
      buckets[s] := [];
    }

    /** Everything is older than the window: forget it all. */
    method ClearAll()
      requires buckets.Length > 0
      modifies `seen, buckets
      ensures seen == map[] && Filed(seen, buckets[..])
    {
      for s := 0 to buckets.Length
        invariant forall r :: 0 <= r < s ==> buckets[r] == []
      {
        buckets[s] := [];
      }
      seen := map[];
    }

    /** The ring reaches second `t`: what was filed one turn earlier goes. */
    method EvictFor(t: nat)
      requires buckets.Length == window + 1 && Filed(seen, buckets[..])
      requires forall d :: d in seen ==> seen[d] < t <= seen[d] + buckets.Length
      modifies `seen, buckets
      ensures Filed(seen, buckets[..]) && seen == Keep(old(seen), window, t)
    {
      forall d | d in seen
        ensures Slot(seen[d], buckets.Length) == Slot(t, buckets.Length) <==> t == seen[d] + buckets.Length
      {
        OneTurnOld(seen, d, t, buckets.Length);
      }
      var s := Slot(t, buckets.Length);
      DrainBucket(s);
      DropBucket(old(seen), old(buckets[..]), s, seen);
    }

    /** Advance to `t`, evicting everything that has aged out. */
    method AdvanceTo(t: nat)
      requires Ring()
      modifies `seen, `now, buckets
      ensures Ring() && now == Max(old(now), t)
      ensures seen == Keep(old(seen), window, now)
    {
      if t <= now {
        return;
      }
      var elapsed := t - now;
      if elapsed >= buckets.Length {
        ClearAll();
        now := t;
        return;
      }
      for step := 1 to elapsed + 1
        invariant now == old(now)
        invariant seen == Keep(old(seen), window, now + step - 1)
        invariant Filed(seen, buckets[..])
      {
        EvictFor(now + step);
      }
      now := t;
    }

    /** File a digest that is not in the window under the current second. */
    method Admit(digest: Digest)
      requires Ring() && digest !in seen
      modifies `seen, buckets
      ensures Ring() && seen == old(seen)[digest := now]
    {
      FileDigest(seen, buckets[..], digest, now);
      seen := seen[digest := now];
      var slot := Slot(now, buckets.Length);
      buckets[slot] := buckets[slot] + [digest];
    }

    /** Record a packet and report whether it duplicates one admitted inside the window. */
    method CheckDigest(digest: Digest, t: nat) returns (duplicate: bool)
      requires Valid()
      modifies this, buckets
      ensures Valid() && log == old(log) + [Call(digest, t)]
      ensures duplicate == IsDuplicate(Replay(old(log), window), window, Call(digest, t))
    {
      ghost var h := Replay(log, window);
      AdvanceTo(t);
      KeepRemembers(old(seen), h.admitted, window, old(now), now);
      SeenIffRecent(seen, h.admitted, window, now, digest);
      checked := checked + 1;
      log := log + [Call(digest, t)];
      assert log[..|log| - 1] == old(log);
      if digest in seen {
        duplicates := duplicates + 1;
        return true;
      }
      AdmitRemembers(seen, h.admitted, window, now, digest);
      Admit(digest);
      return false;
    }
  }
}
