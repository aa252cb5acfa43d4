/** The first element of a list that repeats an earlier one, for any notion of "the same". */
module Repeats {
  import opened Wrappers

  /** One of the leading `n` elements is the same as `x`. */
  predicate Seen<T>(s: seq<T>, same: (T, T) -> bool, n: nat, x: T)
    requires n <= |s|
  {
    exists i :: 0 <= i < n && same(s[i], x)
  }

  predicate RepeatsAt<T>(s: seq<T>, same: (T, T) -> bool, j: nat)
    requires j < |s|
  {
    Seen(s, same, j, s[j])
  }

  /** The first of the leading `n` elements that repeats an earlier one. */
  function FirstRepeat<T>(s: seq<T>, same: (T, T) -> bool, n: nat): Option<T>
    requires n <= |s|
  {
    if n == 0 then None
    else if FirstRepeat(s, same, n - 1).Some? then FirstRepeat(s, same, n - 1)
    else if RepeatsAt(s, same, n - 1) then Some(s[n - 1])
    else None
  }

  lemma {:induction false} NoRepeatFound<T>(s: seq<T>, same: (T, T) -> bool, n: nat)
    requires n <= |s|
    ensures FirstRepeat(s, same, n).None? <==> forall i, k :: 0 <= i < k < n ==> !same(s[i], s[k])
  {
    if n > 0 {
      NoRepeatFound(s, same, n - 1);
    }
  }

  /** The repeat reported is the earliest one. */
  lemma {:induction false} EarliestRepeat<T>(s: seq<T>, same: (T, T) -> bool, n: nat) returns (k: nat)
    requires n <= |s| && FirstRepeat(s, same, n).Some?
    ensures k < n && RepeatsAt(s, same, k) && FirstRepeat(s, same, n) == Some(s[k])
    ensures forall i, m :: 0 <= i < m < k ==> !same(s[i], s[m])
  {
    k := n - 1;
    if FirstRepeat(s, same, k).Some? {
      k := EarliestRepeat(s, same, k);
    } else {
      NoRepeatFound(s, same, k);
    }
  }

  lemma {:induction false} RepeatStays<T>(s: seq<T>, same: (T, T) -> bool, n: nat, m: nat)
    requires n <= m <= |s| && FirstRepeat(s, same, n).Some?
    ensures FirstRepeat(s, same, m) == FirstRepeat(s, same, n)
  {
    if n < m {
      RepeatStays(s, same, n, m - 1);
    }
  }

  method FindRepeat<T>(s: seq<T>, same: (T, T) -> bool) returns (r: Option<T>)
    ensures r == FirstRepeat(s, same, |s|)
  {
    for n := 0 to |s|
      invariant FirstRepeat(s, same, n).None?
    {
      if exists i :: 0 <= i < n && same(s[i], s[n]) {
        RepeatStays(s, same, n + 1, |s|);
        return Some(s[n]);
      }
    }
    return None;
  }

  // ----- Looking only at some of the elements -----

  function Keep<T>(kept: seq<T>, keep: T -> bool, x: T): seq<T> {
    if keep(x) then kept + [x] else kept
  }

  /** Those of the leading `n` elements that `keep` accepts. */
  function Keeping<T>(s: seq<T>, keep: T -> bool, n: nat): seq<T>
    requires n <= |s|
  {
    if n == 0 then [] else Keep(Keeping(s, keep, n - 1), keep, s[n - 1])
  }

  /** `same` relates only what `keep` accepts, and there it is `eq`. */
  ghost predicate Restricts<T(!new)>(same: (T, T) -> bool, eq: (T, T) -> bool, keep: T -> bool) {
    forall x, y :: same(x, y) <==> keep(x) && keep(y) && eq(x, y)
  }

  /** Dropping the others beforehand finds the same repeat. */
  lemma {:induction false} FilterFirst<T(!new)>(s: seq<T>, same: (T, T) -> bool, eq: (T, T) -> bool, keep: T -> bool, n: nat)
    requires n <= |s| && Restricts(same, eq, keep)
    ensures var kept := Keeping(s, keep, n);
      FirstRepeat(s, same, n) == FirstRepeat(kept, eq, |kept|)
  {
    if n > 0 {
      FilterFirst(s, same, eq, keep, n - 1);
      var x, kept := s[n - 1], Keeping(s, keep, n - 1);
      SeenAmongKept(s, same, eq, keep, n - 1, x);
      if keep(x) {
        assert (kept + [x])[|kept|] == x;
        EndDoesNotMatter(kept, eq, x, |kept|);
        SeenBefore(kept, eq, x, x);
      }
    }
  }

  lemma {:induction false} SeenAmongKept<T(!new)>(s: seq<T>, same: (T, T) -> bool, eq: (T, T) -> bool, keep: T -> bool, n: nat, x: T)
    requires n <= |s| && Restricts(same, eq, keep)
    ensures var kept := Keeping(s, keep, n);
      Seen(s, same, n, x) <==> keep(x) && Seen(kept, eq, |kept|, x)
  {
    if n > 0 {
      SeenAmongKept(s, same, eq, keep, n - 1, x);
      SeenBefore(Keeping(s, keep, n - 1), eq, s[n - 1], x);
    }
  }

  lemma SeenBefore<T>(kept: seq<T>, eq: (T, T) -> bool, last: T, x: T)
    ensures Seen(kept + [last], eq, |kept|, x) <==> Seen(kept, eq, |kept|, x)
    ensures Seen(kept + [last], eq, |kept| + 1, x) <==> Seen(kept, eq, |kept|, x) || eq(last, x)
  {
    assert forall i :: 0 <= i < |kept| ==> (kept + [last])[i] == kept[i];
    assert (kept + [last])[|kept|] == last;
  }

  /** Whether the leading elements hold a repeat does not depend on what follows. */
  lemma {:induction false} EndDoesNotMatter<T>(s: seq<T>, eq: (T, T) -> bool, x: T, n: nat)
    requires n <= |s|
    ensures FirstRepeat(s + [x], eq, n) == FirstRepeat(s, eq, n)
  {
    if n > 0 {
      EndDoesNotMatter(s, eq, x, n - 1);
      assert forall i :: 0 <= i < n ==> (s + [x])[i] == s[i];
    }
  }
}
