/** Station positions: the newest report of each station, keyed by its upper-cased callsign. */
module PositionCache {
  import opened Wrappers
  import opened Ascii

  datatype Position = Position(latitude: real, longitude: real)

  datatype Symbol = Symbol(table: char, code: char)

  datatype Report = Report(position: Position, symbol: Option<Symbol>, heardAt: int)

  datatype Op = Record(callsign: string, report: Report) | Evict(before: int)

  type Entries = map<string, Report>

  /** An older report never overwrites a newer one. */
  function Recorded(entries: Entries, callsign: string, report: Report): Entries {
    var key := Upper(callsign);
    if key in entries && entries[key].heardAt > report.heardAt then entries else entries[key := report]
  }

  function Evicted(entries: Entries, before: int): Entries {
    map key | key in entries && entries[key].heardAt >= before :: entries[key]
  }

  function Applied(entries: Entries, op: Op): Entries {
    match op
    case Record(callsign, report) => Recorded(entries, callsign, report)
    case Evict(before) => Evicted(entries, before)
  }

  function Replay(ops: seq<Op>): Entries {
    if ops == [] then map[] else Applied(Replay(ops[..|ops| - 1]), ops[|ops| - 1])
  }

  function Lookup(entries: Entries, callsign: string): Option<Report> {
    var key := Upper(callsign);
    if key in entries then Some(entries[key]) else None
  }

  class PositionCache {
    var entries: Entries

    constructor ()
      ensures entries == map[]
    {
      entries := map[];
    }

    method Record(callsign: string, position: Position, symbol: Option<Symbol>, heardAt: int)
      modifies this
      ensures entries == Recorded(old(entries), callsign, Report(position, symbol, heardAt))
    {
      var key := Upper(callsign);
      if key in entries && entries[key].heardAt > heardAt {
        return;
      }
      entries := entries[key := Report(position, symbol, heardAt)];
    }

    method PositionOf(callsign: string) returns (r: Option<Position>)
      ensures r.Some? <==> Lookup(entries, callsign).Some?
      ensures r.Some? ==> r.value == Lookup(entries, callsign).value.position
    {
      var key := Upper(callsign);
      if key !in entries {
        return None;
      }
      return Some(entries[key].position);
    }

    /** Drop stations not heard since `before`; returns how many went. */
    method EvictOlderThan(before: int) returns (dropped: nat)
      modifies this
      ensures entries == Evicted(old(entries), before)
      ensures dropped == |set key | key in old(entries) && old(entries)[key].heardAt < before|
    {
      ghost var gone := set key | key in entries && entries[key].heardAt < before;
      var count := |entries|;
      var kept := map key | key in entries && entries[key].heardAt >= before :: entries[key];
      assert entries.Keys == kept.Keys + gone && kept.Keys !! gone;
      assert |entries.Keys| == |kept.Keys| + |gone|;
      assert |entries| == |entries.Keys| && |kept| == |kept.Keys|;
      entries := kept;
      dropped := count - |entries|;
    }
  }

  // ----- Last writer wins -----

  /** Operation `i` is a report of the station `key`. */
  predicate Reports(ops: seq<Op>, i: nat, key: string)
    requires i < |ops|
  {
    ops[i].Record? && Upper(ops[i].callsign) == key
  }

  /** Operation `i` is the last report of `key` among those with its greatest timestamp. */
  ghost predicate LatestReport(ops: seq<Op>, key: string, i: nat) {
    && i < |ops| && Reports(ops, i, key)
    && (forall j :: 0 <= j < |ops| && Reports(ops, j, key) ==> ops[j].report.heardAt <= ops[i].report.heardAt)
    && (forall j :: i < j < |ops| && Reports(ops, j, key) ==> ops[j].report.heardAt < ops[i].report.heardAt)
  }

  ghost predicate SurvivesEvictions(ops: seq<Op>, at: int) {
    forall j :: 0 <= j < |ops| && ops[j].Evict? ==> ops[j].before <= at
  }

  /**
    Whatever else happened, the cache holds the last-arriving report among those with the greatest
    timestamp, as long as no eviction asked for anything newer.
  */
  lemma {:induction false} LastWriterWins(ops: seq<Op>, key: string, i: nat)
    requires LatestReport(ops, key, i) && SurvivesEvictions(ops, ops[i].report.heardAt)
    ensures key in Replay(ops) && Replay(ops)[key] == ops[i].report
  {
    var n := |ops| - 1;
    var before := ops[..n];
    BoundedByReports(before, key);
    if i < n {
      assert forall j :: 0 <= j < n ==> before[j] == ops[j];
      assert forall j :: 0 <= j < n ==> Reports(before, j, key) == Reports(ops, j, key);
      LastWriterWins(before, key, i);
    } else {
      if key in Replay(before) {
        var j :| 0 <= j < n && Reports(before, j, key) && Replay(before)[key] == before[j].report;
        assert Reports(ops, j, key);
      }
    }
  }

  /** The cache only ever holds reports it was given. */
  lemma {:induction false} BoundedByReports(ops: seq<Op>, key: string)
    ensures key in Replay(ops) ==>
      exists j :: 0 <= j < |ops| && Reports(ops, j, key) && Replay(ops)[key] == ops[j].report
  {
    if ops != [] {
      var n := |ops| - 1;
      var before := ops[..n];
      BoundedByReports(before, key);
      if key in Replay(ops) {
        if key in Replay(before) && Replay(before)[key] == Replay(ops)[key] {
          var j :| 0 <= j < n && Reports(before, j, key) && Replay(before)[key] == before[j].report;
          assert Reports(ops, j, key) && Replay(ops)[key] == ops[j].report;
        } else {
          assert Reports(ops, n, key) && Replay(ops)[key] == ops[n].report;
        }
      }
    }
  }

  /** A lookup finds a station exactly when it was reported, letter case aside, if nothing is evicted. */
  lemma KnownIffReported(ops: seq<Op>, key: string)
    requires forall j :: 0 <= j < |ops| ==> ops[j].Record?
    ensures key in Replay(ops) <==> exists j :: 0 <= j < |ops| && Reports(ops, j, key)
  {
    BoundedByReports(ops, key);
    if exists j :: 0 <= j < |ops| && Reports(ops, j, key) {
      var i := FindLatest(ops, key);
      LastWriterWins(ops, key, i);
    }
  }

  lemma {:induction false} FindLatest(ops: seq<Op>, key: string) returns (i: nat)
    requires exists j :: 0 <= j < |ops| && Reports(ops, j, key)
    ensures LatestReport(ops, key, i)
  {
    var n := |ops| - 1;
    var before := ops[..n];
    assert forall j :: 0 <= j < n ==> Reports(before, j, key) == Reports(ops, j, key);
    i := n;
    if exists j :: 0 <= j < n && Reports(before, j, key) {
      i := FindLatest(before, key);
      if Reports(ops, n, key) && ops[i].report.heardAt <= ops[n].report.heardAt {
        i := n;
      }
    }
  }

  /** Operation `i` is a report of the station called `callsign`, in whatever letter case. */
  predicate Concerns(ops: seq<Op>, i: nat, callsign: string)
    requires i < |ops|
  {
    ops[i].Record? && EqIgnoreCase(ops[i].callsign, callsign)
  }

  /** Operation `i` is such a report; no other is newer, nor as new and later. */
  ghost predicate NewestOf(ops: seq<Op>, i: nat, callsign: string)
    requires i < |ops|
  {
    && Concerns(ops, i, callsign)
    && forall j :: 0 <= j < |ops| && Concerns(ops, j, callsign) ==>
         ops[j].report.heardAt <= ops[i].report.heardAt && (i < j ==> ops[j].report.heardAt < ops[i].report.heardAt)
  }

  lemma ConcernsIsReports(ops: seq<Op>, i: nat, callsign: string)
    requires i < |ops|
    ensures Concerns(ops, i, callsign) <==> Reports(ops, i, Upper(callsign))
  {
    if ops[i].Record? {
      UpperIs(ops[i].callsign, callsign);
    }
  }

  /** Without evictions, a lookup of a station finds the last of its newest reports, and nothing when there is none. */
  lemma LookupFindsNewest(ops: seq<Op>, callsign: string)
    requires forall j :: 0 <= j < |ops| ==> ops[j].Record?
    ensures match Lookup(Replay(ops), callsign)
      case None => forall j :: 0 <= j < |ops| ==> !Concerns(ops, j, callsign)
      case Some(found) => exists i :: 0 <= i < |ops| && NewestOf(ops, i, callsign) && found == ops[i].report
  {
    var key := Upper(callsign);
    forall j | 0 <= j < |ops|
      ensures Concerns(ops, j, callsign) <==> Reports(ops, j, key)
    {
      ConcernsIsReports(ops, j, callsign);
    }
    KnownIffReported(ops, key);
    if key in Replay(ops) {
      var i := FindLatest(ops, key);
      LastWriterWins(ops, key, i);
      assert NewestOf(ops, i, callsign);
    }
  }

  /** An eviction takes from every lookup what was heard before it, and nothing else. */
  lemma EvictionForgets(ops: seq<Op>, before: int, callsign: string)
    ensures var known := Lookup(Replay(ops), callsign);
      Lookup(Replay(ops + [Evict(before)]), callsign) ==
        if known.Some? && known.value.heardAt < before then None else known
  {
    assert (ops + [Evict(before)])[..|ops|] == ops;
  }

  // ----- Order of arrival -----

  predicate SameKey(a: Op, b: Op) {
    a.Record? && b.Record? && Upper(a.callsign) == Upper(b.callsign)
  }

  ghost predicate DistinctTimes(ops: seq<Op>) {
    forall i, j :: 0 <= i < j < |ops| && SameKey(ops[i], ops[j]) ==> ops[i].report.heardAt != ops[j].report.heardAt
  }

  /** With distinct timestamps per station, the final cache does not depend on the order of arrival. */
  lemma ArrivalOrderIrrelevant(a: seq<Op>, b: seq<Op>)
    requires multiset(a) == multiset(b) && DistinctTimes(a) && DistinctTimes(b)
    requires forall j :: 0 <= j < |a| ==> a[j].Record?
    ensures Replay(a) == Replay(b)
  {
    forall j | 0 <= j < |b|
      ensures b[j] in a && b[j].Record?
    {
      assert b[j] in multiset(b);
    }
    forall j | 0 <= j < |a|
      ensures a[j] in b
    {
      assert a[j] in multiset(a);
    }
    forall key: string
      ensures key in Replay(a) <==> key in Replay(b)
      ensures key in Replay(a) ==> Replay(a)[key] == Replay(b)[key]
    {
      KnownIffReported(a, key);
      KnownIffReported(b, key);
      SameReporters(a, b, key);
      SameReporters(b, a, key);
      if key in Replay(a) {
        var i := FindLatest(a, key);
        var j := FindLatest(b, key);
        LastWriterWins(a, key, i);
        LastWriterWins(b, key, j);
        SameLatest(a, b, key, i, j);
      }
    }
  }

  lemma SameReporters(a: seq<Op>, b: seq<Op>, key: string)
    requires forall j :: 0 <= j < |a| ==> a[j] in b
    ensures (exists j :: 0 <= j < |a| && Reports(a, j, key)) ==> exists j :: 0 <= j < |b| && Reports(b, j, key)
  {
    if j :| 0 <= j < |a| && Reports(a, j, key) {
      var k :| 0 <= k < |b| && b[k] == a[j];
      assert Reports(b, k, key);
    }
  }

  lemma SameLatest(a: seq<Op>, b: seq<Op>, key: string, i: nat, j: nat)
    requires LatestReport(a, key, i) && LatestReport(b, key, j) && DistinctTimes(a)
    requires a[i] in b && b[j] in a
    ensures a[i].report == b[j].report
  {
    var k :| 0 <= k < |b| && b[k] == a[i];
    var m :| 0 <= m < |a| && a[m] == b[j];
    assert Reports(b, k, key) && Reports(a, m, key);
  }
}
