/** What the plain account of admissions says about any sequence of calls. */
module DupeHistory {
  import opened DupeCheck

  /** The verdict of call `k` in a run. */
  ghost predicate Duplicate(calls: seq<Call>, window: nat, k: nat)
    requires k < |calls|
  {
    IsDuplicate(Replay(calls[..k], window), window, calls[k])
  }

  /** The time call `k` was judged at. */
  ghost function EffectiveTime(calls: seq<Call>, window: nat, k: nat): nat
    requires k < |calls|
  {
    Replay(calls[..k + 1], window).now
  }

  lemma ReplayStep(calls: seq<Call>, window: nat, k: nat)
    requires k < |calls|
    ensures Replay(calls[..k + 1], window) == Record(Replay(calls[..k], window), window, calls[k])
  {
    assert calls[..k + 1][..k] == calls[..k];
  }

  /** The effective time is the running maximum of the clock. */
  lemma {:induction false} ClockNeverRewinds(calls: seq<Call>, window: nat, k: nat)
    requires k < |calls|
    ensures forall j :: 0 <= j <= k ==> calls[j].time <= EffectiveTime(calls, window, k)
    ensures EffectiveTime(calls, window, k) == 0
            || exists j :: 0 <= j <= k && calls[j].time == EffectiveTime(calls, window, k)
    decreases k
  {
    ReplayStep(calls, window, k);
    if k > 0 {
      ClockNeverRewinds(calls, window, k - 1);
    } else {
      assert calls[..0] == [];
    }
  }

  /** `a` is the admission made by call `j`. */
  ghost predicate AdmittedBy(calls: seq<Call>, window: nat, j: nat, a: Admission)
    requires j < |calls|
  {
    !Duplicate(calls, window, j) && a == Admission(calls[j].digest, EffectiveTime(calls, window, j))
  }

  function AccountAfter(calls: seq<Call>, window: nat, n: nat): seq<Admission>
    requires n <= |calls|
  {
    Replay(calls[..n], window).admitted
  }

  lemma NothingAtFirst(calls: seq<Call>, window: nat)
    ensures AccountAfter(calls, window, 0) == []
  {
    assert calls[..0] == [];
  }

  /** Every admission on the account after `n` calls was made by one of them. */
  lemma {:induction false} CallOfAdmission(calls: seq<Call>, window: nat, n: nat, i: nat) returns (j: nat)
    requires n <= |calls| && i < |AccountAfter(calls, window, n)|
    ensures j < n && AdmittedBy(calls, window, j, AccountAfter(calls, window, n)[i])
    decreases n
  {
    NothingAtFirst(calls, window);
    ReplayStep(calls, window, n - 1);
    j := n - 1;
    if i < |AccountAfter(calls, window, n - 1)| {
      j := CallOfAdmission(calls, window, n - 1, i);
    }
  }

  /** And every call that was no duplicate is on the account from then on. */
  lemma {:induction false} AdmissionOfCall(calls: seq<Call>, window: nat, n: nat, j: nat) returns (i: nat)
    requires j < n <= |calls| && !Duplicate(calls, window, j)
    ensures i < |AccountAfter(calls, window, n)| && AdmittedBy(calls, window, j, AccountAfter(calls, window, n)[i])
    decreases n
  {
    ReplayStep(calls, window, n - 1);
    i := |AccountAfter(calls, window, n - 1)|;
    if j < n - 1 {
      i := AdmissionOfCall(calls, window, n - 1, j);
    }
  }

  /** Call `j` admitted the digest of call `k` no more than a window before it. */
  ghost predicate Twin(calls: seq<Call>, window: nat, j: nat, k: nat)
    requires j < k < |calls|
  {
    && calls[j].digest == calls[k].digest && !Duplicate(calls, window, j)
    && EffectiveTime(calls, window, k) <= EffectiveTime(calls, window, j) + window
  }

  /**
    A call is a duplicate exactly when an earlier call with its digest was admitted at most
    `window` seconds of effective time before.
  */
  lemma DuplicateIffTwin(calls: seq<Call>, window: nat, k: nat)
    requires k < |calls|
    ensures Duplicate(calls, window, k) <==> exists j :: 0 <= j < k && Twin(calls, window, j, k)
  {
    var admitted := AccountAfter(calls, window, k);
    ReplayStep(calls, window, k);
    if Duplicate(calls, window, k) {
      var i :| 0 <= i < |admitted| && admitted[i].digest == calls[k].digest
               && EffectiveTime(calls, window, k) <= admitted[i].at + window;
      var j := CallOfAdmission(calls, window, k, i);
      assert Twin(calls, window, j, k);
    }
    if j :| 0 <= j < k && Twin(calls, window, j, k) {
      var i := AdmissionOfCall(calls, window, k, j);
    }
  }

  lemma TwinIsDuplicate(calls: seq<Call>, window: nat, j: nat, k: nat)
    requires j < k < |calls| && Twin(calls, window, j, k)
    ensures Duplicate(calls, window, k)
  {
    DuplicateIffTwin(calls, window, k);
  }

  /** Two admissions of one digest are more than a window apart. */
  lemma AdmissionsApart(calls: seq<Call>, window: nat, j: nat, k: nat)
    requires j < k < |calls| && calls[j].digest == calls[k].digest
    requires !Duplicate(calls, window, j) && !Duplicate(calls, window, k)
    ensures EffectiveTime(calls, window, k) >= EffectiveTime(calls, window, j) + window + 1
  {
    DuplicateIffTwin(calls, window, k);
    assert !Twin(calls, window, j, k);
  }
}
