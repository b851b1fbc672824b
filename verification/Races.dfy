// Data races over a whole trace of single-address accesses, defined by happens-before.
module Races {
  import opened Events
  import opened HappensBefore

  predicate Conflict(e: Event, f: Event) {
    e.IsAccess() && f.IsAccess() && e.addr == f.addr && (e.op.Store? || f.op.Store?)
  }

  /** An unordered conflicting pair. */
  ghost predicate Racy(t: seq<Event>, i: nat, j: nat) {
    i < j < |t| && Conflict(t[i], t[j]) && !HB(t, i, j)
  }

  predicate StoresTo(e: Event, a: nat) { e.op.Store? && e.addr == a }

  predicate AcquiresOn(e: Event, a: nat) { e.IsAcquire() && e.addr == a }

  /** Some store to `a` at a position from `lo` on and below `hi`. */
  ghost predicate StoreIn(t: seq<Event>, a: nat, lo: nat, hi: nat)
    requires hi <= |t|
  {
    exists k :: lo <= k < hi && StoresTo(t[k], a)
  }

  ghost predicate AcquireIn(t: seq<Event>, a: nat, lo: nat, hi: nat)
    requires hi <= |t|
  {
    exists k :: lo <= k < hi && AcquiresOn(t[k], a)
  }

  /** The pairs the detector is to report: racy, and not separated by a store. */
  ghost predicate Reported(t: seq<Event>, i: nat, j: nat) {
    Racy(t, i, j) && !StoreIn(t, t[j].addr, i + 1, j)
  }

  /** The release-acquire pairs the detector is to report. */
  ghost predicate SyncReported(t: seq<Event>, i: nat, j: nat) {
    && i < j < |t|
    && t[i].IsRelease() && t[j].IsAcquire() && t[i].addr == t[j].addr
    && !AcquireIn(t, t[j].addr, i + 1, j)
  }

  lemma SameThreadNeverRacy(t: seq<Event>, i: nat, j: nat)
    requires Racy(t, i, j)
    ensures t[i].tid != t[j].tid
  {
  }

  /** A store between the two ends of a racy pair races with one of them. */
  lemma RacySplits(t: seq<Event>, i: nat, k: nat, j: nat)
    requires Racy(t, i, j) && i < k < j && StoresTo(t[k], t[j].addr)
    ensures Racy(t, i, k) || Racy(t, k, j)
  {
    if HB(t, i, k) && HB(t, k, j) {
      HBTransitive(t, i, k, j);
    }
  }

  /** Every racy pair spans a reported pair on the same address. */
  lemma {:induction false} RacySpansReported(t: seq<Event>, i: nat, j: nat) returns (x: nat, y: nat)
    requires Racy(t, i, j)
    ensures i <= x < y <= j && Reported(t, x, y) && t[y].addr == t[j].addr
    decreases j - i
  {
    x, y := i, j;
    if StoreIn(t, t[j].addr, i + 1, j) {
      var k: nat :| i + 1 <= k < j && StoresTo(t[k], t[j].addr);
      RacySplits(t, i, k, j);
      if Racy(t, i, k) {
        x, y := RacySpansReported(t, i, k);
      } else {
        x, y := RacySpansReported(t, k, j);
      }
    }
  }

  ghost predicate RacyAddress(t: seq<Event>, a: nat) {
    exists i: nat, j: nat :: Racy(t, i, j) && t[j].addr == a
  }

  ghost predicate ReportedAddress(t: seq<Event>, a: nat) {
    exists i: nat, j: nat :: Reported(t, i, j) && t[j].addr == a
  }

  /** Forgetting the history at every store loses no racy variable. */
  lemma NoRacyAddressLost(t: seq<Event>, a: nat)
    ensures RacyAddress(t, a) <==> ReportedAddress(t, a)
  {
    if RacyAddress(t, a) {
      var i: nat, j: nat :| Racy(t, i, j) && t[j].addr == a;
      var x, y := RacySpansReported(t, i, j);
    }
  }

  /** No event before `j` is the second of a racy pair on `a`. */
  ghost predicate NoneEarlier(t: seq<Event>, j: nat, a: nat) {
    forall x: nat, y: nat :: Racy(t, x, y) && t[y].addr == a ==> j <= y
  }

  /** The earliest event that races with any predecessor is itself reported. */
  lemma {:induction false} EarliestRaceReported(t: seq<Event>, i: nat, j: nat)
    requires Racy(t, i, j) && NoneEarlier(t, j, t[j].addr)
    ensures exists x: nat :: i <= x && Reported(t, x, j)
    decreases j - i
  {
    if StoreIn(t, t[j].addr, i + 1, j) {
      var k: nat :| i + 1 <= k < j && StoresTo(t[k], t[j].addr);
      RacySplits(t, i, k, j);
      assert t[k].addr == t[j].addr;
      EarliestRaceReported(t, k, j);
    } else {
      assert Reported(t, i, j);
    }
  }

  // ----- the declared pairs, operation by operation ---------------------------------

  lemma ReportedExactly(t: seq<Event>, i: nat, j: nat)
    ensures Reported(t, i, j) <==>
      && i < j < |t|
      && t[i].op in {Load, Store} && t[j].op in {Load, Store} && Store in {t[i].op, t[j].op}
      && t[i].addr == t[j].addr && !HB(t, i, j)
      && forall k :: i < k < j && t[k].addr == t[j].addr ==> t[k].op != Store
  {
    if i < j < |t| && StoreIn(t, t[j].addr, i + 1, j) {
      var k :| i + 1 <= k < j && StoresTo(t[k], t[j].addr);
      assert t[k].op == Store;
    }
  }

  lemma SyncReportedExactly(t: seq<Event>, i: nat, j: nat)
    ensures SyncReported(t, i, j) <==>
      && i < j < |t|
      && t[i].op in {Unlock, Signal, Broadcast} && t[j].op in {Lock, TryLock, Awake}
      && t[i].addr == t[j].addr
      && forall k :: i < k < j && t[k].addr == t[j].addr ==> t[k].op !in {Lock, TryLock, Awake}
  {
    if i < j < |t| && AcquireIn(t, t[j].addr, i + 1, j) {
      var k :| i + 1 <= k < j && AcquiresOn(t[k], t[j].addr);
      assert t[k].op in {Lock, TryLock, Awake};
    }
  }

  /** The first event of `t`, from `i` on, that takes or is woken on `a`. */
  lemma {:induction false} FirstAcquire(t: seq<Event>, a: nat, i: nat, j: nat) returns (k: nat)
    requires i <= j < |t| && t[j].op in {Lock, TryLock, Awake} && t[j].addr == a
    ensures i <= k <= j && t[k].op in {Lock, TryLock, Awake} && t[k].addr == a
    ensures forall h :: i <= h < k && t[h].addr == a ==> t[h].op !in {Lock, TryLock, Awake}
    decreases j - i
  {
    if t[i].op in {Lock, TryLock, Awake} && t[i].addr == a {
      k := i;
    } else {
      k := FirstAcquire(t, a, i + 1, j);
    }
  }

  /** A release is paired with the next acquire on its address and with no other. */
  lemma OnePartner(t: seq<Event>, i: nat, j: nat)
    requires i < j < |t| && t[i].addr == t[j].addr
    requires t[i].op in {Unlock, Signal, Broadcast} && t[j].op in {Lock, TryLock, Awake}
    ensures exists k: nat :: k <= j && SyncReported(t, i, k)
    ensures forall k: nat, l: nat :: SyncReported(t, i, k) && SyncReported(t, i, l) ==> k == l
  {
    var k := FirstAcquire(t, t[i].addr, i + 1, j);
    SyncReportedExactly(t, i, k);
    forall k: nat, l: nat | SyncReported(t, i, k) && SyncReported(t, i, l) ensures k == l {
      SyncReportedExactly(t, i, k);
      SyncReportedExactly(t, i, l);
    }
  }
}
