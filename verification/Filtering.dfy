// Dropping thread-local and read-only accesses: which positions survive, and why the
// detector cannot tell the difference.
module Filtering {
  import opened Events
  import opened HappensBefore
  import opened ClockMachine
  import opened Races

  predicate Retained(e: Event, keep: set<nat>) { e.IsAccess() ==> e.addr in keep }

  /** The positions below `k` of the events that survive, in order. */
  function Kept(x: seq<Event>, keep: set<nat>, k: nat): seq<nat>
    requires k <= |x|
  {
    if k == 0 then []
    else if Retained(x[k - 1], keep) then Kept(x, keep, k - 1) + [k - 1]
    else Kept(x, keep, k - 1)
  }

  /** The survivors among the first `k` events. */
  function Survivors(x: seq<Event>, keep: set<nat>, k: nat): seq<Event>
    requires k <= |x|
  {
    if k == 0 then []
    else if Retained(x[k - 1], keep) then Survivors(x, keep, k - 1) + [x[k - 1]]
    else Survivors(x, keep, k - 1)
  }

  lemma {:induction false} KeptSound(x: seq<Event>, keep: set<nat>, k: nat)
    requires k <= |x|
    ensures forall i :: 0 <= i < |Kept(x, keep, k)| ==>
      Kept(x, keep, k)[i] < k && Retained(x[Kept(x, keep, k)[i]], keep)
    ensures |Survivors(x, keep, k)| == |Kept(x, keep, k)|
    ensures forall i :: 0 <= i < |Kept(x, keep, k)| ==>
      Survivors(x, keep, k)[i] == x[Kept(x, keep, k)[i]]
    ensures forall i, j :: 0 <= i < j < |Kept(x, keep, k)| ==> Kept(x, keep, k)[i] < Kept(x, keep, k)[j]
  {
    if k > 0 {
      KeptSound(x, keep, k - 1);
    }
  }

  /** The positions below `k` are a prefix of the positions below `m`. */
  lemma {:induction false} KeptPrefix(x: seq<Event>, keep: set<nat>, k: nat, m: nat)
    requires k <= m <= |x|
    ensures Kept(x, keep, k) <= Kept(x, keep, m)
  {
    if k < m {
      KeptPrefix(x, keep, k, m - 1);
    }
  }

  /** The surviving events. */
  function Filter(x: seq<Event>, keep: set<nat>): (y: seq<Event>)
    ensures |y| == |Kept(x, keep, |x|)|
    ensures forall i :: 0 <= i < |y| ==>
      Kept(x, keep, |x|)[i] < |x| && y[i] == x[Kept(x, keep, |x|)[i]]
  {
    KeptSound(x, keep, |x|);
    Survivors(x, keep, |x|)
  }

  /** A surviving event stands, in the filtered trace, after the survivors before it. */
  lemma KeptRank(x: seq<Event>, keep: set<nat>, p: nat)
    requires p < |x| && Retained(x[p], keep)
    ensures
      var r := |Kept(x, keep, p)|;
      r < |Kept(x, keep, |x|)| && Kept(x, keep, |x|)[r] == p
  {
    KeptPrefix(x, keep, p + 1, |x|);
  }

  lemma KeptRankOf(x: seq<Event>, keep: set<nat>, i: nat)
    requires i < |Kept(x, keep, |x|)|
    ensures Kept(x, keep, |x|)[i] < |x| && |Kept(x, keep, Kept(x, keep, |x|)[i])| == i
  {
    KeptSound(x, keep, |x|);
    KeptRank(x, keep, Kept(x, keep, |x|)[i]);
  }

  lemma FilterTids(x: seq<Event>, keep: set<nat>, n: nat)
    requires TidsBelow(x, n)
    ensures TidsBelow(Filter(x, keep), n)
  {
    KeptSound(x, keep, |x|);
  }

  /** Accesses leave the clocks alone, so the filtered run passes through the same clocks. */
  lemma {:induction false} RunFiltered(x: seq<Event>, keep: set<nat>, n: nat, k: nat)
    requires TidsBelow(x, n) && k <= |x|
    ensures TidsBelow(Filter(x, keep), n)
    ensures |Kept(x, keep, k)| <= |Filter(x, keep)|
    ensures Run(Filter(x, keep), n, |Kept(x, keep, k)|) == Run(x, n, k)
  {
    FilterTids(x, keep, n);
    KeptPrefix(x, keep, k, |x|);
    if k > 0 {
      RunFiltered(x, keep, n, k - 1);
      hide Step;
      var e := x[k - 1];
      if Retained(e, keep) {
        KeptRank(x, keep, k - 1);
        assert Filter(x, keep)[|Kept(x, keep, k - 1)|] == e;
      } else {
        AccessKeepsClocks(Run(x, n, k - 1), n, e);
      }
    }
  }

  lemma AccessKeepsClocks(s: Clocks, n: nat, e: Event)
    requires s.Sized(n) && TidBelow(e, n) && e.IsAccess()
    ensures Step(s, n, e) == s
  {
  }

  /** Surviving events are ordered in the filtered trace exactly as in the whole one. */
  lemma HBFiltered(x: seq<Event>, keep: set<nat>, n: nat, i: nat, j: nat)
    requires TidsBelow(x, n) && i < j < |Filter(x, keep)|
    ensures
      var ps := Kept(x, keep, |x|);
      ps[i] < ps[j] < |x| && (HB(Filter(x, keep), i, j) <==> HB(x, ps[i], ps[j]))
  {
    var ps := Kept(x, keep, |x|);
    KeptSound(x, keep, |x|);
    forall m: nat | m < |ps|
      ensures TidsBelow(Filter(x, keep), n) && ps[m] < |x|
      ensures At(Filter(x, keep), n, m) == At(x, n, ps[m])
    {
      KeptRankOf(x, keep, m);
      RunFiltered(x, keep, n, ps[m]);
    }
    ClockExactness(x, n, ps[i], ps[j]);
    ClockExactness(Filter(x, keep), n, i, j);
  }

  // ----- which addresses may be dropped ---------------------------------------------

  ghost predicate TouchedBy(x: seq<Event>, a: nat, u: nat) {
    exists i :: 0 <= i < |x| && x[i].IsAccess() && x[i].addr == a && x[i].tid == u
  }

  ghost predicate StoredIn(x: seq<Event>, a: nat) {
    exists i :: 0 <= i < |x| && StoresTo(x[i], a)
  }

  /** Touched by two threads and stored at least once. */
  ghost predicate Shared(x: seq<Event>, a: nat) {
    StoredIn(x, a) && exists u, v :: u != v && TouchedBy(x, a, u) && TouchedBy(x, a, v)
  }

  /** Both ends of a racy pair survive. */
  lemma RacyIsShared(x: seq<Event>, i: nat, j: nat)
    requires Racy(x, i, j)
    ensures Shared(x, x[j].addr)
  {
    SameThreadNeverRacy(x, i, j);
    assert TouchedBy(x, x[j].addr, x[i].tid) && TouchedBy(x, x[j].addr, x[j].tid);
    assert StoresTo(x[i], x[j].addr) || StoresTo(x[j], x[j].addr);
  }

  lemma StoresBetweenFiltered(x: seq<Event>, keep: set<nat>, i: nat, j: nat, a: nat)
    requires i < j < |Kept(x, keep, |x|)| && a in keep
    ensures
      var ps := Kept(x, keep, |x|);
      ps[j] < |x| && (StoreIn(Filter(x, keep), a, i + 1, j) <==> StoreIn(x, a, ps[i] + 1, ps[j]))
  {
    var ps, y := Kept(x, keep, |x|), Filter(x, keep);
    KeptSound(x, keep, |x|);
    if StoreIn(y, a, i + 1, j) {
      var k :| i + 1 <= k < j && StoresTo(y[k], a);
      assert StoresTo(x[ps[k]], a);
    }
    if StoreIn(x, a, ps[i] + 1, ps[j]) {
      var p :| ps[i] + 1 <= p < ps[j] && StoresTo(x[p], a);
      KeptRank(x, keep, p);
      var r := |Kept(x, keep, p)|;
      assert StoresTo(y[r], a) && i < r < j;
    }
  }

  /** Filtering with a set that contains the shared addresses: positions of the filtered trace
      are reported exactly when their origins are, and nothing reported is lost. */
  lemma FilteringKeepsReports(x: seq<Event>, keep: set<nat>, n: nat, i: nat, j: nat)
    requires TidsBelow(x, n) && i < j < |Filter(x, keep)|
    ensures
      var ps := Kept(x, keep, |x|);
      && (Racy(Filter(x, keep), i, j) <==> Racy(x, ps[i], ps[j]))
      && (Reported(Filter(x, keep), i, j) <==> Reported(x, ps[i], ps[j]))
  {
    var ps, y := Kept(x, keep, |x|), Filter(x, keep);
    KeptSound(x, keep, |x|);
    HBFiltered(x, keep, n, i, j);
    if y[j].IsAccess() {
      StoresBetweenFiltered(x, keep, i, j, y[j].addr);
    }
  }

  lemma FilteringLosesNothing(x: seq<Event>, keep: set<nat>, p: nat, q: nat)
    requires Racy(x, p, q) && (forall a :: Shared(x, a) ==> a in keep)
    ensures
      var ps := Kept(x, keep, |x|);
      var i, j := |Kept(x, keep, p)|, |Kept(x, keep, q)|;
      i < j < |ps| && ps[i] == p && ps[j] == q
  {
    RacyIsShared(x, p, q);
    KeptRank(x, keep, p);
    KeptRank(x, keep, q);
    KeptPrefix(x, keep, p + 1, q);
  }

  lemma AcquiresBetweenFiltered(x: seq<Event>, keep: set<nat>, i: nat, j: nat, a: nat)
    requires i < j < |Kept(x, keep, |x|)|
    ensures
      var ps := Kept(x, keep, |x|);
      ps[j] < |x| && (AcquireIn(Filter(x, keep), a, i + 1, j) <==> AcquireIn(x, a, ps[i] + 1, ps[j]))
  {
    var ps, y := Kept(x, keep, |x|), Filter(x, keep);
    KeptSound(x, keep, |x|);
    if AcquireIn(y, a, i + 1, j) {
      var k :| i + 1 <= k < j && AcquiresOn(y[k], a);
      assert AcquiresOn(x[ps[k]], a);
    }
    if AcquireIn(x, a, ps[i] + 1, ps[j]) {
      var p :| ps[i] + 1 <= p < ps[j] && AcquiresOn(x[p], a);
      KeptRank(x, keep, p);
      var r := |Kept(x, keep, p)|;
      assert AcquiresOn(y[r], a) && i < r < j;
    }
  }

  /** The release-acquire pairs are the same before and after filtering. */
  lemma FilteringKeepsSyncs(x: seq<Event>, keep: set<nat>, i: nat, j: nat)
    requires i < j < |Filter(x, keep)|
    ensures
      var ps := Kept(x, keep, |x|);
      SyncReported(Filter(x, keep), i, j) <==> SyncReported(x, ps[i], ps[j])
  {
    var y := Filter(x, keep);
    KeptSound(x, keep, |x|);
    AcquiresBetweenFiltered(x, keep, i, j, y[j].addr);
  }

  lemma FilteringLosesNoSync(x: seq<Event>, keep: set<nat>, p: nat, q: nat)
    requires SyncReported(x, p, q)
    ensures
      var ps := Kept(x, keep, |x|);
      var i, j := |Kept(x, keep, p)|, |Kept(x, keep, q)|;
      i < j < |ps| && ps[i] == p && ps[j] == q
  {
    KeptRank(x, keep, p);
    KeptRank(x, keep, q);
    KeptPrefix(x, keep, p + 1, q);
  }
}
