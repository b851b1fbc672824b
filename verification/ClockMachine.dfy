// The vector-clock machine: what every event does to the clocks, and why comparing two
// snapshots decides happens-before.
module ClockMachine {
  import opened Events
  import opened HappensBefore
  import opened VectorClocks

  /** One clock per thread and one per synchronisation variable seen so far. */
  datatype Clocks = Clocks(threads: seq<Clock>, syncs: map<nat, Clock>) {
    predicate Sized(n: nat) {
      && |threads| == n
      && (forall u :: 0 <= u < n ==> |threads[u]| == n)
      && (forall a :: a in syncs ==> |syncs[a]| == n)
    }

    /** A synchronisation variable never touched has the zero clock. */
    function Sync(n: nat, a: nat): Clock {
      if a in syncs then syncs[a] else Zero(n)
    }
  }

  predicate TidBelow(e: Event, n: nat) { e.tid < n && (e.IsThreadOp() ==> e.remote < n) }

  predicate TidsBelow(t: seq<Event>, n: nat) {
    forall i :: 0 <= i < |t| ==> TidBelow(t[i], n)
  }

  function Start(n: nat): (s: Clocks)
    ensures s.Sized(n)
  {
    Clocks(seq(n, u requires 0 <= u < n => Tick(Zero(n), u)), map[])
  }

  /** The clock of an event: after merging for acquires and joins, before any tick. */
  function Snapshot(s: Clocks, n: nat, e: Event): (v: Clock)
    requires s.Sized(n) && TidBelow(e, n)
    ensures |v| == n
  {
    if e.IsAcquire() then Lub(s.threads[e.tid], s.Sync(n, e.addr))
    else if e.op.Join? then Lub(s.threads[e.tid], s.threads[e.remote])
    else s.threads[e.tid]
  }

  /** Whose own component an event advances, if anybody's. */
  predicate Ticks(e: Event, u: nat) {
    || ((e.IsRelease() || e.op.Create?) && e.tid == u)
    || (e.op.Join? && e.remote == u)
  }

  function ThreadAfter(s: Clocks, n: nat, e: Event, u: nat): (v: Clock)
    requires s.Sized(n) && TidBelow(e, n) && u < n
    ensures |v| == n
  {
    var merged :=
      if u == e.tid then Snapshot(s, n, e)
      else if e.op.Create? && u == e.remote then Lub(s.threads[u], Snapshot(s, n, e))
      else s.threads[u];
    if Ticks(e, u) then Tick(merged, u) else merged
  }

  function Step(s: Clocks, n: nat, e: Event): (s': Clocks)
    requires s.Sized(n) && TidBelow(e, n)
    ensures s'.Sized(n)
  {
    Clocks(
      seq(n, u requires 0 <= u < n => ThreadAfter(s, n, e, u)),
      if e.IsRelease() then s.syncs[e.addr := Lub(s.Sync(n, e.addr), Snapshot(s, n, e))]
      else if e.IsAcquire() then s.syncs[e.addr := s.Sync(n, e.addr)]
      else s.syncs)
  }

  /** The clocks after the first `k` events of `t`. */
  function Run(t: seq<Event>, n: nat, k: nat): (s: Clocks)
    requires TidsBelow(t, n) && k <= |t|
    ensures s.Sized(n)
  {
    if k == 0 then Start(n) else Step(Run(t, n, k - 1), n, t[k - 1])
  }

  /** The snapshot of event `i`. */
  function At(t: seq<Event>, n: nat, i: nat): (v: Clock)
    requires TidsBelow(t, n) && i < |t|
    ensures |v| == n
  {
    Snapshot(Run(t, n, i), n, t[i])
  }

  /** What one event does to one component of a thread's clock. */
  lemma ThreadComponent(s: Clocks, n: nat, e: Event, u: nat, v: nat)
    requires s.Sized(n) && TidBelow(e, n) && u < n && v < n
    ensures
      var snap := Snapshot(s, n, e);
      Step(s, n, e).threads[u][v] ==
        (if u == e.tid then snap[v]
         else if e.op.Create? && u == e.remote then Max(s.threads[u][v], snap[v])
         else s.threads[u][v])
        + (if Ticks(e, u) && u == v then 1 else 0)
  {
  }

  lemma SnapshotComponent(s: Clocks, n: nat, e: Event, v: nat)
    requires s.Sized(n) && TidBelow(e, n) && v < n
    ensures Snapshot(s, n, e)[v] ==
      if e.IsAcquire() then Max(s.threads[e.tid][v], s.Sync(n, e.addr)[v])
      else if e.op.Join? then Max(s.threads[e.tid][v], s.threads[e.remote][v])
      else s.threads[e.tid][v]
  {
  }

  lemma SyncComponent(s: Clocks, n: nat, e: Event, a: nat, v: nat)
    requires s.Sized(n) && TidBelow(e, n) && v < n && a in Step(s, n, e).syncs
    ensures Step(s, n, e).syncs[a][v] ==
      if FeedsSync(e, a) then Max(s.Sync(n, a)[v], Snapshot(s, n, e)[v])
      else s.Sync(n, a)[v]
  {
  }

  // ----- own components are strictly ahead ------------------------------------------

  /** Nobody else has caught up with a thread's own component. */
  ghost predicate OwnAhead(s: Clocks, n: nat)
    requires s.Sized(n)
  {
    && (forall v :: 0 <= v < n ==> 0 < s.threads[v][v])
    && (forall u, v :: 0 <= u < n && 0 <= v < n && u != v ==> s.threads[u][v] < s.threads[v][v])
    && (forall a, v :: a in s.syncs && 0 <= v < n ==> s.syncs[a][v] < s.threads[v][v])
  }

  lemma SnapshotBehind(s: Clocks, n: nat, e: Event, v: nat)
    requires s.Sized(n) && TidBelow(e, n) && v < n && OwnAhead(s, n)
    ensures Snapshot(s, n, e)[v] <= s.threads[v][v]
    ensures v == e.tid ==> Snapshot(s, n, e)[v] == s.threads[v][v]
    ensures v != e.tid && !Ticks(e, v) ==> Snapshot(s, n, e)[v] < s.threads[v][v]
  {
    SnapshotComponent(s, n, e, v);
  }

  /** An own component moves by the event's tick only. */
  lemma OwnStep(s: Clocks, n: nat, e: Event, v: nat)
    requires s.Sized(n) && TidBelow(e, n) && v < n && OwnAhead(s, n)
    ensures Step(s, n, e).threads[v][v] == s.threads[v][v] + (if Ticks(e, v) then 1 else 0)
    ensures v != e.tid ==> Snapshot(s, n, e)[v] < Step(s, n, e).threads[v][v]
  {
    SnapshotBehind(s, n, e, v);
    ThreadComponent(s, n, e, v, v);
  }

  lemma OwnAheadStep(s: Clocks, n: nat, e: Event)
    requires s.Sized(n) && TidBelow(e, n) && OwnAhead(s, n)
    ensures OwnAhead(Step(s, n, e), n)
  {
    var s' := Step(s, n, e);
    forall v | 0 <= v < n ensures 0 < s'.threads[v][v] {
      OwnStep(s, n, e, v);
    }
    forall u, v | 0 <= u < n && 0 <= v < n && u != v
      ensures s'.threads[u][v] < s'.threads[v][v]
    {
      SnapshotBehind(s, n, e, v);
      ThreadComponent(s, n, e, u, v);
      OwnStep(s, n, e, v);
    }
    forall a, v | a in s'.syncs && 0 <= v < n
      ensures s'.syncs[a][v] < s'.threads[v][v]
    {
      SnapshotBehind(s, n, e, v);
      SyncComponent(s, n, e, a, v);
      OwnStep(s, n, e, v);
    }
  }

  /** In every run, own components stay ahead. */
  lemma {:induction false} OwnAheadAlways(t: seq<Event>, n: nat, k: nat)
    requires TidsBelow(t, n) && k <= |t|
    ensures OwnAhead(Run(t, n, k), n)
  {
    if k > 0 {
      hide Step, ThreadAfter, Snapshot;
      OwnAheadAlways(t, n, k - 1);
      OwnAheadStep(Run(t, n, k - 1), n, t[k - 1]);
    }
  }

  /** They also stay ahead of every earlier snapshot of another thread. */
  lemma {:induction false} AheadOfSnapshot(t: seq<Event>, n: nat, i: nat, k: nat, v: nat)
    requires TidsBelow(t, n) && i < k <= |t| && v < n && v != t[i].tid
    ensures At(t, n, i)[v] < Run(t, n, k).threads[v][v]
  {
    hide Step, ThreadAfter, Snapshot;
    OwnAheadAlways(t, n, k - 1);
    OwnStep(Run(t, n, k - 1), n, t[k - 1], v);
    if i < k - 1 {
      AheadOfSnapshot(t, n, i, k - 1, v);
    }
  }

  // ----- snapshots flow along the edges ---------------------------------------------

  lemma StepGrows(s: Clocks, n: nat, e: Event)
    requires s.Sized(n) && TidBelow(e, n)
    ensures forall u :: 0 <= u < n ==> Leq(s.threads[u], Step(s, n, e).threads[u])
    ensures forall u :: 0 <= u < n && FeedsThread(e, u) ==>
      Leq(Snapshot(s, n, e), Step(s, n, e).threads[u])
    ensures forall a :: a in s.syncs ==>
      a in Step(s, n, e).syncs && Leq(s.syncs[a], Step(s, n, e).syncs[a])
    ensures FeedsSync(e, e.addr) ==>
      e.addr in Step(s, n, e).syncs && Leq(Snapshot(s, n, e), Step(s, n, e).syncs[e.addr])
  {
    var s' := Step(s, n, e);
    forall u, v | 0 <= u < n && 0 <= v < n
      ensures s.threads[u][v] <= s'.threads[u][v]
      ensures FeedsThread(e, u) ==> Snapshot(s, n, e)[v] <= s'.threads[u][v]
    {
      ThreadComponent(s, n, e, u, v);
      SnapshotComponent(s, n, e, v);
    }
    forall a, v | a in s'.syncs && 0 <= v < n
      ensures s.Sync(n, a)[v] <= s'.syncs[a][v]
      ensures FeedsSync(e, a) ==> Snapshot(s, n, e)[v] <= s'.syncs[a][v]
    {
      SyncComponent(s, n, e, a, v);
    }
  }

  lemma LeqTransitive(x: Clock, y: Clock, z: Clock)
    requires |x| == |y| == |z| && Leq(x, y) && Leq(y, z)
    ensures Leq(x, z)
  {
  }

  lemma {:induction false} FlowsToThread(t: seq<Event>, n: nat, i: nat, k: nat, u: nat)
    requires TidsBelow(t, n) && i < k <= |t| && u < n && FeedsThread(t[i], u)
    ensures Leq(At(t, n, i), Run(t, n, k).threads[u])
  {
    hide Step, ThreadAfter, Snapshot;
    StepGrows(Run(t, n, k - 1), n, t[k - 1]);
    if i < k - 1 {
      FlowsToThread(t, n, i, k - 1, u);
      LeqTransitive(At(t, n, i), Run(t, n, k - 1).threads[u], Run(t, n, k).threads[u]);
    }
  }

  lemma {:induction false} FlowsToSync(t: seq<Event>, n: nat, i: nat, k: nat, a: nat)
    requires TidsBelow(t, n) && i < k <= |t| && FeedsSync(t[i], a)
    ensures a in Run(t, n, k).syncs && Leq(At(t, n, i), Run(t, n, k).syncs[a])
  {
    hide Step, ThreadAfter, Snapshot;
    StepGrows(Run(t, n, k - 1), n, t[k - 1]);
    if i < k - 1 {
      FlowsToSync(t, n, i, k - 1, a);
      LeqTransitive(At(t, n, i), Run(t, n, k - 1).syncs[a], Run(t, n, k).syncs[a]);
    }
  }

  lemma EdgeFlows(t: seq<Event>, n: nat, i: nat, j: nat)
    requires TidsBelow(t, n) && j < |t| && Edge(t, i, j)
    ensures Leq(At(t, n, i), At(t, n, j))
  {
    var s, e := Run(t, n, j), t[j];
    if t[i].IsRelease() && e.IsAcquire() && t[i].addr == e.addr {
      FlowsToSync(t, n, i, j, e.addr);
    } else if FeedsThread(t[i], e.tid) {
      FlowsToThread(t, n, i, j, e.tid);
    } else {
      FlowsToThread(t, n, i, j, e.remote);
    }
    forall v | 0 <= v < n ensures At(t, n, i)[v] <= At(t, n, j)[v] {
      SnapshotComponent(s, n, e, v);
    }
  }

  lemma {:induction false} HBFlows(t: seq<Event>, n: nat, i: nat, j: nat)
    requires TidsBelow(t, n) && j < |t| && HB(t, i, j)
    ensures i < j && Leq(At(t, n, i), At(t, n, j))
    decreases j
  {
    if Edge(t, i, j) {
      EdgeFlows(t, n, i, j);
    } else {
      var k: nat :| i < k < j && HB(t, i, k) && Edge(t, k, j);
      HBFlows(t, n, i, k);
      EdgeFlows(t, n, k, j);
    }
  }

  // ----- whatever a clock shows has been heard of -----------------------------------

  /** Event `i` reached some event among the first `k` that feeds thread `u`. */
  ghost predicate ThreadHeard(t: seq<Event>, k: nat, u: nat, i: nat)
    requires k <= |t|
  {
    exists m: nat :: m < k && FeedsThread(t[m], u) && HBEq(t, i, m)
  }

  ghost predicate SyncHeard(t: seq<Event>, k: nat, a: nat, i: nat)
    requires k <= |t|
  {
    exists m: nat :: m < k && FeedsSync(t[m], a) && HBEq(t, i, m)
  }

  /** Event `i`'s own component at its snapshot. */
  function Stamp(t: seq<Event>, n: nat, i: nat): nat
    requires TidsBelow(t, n) && i < |t|
  {
    At(t, n, i)[t[i].tid]
  }

  lemma StampPositive(t: seq<Event>, n: nat, i: nat)
    requires TidsBelow(t, n) && i < |t|
    ensures 0 < Stamp(t, n, i)
  {
    OwnAheadAlways(t, n, i);
    SnapshotBehind(Run(t, n, i), n, t[i], t[i].tid);
  }

  /** Where a component of a snapshot comes from. */
  lemma SnapshotSource(s: Clocks, n: nat, e: Event, v: nat, x: nat)
    requires s.Sized(n) && TidBelow(e, n) && v < n && 0 < x <= Snapshot(s, n, e)[v]
    ensures
      || x <= s.threads[e.tid][v]
      || (e.op.Join? && x <= s.threads[e.remote][v])
      || (e.IsAcquire() && e.addr in s.syncs && x <= s.syncs[e.addr][v])
  {
    SnapshotComponent(s, n, e, v);
  }

  /** Where a component of another thread's clock comes from in one step. */
  lemma ThreadSource(s: Clocks, n: nat, e: Event, u: nat, v: nat, x: nat)
    requires s.Sized(n) && TidBelow(e, n) && u < n && v < n && u != v
    requires x <= Step(s, n, e).threads[u][v]
    ensures x <= s.threads[u][v] || (FeedsThread(e, u) && x <= Snapshot(s, n, e)[v])
  {
    ThreadComponent(s, n, e, u, v);
  }

  lemma SyncSource(s: Clocks, n: nat, e: Event, a: nat, v: nat, x: nat)
    requires s.Sized(n) && TidBelow(e, n) && v < n && a in Step(s, n, e).syncs
    requires 0 < x <= Step(s, n, e).syncs[a][v]
    ensures (a in s.syncs && x <= s.syncs[a][v]) || (FeedsSync(e, a) && x <= Snapshot(s, n, e)[v])
  {
    SyncComponent(s, n, e, a, v);
  }

  /** The stamp of an event is new: no clock showed it before. */
  lemma StampIsNew(s: Clocks, n: nat, e: Event)
    requires s.Sized(n) && TidBelow(e, n) && OwnAhead(s, n)
    ensures forall u :: 0 <= u < n && u != e.tid ==> s.threads[u][e.tid] < Snapshot(s, n, e)[e.tid]
    ensures forall a :: a in s.syncs ==> s.syncs[a][e.tid] < Snapshot(s, n, e)[e.tid]
  {
    SnapshotBehind(s, n, e, e.tid);
  }

  /** A snapshot of event `j` that shows `i`'s stamp means `i` reached `j`. */
  lemma {:induction false} SnapshotHeard(t: seq<Event>, n: nat, i: nat, j: nat)
    requires TidsBelow(t, n) && i < j < |t|
    requires Stamp(t, n, i) <= At(t, n, j)[t[i].tid]
    ensures HB(t, i, j)
    decreases j, 1
  {
    var s, e, v, x := Run(t, n, j), t[j], t[i].tid, Stamp(t, n, i);
    StampPositive(t, n, i);
    SnapshotSource(s, n, e, v, x);
    var m: nat;
    if x <= s.threads[e.tid][v] {
      ThreadShows(t, n, j, i, e.tid);
      m :| m < j && FeedsThread(t[m], e.tid) && HBEq(t, i, m);
    } else if e.op.Join? && x <= s.threads[e.remote][v] {
      ThreadShows(t, n, j, i, e.remote);
      m :| m < j && FeedsThread(t[m], e.remote) && HBEq(t, i, m);
    } else {
      SyncShows(t, n, j, i, e.addr);
      m :| m < j && FeedsSync(t[m], e.addr) && HBEq(t, i, m);
    }
    assert Edge(t, m, j);
    if i != m {
      HBForward(t, i, m);
    }
  }

  lemma {:induction false} ThreadShows(t: seq<Event>, n: nat, k: nat, i: nat, u: nat)
    requires TidsBelow(t, n) && i < k <= |t| && u < n
    requires Stamp(t, n, i) <= Run(t, n, k).threads[u][t[i].tid]
    ensures ThreadHeard(t, k, u, i)
    decreases k, 0
  {
    hide Step, ThreadAfter, Snapshot;
    var j, v := k - 1, t[i].tid;
    if v == u {
      assert FeedsThread(t[i], u) && HBEq(t, i, i);
      return;
    }
    var s, x := Run(t, n, j), Stamp(t, n, i);
    ThreadSource(s, n, t[j], u, v, x);
    if i == j {
      OwnAheadAlways(t, n, j);
      StampIsNew(s, n, t[j]);
      assert FeedsThread(t[j], u) && HBEq(t, j, j);
    } else if x <= s.threads[u][v] {
      ThreadShows(t, n, j, i, u);
      var m: nat :| m < j && FeedsThread(t[m], u) && HBEq(t, i, m);
    } else {
      SnapshotHeard(t, n, i, j);
      assert FeedsThread(t[j], u) && HBEq(t, i, j);
    }
  }

  lemma {:induction false} SyncShows(t: seq<Event>, n: nat, k: nat, i: nat, a: nat)
    requires TidsBelow(t, n) && i < k <= |t| && a in Run(t, n, k).syncs
    requires Stamp(t, n, i) <= Run(t, n, k).syncs[a][t[i].tid]
    ensures SyncHeard(t, k, a, i)
    decreases k, 0
  {
    hide Step, ThreadAfter, Snapshot;
    var j, v := k - 1, t[i].tid;
    var s, x := Run(t, n, j), Stamp(t, n, i);
    StampPositive(t, n, i);
    SyncSource(s, n, t[j], a, v, x);
    if i == j {
      OwnAheadAlways(t, n, j);
      StampIsNew(s, n, t[j]);
      assert FeedsSync(t[j], a) && HBEq(t, j, j);
    } else if a in s.syncs && x <= s.syncs[a][v] {
      SyncShows(t, n, j, i, a);
      var m: nat :| m < j && FeedsSync(t[m], a) && HBEq(t, i, m);
    } else {
      SnapshotHeard(t, n, i, j);
      assert FeedsSync(t[j], a) && HBEq(t, i, j);
    }
  }

  // ----- the main results -----------------------------------------------------------

  /** Comparing snapshots decides happens-before, for every pair of every trace. */
  lemma ClockExactness(t: seq<Event>, n: nat, i: nat, j: nat)
    requires TidsBelow(t, n) && i < j < |t|
    ensures Leq(At(t, n, i), At(t, n, j)) <==> HB(t, i, j)
  {
    if Leq(At(t, n, i), At(t, n, j)) {
      SnapshotHeard(t, n, i, j);
    }
    if HB(t, i, j) {
      HBFlows(t, n, i, j);
    }
  }

  /** A later event of another thread is never below an earlier one. */
  lemma NeverBackwards(t: seq<Event>, n: nat, i: nat, j: nat)
    requires TidsBelow(t, n) && i < j < |t| && t[i].tid != t[j].tid
    ensures !Leq(At(t, n, j), At(t, n, i))
  {
    OwnAheadAlways(t, n, j);
    SnapshotBehind(Run(t, n, j), n, t[j], t[j].tid);
    AheadOfSnapshot(t, n, i, j, t[j].tid);
    assert At(t, n, i)[t[j].tid] < At(t, n, j)[t[j].tid];
  }

  /** The detector's concurrency test on two snapshots means exactly "not ordered". */
  lemma ConcurrentExactly(t: seq<Event>, n: nat, i: nat, j: nat)
    requires TidsBelow(t, n) && i < j < |t|
    ensures Concurrent(At(t, n, i), At(t, n, j)) <==> !HB(t, i, j)
  {
    ClockExactness(t, n, i, j);
    if t[i].tid == t[j].tid {
      assert Edge(t, i, j);
    } else {
      NeverBackwards(t, n, i, j);
    }
  }

  /** How many of the first `k` events advance thread `u`. */
  function TickCount(t: seq<Event>, k: nat, u: nat): (c: nat)
    requires k <= |t|
    ensures c <= k
  {
    if k == 0 then 0 else TickCount(t, k - 1, u) + (if Ticks(t[k - 1], u) then 1 else 0)
  }

  /** A thread's own component counts its releases, its creates and the joins of it, and so
      stays within the length of the trace plus one. */
  lemma {:induction false} OwnTickExact(t: seq<Event>, n: nat, k: nat, u: nat)
    requires TidsBelow(t, n) && k <= |t| && u < n
    ensures Run(t, n, k).threads[u][u] == 1 + TickCount(t, k, u) <= k + 1
  {
    if k > 0 {
      hide Step, ThreadAfter, Snapshot;
      OwnTickExact(t, n, k - 1, u);
      OwnAheadAlways(t, n, k - 1);
      OwnStep(Run(t, n, k - 1), n, t[k - 1], u);
    }
  }
}
