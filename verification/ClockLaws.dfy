// What orders events and moves clocks, operation by operation.
module ClockLaws {
  import opened Events
  import opened HappensBefore
  import opened ClockMachine
  import opened Races

  /** Between two threads, lock and condition operations are ordered directly exactly when the
      first gives up or signals what the second takes or is woken by. */
  lemma SyncEdgeExactly(t: seq<Event>, i: nat, j: nat)
    requires i < |t| && j < |t| && t[i].tid != t[j].tid
    requires t[i].op !in {Create, Join} && t[j].op !in {Create, Join}
    ensures Edge(t, i, j) <==>
      && i < j && t[i].addr == t[j].addr
      && t[i].op in {Unlock, Signal, Broadcast} && t[j].op in {Lock, TryLock, Awake}
  {
  }

  /** Creating and joining order two threads directly exactly when the first event creates the
      second one's thread, the second joins the first one's, or the second joins what the first
      created. */
  lemma ThreadEdgeExactly(t: seq<Event>, i: nat, j: nat)
    requires i < |t| && j < |t| && t[i].tid != t[j].tid
    requires t[i].op in {Create, Join} || t[j].op in {Create, Join}
    ensures Edge(t, i, j) <==>
      && i < j
      && (|| (t[i].op == Create && t[i].remote == t[j].tid)
          || (t[j].op == Join && t[j].remote == t[i].tid)
          || (t[i].op == Create && t[j].op == Join && t[i].remote == t[j].remote))
  {
  }

  /** One component of a synchronisation variable's clock; a variable never used has zeros. */
  function SyncTick(s: Clocks, n: nat, a: nat, v: nat): nat
    requires s.Sized(n) && v < n
  {
    if a in s.syncs then s.syncs[a][v] else 0
  }

  /** LOCK, TRYLOCK and AWAKE: the thread catches up with the variable; nothing else moves. */
  lemma AcquireMoves(s: Clocks, n: nat, e: Event, u: nat, v: nat, a: nat)
    requires s.Sized(n) && e.tid < n && u < n && v < n && e.op in {Lock, TryLock, Awake}
    ensures
      var old_, known := s.threads[u][v], SyncTick(s, n, e.addr, v);
      Step(s, n, e).threads[u][v] == if u == e.tid && old_ < known then known else old_
    ensures SyncTick(Step(s, n, e), n, a, v) == SyncTick(s, n, a, v)
  {
  }

  /** UNLOCK, SIGNAL and BROADCAST: the variable catches up with the thread, and the thread's own
      component advances by one; nothing else moves. */
  lemma ReleaseMoves(s: Clocks, n: nat, e: Event, u: nat, v: nat, a: nat)
    requires s.Sized(n) && e.tid < n && u < n && v < n && e.op in {Unlock, Signal, Broadcast}
    ensures Step(s, n, e).threads[u][v] == s.threads[u][v] + if u == v == e.tid then 1 else 0
    ensures
      var known, told := SyncTick(s, n, a, v), s.threads[e.tid][v];
      SyncTick(Step(s, n, e), n, a, v) == if a == e.addr && known < told then told else known
  {
  }

  /** WAIT, accesses and calls move no clock. */
  lemma OthersMoveNothing(s: Clocks, n: nat, e: Event)
    requires s.Sized(n) && e.tid < n && e.op in {Wait, Load, Store, Call}
    ensures Step(s, n, e) == s
  {
  }

  /** CREATE: the child catches up with its creator, whose own component advances by one. */
  lemma CreateMoves(s: Clocks, n: nat, e: Event, u: nat, v: nat, a: nat)
    requires s.Sized(n) && e.tid < n && e.remote < n && u < n && v < n && e.op == Create
    ensures
      var old_, told := s.threads[u][v], s.threads[e.tid][v];
      Step(s, n, e).threads[u][v] ==
        (if u == e.remote && old_ < told then told else old_) + if u == v == e.tid then 1 else 0
    ensures SyncTick(Step(s, n, e), n, a, v) == SyncTick(s, n, a, v)
  {
  }

  /** JOIN: the joining thread catches up with the joined one, whose own component advances. */
  lemma JoinMoves(s: Clocks, n: nat, e: Event, u: nat, v: nat, a: nat)
    requires s.Sized(n) && e.tid < n && e.remote < n && u < n && v < n && e.op == Join
    ensures
      var old_, told := s.threads[u][v], s.threads[e.remote][v];
      Step(s, n, e).threads[u][v] ==
        (if u == e.tid && old_ < told then told else old_) + if u == v == e.remote then 1 else 0
    ensures SyncTick(Step(s, n, e), n, a, v) == SyncTick(s, n, a, v)
  {
  }

  /** Snapshots are taken after merging and before ticking: the clock of an acquire is what its
      thread has afterwards, that of a release, a creation, an access, a wait or a call what its
      thread had before, and that of a join is the larger of the two threads'. */
  lemma SnapshotTaken(t: seq<Event>, n: nat, i: nat, v: nat)
    requires TidsBelow(t, n) && i < |t| && v < n
    ensures t[i].tid < n
    ensures t[i].op in {Lock, TryLock, Awake} ==> At(t, n, i)[v] == Run(t, n, i + 1).threads[t[i].tid][v]
    ensures t[i].op !in {Lock, TryLock, Awake, Join} ==> At(t, n, i)[v] == Run(t, n, i).threads[t[i].tid][v]
    ensures t[i].op == Join ==>
      var mine, theirs := Run(t, n, i).threads[t[i].tid][v], Run(t, n, i).threads[t[i].remote][v];
      t[i].remote < n && At(t, n, i)[v] == if mine < theirs then theirs else mine
  {
    assert TidBelow(t[i], n);
  }

  /** Whatever gives up or signals orders whatever takes or is woken later on the same address:
      everything up to the one happens before everything from the other on, the clocks show it,
      and no race between the two threads' parts is reported. */
  lemma ReleaseOrdersAcquire(t: seq<Event>, n: nat, p: nat, i: nat, j: nat, q: nat)
    requires TidsBelow(t, n) && p <= i < j <= q < |t| && t[i].addr == t[j].addr
    requires t[i].op in {Unlock, Signal, Broadcast} && t[j].op in {Lock, TryLock, Awake}
    requires t[p].tid == t[i].tid && t[q].tid == t[j].tid
    ensures HB(t, p, q) && !Racy(t, p, q) && !Reported(t, p, q)
    ensures forall v :: 0 <= v < n ==> At(t, n, p)[v] <= At(t, n, q)[v]
  {
    assert Edge(t, i, j);
    if p < i {
      assert Edge(t, p, i);
      HBTransitive(t, p, i, j);
    }
    if j < q {
      assert Edge(t, j, q);
      HBTransitive(t, p, j, q);
    }
    ClockExactness(t, n, p, q);
  }
}
