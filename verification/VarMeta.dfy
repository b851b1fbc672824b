// The detector's mutable state: thread clocks, synchronisation clocks, and the sets of
// remembered accesses and releases.
module VarMetaData {
  import opened Events
  import opened VectorClocks
  import opened ClockMachine

  /** A remembered event, named by its position in the trace, with a copy of its clock.
      The source orders these by a fresh serial number, so a set of them is a sequence
      that grows at its end. */
  datatype Operation = Operation(event: nat, vc: Clock)

  type Table = map<nat, seq<Operation>>

  function Lookup(table: Table, a: nat): seq<Operation> {
    if a in table then table[a] else []
  }

  predicate ClocksSized(ops: seq<Operation>, n: nat) {
    forall k :: 0 <= k < |ops| ==> |ops[k].vc| == n
  }

  ghost function Members(ops: seq<Operation>): set<nat> {
    set k | 0 <= k < |ops| :: ops[k].event
  }

  ghost function Hits(ops: seq<Operation>, v: Clock): set<nat>
    requires ClocksSized(ops, |v|)
  {
    set k | 0 <= k < |ops| && Concurrent(ops[k].vc, v) :: ops[k].event
  }

  /** Stores are checked against remembered reads and writes, loads against writes. */
  ghost function RaceHits(loads: seq<Operation>, stores: seq<Operation>, isStore: bool, v: Clock): set<nat>
    requires ClocksSized(loads, |v|) && ClocksSized(stores, |v|)
  {
    if isStore then Hits(loads, v) + Hits(stores, v) else Hits(stores, v)
  }

  method CollectConcurrent(ops: seq<Operation>, v: Clock) returns (ret: set<nat>)
    requires ClocksSized(ops, |v|)
    ensures ret == Hits(ops, v)
  {
    ret := {};
    for k := 0 to |ops|
      invariant ret == Hits(ops[..k], v)
    {
      assert ops[..k + 1] == ops[..k] + [ops[k]];
      var c := IsConcurrentWith(ops[k].vc, v);
      if c {
        ret := ret + {ops[k].event};
      }
    }
    assert ops[..|ops|] == ops;
  }

  // ----- the machine's step as the in-place updates of the branches ------------------

  function Touched(s: Clocks, n: nat, a: nat): Clocks { s.(syncs := s.syncs[a := s.Sync(n, a)]) }

  function ThreadMerged(s: Clocks, u: nat, v: Clock): Clocks
    requires u < |s.threads| && |v| == |s.threads[u]|
  {
    s.(threads := s.threads[u := Lub(s.threads[u], v)])
  }

  function SyncMerged(s: Clocks, a: nat, v: Clock): Clocks
    requires a in s.syncs && |v| == |s.syncs[a]|
  {
    s.(syncs := s.syncs[a := Lub(s.syncs[a], v)])
  }

  function Ticked(s: Clocks, u: nat): Clocks
    requires u < |s.threads| && u < |s.threads[u]|
  {
    s.(threads := s.threads[u := Tick(s.threads[u], u)])
  }

  lemma StepAcquire(s: Clocks, n: nat, e: Event)
    requires s.Sized(n) && TidBelow(e, n) && e.IsAcquire()
    ensures Step(s, n, e) == ThreadMerged(Touched(s, n, e.addr), e.tid, s.Sync(n, e.addr))
  {
  }

  lemma StepRelease(s: Clocks, n: nat, e: Event)
    requires s.Sized(n) && TidBelow(e, n) && e.IsRelease()
    ensures Step(s, n, e) ==
      Ticked(SyncMerged(Touched(s, n, e.addr), e.addr, s.threads[e.tid]), e.tid)
  {
  }

  lemma StepCreate(s: Clocks, n: nat, e: Event)
    requires s.Sized(n) && TidBelow(e, n) && e.op.Create?
    ensures Step(s, n, e) == Ticked(ThreadMerged(s, e.remote, s.threads[e.tid]), e.tid)
  {
    assert Lub(s.threads[e.tid], s.threads[e.tid]) == s.threads[e.tid];
  }

  lemma StepJoin(s: Clocks, n: nat, e: Event)
    requires s.Sized(n) && TidBelow(e, n) && e.op.Join?
    ensures Step(s, n, e) == Ticked(ThreadMerged(s, e.tid, s.threads[e.remote]), e.remote)
  {
  }

  lemma StepOther(s: Clocks, n: nat, e: Event)
    requires s.Sized(n) && TidBelow(e, n)
    requires !e.IsAcquire() && !e.IsRelease() && !e.IsThreadOp()
    ensures Step(s, n, e) == s
  {
  }

  class VarMeta {
    const n: nat
    const trace: seq<Event>
    const threadVc: seq<VectorClock>
    var initialised: seq<bool>
    var syncVc: map<nat, VectorClock>
    var readSets: Table
    var writeSets: Table
    var releaseSets: Table
    ghost var clocks: Clocks  // the state of the clock machine these objects hold
    ghost var Repr: set<VectorClock>

    /** No two entries share a clock object. */
    ghost predicate Separate()
      reads `syncVc, `Repr
    {
      && |threadVc| == n
      && (forall u :: 0 <= u < n ==> threadVc[u] in Repr)
      && (forall a :: a in syncVc ==> syncVc[a] in Repr)
      && (forall u, v :: 0 <= u < v < n ==> threadVc[u] != threadVc[v])
      && (forall a, u :: a in syncVc && 0 <= u < n ==> syncVc[a] != threadVc[u])
      && (forall a, b :: a in syncVc && b in syncVc && a != b ==> syncVc[a] != syncVc[b])
    }

    /** The objects hold the state `clocks`; an untouched thread clock is still zero. */
    ghost predicate Holds()
      requires Separate()
      reads `clocks, `initialised, `syncVc, `Repr, Repr
    {
      && clocks.Sized(n) && |initialised| == n && syncVc.Keys == clocks.syncs.Keys
      && (forall u :: 0 <= u < n ==>
            if initialised[u] then threadVc[u].clock == clocks.threads[u]
            else threadVc[u].clock == Zero(n) && clocks.threads[u] == Tick(Zero(n), u))
      && (forall a :: a in syncVc ==> syncVc[a].clock == clocks.syncs[a])
    }

    ghost predicate TableValid(table: Table) {
      forall a, k :: a in table && 0 <= k < |table[a]| ==>
        table[a][k].event < |trace| && |table[a][k].vc| == n
    }

    ghost predicate LoadTable(table: Table) {
      TableValid(table) && forall a, k :: a in table && 0 <= k < |table[a]| ==> trace[table[a][k].event].op.Load?
    }

    ghost predicate StoreTable(table: Table) {
      TableValid(table) && forall a, k :: a in table && 0 <= k < |table[a]| ==> trace[table[a][k].event].op.Store?
    }

    ghost predicate ReleaseTable(table: Table) {
      TableValid(table) && forall a, k :: a in table && 0 <= k < |table[a]| ==> trace[table[a][k].event].IsRelease()
    }

    ghost predicate Valid()
      reads this, Repr
      ensures Valid() ==> clocks.Sized(n) && |threadVc| == n == |initialised| && TidsBelow(trace, n)
      ensures Valid() ==> forall u :: 0 <= u < n ==> threadVc[u] in Repr
    {
      && Separate() && Holds() && TidsBelow(trace, n)
      && LoadTable(readSets) && StoreTable(writeSets) && ReleaseTable(releaseSets)
    }

    /** Counters have room for one more tick. */
    ghost predicate Roomy()
      reads this
    {
      && clocks.Sized(n)
      && forall u :: 0 <= u < n ==> clocks.threads[u][u] + 1 < WORD
    }

    constructor (n: nat, trace: seq<Event>)
      requires TidsBelow(trace, n)
      ensures Valid() && this.n == n && this.trace == trace && clocks == Start(n)
      ensures readSets == writeSets == releaseSets == map[]
      ensures fresh(Repr)
    {
      var vcs: seq<VectorClock> := [];
      while |vcs| < n
        invariant |vcs| <= n
        invariant forall u :: 0 <= u < |vcs| ==> fresh(vcs[u]) && vcs[u].clock == Zero(n)
        invariant forall u, v :: 0 <= u < v < |vcs| ==> vcs[u] != vcs[v]
      {
        var vc := new VectorClock(n);
        vcs := vcs + [vc];
      }
      this.n := n;
      this.trace := trace;
      threadVc := vcs;
      initialised := seq(n, _ => false);
      syncVc, readSets, writeSets, releaseSets := map[], map[], map[], map[];
      clocks := Start(n);
      Repr := set c | c in vcs;
    }

    /** A thread's clock starts with one tick, given on first use. */
    method GetThreadVC(tid: nat) returns (vc: VectorClock)
      requires Valid() && tid < n
      modifies this`initialised, threadVc[tid]
      ensures Valid() && vc == threadVc[tid] && vc.clock == clocks.threads[tid]
      ensures initialised == old(initialised)[tid := true]
    {
      if !initialised[tid] {
        initialised := initialised[tid := true];
        threadVc[tid].IncTick(tid);
      }
      vc := threadVc[tid];
    }

    /** A synchronisation variable's clock is made on first use. */
    method GetSyncVarVC(a: nat) returns (vc: VectorClock)
      requires Valid()
      modifies this`syncVc, this`clocks, this`Repr
      ensures Valid() && a in syncVc && vc == syncVc[a]
      ensures old(clocks).Sized(n)
      ensures clocks == Touched(old(clocks), n, a) && clocks.threads == old(clocks.threads)
      ensures vc.clock == old(clocks).Sync(n, a)
      ensures fresh(Repr - old(Repr)) && (vc in old(Repr) || fresh(vc))
    {
      if a !in syncVc {
        var newVc := new VectorClock(n);
        syncVc := syncVc[a := newVc];
        Repr := Repr + {newVc};
        clocks := clocks.(syncs := clocks.syncs[a := Zero(n)]);
      }
      vc := syncVc[a];
    }

    /** Merges a clock into a thread's, in place. */
    method MergeIntoThread(tid: nat, vc: VectorClock)
      requires Valid() && tid < n && initialised[tid] && |vc.clock| == n
      modifies this`clocks, threadVc[tid]
      ensures Valid()
      ensures clocks == ThreadMerged(old(clocks), tid, old(vc.clock))
    {
      ghost var v := vc.clock;
      threadVc[tid].Merge(vc);
      clocks := ThreadMerged(clocks, tid, v);
    }

    method MergeIntoSync(a: nat, vc: VectorClock)
      requires Valid() && a in syncVc && |vc.clock| == n
      modifies this`clocks, syncVc[a]
      ensures Valid()
      ensures clocks == SyncMerged(old(clocks), a, old(vc.clock))
      ensures clocks.threads == old(clocks.threads)
    {
      ghost var v := vc.clock;
      syncVc[a].Merge(vc);
      clocks := SyncMerged(clocks, a, v);
    }

    method TickThread(tid: nat)
      requires Valid() && tid < n && initialised[tid] && clocks.threads[tid][tid] + 1 < WORD
      modifies this`clocks, threadVc[tid]
      ensures Valid()
      ensures clocks == Ticked(old(clocks), tid)
    {
      threadVc[tid].IncTick(tid);
      clocks := Ticked(clocks, tid);
    }

    method HandleThreadOpEvent(p: nat)
      requires Valid() && Roomy() && p < |trace| && trace[p].IsThreadOp()
      modifies this`initialised, this`clocks, Repr
      ensures Valid() && old(clocks).Sized(n) && clocks == Step(old(clocks), n, trace[p])
    {
      var e := trace[p];
      var curr := GetThreadVC(e.tid);
      var remote := GetThreadVC(e.remote);
      hide Valid, Holds, Separate, Step;
      if e.op.Create? {
        StepCreate(clocks, n, e);
        MergeIntoThread(e.remote, curr);
        TickThread(e.tid);
      } else {
        StepJoin(clocks, n, e);
        MergeIntoThread(e.tid, remote);
        TickThread(e.remote);
      }
    }

    /** A variable's clock goes into a thread's. */
    method Learn(tid: nat, a: nat)
      requires Valid() && tid < n && initialised[tid]
      modifies this`clocks, this`syncVc, this`Repr, Repr
      ensures Valid() && old(clocks).Sized(n) && fresh(Repr - old(Repr))
      ensures clocks == ThreadMerged(Touched(old(clocks), n, a), tid, old(clocks).Sync(n, a))
    {
      hide Valid, Holds, Separate, Touched, ThreadMerged;
      var lk := GetSyncVarVC(a);
      MergeIntoThread(tid, lk);
    }

    /** LOCK, TRYLOCK, AWAKE: the thread learns what the variable's clock holds. */
    method HandleAcquire(p: nat)
      requires Valid() && p < |trace| && trace[p].IsAcquire()
      modifies this`initialised, this`clocks, this`syncVc, this`Repr, Repr
      ensures Valid() && old(clocks).Sized(n) && clocks == Step(old(clocks), n, trace[p])
      ensures fresh(Repr - old(Repr))
    {
      var e := trace[p];
      StepAcquire(clocks, n, e);
      var curr := GetThreadVC(e.tid);
      hide Valid, Holds, Separate, Step, Touched, ThreadMerged;
      Learn(e.tid, e.addr);
    }

    /** A thread's clock goes into a variable's, and the thread moves on. */
    method PassOn(tid: nat, a: nat, curr: VectorClock)
      requires Valid() && Roomy() && tid < n && initialised[tid]
      requires curr == threadVc[tid] && curr.clock == clocks.threads[tid]
      modifies this`clocks, this`syncVc, this`Repr, Repr
      ensures Valid() && old(clocks).Sized(n) && fresh(Repr - old(Repr))
      ensures clocks == Ticked(SyncMerged(Touched(old(clocks), n, a), a, old(clocks).threads[tid]), tid)
    {
      hide Valid, Holds, Separate, Touched, SyncMerged, Ticked;
      var lk := GetSyncVarVC(a);
      MergeIntoSync(a, curr);
      TickThread(tid);
    }

    /** UNLOCK, SIGNAL, BROADCAST: the variable's clock learns what the thread knows, and the
        thread moves on. */
    method HandleRelease(p: nat)
      requires Valid() && Roomy() && p < |trace| && trace[p].IsRelease()
      modifies this`initialised, this`clocks, this`syncVc, this`Repr, Repr
      ensures Valid() && old(clocks).Sized(n) && clocks == Step(old(clocks), n, trace[p])
      ensures fresh(Repr - old(Repr))
    {
      var e := trace[p];
      StepRelease(clocks, n, e);
      var curr := GetThreadVC(e.tid);
      hide Valid, Holds, Separate, Step, Touched, SyncMerged, Ticked;
      PassOn(e.tid, e.addr, curr);
    }

    method HandleSyncOpEvent(p: nat)
      requires Valid() && Roomy() && p < |trace| && trace[p].IsSyncOp()
      modifies this`initialised, this`clocks, this`syncVc, this`Repr, Repr
      ensures Valid() && old(clocks).Sized(n) && clocks == Step(old(clocks), n, trace[p])
      ensures fresh(Repr - old(Repr))
    {
      var e := trace[p];
      if e.op.Lock? || e.op.TryLock? || e.op.Awake? {
        HandleAcquire(p);
      } else if e.op.Unlock? || e.op.Signal? || e.op.Broadcast? {
        HandleRelease(p);
      } else {
        StepOther(clocks, n, e);
        var _ := GetThreadVC(e.tid);
      }
    }

    // ----- remembered accesses and releases -------------------------------------------

    method PutRead(p: nat)
      requires Valid() && p < |trace| && trace[p].op.Load?
      modifies this`initialised, this`readSets, threadVc[trace[p].tid]
      ensures Valid()
      ensures readSets == old(readSets)[trace[p].addr :=
                Lookup(old(readSets), trace[p].addr) + [Operation(p, clocks.threads[trace[p].tid])]]
    {
      var a := trace[p].addr;
      var curr := GetThreadVC(trace[p].tid);
      hide Separate, Holds, TidsBelow, StoreTable, ReleaseTable;
      readSets := readSets[a := Lookup(readSets, a) + [Operation(p, curr.clock)]];
    }

    /** A store forgets everything remembered about its address. */
    method PutWrite(p: nat)
      requires Valid() && p < |trace| && trace[p].op.Store?
      modifies this`initialised, this`readSets, this`writeSets, threadVc[trace[p].tid]
      ensures Valid()
      ensures readSets == old(readSets)[trace[p].addr := []]
      ensures writeSets ==
                old(writeSets)[trace[p].addr := [Operation(p, clocks.threads[trace[p].tid])]]
    {
      var a := trace[p].addr;
      var curr := GetThreadVC(trace[p].tid);
      hide Separate, Holds, TidsBelow, ReleaseTable;
      readSets := readSets[a := []];
      writeSets := writeSets[a := [Operation(p, curr.clock)]];
    }

    method ClearSyncRel(p: nat)
      requires Valid() && p < |trace|
      modifies this`releaseSets
      ensures Valid() && releaseSets == old(releaseSets)[trace[p].addr := []]
    {
      releaseSets := releaseSets[trace[p].addr := []];
    }

    method PutSyncRel(p: nat)
      requires Valid() && p < |trace| && trace[p].IsRelease() && trace[p].tid < n
      modifies this`initialised, this`releaseSets, threadVc[trace[p].tid]
      ensures Valid()
      ensures releaseSets == old(releaseSets)[trace[p].addr :=
                Lookup(old(releaseSets), trace[p].addr) + [Operation(p, clocks.threads[trace[p].tid])]]
    {
      var a := trace[p].addr;
      var curr := GetThreadVC(trace[p].tid);
      hide Separate, Holds, TidsBelow, LoadTable, StoreTable;
      releaseSets := releaseSets[a := Lookup(releaseSets, a) + [Operation(p, curr.clock)]];
    }

    /** The remembered accesses that conflict with access `p` and whose clocks are unordered
        with its thread's. */
    method GetRaceEvents(p: nat) returns (ret: set<nat>)
      requires Valid() && p < |trace| && trace[p].IsAccess()
      modifies this`initialised, threadVc[trace[p].tid]
      ensures Valid()
      ensures ret == RaceHits(Lookup(readSets, trace[p].addr), Lookup(writeSets, trace[p].addr),
                              trace[p].op.Store?, clocks.threads[trace[p].tid])
    {
      var a := trace[p].addr;
      var curr := GetThreadVC(trace[p].tid);
      if trace[p].op.Load? {
        ret := CollectConcurrent(Lookup(writeSets, a), curr.clock);
      } else {
        var loads := CollectConcurrent(Lookup(readSets, a), curr.clock);
        var stores := CollectConcurrent(Lookup(writeSets, a), curr.clock);
        ret := loads + stores;
      }
    }

    method GetSyncHbEvents(p: nat) returns (ret: set<nat>)
      requires Valid() && p < |trace| && trace[p].IsAcquire()
      ensures ret == Members(Lookup(releaseSets, trace[p].addr))
    {
      var ops := Lookup(releaseSets, trace[p].addr);
      ret := {};
      for k := 0 to |ops|
        invariant ret == Members(ops[..k])
      {
        assert ops[..k + 1] == ops[..k] + [ops[k]];
        ret := ret + {ops[k].event};
      }
      assert ops[..|ops|] == ops;
    }
  }
}
