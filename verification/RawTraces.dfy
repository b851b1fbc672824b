// What loading makes of a raw trace, said of the raw trace itself: where every raw event goes, and
// which raw accesses race.
module RawTraces {
  import opened Events
  import opened HappensBefore
  import opened VectorClocks
  import opened ClockMachine
  import opened Races
  import opened Filtering
  import opened TraceLoading

  // ----- where every raw event goes -------------------------------------------------

  /** How many events one raw event contributes: an access one for every byte, a call none. */
  function Width(e: Event): nat {
    if e.op in {Load, Store} then e.len else if e.op == Call then 0 else 1
  }

  /** Where the contribution of raw event `k` begins. */
  function Begin(raw: seq<Event>, k: nat): nat
    requires k <= |raw|
  {
    if k == 0 then 0 else Begin(raw, k - 1) + Width(raw[k - 1])
  }

  /** The `l`-th event a raw event contributes: of an access one byte, with everything else kept;
      any other event itself. */
  function Part(e: Event, l: nat): Event {
    if e.op in {Load, Store} then
      Event(e.inst, e.ts, e.op, e.tid, (e.addr + l) % 0x1_0000_0000_0000_0000, 1, e.remote)
    else e
  }

  lemma {:induction false} BeginGrows(raw: seq<Event>, i: nat, k: nat)
    requires i < k <= |raw|
    ensures Begin(raw, i) + Width(raw[i]) <= Begin(raw, k)
  {
    if i < k - 1 {
      BeginGrows(raw, i, k - 1);
    }
  }

  lemma OneExpanded(e: Event)
    ensures |ExpandOne(e)| == Width(e)
    ensures forall l :: 0 <= l < Width(e) ==> ExpandOne(e)[l] == Part(e, l)
  {
  }

  /** The expansion of the first `k` raw events is their contributions, one after the other. */
  lemma {:induction false} ExpandedExactly(raw: seq<Event>, k: nat, i: nat, l: nat)
    requires i < k <= |raw|
    ensures |Expand(raw, k)| == Begin(raw, k)
    ensures l < Width(raw[i]) ==>
      Begin(raw, i) + l < |Expand(raw, k)| && Expand(raw, k)[Begin(raw, i) + l] == Part(raw[i], l)
    decreases k
  {
    OneExpanded(raw[k - 1]);
    assert Expand(raw, k) == Expand(raw, k - 1) + ExpandOne(raw[k - 1]);
    assert k == 1 ==> Expand(raw, k - 1) == [];
    hide ExpandOne, Width, Part, Expand;
    if i < k - 1 {
      BeginGrows(raw, i, k - 1);
      ExpandedExactly(raw, k - 1, i, l);
    } else if k > 1 {
      ExpandedExactly(raw, k - 1, 0, 0);
    }
  }

  lemma ExpandedSize(raw: seq<Event>)
    ensures |Expand(raw, |raw|)| == Begin(raw, |raw|)
  {
    if |raw| > 0 {
      ExpandedExactly(raw, |raw|, 0, 0);
    }
  }

  /** Every position of the expansion belongs to one raw event. */
  lemma {:induction false} Origin(raw: seq<Event>, k: nat, p: nat) returns (i: nat, l: nat)
    requires k <= |raw| && p < Begin(raw, k)
    ensures i < k && l < Width(raw[i]) && p == Begin(raw, i) + l
    decreases k
  {
    if p < Begin(raw, k - 1) {
      i, l := Origin(raw, k - 1, p);
    } else {
      i, l := k - 1, p - Begin(raw, k - 1);
    }
  }

  /** Position `p` of the expansion stands for part `l` of raw event `i`. */
  predicate StandsFor(raw: seq<Event>, p: nat, i: nat, l: nat) {
    i < |raw| && l < Width(raw[i]) && p == Begin(raw, i) + l
  }

  /** Nothing is lost and nothing changed: every part of every raw event has a position of the
      expansion and stands there. */
  lemma PartStands(raw: seq<Event>, i: nat, l: nat)
    requires i < |raw| && l < Width(raw[i])
    ensures
      var p := Begin(raw, i) + l;
      StandsFor(raw, p, i, l) && p < |Expand(raw, |raw|)| && Expand(raw, |raw|)[p] == Part(raw[i], l)
  {
    ExpandedExactly(raw, |raw|, i, l);
  }

  /** Nothing is invented: every position stands for a part. */
  lemma EveryPosition(raw: seq<Event>, p: nat) returns (i: nat, l: nat)
    requires p < |Expand(raw, |raw|)|
    ensures StandsFor(raw, p, i, l) && Expand(raw, |raw|)[p] == Part(raw[i], l)
  {
    ExpandedSize(raw);
    i, l := Origin(raw, |raw|, p);
    PartStands(raw, i, l);
  }

  /** Order is kept: by raw events, and by bytes within one access. */
  lemma OrderKept(raw: seq<Event>, p: nat, i: nat, l: nat, q: nat, j: nat, m: nat)
    requires StandsFor(raw, p, i, l) && StandsFor(raw, q, j, m)
    ensures p < q <==> i < j || (i == j && l < m)
  {
    if i < j {
      BeginGrows(raw, i, j);
    } else if j < i {
      BeginGrows(raw, j, i);
    }
  }

  // ----- the order of the raw events ------------------------------------------------

  /** A bound on the thread ids of a trace. */
  function TidBound(raw: seq<Event>): nat {
    if raw == [] then 0
    else
      var b, e := TidBound(raw[..|raw| - 1]), raw[|raw| - 1];
      Max(b, Max(e.tid, e.remote) + 1)
  }

  lemma {:induction false} TidsBounded(raw: seq<Event>)
    ensures TidsBelow(raw, TidBound(raw))
  {
    if raw != [] {
      var init := raw[..|raw| - 1];
      TidsBounded(init);
      forall i | 0 <= i < |raw| ensures TidBelow(raw[i], TidBound(raw)) {
        assert i < |init| ==> TidBelow(init[i], TidBound(init));
      }
    }
  }

  /** Accesses and calls leave the clocks alone, so the expansion runs through the same clocks. */
  lemma {:induction false} RunExpanded(raw: seq<Event>, n: nat, k: nat, x: seq<Event>, l: nat)
    requires TidsBelow(raw, n) && TidsBelow(x, n) && x == Expand(raw, |raw|)
    requires k <= |raw| && Begin(raw, k) + l <= |x|
    requires l == 0 || (k < |raw| && l < Width(raw[k]))
    ensures Run(x, n, Begin(raw, k) + l) == Run(raw, n, k)
    decreases k, l, 0
  {
    RunStart(raw, n, x);
    hide Step, Run, Expand, Part, Begin, TidsBelow, StandsFor;
    if l > 0 {
      PartStands(raw, k, l - 1);
      RunExpanded(raw, n, k, x, l - 1);
      RunPart(raw, n, k, x, l - 1);
      RunKept(raw, n, k);
    } else if k > 0 {
      RunPassed(raw, n, k - 1, x);
    }
  }

  /** One raw event further, the whole of its contribution passed. */
  lemma {:induction false} RunPassed(raw: seq<Event>, n: nat, k: nat, x: seq<Event>)
    requires TidsBelow(raw, n) && TidsBelow(x, n) && x == Expand(raw, |raw|)
    requires k < |raw| && Begin(raw, k + 1) <= |x|
    ensures Run(x, n, Begin(raw, k + 1)) == Run(raw, n, k + 1)
    decreases k, Width(raw[k]), 1
  {
    hide Step, Run, Expand, Part, TidsBelow;
    var w := Width(raw[k]);
    if w == 0 {
      RunExpanded(raw, n, k, x, 0);
      RunKept(raw, n, k);
    } else {
      PartStands(raw, k, w - 1);
      RunExpanded(raw, n, k, x, w - 1);
      RunPart(raw, n, k, x, w - 1);
    }
  }

  lemma RunStart(raw: seq<Event>, n: nat, x: seq<Event>)
    requires TidsBelow(raw, n) && TidsBelow(x, n)
    ensures Begin(raw, 0) == 0 && Run(x, n, 0) == Run(raw, n, 0)
  {
  }

  lemma RunKept(raw: seq<Event>, n: nat, k: nat)
    requires TidsBelow(raw, n) && k < |raw| && raw[k].op in {Load, Store, Call}
    ensures Run(raw, n, k + 1) == Run(raw, n, k)
  {
    RunNext(raw, n, k);
    StepKeeps(Run(raw, n, k), n, raw[k]);
  }

  lemma RunPart(raw: seq<Event>, n: nat, k: nat, x: seq<Event>, l: nat)
    requires TidsBelow(raw, n) && TidsBelow(x, n) && k < |raw|
    requires
      var p := Begin(raw, k) + l;
      p < |x| && x[p] == Part(raw[k], l) && Run(x, n, p) == Run(raw, n, k)
    ensures Run(x, n, Begin(raw, k) + l + 1) == Run(raw, n, k + 1)
  {
    hide Begin, Part, Step;
    RunNext(raw, n, k);
    PartNext(x, n, Begin(raw, k) + l, raw[k], l);
  }

  lemma RunNext(t: seq<Event>, n: nat, k: nat)
    requires TidsBelow(t, n) && k < |t|
    ensures TidBelow(t[k], n) && Run(t, n, k + 1) == Step(Run(t, n, k), n, t[k])
  {
  }

  lemma PartNext(x: seq<Event>, n: nat, p: nat, e: Event, l: nat)
    requires TidsBelow(x, n) && TidBelow(e, n) && p < |x| && x[p] == Part(e, l)
    ensures Run(x, n, p + 1) == Step(Run(x, n, p), n, e)
  {
    RunNext(x, n, p);
    SameStep(Run(x, n, p), n, e, l);
  }

  lemma StepKeeps(s: Clocks, n: nat, e: Event)
    requires s.Sized(n) && TidBelow(e, n) && e.op in {Load, Store, Call}
    ensures Step(s, n, e) == s
  {
  }

  lemma SameStep(s: Clocks, n: nat, e: Event, l: nat)
    requires s.Sized(n) && TidBelow(e, n)
    ensures TidBelow(Part(e, l), n) && Step(s, n, Part(e, l)) == Step(s, n, e)
    ensures Snapshot(s, n, Part(e, l)) == Snapshot(s, n, e)
  {
    if e.op in {Load, Store} {
      StepKeeps(s, n, e);
      StepKeeps(s, n, Part(e, l));
    }
  }

  lemma PartBelow(e: Event, l: nat, n: nat)
    requires TidBelow(e, n)
    ensures TidBelow(Part(e, l), n)
  {
  }

  lemma PartsBelow(raw: seq<Event>, n: nat)
    requires TidsBelow(raw, n)
    ensures TidsBelow(Expand(raw, |raw|), n)
  {
    var x := Expand(raw, |raw|);
    hide Expand, Part, TidBelow, Begin, Width;
    forall p | 0 <= p < |x| ensures TidBelow(x[p], n) {
      var i, l := EveryPosition(raw, p);
      assert TidBelow(raw[i], n);
      PartBelow(raw[i], l, n);
    }
  }

  lemma SnapshotExpanded(raw: seq<Event>, n: nat, i: nat, l: nat)
    requires TidsBelow(raw, n) && i < |raw| && l < Width(raw[i])
    ensures
      var x, p := Expand(raw, |raw|), Begin(raw, i) + l;
      TidsBelow(x, n) && p < |x| && At(x, n, p) == At(raw, n, i)
  {
    PartsBelow(raw, n);
    PartStands(raw, i, l);
    RunExpanded(raw, n, i, Expand(raw, |raw|), l);
    SameStep(Run(raw, n, i), n, raw[i], l);
  }

  lemma OrderByClocks(t: seq<Event>, i: nat, j: nat, x: seq<Event>, p: nat, q: nat, n: nat)
    requires TidsBelow(t, n) && TidsBelow(x, n) && i < j < |t| && p < q < |x|
    requires At(t, n, i) == At(x, n, p) && At(t, n, j) == At(x, n, q)
    ensures HB(x, p, q) <==> HB(t, i, j)
  {
    hide At, HB;
    ClockExactness(t, n, i, j);
    ClockExactness(x, n, p, q);
  }

  /** Parts of two raw events are ordered exactly as the events are. */
  lemma OrderExpanded(raw: seq<Event>, i: nat, l: nat, j: nat, m: nat)
    requires i < j < |raw| && l < Width(raw[i]) && m < Width(raw[j])
    ensures
      var x, p, q := Expand(raw, |raw|), Begin(raw, i) + l, Begin(raw, j) + m;
      p < q < |x| && (HB(x, p, q) <==> HB(raw, i, j))
  {
    hide TidBound, Begin, Expand, At, HB, TidsBelow, Width;
    var n := TidBound(raw);
    TidsBounded(raw);
    BeginGrows(raw, i, j);
    SnapshotExpanded(raw, n, i, l);
    SnapshotExpanded(raw, n, j, m);
    OrderByClocks(raw, i, j, Expand(raw, |raw|), Begin(raw, i) + l, Begin(raw, j) + m, n);
  }

  // ----- races of raw accesses ------------------------------------------------------

  /** The address is one of the bytes the access touches, in 64-bit arithmetic. */
  predicate InRange(e: Event, a: nat) {
    exists l: nat :: l < e.len && AtOffset(e, l, a)
  }

  predicate AtOffset(e: Event, l: nat, a: nat) { (e.addr + l) % 0x1_0000_0000_0000_0000 == a }

  /** Two accesses, one of them a store, touch the address, and nothing orders them. */
  ghost predicate RawRace(raw: seq<Event>, i: nat, j: nat, a: nat) {
    && i < j < |raw|
    && raw[i].op in {Load, Store} && raw[j].op in {Load, Store} && Store in {raw[i].op, raw[j].op}
    && InRange(raw[i], a) && InRange(raw[j], a) && !HB(raw, i, j)
  }

  /** A race in the expansion is a race of the raw accesses. */
  lemma RaceComesFromRaw(raw: seq<Event>, p: nat, q: nat) returns (i: nat, j: nat)
    requires Racy(Expand(raw, |raw|), p, q)
    ensures RawRace(raw, i, j, Expand(raw, |raw|)[q].addr)
  {
    var x := Expand(raw, |raw|);
    ExpandedSize(raw);
    var l, m;
    i, l := Origin(raw, |raw|, p);
    j, m := Origin(raw, |raw|, q);
    ExpandedExactly(raw, |raw|, i, l);
    ExpandedExactly(raw, |raw|, j, m);
    SameThreadNeverRacy(x, p, q);
    hide Expand;
    if i > j {
      BeginGrows(raw, j, i);
    }
    assert i != j;
    OrderExpanded(raw, i, l, j, m);
    assert AtOffset(raw[i], l, x[q].addr) && AtOffset(raw[j], m, x[q].addr);
  }

  lemma RacyOn(x: seq<Event>, p: nat, q: nat, a: nat)
    requires p < q < |x| && x[p].op in {Load, Store} && x[q].op in {Load, Store} && Store in {x[p].op, x[q].op}
    requires x[p].addr == a && x[q].addr == a && !HB(x, p, q)
    ensures RacyAddress(x, a)
  {
    hide HB;
    assert Racy(x, p, q);
  }

  lemma PartOn(e: Event, a: nat) returns (l: nat)
    requires e.op in {Load, Store} && InRange(e, a)
    ensures l < Width(e) && Part(e, l).op == e.op && Part(e, l).addr == a
  {
    l :| l < e.len && AtOffset(e, l, a);
  }

  /** A race of raw accesses is a race in the expansion. */
  lemma RaceGoesToExpansion(raw: seq<Event>, i: nat, j: nat, a: nat)
    requires RawRace(raw, i, j, a)
    ensures RacyAddress(Expand(raw, |raw|), a)
  {
    var l := PartOn(raw[i], a);
    var m := PartOn(raw[j], a);
    hide Expand, HB, Begin, InRange, RacyAddress, Part, Width, StandsFor;
    PartStands(raw, i, l);
    PartStands(raw, j, m);
    OrderExpanded(raw, i, l, j, m);
    RacyOn(Expand(raw, |raw|), Begin(raw, i) + l, Begin(raw, j) + m, a);
  }

  /** Some two raw accesses race on the address. */
  ghost predicate RawRacy(raw: seq<Event>, a: nat) {
    exists i: nat, j: nat :: RawRace(raw, i, j, a)
  }

  /** An address is racy in the expansion exactly if two raw accesses race on it. */
  lemma RacyAddressRaw(raw: seq<Event>, a: nat)
    ensures RacyAddress(Expand(raw, |raw|), a) <==> RawRacy(raw, a)
  {
    hide RawRace, Expand;
    if RacyAddress(Expand(raw, |raw|), a) {
      var p: nat, q: nat :| Racy(Expand(raw, |raw|), p, q) && Expand(raw, |raw|)[q].addr == a;
      var i, j := RaceComesFromRaw(raw, p, q);
    }
    if RawRacy(raw, a) {
      var i: nat, j: nat :| RawRace(raw, i, j, a);
      RaceGoesToExpansion(raw, i, j, a);
    }
  }

  // ----- which addresses are kept ---------------------------------------------------

  /** Accesses of two threads touch the address, and some store does. */
  ghost predicate RawShared(raw: seq<Event>, a: nat) {
    && (exists i :: 0 <= i < |raw| && raw[i].op == Store && InRange(raw[i], a))
    && exists i, j :: 0 <= i < |raw| && 0 <= j < |raw| && BothTouch(raw[i], raw[j], a)
  }

  predicate BothTouch(e: Event, f: Event, a: nat) {
    e.op in {Load, Store} && f.op in {Load, Store} && e.tid != f.tid && InRange(e, a) && InRange(f, a)
  }

  /** Some expanded access of the given kind and thread has the address. */
  lemma TouchedRaw(raw: seq<Event>, i: nat, a: nat) returns (p: nat)
    requires i < |raw| && raw[i].op in {Load, Store} && InRange(raw[i], a)
    ensures p < |Expand(raw, |raw|)|
    ensures
      var e := Expand(raw, |raw|)[p];
      e.op == raw[i].op && e.tid == raw[i].tid && e.addr == a
  {
    var l: nat :| l < raw[i].len && AtOffset(raw[i], l, a);
    ExpandedExactly(raw, |raw|, i, l);
    p := Begin(raw, i) + l;
  }

  lemma RawOf(raw: seq<Event>, p: nat) returns (i: nat)
    requires p < |Expand(raw, |raw|)| && Expand(raw, |raw|)[p].op in {Load, Store}
    ensures i < |raw| && InRange(raw[i], Expand(raw, |raw|)[p].addr)
    ensures raw[i].op == Expand(raw, |raw|)[p].op && raw[i].tid == Expand(raw, |raw|)[p].tid
  {
    ExpandedSize(raw);
    var l;
    i, l := Origin(raw, |raw|, p);
    ExpandedExactly(raw, |raw|, i, l);
    assert AtOffset(raw[i], l, Expand(raw, |raw|)[p].addr);
  }

  lemma ToucherRaw(raw: seq<Event>, a: nat, u: nat) returns (i: nat)
    requires TouchedBy(Expand(raw, |raw|), a, u)
    ensures i < |raw| && raw[i].op in {Load, Store} && raw[i].tid == u && InRange(raw[i], a)
  {
    var x := Expand(raw, |raw|);
    hide Expand, InRange;
    var p :| 0 <= p < |x| && x[p].IsAccess() && x[p].addr == a && x[p].tid == u;
    i := RawOf(raw, p);
  }

  lemma SharedComesFromRaw(raw: seq<Event>, a: nat)
    requires Shared(Expand(raw, |raw|), a)
    ensures RawShared(raw, a)
  {
    var x := Expand(raw, |raw|);
    var s :| 0 <= s < |x| && StoresTo(x[s], a);
    var u, v :| u != v && TouchedBy(x, a, u) && TouchedBy(x, a, v);
    hide Expand, InRange, Shared, TouchedBy;
    var k := RawOf(raw, s);
    var i := ToucherRaw(raw, a, u);
    var j := ToucherRaw(raw, a, v);
    assert BothTouch(raw[i], raw[j], a);
  }

  lemma SharedGoesToExpansion(raw: seq<Event>, a: nat)
    requires RawShared(raw, a)
    ensures Shared(Expand(raw, |raw|), a)
  {
    var x := Expand(raw, |raw|);
    hide Expand, InRange;
    var k :| 0 <= k < |raw| && raw[k].op == Store && InRange(raw[k], a);
    var i, j :| 0 <= i < |raw| && 0 <= j < |raw| && BothTouch(raw[i], raw[j], a);
    var s := TouchedRaw(raw, k, a);
    var p := TouchedRaw(raw, i, a);
    var q := TouchedRaw(raw, j, a);
    assert StoresTo(x[s], a);
    assert TouchedBy(x, a, x[p].tid) && TouchedBy(x, a, x[q].tid);
  }

  /** The addresses loading keeps, said of the raw trace. */
  lemma SharedRaw(raw: seq<Event>, a: nat)
    ensures Shared(Expand(raw, |raw|), a) <==> RawShared(raw, a)
  {
    if Shared(Expand(raw, |raw|), a) {
      SharedComesFromRaw(raw, a);
    }
    if RawShared(raw, a) {
      SharedGoesToExpansion(raw, a);
    }
  }

  /** The addresses of synchronisation operations. */
  lemma SyncAddressRaw(raw: seq<Event>, a: nat)
    ensures SyncAddress(raw, |raw|, a) <==>
      exists i :: 0 <= i < |raw| && raw[i].addr == a
        && raw[i].op in {Lock, TryLock, Unlock, Wait, Awake, Signal, Broadcast}
  {
    if SyncAddress(raw, |raw|, a) {
      var i :| 0 <= i < |raw| && raw[i].IsSyncOp() && raw[i].addr == a;
      assert raw[i].op in {Lock, TryLock, Unlock, Wait, Awake, Signal, Broadcast};
    }
  }

  /** An event of the expansion survives the filter exactly if it is no access or its address is
      kept; what survives stays in order. */
  lemma FilteredExactly(x: seq<Event>, keep: set<nat>, p: nat)
    requires p < |x|
    ensures p in Kept(x, keep, |x|) <==> (x[p].op in {Load, Store} ==> x[p].addr in keep)
    ensures forall i, j :: 0 <= i < j < |Kept(x, keep, |x|)| ==> Kept(x, keep, |x|)[i] < Kept(x, keep, |x|)[j]
    ensures forall i :: 0 <= i < |Filter(x, keep)| ==>
      Kept(x, keep, |x|)[i] < |x| && Filter(x, keep)[i] == x[Kept(x, keep, |x|)[i]]
  {
    KeptSound(x, keep, |x|);
    if x[p].op in {Load, Store} ==> x[p].addr in keep {
      KeptRank(x, keep, p);
    }
  }
}
