// The detector's loop, and the proof that what it reports is exactly the declarative race set.
module RaceAnalysis {
  import opened Events
  import opened HappensBefore
  import opened ClockMachine
  import opened Races
  import opened VarMetaData

  /** What the detector's loop accepts; anything else stops it with an assertion. */
  predicate EventAccepted(e: Event, syncVars: set<nat>) {
    e.IsThreadOp() || e.IsSyncOp() || (e.IsVarAccess() && e.addr !in syncVars)
  }

  predicate Analyzable(t: seq<Event>, syncVars: set<nat>) {
    forall i :: 0 <= i < |t| ==> EventAccepted(t[i], syncVars)
  }

  // ----- what the remembered sets hold after `k` events -----------------------------

  datatype Kind = Loads | Stores | Releases

  predicate Adds(kind: Kind, e: Event, a: nat) {
    match kind
    case Loads => e.op.Load? && e.addr == a
    case Stores => StoresTo(e, a)
    case Releases => e.IsRelease() && e.addr == a
  }

  predicate Clears(kind: Kind, e: Event, a: nat) {
    if kind.Releases? then AcquiresOn(e, a) else StoresTo(e, a)
  }

  ghost predicate ClearedIn(kind: Kind, t: seq<Event>, a: nat, lo: nat, hi: nat)
    requires hi <= |t|
  {
    exists k :: lo <= k < hi && Clears(kind, t[k], a)
  }

  /** Event `i` was remembered for `a` and is not yet forgotten after `k` events. */
  ghost predicate Live(kind: Kind, t: seq<Event>, a: nat, i: nat, k: nat)
    requires k <= |t|
  {
    i < k && Adds(kind, t[i], a) && !ClearedIn(kind, t, a, i + 1, k)
  }

  /** `ops` remembers exactly the live events, each with its snapshot. */
  ghost predicate Remembers(kind: Kind, ops: seq<Operation>, t: seq<Event>, n: nat, a: nat, k: nat)
    requires TidsBelow(t, n) && k <= |t|
  {
    && (forall x :: 0 <= x < |ops| ==>
          Live(kind, t, a, ops[x].event, k) && ops[x].vc == At(t, n, ops[x].event))
    && (forall i: nat :: Live(kind, t, a, i, k) ==> i in Members(ops))
  }

  ghost predicate TableExact(kind: Kind, table: Table, t: seq<Event>, n: nat, k: nat)
    requires TidsBelow(t, n) && k <= |t|
  {
    forall a: nat :: Remembers(kind, Lookup(table, a), t, n, a, k)
  }

  /** The effect of event `k` on what is remembered for `a`. */
  function NextOps(kind: Kind, ops: seq<Operation>, t: seq<Event>, n: nat, a: nat, k: nat): seq<Operation>
    requires TidsBelow(t, n) && k < |t|
  {
    if Clears(kind, t[k], a) then
      if Adds(kind, t[k], a) then [Operation(k, At(t, n, k))] else []
    else
      if Adds(kind, t[k], a) then ops + [Operation(k, At(t, n, k))] else ops
  }

  lemma LiveStep(kind: Kind, t: seq<Event>, a: nat, i: nat, k: nat)
    requires k < |t|
    ensures Live(kind, t, a, i, k + 1) <==>
      (i == k && Adds(kind, t[k], a)) || (Live(kind, t, a, i, k) && !Clears(kind, t[k], a))
  {
    if i < k && ClearedIn(kind, t, a, i + 1, k) {
      var x :| i + 1 <= x < k && Clears(kind, t[x], a);
      assert Clears(kind, t[x], a) && x < k + 1;
    }
  }

  lemma RemembersStep(kind: Kind, ops: seq<Operation>, t: seq<Event>, n: nat, a: nat, k: nat)
    requires TidsBelow(t, n) && k < |t| && Remembers(kind, ops, t, n, a, k)
    ensures Remembers(kind, NextOps(kind, ops, t, n, a, k), t, n, a, k + 1)
  {
    hide At;
    var next := NextOps(kind, ops, t, n, a, k);
    forall i: nat
      ensures Live(kind, t, a, i, k + 1) ==> i in Members(next)
      ensures Live(kind, t, a, i, k) && !Clears(kind, t[k], a) ==> Live(kind, t, a, i, k + 1)
    {
      LiveStep(kind, t, a, i, k);
      if Live(kind, t, a, i, k + 1) && i != k {
        var x :| 0 <= x < |ops| && ops[x].event == i;
        assert next[x] == ops[x];
      } else if Live(kind, t, a, i, k + 1) {
        assert next[|next| - 1].event == k;
      }
    }
    LiveStep(kind, t, a, k, k);
  }

  /** An event that updates its own address's entry. */
  lemma TableUpdate(kind: Kind, table: Table, t: seq<Event>, n: nat, k: nat, next: seq<Operation>)
    requires TidsBelow(t, n) && k < |t| && TableExact(kind, table, t, n, k)
    requires next == NextOps(kind, Lookup(table, t[k].addr), t, n, t[k].addr, k)
    ensures TableExact(kind, table[t[k].addr := next], t, n, k + 1)
  {
    hide At, Remembers;
    var after := table[t[k].addr := next];
    forall a: nat ensures Remembers(kind, Lookup(after, a), t, n, a, k + 1) {
      RemembersStep(kind, Lookup(table, a), t, n, a, k);
    }
  }

  /** An event of no concern to this table. */
  lemma TableKeep(kind: Kind, table: Table, t: seq<Event>, n: nat, k: nat)
    requires TidsBelow(t, n) && k < |t| && TableExact(kind, table, t, n, k)
    requires !Adds(kind, t[k], t[k].addr) && !Clears(kind, t[k], t[k].addr)
    ensures TableExact(kind, table, t, n, k + 1)
  {
    hide At, Remembers;
    forall a: nat ensures Remembers(kind, Lookup(table, a), t, n, a, k + 1) {
      RemembersStep(kind, Lookup(table, a), t, n, a, k);
    }
  }

  // ----- from remembered operations to reported pairs -------------------------------

  lemma HitsExact(kind: Kind, ops: seq<Operation>, t: seq<Event>, n: nat, a: nat, j: nat, i: nat)
    requires TidsBelow(t, n) && j < |t| && Remembers(kind, ops, t, n, a, j)
    ensures ClocksSized(ops, n)
    ensures i in Hits(ops, At(t, n, j)) <==> Live(kind, t, a, i, j) && !HB(t, i, j)
  {
    hide At;
    if i < j {
      ConcurrentExactly(t, n, i, j);
    }
    if Live(kind, t, a, i, j) {
      var x :| 0 <= x < |ops| && ops[x].event == i;
      assert ops[x].vc == At(t, n, i);
    }
  }

  lemma LiveMeansReported(t: seq<Event>, i: nat, j: nat)
    requires j < |t| && t[j].IsAccess()
    ensures Reported(t, i, j) <==>
            (!HB(t, i, j) &&
             (Live(Stores, t, t[j].addr, i, j) || (t[j].op.Store? && Live(Loads, t, t[j].addr, i, j))))
  {
    if i < j {
      assert StoreIn(t, t[j].addr, i + 1, j) <==> ClearedIn(Stores, t, t[j].addr, i + 1, j);
      assert StoreIn(t, t[j].addr, i + 1, j) <==> ClearedIn(Loads, t, t[j].addr, i + 1, j);
    }
  }

  lemma LiveMeansSyncReported(t: seq<Event>, i: nat, j: nat)
    requires j < |t| && t[j].IsAcquire()
    ensures SyncReported(t, i, j) <==> Live(Releases, t, t[j].addr, i, j)
  {
    if i < j {
      assert AcquireIn(t, t[j].addr, i + 1, j) <==> ClearedIn(Releases, t, t[j].addr, i + 1, j);
    }
  }

  lemma RaceHitsExact(loads: seq<Operation>, stores: seq<Operation>, t: seq<Event>, n: nat, j: nat)
    requires TidsBelow(t, n) && j < |t| && t[j].IsAccess()
    requires Remembers(Loads, loads, t, n, t[j].addr, j) && Remembers(Stores, stores, t, n, t[j].addr, j)
    ensures ClocksSized(loads, n) && ClocksSized(stores, n)
    ensures forall i: nat ::
      i in RaceHits(loads, stores, t[j].op.Store?, At(t, n, j)) <==> Reported(t, i, j)
  {
    hide At;
    forall i: nat
      ensures ClocksSized(loads, n) && ClocksSized(stores, n)
      ensures i in RaceHits(loads, stores, t[j].op.Store?, At(t, n, j)) <==> Reported(t, i, j)
    {
      HitsExact(Loads, loads, t, n, t[j].addr, j, i);
      HitsExact(Stores, stores, t, n, t[j].addr, j, i);
      LiveMeansReported(t, i, j);
    }
    HitsExact(Loads, loads, t, n, t[j].addr, j, 0);
    HitsExact(Stores, stores, t, n, t[j].addr, j, 0);
  }

  lemma MembersExact(ops: seq<Operation>, t: seq<Event>, n: nat, j: nat)
    requires TidsBelow(t, n) && j < |t| && t[j].IsAcquire()
    requires Remembers(Releases, ops, t, n, t[j].addr, j)
    ensures forall i: nat :: i in Members(ops) <==> SyncReported(t, i, j)
  {
    hide At;
    forall i: nat ensures i in Members(ops) <==> SyncReported(t, i, j) {
      LiveMeansSyncReported(t, i, j);
    }
  }

  // ----- the loop -------------------------------------------------------------------

  /** The reported pairs whose second event is among the first `k`. */
  ghost predicate RacesExact(races: set<(nat, nat)>, t: seq<Event>, k: nat) {
    forall i: nat, j: nat :: (i, j) in races <==> j < k && Reported(t, i, j)
  }

  ghost predicate SyncsExact(pairs: set<(nat, nat)>, t: seq<Event>, k: nat) {
    forall i: nat, j: nat :: (i, j) in pairs <==> j < k && SyncReported(t, i, j)
  }

  /** The detector's state is that of the first `k` events. */
  ghost predicate Tracks(meta: VarMeta, k: nat)
    reads meta, meta.Repr
  {
    && meta.Valid() && k <= |meta.trace|
    && meta.clocks == Run(meta.trace, meta.n, k)
    && TableExact(Loads, meta.readSets, meta.trace, meta.n, k)
    && TableExact(Stores, meta.writeSets, meta.trace, meta.n, k)
    && TableExact(Releases, meta.releaseSets, meta.trace, meta.n, k)
  }

  class RaceAnalyze {
    var races: set<(nat, nat)>
    var syncHb: set<(nat, nat)>

    constructor ()
      ensures races == {} && syncHb == {}
    {
      races, syncHb := {}, {};
    }

    /** Remembers access `p`. */
    method Remember(meta: VarMeta, p: nat)
      requires Tracks(meta, p) && p < |meta.trace| && meta.trace[p].IsAccess()
      modifies meta, meta.Repr
      ensures Tracks(meta, p + 1) && meta.Repr == old(meta.Repr)
    {
      var e := meta.trace[p];
      StepOther(meta.clocks, meta.n, e);
      hide VarMeta.Valid, Step, TableExact;
      TableKeep(Releases, meta.releaseSets, meta.trace, meta.n, p);
      ghost var op := Operation(p, At(meta.trace, meta.n, p));
      if e.op.Load? {
        TableKeep(Stores, meta.writeSets, meta.trace, meta.n, p);
        TableUpdate(Loads, meta.readSets, meta.trace, meta.n, p, Lookup(meta.readSets, e.addr) + [op]);
        meta.PutRead(p);
      } else {
        TableUpdate(Loads, meta.readSets, meta.trace, meta.n, p, []);
        TableUpdate(Stores, meta.writeSets, meta.trace, meta.n, p, [op]);
        meta.PutWrite(p);
      }
    }

    method HandleVarAccessEvent(meta: VarMeta, p: nat)
      requires Tracks(meta, p) && p < |meta.trace| && meta.trace[p].IsAccess()
      requires RacesExact(races, meta.trace, p)
      modifies this`races, meta, meta.Repr
      ensures Tracks(meta, p + 1) && meta.Repr == old(meta.Repr)
      ensures RacesExact(races, meta.trace, p + 1)
    {
      var e := meta.trace[p];
      RaceHitsExact(Lookup(meta.readSets, e.addr), Lookup(meta.writeSets, e.addr), meta.trace, meta.n, p);
      hide VarMeta.Valid, TableExact, RaceHits, Reported, Run, RacesExact, PairsWith;
      var raceEvents := meta.GetRaceEvents(p);
      RacesGrow(races, raceEvents, meta.trace, p);
      races := races + PairsWith(raceEvents, p);
      Remember(meta, p);
    }

    /** Pairs an acquire with the releases it consumes. */
    method ConsumeReleases(meta: VarMeta, p: nat)
      requires Tracks(meta, p) && p < |meta.trace| && meta.trace[p].IsAcquire()
      requires SyncsExact(syncHb, meta.trace, p)
      modifies this`syncHb, meta`releaseSets
      ensures meta.Valid() && TableExact(Releases, meta.releaseSets, meta.trace, meta.n, p + 1)
      ensures SyncsExact(syncHb, meta.trace, p + 1)
    {
      var e := meta.trace[p];
      MembersExact(Lookup(meta.releaseSets, e.addr), meta.trace, meta.n, p);
      hide VarMeta.Valid, TableExact, SyncReported, Members, Run, SyncsExact, PairsWith;
      var events := meta.GetSyncHbEvents(p);
      SyncsGrow(syncHb, events, meta.trace, p);
      syncHb := syncHb + PairsWith(events, p);
      TableUpdate(Releases, meta.releaseSets, meta.trace, meta.n, p, []);
      meta.ClearSyncRel(p);
    }

    /** Remembers a release. */
    method RememberRelease(meta: VarMeta, p: nat)
      requires Tracks(meta, p) && p < |meta.trace| && meta.trace[p].IsRelease()
      modifies meta`releaseSets, meta`initialised, meta.Repr
      ensures meta.Valid() && TableExact(Releases, meta.releaseSets, meta.trace, meta.n, p + 1)
    {
      hide VarMeta.Valid, TableExact;
      TableUpdate(Releases, meta.releaseSets, meta.trace, meta.n, p,
                  Lookup(meta.releaseSets, meta.trace[p].addr) + [Operation(p, At(meta.trace, meta.n, p))]);
      meta.PutSyncRel(p);
    }

    /** A synchronisation or thread event: the pairs first, the clocks after. */
    method HandleSyncOpEvent(meta: VarMeta, p: nat)
      requires Tracks(meta, p) && p < |meta.trace| && meta.Roomy()
      requires meta.trace[p].IsSyncOp() || meta.trace[p].IsThreadOp()
      requires SyncsExact(syncHb, meta.trace, p)
      modifies this`syncHb, meta, meta.Repr
      ensures Tracks(meta, p + 1) && fresh(meta.Repr - old(meta.Repr))
      ensures SyncsExact(syncHb, meta.trace, p + 1)
    {
      TableKeep(Loads, meta.readSets, meta.trace, meta.n, p);
      TableKeep(Stores, meta.writeSets, meta.trace, meta.n, p);
      hide VarMeta.Valid, Step, TableExact;
      if meta.trace[p].IsAcquire() {
        ConsumeReleases(meta, p);
      } else {
        SyncsStay(syncHb, meta.trace, p);
        if meta.trace[p].IsRelease() {
          RememberRelease(meta, p);
        } else {
          TableKeep(Releases, meta.releaseSets, meta.trace, meta.n, p);
        }
      }
      if meta.trace[p].IsThreadOp() {
        meta.HandleThreadOpEvent(p);
      } else {
        meta.HandleSyncOpEvent(p);
      }
    }

    method HandleEvent(meta: VarMeta, p: nat)
      requires Tracks(meta, p) && p < |meta.trace| && |meta.trace| + 1 < WORD
      requires meta.trace[p].IsThreadOp() || meta.trace[p].IsSyncOp() || meta.trace[p].IsVarAccess()
      requires RacesExact(races, meta.trace, p) && SyncsExact(syncHb, meta.trace, p)
      modifies this, meta, meta.Repr
      ensures Tracks(meta, p + 1) && fresh(meta.Repr - old(meta.Repr))
      ensures RacesExact(races, meta.trace, p + 1) && SyncsExact(syncHb, meta.trace, p + 1)
    {
      RoomyAt(meta, p);
      hide Tracks, RacesExact, SyncsExact, VarMeta.Roomy, VarMeta.Valid;
      if meta.trace[p].IsThreadOp() || meta.trace[p].IsSyncOp() {
        RacesStay(races, meta.trace, p);
        HandleSyncOpEvent(meta, p);
      } else {
        SyncsStay(syncHb, meta.trace, p);
        HandleVarAccessEvent(meta, p);
      }
    }

    /** The detector's loop; `ok` is false when its assertion stops it. */
    method HandleEvents(meta: VarMeta, syncVars: set<nat>) returns (ok: bool)
      requires Tracks(meta, 0) && races == {} && syncHb == {} && |meta.trace| + 1 < WORD
      modifies this, meta, meta.Repr
      ensures ok <==> Analyzable(meta.trace, syncVars)
      ensures ok ==> RacesExact(races, meta.trace, |meta.trace|) && SyncsExact(syncHb, meta.trace, |meta.trace|)
    {
      assert RacesExact(races, meta.trace, 0) && SyncsExact(syncHb, meta.trace, 0);
      hide Tracks, RacesExact, SyncsExact, Reported, SyncReported, VarMeta.Roomy, VarMeta.Valid;
      var p := 0;
      while p < |meta.trace| && EventAccepted(meta.trace[p], syncVars)
        invariant p <= |meta.trace| && Tracks(meta, p) && fresh(meta.Repr - old(meta.Repr))
        invariant RacesExact(races, meta.trace, p) && SyncsExact(syncHb, meta.trace, p)
        invariant forall i :: 0 <= i < p ==> EventAccepted(meta.trace[i], syncVars)
      {
        HandleEvent(meta, p);
        p := p + 1;
      }
      ok := p == |meta.trace|;
    }

    /** Runs the detector over a trace; `ok` is false when it meets an event it does not accept.
        The reported race pairs are exactly the unordered conflicting pairs with no store between,
        the reported synchronisation pairs exactly the release-acquire pairs with no acquire
        between. */
    method Analyze(graph: seq<Event>, n: nat, syncVars: set<nat>) returns (ok: bool)
      requires TidsBelow(graph, n) && |graph| + 1 < WORD
      requires races == {} && syncHb == {}
      modifies this
      ensures ok <==> Analyzable(graph, syncVars)
      ensures ok ==> forall i: nat, j: nat :: (i, j) in races <==> Reported(graph, i, j)
      ensures ok ==> forall i: nat, j: nat :: (i, j) in syncHb <==> SyncReported(graph, i, j)
    {
      var meta := new VarMeta(n, graph);
      TracksStart(meta);
      hide Tracks, RacesExact, SyncsExact, VarMeta.Valid;
      ok := HandleEvents(meta, syncVars);
      if ok {
        AllReported(races, syncHb, graph);
      }
    }
  }

  /** The counters never reach 2^64 within the length of the trace. */
  lemma RoomyAt(meta: VarMeta, p: nat)
    requires Tracks(meta, p) && |meta.trace| + 1 < WORD && p < |meta.trace|
    ensures meta.Roomy()
  {
    forall u | 0 <= u < meta.n ensures meta.clocks.threads[u][u] + 1 < WORD {
      OwnTickExact(meta.trace, meta.n, p, u);
    }
  }

  /** Pairs of every member of `firsts` with `second`. */
  function PairsWith(firsts: set<nat>, second: nat): set<(nat, nat)> {
    set i | i in firsts :: (i, second)
  }

  lemma RacesGrow(races: set<(nat, nat)>, hits: set<nat>, t: seq<Event>, p: nat)
    requires p < |t| && RacesExact(races, t, p)
    requires forall i: nat :: i in hits <==> Reported(t, i, p)
    ensures RacesExact(races + PairsWith(hits, p), t, p + 1)
  {
  }

  lemma SyncsGrow(pairs: set<(nat, nat)>, releases: set<nat>, t: seq<Event>, p: nat)
    requires p < |t| && SyncsExact(pairs, t, p)
    requires forall i: nat :: i in releases <==> SyncReported(t, i, p)
    ensures SyncsExact(pairs + PairsWith(releases, p), t, p + 1)
  {
  }

  lemma RacesStay(races: set<(nat, nat)>, t: seq<Event>, p: nat)
    requires p < |t| && RacesExact(races, t, p) && !t[p].IsAccess()
    ensures RacesExact(races, t, p + 1)
  {
  }

  lemma SyncsStay(pairs: set<(nat, nat)>, t: seq<Event>, p: nat)
    requires p < |t| && SyncsExact(pairs, t, p) && !t[p].IsAcquire()
    ensures SyncsExact(pairs, t, p + 1)
  {
  }

  lemma TracksStart(meta: VarMeta)
    requires meta.Valid() && meta.clocks == Start(meta.n)
    requires meta.readSets == meta.writeSets == meta.releaseSets == map[]
    ensures Tracks(meta, 0)
  {
  }

  lemma AllReported(races: set<(nat, nat)>, pairs: set<(nat, nat)>, t: seq<Event>)
    requires RacesExact(races, t, |t|) && SyncsExact(pairs, t, |t|)
    ensures forall i: nat, j: nat :: (i, j) in races <==> Reported(t, i, j)
    ensures forall i: nat, j: nat :: (i, j) in pairs <==> SyncReported(t, i, j)
  {
  }
}
