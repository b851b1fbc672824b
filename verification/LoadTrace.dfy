// Loading a raw trace: array accesses become single-address accesses, shared variables are
// found, thread-local and read-only accesses are dropped.
module TraceLoading {
  import opened Events
  import opened Races
  import opened Filtering

  /** The events one raw event contributes; function-call events contribute none. */
  function ExpandOne(e: Event): seq<Event> {
    if e.IsAccess() then seq(e.len, l requires 0 <= l < e.len => e.Element(l))
    else if e.IsSyncOp() || e.IsThreadOp() then [e]
    else []
  }

  function Expand(raw: seq<Event>, k: nat): seq<Event>
    requires k <= |raw|
  {
    if k == 0 then [] else Expand(raw, k - 1) + ExpandOne(raw[k - 1])
  }

  /** The parser's and the loader's assertions on the first `k` events: timestamps count the
      events, lengths are positive. */
  predicate Accepted(raw: seq<Event>, k: nat)
    requires k <= |raw|
  {
    forall i :: 0 <= i < k ==> raw[i].ts == i && HasLength(raw[i])
  }

  /** The addresses of synchronisation events. */
  ghost predicate SyncAddress(raw: seq<Event>, k: nat, a: nat)
    requires k <= |raw|
  {
    exists i :: 0 <= i < k && raw[i].IsSyncOp() && raw[i].addr == a
  }

  ghost predicate SyncsFound(vars: set<nat>, raw: seq<Event>, k: nat)
    requires k <= |raw|
  {
    forall a: nat :: a in vars <==> SyncAddress(raw, k, a)
  }

  lemma SyncsFoundNext(vars: set<nat>, raw: seq<Event>, k: nat)
    requires k < |raw| && SyncsFound(vars, raw, k)
    ensures SyncsFound(if raw[k].IsSyncOp() then vars + {raw[k].addr} else vars, raw, k + 1)
  {
  }

  /** The scan's bookkeeping describes the expanded prefix `x`. */
  ghost predicate ScanExact(x: seq<Event>, last: map<nat, nat>, written: set<nat>, shared: set<nat>) {
    && (forall a: nat :: a in last ==> TouchedBy(x, a, last[a]))
    && (forall a: nat, u: nat :: TouchedBy(x, a, u) ==> a in last)
    && (forall a: nat :: a in written <==> StoredIn(x, a))
    && (forall a: nat :: a in shared ==> a in last)
    && (forall a: nat :: a in last ==>
          (a in shared <==> exists v: nat :: v != last[a] && TouchedBy(x, a, v)))
  }

  lemma TouchedByStep(x: seq<Event>, e: Event, a: nat, u: nat)
    ensures TouchedBy(x + [e], a, u) <==>
            (TouchedBy(x, a, u) || (e.IsAccess() && e.addr == a && e.tid == u))
  {
    if TouchedBy(x, a, u) {
      var i :| 0 <= i < |x| && x[i].IsAccess() && x[i].addr == a && x[i].tid == u;
      assert (x + [e])[i] == x[i];
    }
    assert (x + [e])[|x|] == e;
  }

  lemma StoredInStep(x: seq<Event>, e: Event, a: nat)
    ensures StoredIn(x + [e], a) <==> (StoredIn(x, a) || StoresTo(e, a))
  {
    if StoredIn(x, a) {
      var i :| 0 <= i < |x| && StoresTo(x[i], a);
      assert (x + [e])[i] == x[i];
    }
    assert (x + [e])[|x|] == e;
  }

  /** The next bookkeeping after one more single access. */
  lemma ScanStep(x: seq<Event>, e: Event, last: map<nat, nat>, written: set<nat>, shared: set<nat>,
                 last': map<nat, nat>, written': set<nat>, shared': set<nat>)
    requires ScanExact(x, last, written, shared) && e.IsAccess()
    requires written' == if e.op.Store? then written + {e.addr} else written
    requires last' == if e.addr in last then last else last[e.addr := e.tid]
    requires shared' == if e.addr in last && last[e.addr] != e.tid then shared + {e.addr} else shared
    ensures ScanExact(x + [e], last', written', shared')
  {
    forall a: nat, u: nat
      ensures TouchedBy(x + [e], a, u) <==> (TouchedBy(x, a, u) || (e.addr == a && e.tid == u))
    {
      TouchedByStep(x, e, a, u);
    }
    forall a: nat ensures StoredIn(x + [e], a) <==> (StoredIn(x, a) || StoresTo(e, a)) {
      StoredInStep(x, e, a);
    }
    assert TouchedBy(x + [e], e.addr, e.tid);
  }

  lemma ScanSkip(x: seq<Event>, e: Event, last: map<nat, nat>, written: set<nat>, shared: set<nat>)
    requires ScanExact(x, last, written, shared) && !e.IsAccess()
    ensures ScanExact(x + [e], last, written, shared)
  {
    forall a: nat, u: nat ensures TouchedBy(x + [e], a, u) <==> TouchedBy(x, a, u) {
      TouchedByStep(x, e, a, u);
    }
    forall a: nat ensures StoredIn(x + [e], a) <==> StoredIn(x, a) {
      StoredInStep(x, e, a);
    }
  }

  /** Accessed by two threads, read off the bookkeeping, and stored. */
  lemma ScanShared(x: seq<Event>, last: map<nat, nat>, written: set<nat>, shared: set<nat>, a: nat)
    requires ScanExact(x, last, written, shared)
    ensures a in shared && a in written <==> Shared(x, a)
  {
    if Shared(x, a) {
      var u, v :| u != v && TouchedBy(x, a, u) && TouchedBy(x, a, v);
      assert u != last[a] || v != last[a];
    }
    if a in shared && a in written {
      var v: nat :| v != last[a] && TouchedBy(x, a, v);
      assert TouchedBy(x, a, last[a]);
    }
  }

  /** Looking at one more event: it joins the survivors or leaves the list. */
  lemma EraseStep(x: seq<Event>, keep: set<nat>, k: nat)
    requires k < |x|
    ensures
      var done := Survivors(x, keep, k);
      var tot := done + x[k..];
      && tot[|done|] == x[k]
      && (Survivors(x, keep, k + 1) + x[k + 1..] ==
          if Retained(x[k], keep) then tot else tot[..|done|] + tot[|done| + 1..])
  {
  }

  class DepGraph {
    var totEvents: seq<Event>
    var sharedVars: set<nat>
    var syncVars: set<nat>
    var totNrEvents: nat

    constructor ()
      ensures totEvents == [] && sharedVars == {} && syncVars == {}
    {
      totEvents, sharedVars, syncVars, totNrEvents := [], {}, {}, 0;
    }

    /** Appends the elements of one access and notes who touched them. */
    method AddAccess(e: Event, last: map<nat, nat>, written: set<nat>)
      returns (last': map<nat, nat>, written': set<nat>)
      requires e.IsAccess() && HasLength(e) && ScanExact(totEvents, last, written, sharedVars)
      modifies this`totEvents, this`sharedVars
      ensures totEvents == old(totEvents) + ExpandOne(e)
      ensures ScanExact(totEvents, last', written', sharedVars)
    {
      last', written' := last, written;
      for l := 0 to e.len
        invariant totEvents == old(totEvents) + ExpandOne(e)[..l]
        invariant ScanExact(totEvents, last', written', sharedVars)
      {
        var element := e.Element(l);
        ghost var x, last0, written0, shared0 := totEvents, last', written', sharedVars;
        totEvents := totEvents + [element];
        var a := element.addr;
        if e.op.Store? {
          written' := written' + {a};
        }
        if a !in sharedVars {
          if a in last' {
            if last'[a] != element.tid {
              sharedVars := sharedVars + {a};
            }
          } else {
            last' := last'[a := element.tid];
          }
        }
        ScanStep(x, element, last0, written0, shared0, last', written', sharedVars);
        assert ExpandOne(e)[..l + 1] == ExpandOne(e)[..l] + [element];
      }
      assert ExpandOne(e)[..e.len] == ExpandOne(e);
    }

    /** Removes from the shared variables those never written. */
    method RemoveReadOnly(written: set<nat>)
      modifies this`sharedVars
      ensures sharedVars == old(sharedVars) * written
    {
      var todo := sharedVars;
      while todo != {}
        invariant todo <= sharedVars <= old(sharedVars)
        invariant forall a :: a in old(sharedVars) && a !in todo ==> (a in sharedVars <==> a in written)
        invariant forall a :: a in todo ==> a in sharedVars
        decreases |todo|
      {
        var a :| a in todo;
        todo := todo - {a};
        if a !in written {
          sharedVars := sharedVars - {a};
        }
      }
    }

    /** Erases, in place, the accesses to addresses that are not shared. */
    method RemoveUnshared()
      modifies this`totEvents
      ensures totEvents == Filter(old(totEvents), sharedVars)
    {
      ghost var x := totEvents;
      ghost var k := 0;  // how many of the original events were looked at
      var i := 0;
      while i < |totEvents|
        invariant k <= |x| && i == |Survivors(x, sharedVars, k)|
        invariant totEvents == Survivors(x, sharedVars, k) + x[k..]
        decreases |x| - k
      {
        EraseStep(x, sharedVars, k);
        if totEvents[i].IsAccess() && totEvents[i].addr !in sharedVars {
          totEvents := totEvents[..i] + totEvents[i + 1..];
        } else {
          i := i + 1;
        }
        k := k + 1;
      }
    }

    /** Reads a raw trace; `ok` is false when an assertion of the parser or the loader stops it.
        What is kept is exactly the expansion of the trace minus the accesses to addresses that
        fewer than two threads touch or nobody stores to. */
    method LoadTrace(raw: seq<Event>) returns (ok: bool)
      requires totEvents == [] && sharedVars == {} && syncVars == {}
      modifies this
      ensures ok <==> Accepted(raw, |raw|)
      ensures ok ==> forall a: nat :: a in sharedVars <==> Shared(Expand(raw, |raw|), a)
      ensures ok ==> forall a: nat :: a in syncVars <==> SyncAddress(raw, |raw|, a)
      ensures ok ==> totEvents == Filter(Expand(raw, |raw|), sharedVars)
      ensures ok ==> totNrEvents == |Expand(raw, |raw|)|
    {
      var last: map<nat, nat>, written: set<nat> := map[], {};
      for k := 0 to |raw|
        invariant Accepted(raw, k)
        invariant totEvents == Expand(raw, k) && SyncsFound(syncVars, raw, k)
        invariant ScanExact(totEvents, last, written, sharedVars)
      {
        var e := raw[k];
        if e.ts != k || (e.IsAccess() && e.len == 0) {
          return false;
        }
        SyncsFoundNext(syncVars, raw, k);
        hide ScanExact, SyncsFound;
        if e.IsSyncOp() {
          syncVars := syncVars + {e.addr};
          ScanSkip(totEvents, e, last, written, sharedVars);
          totEvents := totEvents + [e];
        } else if e.IsAccess() {
          last, written := AddAccess(e, last, written);
        } else if e.IsThreadOp() {
          ScanSkip(totEvents, e, last, written, sharedVars);
          totEvents := totEvents + [e];
        } else {
          assert totEvents + [] == totEvents;
        }
      }
      totNrEvents := |totEvents|;
      ghost var x, touched := totEvents, sharedVars;
      RemoveReadOnly(written);
      forall a: nat ensures a in sharedVars <==> Shared(x, a) {
        ScanShared(x, last, written, touched, a);
      }
      RemoveUnshared();
      ok := true;
    }
  }
}
