// The whole detection: load, analyse, group the races, account them per thread.
module Detection {
  import opened Events
  import opened ClockMachine
  import opened Races
  import opened Filtering
  import opened TraceLoading
  import opened RaceAnalysis
  import opened RaceTable

  // ----- per-thread summaries -------------------------------------------------------

  datatype PairKind = RacePairs | SyncPairs

  datatype Side = Before | After

  datatype Item = NrEvent | Count(kind: PairKind, side: Side) | Distance(kind: PairKind, side: Side)

  type Items = map<(nat, Item), nat>

  function Get(items: Items, tid: nat, item: Item): nat {
    if (tid, item) in items then items[(tid, item)] else 0
  }

  /** Summed over the threads below `n`. */
  function Total(items: Items, item: Item, n: nat): nat {
    if n == 0 then 0 else Total(items, item, n - 1) + Get(items, n - 1, item)
  }

  lemma {:induction false} TotalInc(items: Items, tid: nat, item: Item, v: nat, other: Item, n: nat)
    ensures Total(items[(tid, item) := Get(items, tid, item) + v], other, n) ==
            Total(items, other, n) + if other == item && tid < n then v else 0
  {
    if n > 0 {
      TotalInc(items, tid, item, v, other, n - 1);
    }
  }

  /** What `count` pairs, `d` apart in sum, add to an item's total. */
  function Credit(kind: PairKind, count: nat, d: nat, item: Item): nat {
    match item
    case NrEvent => 0
    case Count(k, _) => if k == kind then count else 0
    case Distance(k, _) => if k == kind then d else 0
  }

  /** The four increments of one pair. */
  lemma PairCredited(i0: Items, i1: Items, i2: Items, i3: Items, i4: Items, earlier: nat, later: nat,
                     kind: PairKind, d: nat, item: Item, n: nat)
    requires earlier < n && later < n
    requires i1 == i0[(earlier, Distance(kind, Before)) := Get(i0, earlier, Distance(kind, Before)) + d]
    requires i2 == i1[(later, Distance(kind, After)) := Get(i1, later, Distance(kind, After)) + d]
    requires i3 == i2[(earlier, Count(kind, Before)) := Get(i2, earlier, Count(kind, Before)) + 1]
    requires i4 == i3[(later, Count(kind, After)) := Get(i3, later, Count(kind, After)) + 1]
    ensures Total(i4, item, n) == Total(i0, item, n) + Credit(kind, 1, d, item)
  {
    hide Total, Get;
    TotalInc(i0, earlier, Distance(kind, Before), d, item, n);
    TotalInc(i1, later, Distance(kind, After), d, item, n);
    TotalInc(i2, earlier, Count(kind, Before), 1, item, n);
    TotalInc(i3, later, Count(kind, After), 1, item, n);
    match item {
      case NrEvent =>
      case Count(_, Before) =>
      case Count(_, After) =>
      case Distance(_, Before) =>
      case Distance(_, After) =>
    }
  }

  function Gap(e: Event, f: Event): nat { if e.ts < f.ts then f.ts - e.ts else e.ts - f.ts }

  /** What one pair adds to one thread: the thread of the earlier event has a pair before another
      thread's and the thread of the later event one after, each as far apart as the timestamps. */
  function Share(e: Event, f: Event, kind: PairKind, u: nat, item: Item): nat {
    var (x, y) := if e.ts < f.ts then (e, f) else (f, e);
    match item
    case NrEvent => 0
    case Count(k, Before) => if k == kind && u == x.tid then 1 else 0
    case Count(k, After) => if k == kind && u == y.tid then 1 else 0
    case Distance(k, Before) => if k == kind && u == x.tid then y.ts - x.ts else 0
    case Distance(k, After) => if k == kind && u == y.tid then y.ts - x.ts else 0
  }

  /** The four increments, thread by thread. */
  lemma PairShared(i0: Items, i1: Items, i2: Items, i3: Items, i4: Items, first: Event, second: Event,
                   kind: PairKind, u: nat, item: Item)
    requires
      var (e, f) := if first.ts < second.ts then (first, second) else (second, first);
      && i1 == i0[(e.tid, Distance(kind, Before)) := Get(i0, e.tid, Distance(kind, Before)) + Gap(first, second)]
      && i2 == i1[(f.tid, Distance(kind, After)) := Get(i1, f.tid, Distance(kind, After)) + Gap(first, second)]
      && i3 == i2[(e.tid, Count(kind, Before)) := Get(i2, e.tid, Count(kind, Before)) + 1]
      && i4 == i3[(f.tid, Count(kind, After)) := Get(i3, f.tid, Count(kind, After)) + 1]
    ensures Get(i4, u, item) == Get(i0, u, item) + Share(first, second, kind, u, item)
  {
    match item {
      case NrEvent =>
      case Count(_, Before) =>
      case Count(_, After) =>
      case Distance(_, Before) =>
      case Distance(_, After) =>
    }
  }

  /** Pairs of positions in the trace with different timestamps. */
  predicate Distinguished(t: seq<Event>, pairs: set<(nat, nat)>) {
    forall p :: p in pairs ==> p.0 < |t| && p.1 < |t| && t[p.0].ts != t[p.1].ts
  }

  ghost function Pick(pairs: set<(nat, nat)>): (p: (nat, nat))
    requires pairs != {}
    ensures p in pairs
  {
    var p :| p in pairs;
    p
  }

  /** What the pairs weigh together. */
  ghost function Sum(pairs: set<(nat, nat)>, w: ((nat, nat)) -> nat): nat {
    if pairs == {} then 0
    else
      var p := Pick(pairs);
      w(p) + Sum(pairs - {p}, w)
  }

  /** The order of adding does not matter. */
  lemma {:induction false} SumAny(pairs: set<(nat, nat)>, w: ((nat, nat)) -> nat, p: (nat, nat))
    requires p in pairs
    ensures Sum(pairs, w) == w(p) + Sum(pairs - {p}, w)
    decreases |pairs|
  {
    var q := Pick(pairs);
    if p != q {
      SumAny(pairs - {q}, w, p);
      SumAny(pairs - {p}, w, q);
      assert pairs - {q} - {p} == pairs - {p} - {q};
    }
  }

  function Gaps(t: seq<Event>): ((nat, nat)) -> nat {
    (p: (nat, nat)) => if p.0 < |t| && p.1 < |t| then Gap(t[p.0], t[p.1]) else 0
  }

  function Shares(t: seq<Event>, kind: PairKind, u: nat, item: Item): ((nat, nat)) -> nat {
    (p: (nat, nat)) => if p.0 < |t| && p.1 < |t| then Share(t[p.0], t[p.1], kind, u, item) else 0
  }

  /** The distances of the pairs, added up. */
  ghost function GapSum(t: seq<Event>, pairs: set<(nat, nat)>): nat { Sum(pairs, Gaps(t)) }

  lemma GapSumAny(t: seq<Event>, pairs: set<(nat, nat)>, p: (nat, nat))
    requires Distinguished(t, pairs) && p in pairs
    ensures GapSum(t, pairs) == GapSum(t, pairs - {p}) +
      if t[p.0].ts < t[p.1].ts then t[p.1].ts - t[p.0].ts else t[p.0].ts - t[p.1].ts
  {
    SumAny(pairs, Gaps(t), p);
  }

  ghost predicate TotalsCredited(before: Items, after: Items, kind: PairKind, n: nat,
                                 t: seq<Event>, pairs: set<(nat, nat)>)
  {
    forall item :: Total(after, item, n) == Total(before, item, n) + Credit(kind, |pairs|, GapSum(t, pairs), item)
  }

  ghost predicate SharesCredited(before: Items, after: Items, kind: PairKind, t: seq<Event>, pairs: set<(nat, nat)>) {
    forall u: nat, item :: Get(after, u, item) == Get(before, u, item) + Sum(pairs, Shares(t, kind, u, item))
  }

  /** Exactly these pairs were credited: each once before and once after, with its distance, and
      each to its own two threads. */
  ghost predicate Accounted(before: Items, after: Items, kind: PairKind, n: nat,
                            t: seq<Event>, pairs: set<(nat, nat)>)
    requires Distinguished(t, pairs)
  {
    TotalsCredited(before, after, kind, n, t, pairs) && SharesCredited(before, after, kind, t, pairs)
  }

  lemma AccountedStart(items: Items, kind: PairKind, n: nat, t: seq<Event>)
    ensures Accounted(items, items, kind, n, t, {})
  {
  }

  lemma TotalsStep(before: Items, mid: Items, after: Items, kind: PairKind, n: nat,
                   t: seq<Event>, done: set<(nat, nat)>, p: (nat, nat))
    requires Distinguished(t, done + {p}) && p !in done && TotalsCredited(before, mid, kind, n, t, done)
    requires forall item ::
      Total(after, item, n) == Total(mid, item, n) + Credit(kind, 1, Gap(t[p.0], t[p.1]), item)
    ensures TotalsCredited(before, after, kind, n, t, done + {p})
  {
    GapSumAny(t, done + {p}, p);
    assert done + {p} - {p} == done && |done + {p}| == |done| + 1;
    var more, g := done + {p}, Gap(t[p.0], t[p.1]);
    hide GapSum, Gap, Total;
    forall item
      ensures Credit(kind, |more|, GapSum(t, more), item) ==
              Credit(kind, |done|, GapSum(t, done), item) + Credit(kind, 1, g, item)
    {
      match item { case NrEvent => case Count(_, _) => case Distance(_, _) => }
    }
  }

  lemma SharesStep(before: Items, mid: Items, after: Items, kind: PairKind,
                   t: seq<Event>, done: set<(nat, nat)>, p: (nat, nat))
    requires p !in done && p.0 < |t| && p.1 < |t| && SharesCredited(before, mid, kind, t, done)
    requires forall u: nat, item ::
      Get(after, u, item) == Get(mid, u, item) + Share(t[p.0], t[p.1], kind, u, item)
    ensures SharesCredited(before, after, kind, t, done + {p})
  {
    assert done + {p} - {p} == done;
    hide Sum, Get, Share;
    forall u: nat, item
      ensures Get(after, u, item) == Get(before, u, item) + Sum(done + {p}, Shares(t, kind, u, item))
    {
      SumAny(done + {p}, Shares(t, kind, u, item), p);
    }
  }

  lemma AccountedStep(before: Items, mid: Items, after: Items, kind: PairKind, n: nat,
                      t: seq<Event>, done: set<(nat, nat)>, p: (nat, nat))
    requires Distinguished(t, done + {p}) && p !in done && Accounted(before, mid, kind, n, t, done)
    requires forall item ::
      Total(after, item, n) == Total(mid, item, n) + Credit(kind, 1, Gap(t[p.0], t[p.1]), item)
    requires forall u: nat, item ::
      Get(after, u, item) == Get(mid, u, item) + Share(t[p.0], t[p.1], kind, u, item)
    ensures Accounted(before, after, kind, n, t, done + {p})
  {
    hide TotalsCredited, SharesCredited, Total, Get, Credit, Share, Gap;
    assert p in done + {p};
    TotalsStep(before, mid, after, kind, n, t, done, p);
    SharesStep(before, mid, after, kind, t, done, p);
  }

  /** Moving one pair from what is to do to what is done. */
  lemma MoveOne(t: seq<Event>, pairs: set<(nat, nat)>, done: set<(nat, nat)>, todo: set<(nat, nat)>, p: (nat, nat))
    requires Distinguished(t, pairs) && done + todo == pairs && done !! todo && p in todo
    ensures (done + {p}) + (todo - {p}) == pairs && (done + {p}) !! (todo - {p})
    ensures p in pairs && p !in done && |todo - {p}| < |todo|
    ensures Distinguished(t, done + {p}) && Distinguished(t, done)
  {
  }

  /** Which of the first `k` events are the thread's. */
  function EventsOf(t: seq<Event>, k: nat, u: nat): set<nat>
    requires k <= |t|
  {
    set i | 0 <= i < k && t[i].tid == u
  }

  lemma EventsOfNext(t: seq<Event>, k: nat, u: nat)
    requires k < |t|
    ensures |EventsOf(t, k + 1, u)| == |EventsOf(t, k, u)| + if t[k].tid == u then 1 else 0
  {
    assert EventsOf(t, k + 1, u) == EventsOf(t, k, u) + if t[k].tid == u then {k} else {};
  }

  class ThreadSummary {
    var items: Items

    constructor ()
      ensures items == map[]
    {
      items := map[];
    }

    /** Only positive amounts may be added. */
    method IncItem(tid: nat, item: Item, v: nat)
      requires v > 0
      modifies this
      ensures items == old(items)[(tid, item) := Get(old(items), tid, item) + v]
    {
      items := items[(tid, item) := Get(items, tid, item) + v];
    }

    /** Credits a pair to both its threads, each with its side and the distance. */
    method AccountPair(first: Event, second: Event, kind: PairKind, ghost n: nat)
      requires first.ts != second.ts && first.tid < n && second.tid < n
      modifies this
      ensures forall item :: Total(items, item, n) ==
                             Total(old(items), item, n) + Credit(kind, 1, Gap(first, second), item)
      ensures forall u: nat, item :: Get(items, u, item) ==
                                     Get(old(items), u, item) + Share(first, second, kind, u, item)
    {
      var d := Gap(first, second);
      var earlier, later := first.tid, second.tid;
      if !(first.ts < second.ts) {
        earlier, later := second.tid, first.tid;
      }
      hide Total, Get, Credit, Share;
      ghost var i0 := items;
      IncItem(earlier, Distance(kind, Before), d);
      ghost var i1 := items;
      IncItem(later, Distance(kind, After), d);
      ghost var i2 := items;
      IncItem(earlier, Count(kind, Before), 1);
      ghost var i3 := items;
      IncItem(later, Count(kind, After), 1);
      forall item ensures Total(items, item, n) == Total(i0, item, n) + Credit(kind, 1, d, item) {
        PairCredited(i0, i1, i2, i3, items, earlier, later, kind, d, item, n);
      }
      forall u: nat, item ensures Get(items, u, item) == Get(i0, u, item) + Share(first, second, kind, u, item) {
        PairShared(i0, i1, i2, i3, items, first, second, kind, u, item);
      }
    }

    /** Every pair is counted once on either side, and its distance is added on both. */
    method AccountPairs(t: seq<Event>, pairs: set<(nat, nat)>, kind: PairKind, ghost n: nat)
      requires Distinguished(t, pairs) && TidsBelow(t, n)
      modifies this
      ensures Accounted(old(items), items, kind, n, t, pairs)
    {
      AccountedStart(items, kind, n, t);
      hide Accounted, Total, Gap;
      var todo := pairs;
      ghost var done: set<(nat, nat)> := {};
      while todo != {}
        invariant done + todo == pairs && done !! todo && Distinguished(t, done)
        invariant Accounted(old(items), items, kind, n, t, done)
        decreases |todo|
      {
        var p :| p in todo;
        MoveOne(t, pairs, done, todo, p);
        ghost var before := items;
        AccountPair(t[p.0], t[p.1], kind, n);
        AccountedStep(old(items), before, items, kind, n, t, done, p);
        todo, done := todo - {p}, done + {p};
      }
      assert done == pairs;
    }

    method AccountEvents(t: seq<Event>, ghost n: nat)
      requires TidsBelow(t, n)
      modifies this
      ensures forall item :: Total(items, item, n) ==
                             Total(old(items), item, n) + if item == NrEvent then |t| else 0
      ensures forall u: nat, item :: Get(items, u, item) ==
                                     Get(old(items), u, item) + if item == NrEvent then |EventsOf(t, |t|, u)| else 0
    {
      assert forall u: nat :: EventsOf(t, 0, u) == {};
      for k := 0 to |t|
        invariant forall item :: Total(items, item, n) ==
                                 Total(old(items), item, n) + if item == NrEvent then k else 0
        invariant forall u: nat, item ::
          Get(items, u, item) == Get(old(items), u, item) + if item == NrEvent then |EventsOf(t, k, u)| else 0
      {
        ghost var before := items;
        forall u: nat ensures |EventsOf(t, k + 1, u)| == |EventsOf(t, k, u)| + if t[k].tid == u then 1 else 0 {
          EventsOfNext(t, k, u);
        }
        IncItem(t[k].tid, NrEvent, 1);
        forall item ensures Total(items, item, n) == Total(before, item, n) + if item == NrEvent then 1 else 0 {
          TotalInc(before, t[k].tid, NrEvent, 1, item, n);
        }
      }
    }
  }

  // ----- timestamps of the loaded trace ---------------------------------------------

  /** Later positions have later timestamps, or are other elements of the same array access. */
  predicate StampsOrdered(x: seq<Event>, k: nat) {
    && (forall p :: 0 <= p < |x| ==> x[p].ts < k)
    && (forall p, q :: 0 <= p < q < |x| ==>
          && x[p].ts <= x[q].ts
          && (x[p].ts == x[q].ts ==> x[p].IsAccess() && x[q].IsAccess() && x[p].addr != x[q].addr))
  }

  /** What the parser and the loader insist on, and lengths a machine can hold. */
  predicate WellStamped(raw: seq<Event>) {
    Accepted(raw, |raw|) && forall i :: 0 <= i < |raw| ==> raw[i].len < WORD
  }

  lemma ElementsDiffer(e: Event, l: nat, m: nat)
    requires l < m < e.len < WORD
    ensures e.Element(l).addr != e.Element(m).addr
  {
  }

  lemma {:induction false} ExpandStamps(raw: seq<Event>, k: nat)
    requires WellStamped(raw) && k <= |raw|
    ensures StampsOrdered(Expand(raw, k), k)
  {
    if k > 0 {
      ExpandStamps(raw, k - 1);
      var x, e := Expand(raw, k - 1), raw[k - 1];
      var es := ExpandOne(e);
      assert forall l :: 0 <= l < |es| ==> es[l].ts == k - 1;
      forall l, m | 0 <= l < m < |es| ensures es[l].IsAccess() && es[m].IsAccess() && es[l].addr != es[m].addr {
        ElementsDiffer(e, l, m);
      }
      hide ExpandOne;
      forall p, q | 0 <= p < q < |x + es|
        ensures (x + es)[p].ts <= (x + es)[q].ts
        ensures (x + es)[p].ts == (x + es)[q].ts ==>
          (x + es)[p].IsAccess() && (x + es)[q].IsAccess() && (x + es)[p].addr != (x + es)[q].addr
      {
        if q < |x| {
        } else if p >= |x| {
          assert es[p - |x|].addr != es[q - |x|].addr;
        }
      }
    }
  }

  lemma FilterStamps(x: seq<Event>, keep: set<nat>, k: nat)
    requires StampsOrdered(x, k)
    ensures StampsOrdered(Filter(x, keep), k)
  {
    KeptSound(x, keep, |x|);
  }

  /** The assertion on positive distances holds for every reported pair. */
  lemma ReportedStampsDiffer(t: seq<Event>, k: nat, i: nat, j: nat)
    requires StampsOrdered(t, k) && (Reported(t, i, j) || SyncReported(t, i, j))
    ensures t[i].ts < t[j].ts
  {
  }

  // ----- the pipeline ---------------------------------------------------------------

  /** What the tool takes for granted of a trace: thread ids in range, sizes a machine can hold. */
  predicate Holdable(raw: seq<Event>, n: nat) {
    && TidsBelow(raw, n) && |Expand(raw, |raw|)| + 1 < WORD
    && forall i :: 0 <= i < |raw| ==> raw[i].len < WORD
  }

  /** No shared variable is used as a synchronisation variable. */
  ghost predicate SyncsApart(raw: seq<Event>) {
    forall a: nat :: Shared(Expand(raw, |raw|), a) ==> !SyncAddress(raw, |raw|, a)
  }

  lemma {:induction false} ExpandShape(raw: seq<Event>, k: nat, n: nat)
    requires TidsBelow(raw, n) && k <= |raw|
    ensures TidsBelow(Expand(raw, k), n)
    ensures forall i :: 0 <= i < |Expand(raw, k)| ==>
      var e := Expand(raw, k)[i]; e.IsThreadOp() || e.IsSyncOp() || e.IsVarAccess()
  {
    if k > 0 {
      ExpandShape(raw, k - 1, n);
      assert TidBelow(raw[k - 1], n);
    }
  }

  lemma {:induction false} FilterShorter(x: seq<Event>, keep: set<nat>, k: nat)
    requires k <= |x|
    ensures |Kept(x, keep, k)| <= k
  {
    if k > 0 {
      FilterShorter(x, keep, k - 1);
    }
  }

  /** Races of the loaded trace are races of the whole trace, on the same addresses. */
  lemma RacyAddressKept(x: seq<Event>, keep: set<nat>, n: nat, a: nat)
    requires TidsBelow(x, n) && (forall b :: Shared(x, b) ==> b in keep)
    ensures ReportedAddress(Filter(x, keep), a) <==> RacyAddress(x, a)
  {
    var y, ps := Filter(x, keep), Kept(x, keep, |x|);
    KeptSound(x, keep, |x|);
    NoRacyAddressLost(y, a);
    if RacyAddress(y, a) {
      var i: nat, j: nat :| Racy(y, i, j) && y[j].addr == a;
      FilteringKeepsReports(x, keep, n, i, j);
    }
    if RacyAddress(x, a) {
      var p: nat, q: nat :| Racy(x, p, q) && x[q].addr == a;
      FilteringLosesNothing(x, keep, p, q);
      FilteringKeepsReports(x, keep, n, |Kept(x, keep, p)|, |Kept(x, keep, q)|);
    }
  }

  // ----- grouping the races ---------------------------------------------------------

  /** Exactly the races of `done` are recorded, each under its instruction pair. */
  ghost predicate Grouped(entries: seq<Entry>, t: seq<Event>, done: set<(nat, nat)>)
    requires Distinguished(t, done)
  {
    && Size(entries) == |done|
    && forall key, r :: r in Runs(entries, key) <==>
         exists p :: p in done && r == RuntimeRace(t[p.0], t[p.1]) && OfInstructions(key, r)
  }

  /** Exactly the addresses of the races of `done`. */
  ghost predicate VarsOf(vars: set<nat>, t: seq<Event>, done: set<(nat, nat)>)
    requires Distinguished(t, done)
  {
    forall a: nat :: a in vars <==> exists p :: p in done && t[p.1].addr == a
  }

  lemma GroupedStep(es: seq<Entry>, es': seq<Entry>, t: seq<Event>, done: set<(nat, nat)>, p: (nat, nat))
    requires Distinguished(t, done + {p}) && Grouped(es, t, done) && p !in done
    requires Size(es') == Size(es) + 1
    requires
      var run := RuntimeRace(t[p.0], t[p.1]);
      forall key :: Runs(es', key) == Runs(es, key) + Filing(key, run)
    ensures Grouped(es', t, done + {p})
  {
    hide Runs, Size, OfInstructions;
    var run := RuntimeRace(t[p.0], t[p.1]);
    assert |done + {p}| == |done| + 1;
    forall key, r
      ensures r in Runs(es', key) <==>
        exists q :: q in done + {p} && r == RuntimeRace(t[q.0], t[q.1]) && OfInstructions(key, r)
    {
      assert r in Runs(es', key) <==> r in Runs(es, key) || r in Filing(key, run);
      if exists q :: q in done + {p} && r == RuntimeRace(t[q.0], t[q.1]) && OfInstructions(key, r) {
        var q :| q in done + {p} && r == RuntimeRace(t[q.0], t[q.1]) && OfInstructions(key, r);
        assert q == p || q in done;
      }
      if r in Runs(es, key) {
        var q :| q in done && r == RuntimeRace(t[q.0], t[q.1]) && OfInstructions(key, r);
        assert q in done + {p};
      } else if r in Runs(es', key) {
        assert p in done + {p} && r == run;
      }
    }
  }

  lemma GroupedStart(t: seq<Event>)
    ensures Grouped([], t, {}) && VarsOf({}, t, {})
  {
    assert forall key :: Runs([], key) == [];
  }

  lemma VarsStep(vars: set<nat>, t: seq<Event>, done: set<(nat, nat)>, p: (nat, nat))
    requires Distinguished(t, done + {p}) && VarsOf(vars, t, done) && t[p.0].addr == t[p.1].addr
    ensures VarsOf(vars + {t[p.0].addr, t[p.1].addr}, t, done + {p})
  {
    assert p in done + {p} && forall q :: q in done ==> q in done + {p};
  }

  /** One race: its variables, its table entry, its threads' summaries. */
  method RecordRace(t: seq<Event>, p: (nat, nat), raceVars: set<nat>, table: InstRaceTable, summary: ThreadSummary,
                    ghost done: set<(nat, nat)>, ghost items: Items, ghost n: nat)
    returns (vars: set<nat>)
    requires Distinguished(t, done + {p}) && p !in done && TidsBelow(t, n) && t[p.0].addr == t[p.1].addr
    requires table.Valid() && Grouped(table.entries, t, done) && VarsOf(raceVars, t, done)
    requires Accounted(items, summary.items, RacePairs, n, t, done)
    modifies table, summary
    ensures table.Valid() && Grouped(table.entries, t, done + {p}) && VarsOf(vars, t, done + {p})
    ensures Accounted(items, summary.items, RacePairs, n, t, done + {p})
  {
    hide Grouped, VarsOf, Accounted, Runs, Size, Total, Gap;
    VarsStep(raceVars, t, done, p);
    vars := raceVars + {t[p.0].addr, t[p.1].addr};
    ghost var es, before := table.entries, summary.items;
    table.AddRace(t[p.0], t[p.1]);
    GroupedStep(es, table.entries, t, done, p);
    summary.AccountPair(t[p.0], t[p.1], RacePairs, n);
    AccountedStep(items, before, summary.items, RacePairs, n, t, done, p);
  }

  method GroupRaces(t: seq<Event>, pairs: set<(nat, nat)>, table: InstRaceTable, summary: ThreadSummary, ghost n: nat)
    returns (raceVars: set<nat>)
    requires Distinguished(t, pairs) && TidsBelow(t, n) && table.Valid() && table.entries == []
    requires forall p :: p in pairs ==> t[p.0].addr == t[p.1].addr
    modifies table, summary
    ensures table.Valid() && Grouped(table.entries, t, pairs) && VarsOf(raceVars, t, pairs)
    ensures Accounted(old(summary.items), summary.items, RacePairs, n, t, pairs)
  {
    raceVars := {};
    AccountedStart(summary.items, RacePairs, n, t);
    GroupedStart(t);
    hide Grouped, VarsOf, Accounted, InstRaceTable.Valid, TidsBelow;
    var todo := pairs;
    ghost var done: set<(nat, nat)> := {};
    while todo != {}
      invariant done + todo == pairs && done !! todo && Distinguished(t, done)
      invariant table.Valid() && Grouped(table.entries, t, done) && VarsOf(raceVars, t, done)
      invariant Accounted(old(summary.items), summary.items, RacePairs, n, t, done)
      decreases |todo|
    {
      var p :| p in todo;
      MoveOne(t, pairs, done, todo, p);
      hide Distinguished;
      raceVars := RecordRace(t, p, raceVars, table, summary, done, old(summary.items), n);
      todo, done := todo - {p}, done + {p};
    }
    assert done == pairs;
  }

  /** What the detector may assume of the loaded trace. */
  lemma LoadedShape(raw: seq<Event>, n: nat, keep: set<nat>)
    requires Holdable(raw, n) && Accepted(raw, |raw|)
    ensures
      var t := Filter(Expand(raw, |raw|), keep);
      TidsBelow(t, n) && |t| + 1 < WORD && StampsOrdered(t, |raw|)
  {
    var x := Expand(raw, |raw|);
    ExpandShape(raw, |raw|, n);
    ExpandStamps(raw, |raw|);
    FilterShorter(x, keep, |x|);
    FilterTids(x, keep, n);
    FilterStamps(x, keep, |raw|);
  }

  /** A shared variable used as a synchronisation variable stops the detector. */
  lemma SharedSyncStops(x: seq<Event>, keep: set<nat>, syncVars: set<nat>, a: nat)
    requires Shared(x, a) && a in keep && a in syncVars
    ensures !Analyzable(Filter(x, keep), syncVars)
  {
    var i :| 0 <= i < |x| && StoresTo(x[i], a);
    KeptRank(x, keep, i);
    var r := |Kept(x, keep, i)|;
    hide Kept;
    assert Filter(x, keep)[r] == x[i] && !EventAccepted(x[i], syncVars);
  }

  /** Nothing else does. */
  lemma ApartAccepted(x: seq<Event>, keep: set<nat>, syncVars: set<nat>)
    requires forall i :: 0 <= i < |x| ==> x[i].IsThreadOp() || x[i].IsSyncOp() || x[i].IsVarAccess()
    requires forall a :: a in keep ==> a !in syncVars
    ensures Analyzable(Filter(x, keep), syncVars)
  {
    KeptSound(x, keep, |x|);
    var t := Filter(x, keep);
    hide Kept, Survivors, Filter;
    forall i | 0 <= i < |t| ensures EventAccepted(t[i], syncVars) {
      var k := Kept(x, keep, |x|)[i];
      assert t[i] == x[k] && Retained(x[k], keep);
    }
  }

  /** The detector's assertion on the loaded trace holds exactly if no shared variable is used as
      a synchronisation variable. */
  lemma {:induction false} AnalyzableExactly(raw: seq<Event>, n: nat, keep: set<nat>, syncVars: set<nat>)
    requires TidsBelow(raw, n)
    requires forall a: nat :: a in keep <==> Shared(Expand(raw, |raw|), a)
    requires forall a: nat :: a in syncVars <==> SyncAddress(raw, |raw|, a)
    ensures Analyzable(Filter(Expand(raw, |raw|), keep), syncVars) <==> SyncsApart(raw)
  {
    var x := Expand(raw, |raw|);
    ExpandShape(raw, |raw|, n);
    hide Shared, SyncAddress, Filter, Analyzable, Expand;
    if SyncsApart(raw) {
      ApartAccepted(x, keep, syncVars);
    } else {
      var a: nat :| Shared(x, a) && SyncAddress(raw, |raw|, a);
      SharedSyncStops(x, keep, syncVars, a);
    }
  }

  /** From a raw trace to the reports. `ok` is false when an assertion of the parser, the loader or
      the detector stops the tool: if and only if a timestamp is off, a length is zero or a shared
      variable is used as a synchronisation variable. Otherwise the reports are those of the loaded
      trace, the racy variables exactly those of the whole one, the table groups exactly the
      reported pairs, and the summaries count each pair and its distance on either side. */
  method Detect(raw: seq<Event>, n: nat)
    returns (ok: bool, graph: DepGraph, ra: RaceAnalyze, table: InstRaceTable, summary: ThreadSummary,
             raceVars: set<nat>)
    requires Holdable(raw, n)
    ensures ok <==> Accepted(raw, |raw|) && SyncsApart(raw)
    ensures ok ==> forall a: nat :: a in graph.sharedVars <==> Shared(Expand(raw, |raw|), a)
    ensures ok ==> graph.totEvents == Filter(Expand(raw, |raw|), graph.sharedVars)
    ensures ok ==> forall a: nat :: a in raceVars <==> RacyAddress(Expand(raw, |raw|), a)
    ensures ok ==> forall i: nat, j: nat :: (i, j) in ra.races <==> Reported(graph.totEvents, i, j)
    ensures ok ==> forall i: nat, j: nat :: (i, j) in ra.syncHb <==> SyncReported(graph.totEvents, i, j)
    ensures ok ==> Distinguished(graph.totEvents, ra.races) && Distinguished(graph.totEvents, ra.syncHb)
    ensures ok ==> table.Valid() && Grouped(table.entries, graph.totEvents, ra.races)
    ensures ok ==> Summarised(summary.items, n, graph.totEvents, ra.races, ra.syncHb)
  {
    graph := new DepGraph();
    ra := new RaceAnalyze();
    table := new InstRaceTable();
    summary := new ThreadSummary();
    raceVars := {};
    ok := graph.LoadTrace(raw);
    if !ok {
      return;
    }
    ghost var x := Expand(raw, |raw|);
    LoadedShape(raw, n, graph.sharedVars);
    AnalyzableExactly(raw, n, graph.sharedVars, graph.syncVars);
    var t := graph.totEvents;
    ok := ra.Analyze(t, n, graph.syncVars);
    if !ok {
      return;
    }
    PairsDistinguished(t, |raw|, ra.races, ra.syncHb);
    hide Grouped, Accounted, VarsOf, StampsOrdered, Reported, SyncReported, Shared;
    raceVars := GroupRaces(t, ra.races, table, summary, n);
    ghost var i1 := summary.items;
    summary.AccountPairs(t, ra.syncHb, SyncPairs, n);
    ghost var i2 := summary.items;
    summary.AccountEvents(t, n);
    Balances(i1, i2, summary.items, n, t, ra.races, ra.syncHb);
    forall a: nat ensures a in raceVars <==> RacyAddress(x, a) {
      ReportedVars(t, ra.races, raceVars, a);
      ExpandShape(raw, |raw|, n);
      RacyAddressKept(x, graph.sharedVars, n, a);
    }
  }

  /** What the summaries say in total: events, pairs of either kind on either side, and the pairs'
      distances on either side. */
  ghost predicate Summarised(items: Items, n: nat, t: seq<Event>, races: set<(nat, nat)>, syncs: set<(nat, nat)>)
    requires Distinguished(t, races) && Distinguished(t, syncs)
  {
    && Total(items, NrEvent, n) == |t|
    && (forall side :: Total(items, Count(RacePairs, side), n) == |races|)
    && (forall side :: Total(items, Count(SyncPairs, side), n) == |syncs|)
    && (forall side :: Total(items, Distance(RacePairs, side), n) == GapSum(t, races))
    && (forall side :: Total(items, Distance(SyncPairs, side), n) == GapSum(t, syncs))
    && (forall u :: 0 <= u < n ==> ThreadSummarised(items, t, races, syncs, u))
  }

  /** The pairs whose first, and whose second, event is the thread's. */
  function PairsFrom(t: seq<Event>, pairs: set<(nat, nat)>, u: nat): set<(nat, nat)>
    requires Distinguished(t, pairs)
  {
    set p | p in pairs && t[p.0].tid == u
  }

  function PairsTo(t: seq<Event>, pairs: set<(nat, nat)>, u: nat): set<(nat, nat)>
    requires Distinguished(t, pairs)
  {
    set p | p in pairs && t[p.1].tid == u
  }

  /** What the summaries say of one thread: its events, the pairs it is first and second in, and
      the distances of these. */
  ghost predicate ThreadSummarised(items: Items, t: seq<Event>, races: set<(nat, nat)>, syncs: set<(nat, nat)>, u: nat)
    requires Distinguished(t, races) && Distinguished(t, syncs)
  {
    && Get(items, u, NrEvent) == |EventsOf(t, |t|, u)|
    && PairsSummarised(items, t, RacePairs, races, u) && PairsSummarised(items, t, SyncPairs, syncs, u)
  }

  ghost predicate PairsSummarised(items: Items, t: seq<Event>, kind: PairKind, pairs: set<(nat, nat)>, u: nat)
    requires Distinguished(t, pairs)
  {
    && Get(items, u, Count(kind, Before)) == |PairsFrom(t, pairs, u)|
    && Get(items, u, Count(kind, After)) == |PairsTo(t, pairs, u)|
    && Get(items, u, Distance(kind, Before)) == GapSum(t, PairsFrom(t, pairs, u))
    && Get(items, u, Distance(kind, After)) == GapSum(t, PairsTo(t, pairs, u))
  }

  /** Every pair's first event has the smaller timestamp. */
  predicate InStampOrder(t: seq<Event>, pairs: set<(nat, nat)>) {
    forall p :: p in pairs ==> p.0 < |t| && p.1 < |t| && t[p.0].ts < t[p.1].ts
  }

  /** A weight that counts only some of the pairs. */
  lemma {:induction false} SumPart(pairs: set<(nat, nat)>, w: ((nat, nat)) -> nat,
                                   part: set<(nat, nat)>, v: ((nat, nat)) -> nat)
    requires part <= pairs && forall p :: p in pairs ==> w(p) == if p in part then v(p) else 0
    ensures Sum(pairs, w) == Sum(part, v)
    decreases |pairs|
  {
    if pairs != {} {
      var p := Pick(pairs);
      SumPart(pairs - {p}, w, part - {p}, v);
      if p in part {
        SumAny(part, v, p);
      } else {
        assert part - {p} == part;
      }
    }
  }

  function Ones(): ((nat, nat)) -> nat { (p: (nat, nat)) => 1 }

  lemma {:induction false} SumOnes(pairs: set<(nat, nat)>)
    ensures Sum(pairs, Ones()) == |pairs|
    decreases |pairs|
  {
    if pairs != {} {
      SumOnes(pairs - {Pick(pairs)});
    }
  }

  /** The shares of one thread are its pairs, counted and measured. */
  lemma SharesOf(t: seq<Event>, kind: PairKind, pairs: set<(nat, nat)>, u: nat)
    requires InStampOrder(t, pairs) && Distinguished(t, pairs)
    ensures Sum(pairs, Shares(t, kind, u, Count(kind, Before))) == |PairsFrom(t, pairs, u)|
    ensures Sum(pairs, Shares(t, kind, u, Count(kind, After))) == |PairsTo(t, pairs, u)|
    ensures Sum(pairs, Shares(t, kind, u, Distance(kind, Before))) == GapSum(t, PairsFrom(t, pairs, u))
    ensures Sum(pairs, Shares(t, kind, u, Distance(kind, After))) == GapSum(t, PairsTo(t, pairs, u))
  {
    hide Sum;
    SumPart(pairs, Shares(t, kind, u, Count(kind, Before)), PairsFrom(t, pairs, u), Ones());
    SumPart(pairs, Shares(t, kind, u, Count(kind, After)), PairsTo(t, pairs, u), Ones());
    SumPart(pairs, Shares(t, kind, u, Distance(kind, Before)), PairsFrom(t, pairs, u), Gaps(t));
    SumPart(pairs, Shares(t, kind, u, Distance(kind, After)), PairsTo(t, pairs, u), Gaps(t));
    SumOnes(PairsFrom(t, pairs, u));
    SumOnes(PairsTo(t, pairs, u));
  }

  lemma {:induction false} NoShares(t: seq<Event>, kind: PairKind, pairs: set<(nat, nat)>, u: nat, item: Item)
    requires item.NrEvent? || item.kind != kind
    ensures Sum(pairs, Shares(t, kind, u, item)) == 0
    decreases |pairs|
  {
    if pairs != {} {
      NoShares(t, kind, pairs - {Pick(pairs)}, u, item);
    }
  }

  /** Pairs of one kind leave everything else alone. */
  lemma OtherKept(before: Items, after: Items, kind: PairKind, t: seq<Event>, pairs: set<(nat, nat)>,
                  u: nat, other: PairKind)
    requires SharesCredited(before, after, kind, t, pairs) && other != kind
    ensures Get(after, u, NrEvent) == Get(before, u, NrEvent)
    ensures forall side :: Get(after, u, Count(other, side)) == Get(before, u, Count(other, side))
    ensures forall side :: Get(after, u, Distance(other, side)) == Get(before, u, Distance(other, side))
  {
    hide Get, Sum, Shares;
    NoShares(t, kind, pairs, u, NrEvent);
    forall side
      ensures Get(after, u, Count(other, side)) == Get(before, u, Count(other, side))
      ensures Get(after, u, Distance(other, side)) == Get(before, u, Distance(other, side))
    {
      NoShares(t, kind, pairs, u, Count(other, side));
      NoShares(t, kind, pairs, u, Distance(other, side));
    }
  }

  lemma KindBalances(items: Items, t: seq<Event>, kind: PairKind, pairs: set<(nat, nat)>, u: nat)
    requires InStampOrder(t, pairs) && Distinguished(t, pairs)
    requires forall side ::
      && Get(items, u, Count(kind, side)) == Sum(pairs, Shares(t, kind, u, Count(kind, side)))
      && Get(items, u, Distance(kind, side)) == Sum(pairs, Shares(t, kind, u, Distance(kind, side)))
    ensures PairsSummarised(items, t, kind, pairs, u)
  {
    hide Sum, Shares, GapSum, PairsFrom, PairsTo, Get;
    SharesOf(t, kind, pairs, u);
  }

  /** One thread's items once the races, the synchronisation pairs and the events are accounted. */
  lemma ThreadBalances(i1: Items, i2: Items, i3: Items, t: seq<Event>,
                       races: set<(nat, nat)>, syncs: set<(nat, nat)>, u: nat)
    requires InStampOrder(t, races) && InStampOrder(t, syncs) && Distinguished(t, races) && Distinguished(t, syncs)
    requires SharesCredited(map[], i1, RacePairs, t, races) && SharesCredited(i1, i2, SyncPairs, t, syncs)
    requires forall item :: Get(i3, u, item) == Get(i2, u, item) + if item == NrEvent then |EventsOf(t, |t|, u)| else 0
    ensures ThreadSummarised(i3, t, races, syncs, u)
  {
    assert forall item :: Get(map[], u, item) == 0;
    hide Sum, Shares, Get, EventsOf, PairsSummarised;
    OtherKept(map[], i1, RacePairs, t, races, u, SyncPairs);
    OtherKept(i1, i2, SyncPairs, t, syncs, u, RacePairs);
    KindBalances(i3, t, RacePairs, races, u);
    KindBalances(i3, t, SyncPairs, syncs, u);
  }

  lemma PairsDistinguished(t: seq<Event>, k: nat, races: set<(nat, nat)>, syncs: set<(nat, nat)>)
    requires StampsOrdered(t, k)
    requires forall i: nat, j: nat :: (i, j) in races <==> Reported(t, i, j)
    requires forall i: nat, j: nat :: (i, j) in syncs <==> SyncReported(t, i, j)
    ensures Distinguished(t, races) && Distinguished(t, syncs)
    ensures InStampOrder(t, races) && InStampOrder(t, syncs)
    ensures forall p :: p in races ==> t[p.0].addr == t[p.1].addr
  {
    forall p | p in races ensures p.0 < p.1 < |t| && t[p.0].ts < t[p.1].ts && t[p.0].addr == t[p.1].addr {
      assert (p.0, p.1) in races && Reported(t, p.0, p.1);
      ReportedStampsDiffer(t, k, p.0, p.1);
    }
    forall p | p in syncs ensures p.0 < p.1 < |t| && t[p.0].ts < t[p.1].ts {
      assert (p.0, p.1) in syncs && SyncReported(t, p.0, p.1);
      ReportedStampsDiffer(t, k, p.0, p.1);
    }
  }

  lemma ReportedVars(t: seq<Event>, races: set<(nat, nat)>, vars: set<nat>, a: nat)
    requires Distinguished(t, races) && VarsOf(vars, t, races)
    requires forall i: nat, j: nat :: (i, j) in races <==> Reported(t, i, j)
    ensures a in vars <==> ReportedAddress(t, a)
  {
    if a in vars {
      var p :| p in races && t[p.1].addr == a;
      assert (p.0, p.1) in races && Reported(t, p.0, p.1);
    }
    if ReportedAddress(t, a) {
      var i: nat, j: nat :| Reported(t, i, j) && t[j].addr == a;
      assert (i, j) in races && t[(i, j).1].addr == a;
    }
  }

  /** The totals once the races, the synchronisation pairs and the events are accounted. */
  lemma Balances(i1: Items, i2: Items, i3: Items, n: nat, t: seq<Event>,
                 races: set<(nat, nat)>, syncs: set<(nat, nat)>)
    requires Distinguished(t, races) && Distinguished(t, syncs)
    requires InStampOrder(t, races) && InStampOrder(t, syncs)
    requires Accounted(map[], i1, RacePairs, n, t, races) && Accounted(i1, i2, SyncPairs, n, t, syncs)
    requires forall item :: Total(i3, item, n) == Total(i2, item, n) + if item == NrEvent then |t| else 0
    requires forall u: nat, item ::
      Get(i3, u, item) == Get(i2, u, item) + if item == NrEvent then |EventsOf(t, |t|, u)| else 0
    ensures Summarised(i3, n, t, races, syncs)
  {
    hide Get, EventsOf, ThreadSummarised, SharesCredited;
    forall u | 0 <= u < n ensures ThreadSummarised(i3, t, races, syncs, u) {
      ThreadBalances(i1, i2, i3, t, races, syncs, u);
    }
    forall item ensures Total(map[], item, n) == 0 {
      TotalEmpty(item, n);
    }
    hide Total, GapSum;
  }

  lemma {:induction false} TotalEmpty(item: Item, n: nat)
    ensures Total(map[], item, n) == 0
  {
    if n > 0 {
      TotalEmpty(item, n - 1);
    }
  }
}
