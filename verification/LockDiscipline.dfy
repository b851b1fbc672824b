// Mutual exclusion as seen in a trace, and why consistently locked data is never reported.
module LockDiscipline {
  import opened Events
  import opened HappensBefore
  import opened Races

  datatype Holder = Free | HeldBy(tid: nat)

  /** LOCK and TRYLOCK take the mutex. */
  predicate Takes(e: Event) { e.op.Lock? || e.op.TryLock? }

  function NextHolder(h: Holder, e: Event, m: nat): Holder {
    if Takes(e) && e.addr == m then HeldBy(e.tid)
    else if e.op.Unlock? && e.addr == m then Free
    else h
  }

  /** Who holds mutex `m` after the events of `s`. */
  function HolderOf(s: seq<Event>, m: nat): Holder {
    if s == [] then Free else NextHolder(HolderOf(s[..|s| - 1], m), s[|s| - 1], m)
  }

  /** Who holds `m` just before event `k`. */
  function HolderAt(t: seq<Event>, m: nat, k: nat): Holder
    requires k <= |t|
  {
    HolderOf(t[..k], m)
  }

  /** A LOCK or TRYLOCK takes a free mutex, an UNLOCK comes from the holder. */
  predicate LegalNext(h: Holder, e: Event, m: nat) {
    && (Takes(e) && e.addr == m ==> h.Free?)
    && (e.op.Unlock? && e.addr == m ==> h == HeldBy(e.tid))
  }

  /** LOCK or TRYLOCK and UNLOCK on `m` alternate, with matching threads. */
  predicate Legal(t: seq<Event>, m: nat) {
    forall k :: 0 <= k < |t| ==> LegalNext(HolderAt(t, m, k), t[k], m)
  }

  /** Every access to `x` is made by the holder of `m`. */
  predicate Guarded(t: seq<Event>, x: nat, m: nat) {
    forall k :: 0 <= k < |t| && t[k].IsAccess() && t[k].addr == x ==>
      HolderAt(t, m, k) == HeldBy(t[k].tid)
  }

  lemma HolderStep(t: seq<Event>, m: nat, k: nat)
    requires k < |t|
    ensures HolderAt(t, m, k + 1) == NextHolder(HolderAt(t, m, k), t[k], m)
  {
    assert t[..k + 1][..k] == t[..k];
  }

  /** A mutex held at `i` and free at `j` was unlocked by its holder in between. */
  lemma {:induction false} Released(t: seq<Event>, m: nat, i: nat, j: nat, p: nat) returns (k: nat)
    requires Legal(t, m) && i <= j <= |t|
    requires HolderAt(t, m, i) == HeldBy(p) && HolderAt(t, m, j).Free?
    ensures i <= k < j && t[k].op.Unlock? && t[k].addr == m && t[k].tid == p
    decreases j
  {
    assert i < j;
    HolderStep(t, m, j - 1);
    hide HolderAt;
    if HolderAt(t, m, j - 1).Free? {
      k := Released(t, m, i, j - 1, p);
    } else if HolderAt(t, m, j - 1) == HeldBy(p) {
      k := j - 1;
    } else {
      var k2;
      k, k2 := Handover(t, m, i, j - 1, p, HolderAt(t, m, j - 1).tid);
    }
  }

  /** Held throughout or handed over: a later holder either is the same thread, or an
      UNLOCK of the first and a LOCK or TRYLOCK of the second lie in between, in this order. */
  lemma {:induction false} Handover(t: seq<Event>, m: nat, i: nat, j: nat, p: nat, q: nat)
    returns (k1: nat, k2: nat)
    requires Legal(t, m) && i <= j <= |t| && p != q
    requires HolderAt(t, m, i) == HeldBy(p) && HolderAt(t, m, j) == HeldBy(q)
    ensures i <= k1 < k2 < j
    ensures t[k1].op.Unlock? && t[k1].addr == m && t[k1].tid == p
    ensures Takes(t[k2]) && t[k2].addr == m && t[k2].tid == q
    decreases j
  {
    assert i < j;
    HolderStep(t, m, j - 1);
    assert LegalNext(HolderAt(t, m, j - 1), t[j - 1], m);
    hide HolderAt;
    if HolderAt(t, m, j - 1) == HeldBy(q) {
      k1, k2 := Handover(t, m, i, j - 1, p, q);
    } else {
      k2 := j - 1;
      k1 := Released(t, m, i, j - 1, p);
    }
  }

  /** Accesses under one common mutex are always ordered. */
  lemma GuardedOrdered(t: seq<Event>, x: nat, m: nat, i: nat, j: nat)
    requires Legal(t, m) && Guarded(t, x, m) && i < j < |t|
    requires t[i].IsAccess() && t[i].addr == x && t[j].IsAccess() && t[j].addr == x
    ensures HB(t, i, j)
  {
    if t[i].tid != t[j].tid {
      var k1, k2 := Handover(t, m, i, j, t[i].tid, t[j].tid);
      assert Edge(t, i, k1) && Edge(t, k1, k2) && Edge(t, k2, j);
      HBTransitive(t, i, k1, k2);
      HBTransitive(t, i, k2, j);
    }
  }

  // ----- LOCK and TRYLOCK events that took nothing ----------------------------------

  /** The event, no longer counted as taking a mutex. */
  function Discounted(e: Event): Event { if Takes(e) then e.(op := Wait) else e }

  /** `u` is `t` with some LOCK and TRYLOCK events discounted. */
  predicate Discounts(t: seq<Event>, u: seq<Event>) {
    |u| == |t| && forall i :: 0 <= i < |t| ==> u[i] == t[i] || u[i] == Discounted(t[i])
  }

  /** The detector counts every one of them, so it orders only more. */
  lemma {:induction false} DiscountedOrder(t: seq<Event>, u: seq<Event>, i: nat, j: nat)
    requires Discounts(t, u) && j < |t| && HB(u, i, j)
    ensures HB(t, i, j)
    decreases j
  {
    if !Edge(u, i, j) {
      var k: nat :| i < k < j && HB(u, i, k) && Edge(u, k, j);
      DiscountedOrder(t, u, i, k);
      assert Edge(t, k, j);
    }
  }

  /** Lock discipline implies silence: if the trace is legal once the events that took nothing
      are discounted, and every access to `x` is made by the holder of `m`, nothing is reported
      on `x`, although the detector cannot tell these events from the others. */
  lemma GuardedSilent(t: seq<Event>, u: seq<Event>, x: nat, m: nat)
    requires Discounts(t, u) && Legal(u, m) && Guarded(u, x, m)
    ensures !RacyAddress(t, x) && !ReportedAddress(t, x)
  {
    if RacyAddress(t, x) {
      var i: nat, j: nat :| Racy(t, i, j) && t[j].addr == x;
      GuardedOrdered(u, x, m, i, j);
      DiscountedOrder(t, u, i, j);
    }
    NoRacyAddressLost(t, x);
  }

  predicate Concerns(e: Event, m: nat) { (Takes(e) || e.op.Unlock?) && e.addr == m }

  lemma {:induction false} SameHolder(t: seq<Event>, u: seq<Event>, m: nat, k: nat)
    requires Discounts(t, u) && k <= |t|
    requires forall i :: 0 <= i < k && t[i].addr == m ==> u[i] == t[i]
    ensures HolderAt(t, m, k) == HolderAt(u, m, k)
  {
    if k > 0 {
      SameHolder(t, u, m, k - 1);
      HolderStep(t, m, k - 1);
      HolderStep(u, m, k - 1);
    }
  }

  lemma {:induction false} HolderStays(t: seq<Event>, m: nat, i: nat, j: nat)
    requires i <= j <= |t| && forall k :: i <= k < j ==> !Concerns(t[k], m)
    ensures HolderAt(t, m, j) == HolderAt(t, m, i)
    decreases j
  {
    if i < j {
      HolderStays(t, m, i, j - 1);
      HolderStep(t, m, j - 1);
    }
  }

  /** The event took nothing of `m`, yet nothing in the trace contradicts it: the mutex is free
      where it stands, and nothing about the mutex follows. */
  predicate Unnoticed(t: seq<Event>, u: seq<Event>, m: nat, i: nat)
    requires |u| == |t| && i < |t|
  {
    HolderAt(u, m, i).Free? && forall k :: i < k < |t| ==> !Concerns(t[k], m)
  }

  /** When a trace stays legal with these events counted: exactly if each goes unnoticed. */
  lemma CountedLegalExactly(t: seq<Event>, u: seq<Event>, m: nat)
    requires Discounts(t, u) && Legal(u, m)
    ensures Legal(t, m) <==> forall i :: 0 <= i < |t| && t[i].addr == m && u[i] != t[i] ==> Unnoticed(t, u, m, i)
  {
    if forall i :: 0 <= i < |t| && t[i].addr == m && u[i] != t[i] ==> Unnoticed(t, u, m, i) {
      forall k | 0 <= k < |t| ensures LegalNext(HolderAt(t, m, k), t[k], m) {
        UnnoticedLegal(t, u, m, k);
      }
    }
    if Legal(t, m) {
      forall i | 0 <= i < |t| && t[i].addr == m && u[i] != t[i] ensures Unnoticed(t, u, m, i) {
        LegalUnnoticed(t, u, m, i);
      }
    }
  }

  lemma UnnoticedLegal(t: seq<Event>, u: seq<Event>, m: nat, k: nat)
    requires Discounts(t, u) && Legal(u, m) && k < |t|
    requires forall i :: 0 <= i < |t| && t[i].addr == m && u[i] != t[i] ==> Unnoticed(t, u, m, i)
    ensures LegalNext(HolderAt(t, m, k), t[k], m)
  {
    if Concerns(t[k], m) {
      assert forall i :: 0 <= i < k && t[i].addr == m ==> u[i] == t[i];
      SameHolder(t, u, m, k);
      assert LegalNext(HolderAt(u, m, k), u[k], m);
    }
  }

  /** The trace counts event `i`, so its thread holds the mutex; without it nobody does; no event
      about the mutex is legal either way. */
  lemma {:induction false} NothingFollows(t: seq<Event>, u: seq<Event>, m: nat, i: nat, k: nat)
    requires Discounts(t, u) && Legal(u, m) && Legal(t, m) && i < k < |t|
    requires HolderAt(t, m, i + 1).HeldBy? && HolderAt(u, m, i + 1).Free?
    ensures !Concerns(t[k], m)
    decreases k
  {
    forall h | i < h < k ensures !Concerns(t[h], m) {
      NothingFollows(t, u, m, i, h);
    }
    HolderStays(t, m, i + 1, k);
    HolderStays(u, m, i + 1, k);
    assert LegalNext(HolderAt(t, m, k), t[k], m) && LegalNext(HolderAt(u, m, k), u[k], m);
  }

  lemma {:induction false} LegalUnnoticed(t: seq<Event>, u: seq<Event>, m: nat, i: nat)
    requires Discounts(t, u) && Legal(u, m) && Legal(t, m) && i < |t| && t[i].addr == m && u[i] != t[i]
    ensures Unnoticed(t, u, m, i)
    decreases i
  {
    forall h | 0 <= h < i && t[h].addr == m && u[h] != t[h] ensures Unnoticed(t, u, m, h) {
      LegalUnnoticed(t, u, m, h);
    }
    assert forall h :: 0 <= h < i && t[h].addr == m ==> u[h] == t[h];
    SameHolder(t, u, m, i);
    assert LegalNext(HolderAt(t, m, i), t[i], m);
    HolderStep(t, m, i);
    HolderStep(u, m, i);
    forall k | i < k < |t| ensures !Concerns(t[k], m) {
      NothingFollows(t, u, m, i, k);
    }
  }
}
