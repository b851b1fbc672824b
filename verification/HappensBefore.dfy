// Happens-before over a whole trace, defined without clocks.
module HappensBefore {
  import opened Events

  /** Events whose knowledge reaches thread `u`: its own, and those creating it. */
  predicate FeedsThread(e: Event, u: nat) { e.tid == u || (e.op.Create? && e.remote == u) }

  /** Events whose knowledge reaches the synchronisation variable `a`. */
  predicate FeedsSync(e: Event, a: nat) { e.IsRelease() && e.addr == a }

  /** The direct ordering edges, always from an earlier to a later event. */
  predicate Edge(t: seq<Event>, i: nat, j: nat)
    requires j < |t|
  {
    i < j && (
      || t[i].tid == t[j].tid
      || (t[i].IsRelease() && t[j].IsAcquire() && t[i].addr == t[j].addr)
      || (t[i].op.Create? && t[i].remote == t[j].tid)
      || (t[i].op.Create? && t[j].op.Join? && t[i].remote == t[j].remote)
      || (t[j].op.Join? && t[i].tid == t[j].remote)
    )
  }

  /** Event `i` happens before event `j`. */
  ghost predicate HB(t: seq<Event>, i: nat, j: nat)
    requires j < |t|
    decreases j
  {
    || Edge(t, i, j)
    || exists k: nat :: i < k < j && HB(t, i, k) && Edge(t, k, j)
  }

  ghost predicate HBEq(t: seq<Event>, i: nat, j: nat)
    requires j < |t|
  {
    i == j || HB(t, i, j)
  }

  lemma {:induction false} HBForward(t: seq<Event>, i: nat, j: nat)
    requires j < |t| && HB(t, i, j)
    ensures i < j
  {
  }

  lemma {:induction false} HBTransitive(t: seq<Event>, i: nat, k: nat, j: nat)
    requires j < |t| && k < j && HB(t, i, k) && HB(t, k, j)
    ensures HB(t, i, j)
    decreases j
  {
    HBForward(t, i, k);
    if !Edge(t, k, j) {
      var m: nat :| k < m < j && HB(t, k, m) && Edge(t, m, j);
      HBTransitive(t, i, k, m);
    }
  }

  /** Any transitive relation that contains the edges contains happens-before: together
      with `HBTransitive` this makes `HB` the transitive closure of `Edge`. */
  lemma {:induction false} HBLeast(t: seq<Event>, r: (nat, nat) -> bool, i: nat, j: nat)
    requires forall x: nat, y: nat :: y < |t| && Edge(t, x, y) ==> r(x, y)
    requires forall x: nat, y: nat, z: nat :: r(x, y) && r(y, z) ==> r(x, z)
    requires j < |t| && HB(t, i, j)
    ensures r(i, j)
    decreases j
  {
    if !Edge(t, i, j) {
      var k: nat :| i < k < j && HB(t, i, k) && Edge(t, k, j);
      HBLeast(t, r, i, k);
    }
  }
}
