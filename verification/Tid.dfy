// Thread-id allocation under the global lock: every call below is one atomic step, so the
// invariant holds after every interleaving of registrations and unregistrations.
module Tids {

  const MAX_NR_THREAD: nat := 50

  /** The ids below `n`. */
  function Below(n: nat): (ids: set<nat>)
    ensures |ids| == n && forall i: nat :: i in ids <==> i < n
  {
    if n == 0 then {} else Below(n - 1) + {n - 1}
  }

  lemma SubsetSize(xs: set<nat>, ys: set<nat>)
    requires xs <= ys
    ensures |xs| <= |ys| && (xs != ys ==> |xs| < |ys|)
  {
    assert ys == xs + (ys - xs);
    if xs != ys {
      assert ys - xs != {};
    }
  }

  lemma ValuesAdded(m: map<nat, nat>, k: nat, v: nat)
    requires k !in m
    ensures m[k := v].Values == m.Values + {v}
  {
    forall x | x in m.Values ensures x in m[k := v].Values {
      var j :| j in m && m[j] == x;
      assert m[k := v][j] == x;
    }
    assert m[k := v][k] == v;
  }

  lemma ValuesRemoved(m: map<nat, nat>, k: nat)
    requires k in m && Injective(m)
    ensures (m - {k}).Values == m.Values - {m[k]}
  {
    forall x | x in m.Values - {m[k]} ensures x in (m - {k}).Values {
      var j :| j in m && m[j] == x;
      assert (m - {k})[j] == x;
    }
  }

  predicate Injective(m: map<nat, nat>) {
    forall i, j :: i in m && j in m && i != j ==> m[i] != m[j]
  }

  lemma {:induction false} InjectiveSize(m: map<nat, nat>)
    requires Injective(m)
    ensures |m.Values| == |m|
    decreases |m|
  {
    if m == map[] {
      assert m.Values == {};
    } else {
      var k :| k in m;
      var fewer := m - {k};
      assert m.Keys == fewer.Keys + {k} && |m| == |fewer| + 1;
      InjectiveSize(fewer);
      ValuesRemoved(m, k);
      assert m[k] in m.Values && m.Values == fewer.Values + {m[k]};
    }
  }

  /** Live threads hold distinct ids below the counter, and exactly those are marked alive. */
  ghost predicate Describes(alive: seq<bool>, counter: nat, live: map<nat, nat>) {
    && Injective(live)
    && (forall t :: t in live ==> live[t] < counter && live[t] < |alive| && alive[live[t]])
    && (forall i :: 0 <= i < |alive| && alive[i] ==> i in live.Values)
  }

  lemma DescribesEntered(alive: seq<bool>, counter: nat, live: map<nat, nat>, t: nat, tid: nat)
    requires Describes(alive, counter, live) && t !in live
    requires tid < counter && tid < |alive| && !alive[tid]
    ensures Describes(alive[tid := true], counter, live[t := tid])
    ensures tid !in live.Values
  {
    ValuesAdded(live, t, tid);
  }

  lemma DescribesRemoved(alive: seq<bool>, counter: nat, live: map<nat, nat>, t: nat)
    requires Describes(alive, counter, live) && t in live
    ensures Describes(alive[live[t] := false], counter, live - {t})
  {
    ValuesRemoved(live, t);
  }

  class TidTable {
    const reuse: bool
    var counter: nat
    const alive: array<bool>
    var pthreadIds: map<nat, nat>
    var live: map<nat, nat>         // the thread-local ids of the threads now registered
    ghost var peak: nat             // the most threads ever live at once

    /** The table describes the live threads. */
    ghost predicate Consistent()
      reads this, alive
    {
      && alive.Length == MAX_NR_THREAD && counter <= MAX_NR_THREAD
      && Describes(alive[..], counter, live)
      && (forall t :: t in live ==> t in pthreadIds && pthreadIds[t] == live[t])
    }

    /** With reuse, the counter is the most threads ever live at once. */
    ghost predicate Valid()
      reads this, alive
    {
      Consistent() && |live| <= peak <= counter && (reuse ==> counter == peak)
    }

    constructor (reuse: bool)
      ensures Valid() && this.reuse == reuse && live == map[] && peak == 0 && fresh(alive)
    {
      this.reuse := reuse;
      counter := 0;
      alive := new bool[MAX_NR_THREAD](_ => false);
      pthreadIds := map[];
      live := map[];
      peak := 0;
    }

    method FreshTid() returns (tid: nat)
      requires Consistent() && counter < MAX_NR_THREAD
      modifies this`counter
      ensures Consistent() && tid == old(counter) && counter == old(counter) + 1
    {
      tid := counter;
      counter := counter + 1;
    }

    /** As many live threads as ids below the counter exactly when no id there is dead. */
    lemma FullMeansCounter()
      requires Consistent()
      ensures (forall i :: 0 <= i < counter ==> alive[i]) <==> |live| == counter
      ensures |live| <= counter
    {
      InjectiveSize(live);
      forall i | i in live.Values ensures i in Below(counter) {}
      SubsetSize(live.Values, Below(counter));
      if forall i :: 0 <= i < counter ==> alive[i] {
        assert live.Values == Below(counter);
      } else {
        var i :| 0 <= i < counter && !alive[i];
        assert i !in live.Values && i in Below(counter);
      }
    }

    /** The smallest dead id below the counter, or the counter. */
    method FindDead() returns (tid: nat)
      requires Consistent()
      ensures tid <= counter && (tid < counter ==> !alive[tid])
      ensures forall i :: 0 <= i < tid ==> alive[i]
    {
      tid := 0;
      while tid < counter && alive[tid]
        invariant 0 <= tid <= counter
        invariant forall i :: 0 <= i < tid ==> alive[i]
      {
        tid := tid + 1;
      }
    }

    /** Enters thread `self` under a dead id. */
    method Enter(self: nat, tid: nat)
      requires Consistent() && self !in live && tid < counter && !alive[tid]
      modifies this`pthreadIds, this`live, alive
      ensures Consistent() && live == old(live)[self := tid]
      ensures forall t :: t in old(live) ==> old(live)[t] != tid
    {
      DescribesEntered(alive[..], counter, live, self, tid);
      pthreadIds := pthreadIds[self := tid];
      alive[tid] := true;
      live := live[self := tid];
      assert alive[..] == old(alive[..])[tid := true];
    }

    /** Registers thread `self`. Its id is new among the live ones and below the counter; the
        smallest dead id is reused if reuse is on, and the counter grows only when none is. */
    method GetNewTid(self: nat) returns (tid: nat)
      requires Valid() && self !in live
      requires if reuse then |live| < MAX_NR_THREAD else counter < MAX_NR_THREAD
      modifies this, alive
      ensures Valid() && live == old(live)[self := tid] && tid < counter
      ensures forall t :: t in old(live) ==> old(live)[t] != tid
      ensures peak == if |live| > old(peak) then |live| else old(peak)
      ensures counter == old(counter) || (counter == old(counter) + 1 && tid == old(counter))
      ensures reuse && tid < old(counter) ==> forall i :: 0 <= i < tid ==> old(alive[i])
    {
      FullMeansCounter();
      tid := counter;
      if reuse {
        tid := FindDead();
      }
      if tid == counter {
        tid := FreshTid();
      }
      Enter(self, tid);
      if |live| > peak {
        peak := |live|;
      }
    }

    method UnregisterCurrThread(self: nat)
      requires Valid() && self in live
      modifies this, alive
      ensures Valid() && live == old(live) - {self} && counter == old(counter) && peak == old(peak)
    {
      DescribesRemoved(alive[..], counter, live, self);
      alive[live[self]] := false;
      live := live - {self};
      assert alive[..] == old(alive[..])[old(live)[self] := false];
    }
  }
}
