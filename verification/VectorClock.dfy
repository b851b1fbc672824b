// Vector clocks: the value operations, and the mutable class that carries them out in place.
module VectorClocks {
  import opened Events

  type Clock = seq<nat>

  function Zero(n: nat): Clock { seq(n, _ => 0) }

  function Max(x: nat, y: nat): nat { if x < y then y else x }

  function Lub(x: Clock, y: Clock): Clock
    requires |x| == |y|
  {
    seq(|x|, i requires 0 <= i < |x| => Max(x[i], y[i]))
  }

  function Tick(x: Clock, u: nat): Clock
    requires u < |x|
  {
    x[u := x[u] + 1]
  }

  predicate Leq(x: Clock, y: Clock)
    requires |x| == |y|
  {
    forall i :: 0 <= i < |x| ==> x[i] <= y[i]
  }

  predicate Concurrent(x: Clock, y: Clock)
    requires |x| == |y|
  {
    !(Leq(x, y) || Leq(y, x))
  }

  class VectorClock {
    var clock: Clock

    constructor (n: nat)
      ensures clock == Zero(n)
    {
      clock := Zero(n);
    }

    /** Increments one component of an array of unsigned 64-bit counters. */
    method IncTick(u: nat)
      requires u < |clock|
      modifies this
      ensures clock == old(clock)[u := Wrap(old(clock)[u] + 1)]
    {
      clock := clock[u := Wrap(clock[u] + 1)];
    }

    method Merge(vc: VectorClock)
      requires |vc.clock| == |clock|
      modifies this
      ensures clock == Lub(old(clock), old(vc.clock))
    {
      var index := 0;
      while index < |clock|
        invariant 0 <= index <= |clock| == |old(clock)| == |vc.clock|
        invariant forall i :: 0 <= i < index ==> clock[i] == Max(old(clock)[i], old(vc.clock)[i])
        invariant forall i :: index <= i < |clock| ==> clock[i] == old(clock)[i]
        invariant vc != this ==> vc.clock == old(vc.clock)
      {
        clock := clock[index := Max(clock[index], vc.clock[index])];
        index := index + 1;
      }
    }
  }

  /** The pointwise comparison loop. */
  method CompareLeq(x: Clock, y: Clock) returns (b: bool)
    requires |x| == |y|
    ensures b <==> Leq(x, y)
  {
    for i := 0 to |x|
      invariant forall k :: 0 <= k < i ==> x[k] <= y[k]
    {
      if x[i] > y[i] {
        return false;
      }
    }
    return true;
  }

  method IsConcurrentWith(x: Clock, y: Clock) returns (b: bool)
    requires |x| == |y|
    ensures b <==> Concurrent(x, y)
  {
    var le := CompareLeq(x, y);
    var ge := CompareLeq(y, x);
    b := !(le || ge);
  }
}
