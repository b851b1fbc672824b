// Thread money: 64-bit counters that hooks charge, sync operations shift, and refills reset.
module Money {
  import opened Events

  const MAX_MONEY: nat := 10000000

  function Mod64(x: int): (r: nat)
    ensures r < WORD
  {
    x % 0x1_0000_0000_0000_0000
  }

  lemma Mod64Add(x: int, d: int)
    ensures Mod64(Mod64(x) + d) == Mod64(x + d)
  {
  }

  lemma Mod64Small(x: nat)
    requires x < WORD
    ensures Mod64(x) == x
  {
  }

  /** One charge: money of one or less becomes zero. */
  function Charged(x: nat): nat { if x <= 1 then 0 else Mod64(x - 1) }

  function Entered(x: nat): nat { Mod64(x + MAX_MONEY) }

  function Left(x: nat): nat { Mod64(x - MAX_MONEY) }

  /** A charge takes exactly one and never wraps, unless there is nothing to take. */
  lemma ChargeNeverWraps(x: nat)
    requires x < WORD
    ensures Charged(x) == if x == 0 then 0 else x - 1
  {
    if x > 1 {
      Mod64Small(x - 1);
    }
  }

  lemma EnterThenLeave(x: nat)
    requires x < WORD
    ensures Left(Entered(x)) == x
  {
    Mod64Add(x + MAX_MONEY, 0 - MAX_MONEY);
    Mod64Small(x);
  }

  /** Every thread starts its epochs with something to spend. */
  predicate Positive(xs: seq<nat>) {
    forall i :: 0 <= i < |xs| ==> 0 < xs[i] < WORD
  }

  class MoneyMngr {
    const threadMoney: array<nat>
    const initMoney: array<nat>

    ghost predicate Valid()
      reads this, threadMoney, initMoney
    {
      && threadMoney != initMoney && threadMoney.Length == initMoney.Length
      && forall i :: 0 <= i < threadMoney.Length ==> threadMoney[i] < WORD && initMoney[i] < WORD
    }

    constructor (maxThreads: nat)
      ensures Valid() && fresh(threadMoney) && fresh(initMoney) && threadMoney.Length == maxThreads
    {
      threadMoney := new nat[maxThreads](_ => 0);
      initMoney := new nat[maxThreads](_ => 0);
    }

    method DecThreadMoney(t: nat)
      requires Valid() && t < threadMoney.Length
      modifies threadMoney
      ensures Valid() && threadMoney[..] == old(threadMoney[..])[t := Charged(old(threadMoney[t]))]
    {
      if threadMoney[t] <= 1 {
        threadMoney[t] := 0;
      } else {
        threadMoney[t] := Mod64(threadMoney[t] - 1);
      }
    }

    method EnterSync(t: nat)
      requires Valid() && t < threadMoney.Length
      modifies threadMoney
      ensures Valid() && threadMoney[..] == old(threadMoney[..])[t := Entered(old(threadMoney[t]))]
    {
      threadMoney[t] := Mod64(threadMoney[t] + MAX_MONEY);
    }

    method LeaveSync(t: nat)
      requires Valid() && t < threadMoney.Length
      modifies threadMoney
      ensures Valid() && threadMoney[..] == old(threadMoney[..])[t := Left(old(threadMoney[t]))]
    {
      threadMoney[t] := Mod64(threadMoney[t] - MAX_MONEY);
    }

    /** The refill: whatever a thread had, also inside a sync operation, is overwritten. */
    method ResetThreadMoney()
      requires Valid()
      modifies threadMoney
      ensures Valid() && threadMoney[..] == initMoney[..]
    {
      for i := 0 to threadMoney.Length
        invariant forall k :: 0 <= k < i ==> threadMoney[k] == initMoney[k]
        invariant Valid()
      {
        threadMoney[i] := initMoney[i];
      }
    }

    /** Configured amounts, cast to unsigned words, with zeros replaced by random amounts. */
    method SetInitThreadMoney(configured: seq<int>, random: seq<nat>)
      requires Valid() && |configured| <= initMoney.Length == |random| && Positive(random)
      modifies initMoney
      ensures Valid() && Positive(initMoney[..])
      ensures forall i :: 0 <= i < initMoney.Length ==>
        initMoney[i] == if i < |configured| && Mod64(configured[i]) != 0 then Mod64(configured[i]) else random[i]
    {
      for i := 0 to initMoney.Length
        invariant forall k :: 0 <= k < i ==>
          initMoney[k] == if k < |configured| then Mod64(configured[k]) else 0
        invariant Valid()
      {
        initMoney[i] := if i < |configured| then Mod64(configured[i]) else 0;
      }
      for i := 0 to initMoney.Length
        invariant forall k :: 0 <= k < i ==>
          initMoney[k] == if k < |configured| && Mod64(configured[k]) != 0 then Mod64(configured[k]) else random[k]
        invariant forall k :: i <= k < initMoney.Length ==>
          initMoney[k] == if k < |configured| then Mod64(configured[k]) else 0
        invariant Valid()
      {
        if initMoney[i] == 0 {
          initMoney[i] := random[i];
        }
      }
    }

    method RandomInitThreadMoney(random: seq<nat>)
      requires Valid() && initMoney.Length == |random| && Positive(random)
      modifies initMoney
      ensures Valid() && initMoney[..] == random
    {
      for i := 0 to initMoney.Length
        invariant forall k :: 0 <= k < i ==> initMoney[k] == random[k]
        invariant Valid()
      {
        initMoney[i] := random[i];
      }
    }
  }
}
