// What every hook does to the money, hook by hook, and what the supervisor makes of the tick.
module ScsHooks {
  import opened Events
  import opened Money
  import opened Scs
  import opened ScsProperties

  // ----- one step -------------------------------------------------------------------

  /** Thread `t` left its hook and gave the mutex up; nothing else happened to anybody else. */
  predicate OnlyReturned(s: State, s': State, t: nat)
    requires Sized(s) && Sized(s') && |s'.pcs| == |s.pcs| && t < |s.pcs|
  {
    && s'.pcs[t] == Idle && s'.mutex == Nobody
    && (forall u :: 0 <= u < |s.pcs| && u != t ==>
          s'.pcs[u] == s.pcs[u] && s'.money[u] == s.money[u] && s'.accounts[u] == s.accounts[u])
    && s'.init == s.init && s'.epoch == s.epoch
    && s'.boss == s.boss && s'.tick == s.tick && s'.lastTick == s.lastTick
  }

  /** The two ways to the charge: straight away, or after waiting for a new epoch. */
  predicate TakesTurn(s: State, a: Action, t: nat)
    requires Sized(s)
  {
    && Enabled(s, a) && t < |s.pcs| && 0 < s.money[t] < 0x1_0000_0000_0000_0000
    && (a == Body(t) || (a == Recheck(t) && s.pcs[t].seen != s.epoch))
  }

  /** A function call takes one and is no sync operation. */
  lemma FuncCallCharge(s: State, a: Action, t: nat)
    requires Sized(s) && TakesTurn(s, a, t) && s.pcs[t].hook == FuncCall
    ensures
      var s', acc := Do(s, a), s.accounts[t];
      && OnlyReturned(s, s', t)
      && s'.money[t] == s.money[t] - 1
      && s'.accounts[t].charges == acc.charges + 1 && s'.accounts[t].grant == acc.grant
      && s'.accounts[t].enters == acc.enters && s'.accounts[t].leaves == acc.leaves
      && (s'.accounts[t].balanced <==> acc.balanced && acc.enters == acc.leaves)
  {
    ChargeNeverWraps(s.money[t]);
  }

  /** The hook before a sync operation takes one and adds MAX_MONEY. */
  lemma BeforeSyncCharge(s: State, a: Action, t: nat)
    requires Sized(s) && TakesTurn(s, a, t) && s.pcs[t].hook == BeforeSync
    ensures
      var s', acc := Do(s, a), s.accounts[t];
      && OnlyReturned(s, s', t)
      && s'.money[t] == (s.money[t] - 1 + 10000000) % 0x1_0000_0000_0000_0000
      && s'.accounts[t].charges == acc.charges + 1 && s'.accounts[t].grant == acc.grant
      && s'.accounts[t].enters == acc.enters + 1 && s'.accounts[t].leaves == acc.leaves
      && (s'.accounts[t].balanced <==> acc.balanced && acc.enters == acc.leaves)
  {
    ChargeNeverWraps(s.money[t]);
  }

  /** The hook after a sync operation takes MAX_MONEY away again, whatever there is, and charges
      nothing. */
  lemma AfterSyncLeaves(s: State, t: nat)
    requires Sized(s) && Enabled(s, Body(t)) && s.pcs[t].hook == AfterSync
    ensures
      var s', acc := Do(s, Body(t)), s.accounts[t];
      && OnlyReturned(s, s', t)
      && s'.money[t] == (s.money[t] as int - 10000000) % 0x1_0000_0000_0000_0000
      && s'.accounts[t].charges == acc.charges && s'.accounts[t].grant == acc.grant
      && s'.accounts[t].enters == acc.enters && s'.accounts[t].leaves == acc.leaves + 1
      && s'.accounts[t].balanced == acc.balanced
  {
  }

  /** Without money, or without a new epoch, a charging hook goes to wait and nothing is charged. */
  lemma NoTurn(s: State, a: Action, t: nat)
    requires Sized(s) && Enabled(s, a)
    requires
      || (a == Body(t) && s.pcs[t].hook != AfterSync && s.money[t] == 0)
      || (a == Recheck(t) && s.pcs[t].seen == s.epoch)
    ensures Do(s, a) == s.(pcs := s.pcs[t := Waiting(s.pcs[t].hook, s.epoch)], mutex := Nobody)
  {
  }

  /** The refill: everybody has the initial money and a clean account, a new epoch begins, the
      waiting are woken, nobody else moves, and the next refills give `next`. */
  lemma RefillGives(s: State, next: seq<nat>, t: nat)
    requires Sized(s) && Enabled(s, Refill(next)) && t < |s.pcs|
    ensures
      var s' := Do(s, Refill(next));
      && s'.money[t] == s.init[t] && s'.accounts[t] == Account(s.init[t], 0, 0, 0, true)
      && s'.pcs[t] == (if s.pcs[t].Waiting? then Woken(s.pcs[t].hook, s.pcs[t].seen) else s.pcs[t])
      && s'.init == next && s'.epoch == s.epoch + 1 && s'.mutex == Nobody
      && s'.boss == Sleeping && s'.tick == s.tick && s'.lastTick == s.boss.tick
  {
  }

  /** The steps without money: who asks for the mutex gets it when it is free, before the charge
      and after every wakeup; wakeups may be spurious. Nothing but the thread and the mutex moves. */
  lemma WaysToTheMutex(s: State, t: nat, hook: Hook)
    requires Sized(s) && t < |s.pcs|
    ensures s.pcs[t].Idle? ==>
      && Enabled(s, Invoke(t, hook)) && Do(s, Invoke(t, hook)) == s.(pcs := s.pcs[t := Entering(hook)])
      && Enabled(s, Touch(t)) && Do(s, Touch(t)) == s.(tick := s.tick + 1)
    ensures s.pcs[t].Entering? && s.mutex.Nobody? ==>
      && Enabled(s, Acquire(t))
      && Do(s, Acquire(t)) == s.(pcs := s.pcs[t := Inside(s.pcs[t].hook)], mutex := Worker(t))
    ensures s.pcs[t].Inside? ==> Enabled(s, Body(t))
    ensures s.pcs[t].Waiting? ==>
      && Enabled(s, SpuriousWakeup(t))
      && Do(s, SpuriousWakeup(t)) == s.(pcs := s.pcs[t := Woken(s.pcs[t].hook, s.pcs[t].seen)])
    ensures s.pcs[t].Woken? && s.mutex.Nobody? ==>
      && Enabled(s, Reacquire(t))
      && Do(s, Reacquire(t)) ==
         s.(pcs := s.pcs[t := Rechecking(s.pcs[t].hook, s.pcs[t].seen)], mutex := Worker(t))
    ensures s.pcs[t].Rechecking? ==> Enabled(s, Recheck(t))
  {
  }

  /** The hook the thread invoked last. */
  function LastHook(acts: seq<Action>, t: nat): Hook {
    if acts == [] then FuncCall
    else
      var a := acts[|acts| - 1];
      if a.Invoke? && a.t == t then a.hook else LastHook(acts[..|acts| - 1], t)
  }

  /** However often it waits and whatever wakes it, a thread inside a hook is in the one it invoked
      last. */
  lemma {:induction false} HookKept(init: seq<nat>, acts: seq<Action>, s: State, t: nat)
    requires Reaches(init, acts, s) && t < |s.pcs|
    ensures !s.pcs[t].Idle? ==> s.pcs[t].hook == LastHook(acts, t)
  {
    if acts != [] {
      HookKept(init, acts[..|acts| - 1], Exec(Initial(init), acts[..|acts| - 1]).state, t);
    }
  }

  // ----- function calls alone -------------------------------------------------------

  /** How many hooks the thread completed during `acts`. */
  function Completed(s: State, acts: seq<Action>, t: nat): nat
    requires Sized(s) && Exec(s, acts).At? && t < |s.pcs|
  {
    if acts == [] then 0
    else
      var p, q := Exec(s, acts[..|acts| - 1]).state, Exec(s, acts).state;
      Completed(s, acts[..|acts| - 1], t) + if !p.pcs[t].Idle? && q.pcs[t].Idle? then 1 else 0
  }

  /** No refill, and the thread invokes no hook but that of function calls. */
  predicate OnlyCalls(acts: seq<Action>, t: nat) {
    forall i :: 0 <= i < |acts| ==>
      && !acts[i].Refill?
      && (acts[i].Invoke? && acts[i].t == t ==> acts[i].hook == FuncCall)
  }

  predicate InCall(pc: Pc) { pc.Idle? || pc.hook == FuncCall }

  /** What the thread has is what it got less the hooks it completed. */
  predicate Spends(s: State, t: nat, grant: nat, completed: nat)
    requires Sized(s) && t < |s.pcs|
  {
    && InCall(s.pcs[t]) && completed <= grant && s.money[t] == grant - completed
    && s.accounts[t].charges == completed && s.accounts[t].enters == s.accounts[t].leaves == 0
  }

  lemma SpendsStep(s: State, a: Action, t: nat, grant: nat, completed: nat)
    requires Inv(s) && Enabled(s, a) && t < |s.pcs| && OnlyCalls([a], t) && Spends(s, t, grant, completed)
    ensures
      var more := if !s.pcs[t].Idle? && Do(s, a).pcs[t].Idle? then 1 else 0;
      Spends(Do(s, a), t, grant, completed + more)
  {
    assert ThreadInv(s, t);
    assert [a][0] == a;
    if TakesTurn(s, a, t) {
      FuncCallCharge(s, a, t);
    }
  }

  lemma {:induction false} SpendsAlong(s: State, acts: seq<Action>, s': State, t: nat)
    requires Inv(s) && Exec(s, acts) == At(s') && t < |s.pcs| && OnlyCalls(acts, t)
    requires Spends(s, t, s.money[t], 0)
    ensures Spends(s', t, s.money[t], Completed(s, acts, t))
  {
    if acts != [] {
      var fewer, a := acts[..|acts| - 1], acts[|acts| - 1];
      var p := Exec(s, fewer).state;
      SpendsAlong(s, fewer, p, t);
      InvFrom(s, fewer, p);
      hide Inv, Spends;
      SpendsStep(p, a, t, s.money[t], Completed(s, fewer, t));
    }
  }

  /** The start, or the point right after a refill. */
  predicate JustRefilled(acts: seq<Action>) { acts == [] || acts[|acts| - 1].Refill? }

  lemma FreshAccount(init: seq<nat>, acts: seq<Action>, p: State, t: nat)
    requires Positive(init) && Reaches(init, acts, p) && JustRefilled(acts) && t < |p.pcs|
    ensures t < |p.money| == |p.accounts| && p.accounts[t] == Account(p.money[t], 0, 0, 0, true)
  {
    if acts != [] {
      RefillGives(Exec(Initial(init), acts[..|acts| - 1]).state, acts[|acts| - 1].next, t);
    }
  }

  /** A thread that only makes function calls after a refill, and was in no other hook then, gets
      exactly its initial money's worth of them: each takes one, and the next blocks if and only
      if as many were completed as there was money. */
  lemma CallsBudget(init: seq<nat>, acts: seq<Action>, more: seq<Action>, p: State, s: State, t: nat)
    requires Positive(init) && Reaches(init, acts, p) && Reaches(init, acts + more, s)
    requires Sized(p) && Sized(s) && t < |p.pcs| == |s.pcs| && Exec(p, more).At?
    requires JustRefilled(acts) && OnlyCalls(more, t) && InCall(p.pcs[t])
    ensures Completed(p, more, t) <= p.money[t]
    ensures s.money[t] == p.money[t] - Completed(p, more, t)
    ensures s.accounts[t].charges == Completed(p, more, t) && s.accounts[t].enters == s.accounts[t].leaves == 0
    ensures Enabled(s, Body(t)) ==>
      (Do(s, Body(t)).pcs[t].Waiting? <==> Completed(p, more, t) == p.money[t])
  {
    InvAlways(init, acts, p);
    ExecConcat(Initial(init), acts, more);
    FreshAccount(init, acts, p, t);
    hide Inv, Exec;
    SpendsAlong(p, more, s, t);
  }

  // ----- the supervisor and the tick ------------------------------------------------

  /** Every instrumented operation was followed by a poll. */
  ghost predicate Rested(acts: seq<Action>) {
    forall i :: 0 <= i < |acts| && acts[i].Touch? ==> PolledAfter(acts, i)
  }

  ghost predicate PolledAfter(acts: seq<Action>, i: nat) {
    exists j :: i < j < |acts| && acts[j].Poll?
  }

  lemma RestedStep(acts: seq<Action>, a: Action)
    ensures Rested(acts + [a]) <==> a.Poll? || (!a.Touch? && Rested(acts))
  {
    var more := acts + [a];
    forall i | 0 <= i < |acts| && acts[i].Touch?
      ensures PolledAfter(more, i) <==> a.Poll? || PolledAfter(acts, i)
    {
      if PolledAfter(acts, i) {
        var j :| i < j < |acts| && acts[j].Poll?;
        assert more[j].Poll?;
      }
      assert more[|acts|] == a;
    }
    assert forall i :: 0 <= i < |acts| ==> more[i] == acts[i];
    assert more[|acts|] == a;
  }

  /** The tick the supervisor saw last. */
  function LastSeen(s: State): nat {
    if s.boss.Sleeping? then s.lastTick else s.boss.tick
  }

  lemma TickStep(s: State, a: Action)
    requires Sized(s) && Enabled(s, a) && LastSeen(s) <= s.tick
    ensures
      var s' := Do(s, a);
      && LastSeen(s') <= s'.tick
      && (LastSeen(s') == s'.tick <==> a.Poll? || (!a.Touch? && LastSeen(s) == s.tick))
  {
  }

  lemma {:induction false} TickAlways(init: seq<nat>, acts: seq<Action>, s: State)
    requires Reaches(init, acts, s)
    ensures LastSeen(s) <= s.tick && (LastSeen(s) == s.tick <==> Rested(acts))
  {
    if acts != [] {
      var fewer, a := acts[..|acts| - 1], acts[|acts| - 1];
      var p := Exec(Initial(init), fewer).state;
      TickAlways(init, fewer, p);
      assert fewer + [a] == acts;
      RestedStep(fewer, a);
      TickStep(p, a);
      hide Do, Enabled, Rested, LastSeen;
    }
  }

  /** A poll decides to refill if and only if no instrumented operation happened since the poll
      before it; otherwise it only notes the tick. */
  lemma PollRefillsExactly(init: seq<nat>, acts: seq<Action>, s: State)
    requires Reaches(init, acts, s) && Enabled(s, Poll)
    ensures Sized(s) && (Do(s, Poll).boss.Refilling? <==> Rested(acts))
    ensures !Rested(acts) ==> Do(s, Poll) == s.(lastTick := s.tick)
    ensures Rested(acts) ==> Do(s, Poll) == s.(boss := Refilling(s.tick))
  {
    TickAlways(init, acts, s);
  }
}
