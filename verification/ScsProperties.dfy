// What the scheduler guarantees over all runs: the money law, when a thread blocks, the epoch
// budget and its limits, no lost wakeup, and progress under a running supervisor.
module ScsProperties {
  import opened Money
  import opened Scs

  lemma {:induction false} InvFrom(s: State, acts: seq<Action>, s': State)
    requires Inv(s) && Exec(s, acts) == At(s')
    ensures Inv(s')
  {
    if acts != [] {
      var p := Exec(s, acts[..|acts| - 1]).state;
      InvFrom(s, acts[..|acts| - 1], p);
      InvStep(p, acts[|acts| - 1]);
    }
  }

  lemma InvAlways(init: seq<nat>, acts: seq<Action>, s: State)
    requires Positive(init) && Reaches(init, acts, s)
    ensures Inv(s) && |s.pcs| == |init|
  {
    var s0 := Initial(init);
    forall t | 0 <= t < |init| ensures ThreadInv(s0, t) {
      Mod64Small(init[t]);
    }
    InvFrom(s0, acts, s);
  }

  /** Money conservation, in every reachable state, for every thread. */
  lemma MoneyConservation(init: seq<nat>, acts: seq<Action>, s: State, t: nat)
    requires Positive(init) && Reaches(init, acts, s) && t < |init|
    ensures t < |s.money| == |s.accounts|
    ensures s.money[t] ==
      Mod64(s.accounts[t].grant - s.accounts[t].charges
            + MAX_MONEY * (s.accounts[t].enters - s.accounts[t].leaves))
  {
    InvAlways(init, acts, s);
    assert ThreadInv(s, t);
  }

  /** The step is a charge to thread `t`. */
  predicate Charges(s: State, a: Action, t: nat)
    requires Sized(s) && Enabled(s, a) && t < |s.pcs|
  {
    !a.Refill? && Do(s, a).accounts[t].charges != s.accounts[t].charges
  }

  /** Every charge takes one from positive money; spurious wakeups change nothing about that. */
  lemma ChargesFromPositiveMoney(init: seq<nat>, acts: seq<Action>, s: State, a: Action, t: nat)
    requires Positive(init) && Reaches(init, acts, s) && t < |s.pcs|
    requires Enabled(s, a) && Charges(s, a, t)
    ensures 0 < s.money[t] && Charged(s.money[t]) == s.money[t] - 1
    ensures HoldsMutex(s.pcs[t]) && s.mutex == Worker(t)
  {
    InvAlways(init, acts, s);
    assert ThreadInv(s, t);
    ChargeNeverWraps(s.money[t]);
  }

  /** No lost wakeup: whoever sits in the wait set has no money and saw the current epoch;
      whoever leaves the waiting loop has money. */
  lemma NoLostWakeup(init: seq<nat>, acts: seq<Action>, s: State, t: nat)
    requires Positive(init) && Reaches(init, acts, s) && t < |s.pcs|
    ensures s.pcs[t].Waiting? ==> s.money[t] == 0 && s.pcs[t].seen == s.epoch
    ensures Enabled(s, Recheck(t)) ==>
      (Do(s, Recheck(t)).pcs[t].Idle? <==> 0 < s.money[t])
  {
    InvAlways(init, acts, s);
    assert ThreadInv(s, t);
  }

  // ----- the epoch budget -----------------------------------------------------------

  /** If every charge since the refill was made with as many leaves as enters, the thread made
      at most its initial money of them. */
  lemma EpochBudget(init: seq<nat>, acts: seq<Action>, s: State, t: nat)
    requires Positive(init) && Reaches(init, acts, s) && t < |init| == |s.accounts|
    requires s.accounts[t].balanced
    ensures s.accounts[t].charges <= s.accounts[t].grant
  {
    InvAlways(init, acts, s);
    assert ThreadInv(s, t);
  }

  /** A hook blocks exactly when the grant, the charges and the sync imbalance cancel out. */
  lemma BlocksExactly(init: seq<nat>, acts: seq<Action>, s: State, t: nat)
    requires Positive(init) && Reaches(init, acts, s)
    requires Enabled(s, Body(t)) && !s.pcs[t].hook.AfterSync?
    ensures
      var acc := s.accounts[t];
      Do(s, Body(t)).pcs[t].Waiting? <==>
      Mod64(acc.grant - acc.charges + MAX_MONEY * (acc.enters - acc.leaves)) == 0
  {
    InvAlways(init, acts, s);
    assert ThreadInv(s, t);
  }

  /** With the budget used up, the next charging hook blocks if and only if the enters and
      leaves differ by a multiple of 2^57: for all practical runs, if and only if they are even. */
  lemma BudgetEndsExactly(init: seq<nat>, acts: seq<Action>, s: State, t: nat)
    requires Positive(init) && Reaches(init, acts, s)
    requires Enabled(s, Body(t)) && !s.pcs[t].hook.AfterSync?
    requires s.accounts[t].charges == s.accounts[t].grant
    ensures Do(s, Body(t)).pcs[t].Waiting? <==>
            (s.accounts[t].enters - s.accounts[t].leaves) % 0x200_0000_0000_0000 == 0
  {
    BlocksExactly(init, acts, s, t);
    ImbalanceShows(s.accounts[t].enters - s.accounts[t].leaves);
  }

  /** A step that may charge thread `t`: the body of a charging hook, or its way out of waiting. */
  predicate MayCharge(s: State, a: Action, t: nat)
    requires Sized(s) && Enabled(s, a) && t < |s.pcs|
  {
    (a == Body(t) && !s.pcs[t].hook.AfterSync?) || a == Recheck(t)
  }

  /** Exactly which steps break the budget: those that may charge a thread whose grant is used
      up while its enters and leaves differ, other than by a multiple of 2^57. */
  lemma OverspendsExactly(init: seq<nat>, acts: seq<Action>, s: State, a: Action, t: nat)
    requires Positive(init) && Reaches(init, acts, s) && Enabled(s, a) && !a.Refill? && t < |s.pcs|
    requires s.accounts[t].charges <= s.accounts[t].grant
    ensures
      var acc := s.accounts[t];
      Do(s, a).accounts[t].charges > acc.grant <==>
      MayCharge(s, a, t) && acc.charges == acc.grant && (acc.enters - acc.leaves) % 0x200_0000_0000_0000 != 0
  {
    InvAlways(init, acts, s);
    assert ThreadInv(s, t);
    ImbalanceShows(s.accounts[t].enters - s.accounts[t].leaves);
  }

  /** MAX_MONEY is 2^7 times 78125, and 78125 has an inverse modulo 2^57. */
  lemma ImbalanceShows(d: int)
    ensures Mod64(MAX_MONEY * d) == 0 <==> d % 0x200_0000_0000_0000 == 0
  {
    if Mod64(MAX_MONEY * d) == 0 {
      var q := MAX_MONEY * d / 0x1_0000_0000_0000_0000;
      assert 78125 * d == 0x200_0000_0000_0000 * q;
      OddFactor(d, q);
    }
    if d % 0x200_0000_0000_0000 == 0 {
      var k := d / 0x200_0000_0000_0000;
      assert MAX_MONEY * d == 0x1_0000_0000_0000_0000 * (78125 * k);
    }
  }

  lemma OddFactor(d: int, q: int)
    requires 78125 * d == 0x200_0000_0000_0000 * q
    ensures d % 0x200_0000_0000_0000 == 0
  {
    assert d == 0x200_0000_0000_0000 * (38583 * d - 71173072659593563 * q);
  }

  lemma ExecSnoc(s: State, acts: seq<Action>, a: Action)
    requires Sized(s) && Exec(s, acts).At? && Enabled(Exec(s, acts).state, a)
    ensures Exec(s, acts + [a]) == At(Do(Exec(s, acts).state, a))
  {
    assert (acts + [a])[..|acts|] == acts;
  }

  lemma {:induction false} ExecConcat(s: State, xs: seq<Action>, ys: seq<Action>)
    requires Sized(s) && Exec(s, xs).At?
    ensures Exec(s, xs + ys) == Exec(Exec(s, xs).state, ys)
    decreases |ys|
  {
    if ys == [] {
      assert xs + ys == xs;
    } else {
      ExecConcat(s, xs, ys[..|ys| - 1]);
      assert (xs + ys)[..|xs + ys| - 1] == xs + ys[..|ys| - 1];
    }
  }

  /** A hook from its call to its return, not blocked and not interrupted. */
  function Turn(t: nat, hook: Hook): seq<Action> { [Invoke(t, hook), Acquire(t), Body(t)] }

  /** Locking and unlocking a mutex: the hook after the unlock enters sync once more instead of
      leaving it. */
  function LockUnlock(t: nat): seq<Action> {
    Turn(t, BeforeSync) + Turn(t, AfterSync) + (Turn(t, BeforeSync) + Turn(t, BeforeSync))
  }

  lemma TurnStates(s: State, hook: Hook)
    requires Sized(s) && |s.pcs| == 1 && s.pcs[0].Idle? && s.mutex.Nobody? && s.money[0] != 0
    ensures
      var s1, s2 := s.(pcs := [Entering(hook)]), s.(pcs := [Inside(hook)], mutex := Worker(0));
      && Enabled(s, Invoke(0, hook)) && Do(s, Invoke(0, hook)) == s1
      && Enabled(s1, Acquire(0)) && Do(s1, Acquire(0)) == s2
      && Enabled(s2, Body(0)) && Do(s2, Body(0)) == if hook.AfterSync? then Leave(s, 0) else Pay(s, 0, hook)
  {
    assert s.pcs == [Idle] && s.pcs[0 := Entering(hook)] == [Entering(hook)];
  }

  lemma TurnWorks(s: State, hook: Hook)
    requires Sized(s) && |s.pcs| == 1 && s.pcs[0].Idle? && s.mutex.Nobody? && s.money[0] != 0
    ensures Exec(s, Turn(0, hook)) == At(if hook.AfterSync? then Leave(s, 0) else Pay(s, 0, hook))
  {
    TurnStates(s, hook);
    var invoke, acquire, body := Invoke(0, hook), Acquire(0), Body(0);
    assert Exec(s, []) == At(s);
    hide Do, Exec, Enabled, Pay, Leave;
    ExecSnoc(s, [], invoke);
    ExecSnoc(s, [invoke], acquire);
    ExecSnoc(s, [invoke, acquire], body);
    assert [] + [invoke] == [invoke] && [invoke] + [acquire] == [invoke, acquire];
    assert [invoke, acquire] + [body] == Turn(0, hook);
  }

  /** The state of one thread between its hooks. */
  function Alone(money: nat, acc: Account): State {
    Initial([acc.grant]).(money := [money], accounts := [acc])
  }

  /** Without balance the budget does not hold: a thread with two units of money locks and
      unlocks a mutex, and three charges are made before any refill. */
  lemma UnlockOverspends()
    ensures
      Exec(Initial([2]), LockUnlock(0)) == At(Alone(2 * MAX_MONEY - 1, Account(2, 3, 3, 1, false)))
  {
    var s0 := Initial([2]);
    var s1, s2 := Alone(MAX_MONEY + 1, Account(2, 1, 1, 0, true)), Alone(1, Account(2, 1, 1, 1, true));
    var s3 := Alone(MAX_MONEY, Account(2, 2, 2, 1, true));
    Mod64Small(1);
    Mod64Small(MAX_MONEY);
    Mod64Small(MAX_MONEY + 1);
    Mod64Small(MAX_MONEY - 1);
    Mod64Small(2 * MAX_MONEY - 1);
    assert Pay(s0, 0, BeforeSync) == s1 && Leave(s1, 0) == s2 && Pay(s2, 0, BeforeSync) == s3;
    assert Pay(s3, 0, BeforeSync) == Alone(2 * MAX_MONEY - 1, Account(2, 3, 3, 1, false));
    hide Pay, Leave, Mod64, Exec, Turn;
    TurnWorks(s0, BeforeSync);
    TurnWorks(s1, AfterSync);
    TurnWorks(s2, BeforeSync);
    TurnWorks(s3, BeforeSync);
    ExecConcat(s0, Turn(0, BeforeSync), Turn(0, AfterSync));
    ExecConcat(s2, Turn(0, BeforeSync), Turn(0, BeforeSync));
    ExecConcat(s0, Turn(0, BeforeSync) + Turn(0, AfterSync), Turn(0, BeforeSync) + Turn(0, BeforeSync));
  }

  /** At step `k` of the run, after the last refill, thread `t` is charged beyond its grant:
      it may be charged, its grant is used up, and its enters and leaves differ, other than by
      a multiple of 2^57. */
  predicate BrokenAt(init: seq<nat>, acts: seq<Action>, t: nat, k: nat) {
    && k < |acts|
    && (forall i :: k < i < |acts| ==> !acts[i].Refill?)
    && var o := Exec(Initial(init), acts[..k]);
      && o.At? && t < |o.state.pcs| && Enabled(o.state, acts[k]) && MayCharge(o.state, acts[k], t)
      && var acc := o.state.accounts[t];
        acc.charges == acc.grant && (acc.enters - acc.leaves) % 0x200_0000_0000_0000 != 0
  }

  lemma BrokenLonger(init: seq<nat>, acts: seq<Action>, t: nat, k: nat)
    requires k + 1 < |acts|
    ensures BrokenAt(init, acts, t, k) <==>
            BrokenAt(init, acts[..|acts| - 1], t, k) && !acts[|acts| - 1].Refill?
  {
    var fewer := acts[..|acts| - 1];
    assert fewer[..k] == acts[..k] && fewer[k] == acts[k];
    hide Exec, Enabled, MayCharge;
  }

  /** Charges and grants between refills. */
  lemma ChargesGrow(s: State, a: Action, t: nat)
    requires Inv(s) && Enabled(s, a) && t < |s.pcs|
    ensures a.Refill? ==> Do(s, a).accounts[t].charges == 0
    ensures !a.Refill? ==>
      Do(s, a).accounts[t].grant == s.accounts[t].grant && Do(s, a).accounts[t].charges >= s.accounts[t].charges
  {
  }

  lemma BrokenInRange(init: seq<nat>, acts: seq<Action>, t: nat, k: nat)
    requires BrokenAt(init, acts, t, k)
    ensures k < |acts|
  {
  }

  lemma BrokenLast(init: seq<nat>, acts: seq<Action>, p: State, t: nat)
    requires acts != [] && Exec(Initial(init), acts[..|acts| - 1]) == At(p) && t < |p.pcs|
    requires Enabled(p, acts[|acts| - 1])
    ensures
      var acc := p.accounts[t];
      BrokenAt(init, acts, t, |acts| - 1) <==>
      MayCharge(p, acts[|acts| - 1], t) && acc.charges == acc.grant
      && (acc.enters - acc.leaves) % 0x200_0000_0000_0000 != 0
  {
    hide Exec, Enabled, MayCharge;
  }

  /** How the broken steps of a run follow from those of its prefix. */
  lemma BrokenSteps(init: seq<nat>, acts: seq<Action>, p: State, t: nat)
    requires acts != [] && Exec(Initial(init), acts[..|acts| - 1]) == At(p) && t < |p.pcs|
    requires Enabled(p, acts[|acts| - 1])
    ensures
      var fewer, a, acc := acts[..|acts| - 1], acts[|acts| - 1], p.accounts[t];
      (exists k: nat :: BrokenAt(init, acts, t, k)) <==>
        || (!a.Refill? && exists k: nat :: BrokenAt(init, fewer, t, k))
        || (&& MayCharge(p, a, t) && acc.charges == acc.grant
            && (acc.enters - acc.leaves) % 0x200_0000_0000_0000 != 0)
  {
    var n, fewer, a := |acts| - 1, acts[..|acts| - 1], acts[|acts| - 1];
    BrokenLast(init, acts, p, t);
    hide Exec, Enabled, MayCharge, BrokenAt;
    forall k: nat | BrokenAt(init, fewer, t, k) && !a.Refill? ensures BrokenAt(init, acts, t, k) {
      BrokenInRange(init, fewer, t, k);
      BrokenLonger(init, acts, t, k);
    }
    forall k: nat | BrokenAt(init, acts, t, k)
      ensures k == n || (BrokenAt(init, fewer, t, k) && !a.Refill?)
    {
      BrokenInRange(init, acts, t, k);
      if k < n {
        BrokenLonger(init, acts, t, k);
      }
    }
  }

  /** The budget of the running epoch is exceeded if and only if some step since the last refill
      charged a thread whose grant was used up while its enters and leaves differed. */
  lemma {:induction false} BudgetBrokenExactly(init: seq<nat>, acts: seq<Action>, s: State, t: nat)
    requires Positive(init) && Reaches(init, acts, s) && t < |init| == |s.accounts|
    ensures s.accounts[t].charges > s.accounts[t].grant <==> exists k: nat :: BrokenAt(init, acts, t, k)
  {
    InvAlways(init, acts, s);
    if acts == [] {
      assert forall k: nat :: !BrokenAt(init, acts, t, k);
    } else {
      var fewer, a := acts[..|acts| - 1], acts[|acts| - 1];
      var p := Exec(Initial(init), fewer).state;
      InvAlways(init, fewer, p);
      BudgetBrokenExactly(init, fewer, p, t);
      ChargesGrow(p, a, t);
      BrokenSteps(init, acts, p, t);
      hide BrokenAt, Exec, Inv;
      if p.accounts[t].charges <= p.accounts[t].grant && !a.Refill? {
        OverspendsExactly(init, fewer, p, a, t);
      }
    }
  }

  // ----- bounded progress -----------------------------------------------------------

  /** Nobody's tick moves and no refill happens: what a stuck program leaves to the others. */
  predicate Quiet(acts: seq<Action>) {
    forall i :: 0 <= i < |acts| ==> !acts[i].Touch? && !acts[i].Refill?
  }

  function Polls(acts: seq<Action>): nat {
    if acts == [] then 0 else Polls(acts[..|acts| - 1]) + (if acts[|acts| - 1].Poll? then 1 else 0)
  }

  /** Polls the supervisor can still make before it refills, while the tick stands still. */
  function PollsLeft(s: State): nat {
    if !s.boss.Sleeping? then 0 else if s.lastTick == s.tick then 1 else 2
  }

  lemma QuietStep(s: State, a: Action)
    requires Sized(s) && Enabled(s, a) && !a.Touch? && !a.Refill?
    ensures PollsLeft(Do(s, a)) + (if a.Poll? then 1 else 0) == PollsLeft(s)
    ensures Do(s, a).epoch == s.epoch
  {
  }

  /** Whatever the threads do short of an instrumented operation: until the next refill the
      supervisor polls at most twice, and after the last of these polls it is on its way to
      refill. No thread need be blocked. */
  lemma {:induction false} TwoPollsToRefill(s: State, acts: seq<Action>, s': State)
    requires Sized(s) && Exec(s, acts) == At(s') && Quiet(acts)
    ensures Polls(acts) + PollsLeft(s') == PollsLeft(s) <= 2
    ensures PollsLeft(s') == 0 <==> s'.boss.Refilling? || s'.boss.RefillReady?
    ensures s'.epoch == s.epoch
  {
    if acts != [] {
      var init, a := acts[..|acts| - 1], acts[|acts| - 1];
      var p := Exec(s, init).state;
      TwoPollsToRefill(s, init, p);
      assert !a.Refill? && !a.Touch?;
      QuietStep(p, a);
    }
  }

  /** In the waiting loop, with nothing to find there yet. */
  predicate Blocked(s: State, t: nat)
    requires t < |s.pcs|
  {
    var pc := s.pcs[t];
    pc.Waiting? || ((pc.Woken? || pc.Rechecking?) && pc.seen == s.epoch)
  }

  lemma BlockedStep(s: State, a: Action, t: nat)
    requires Inv(s) && Enabled(s, a) && !a.Refill? && t < |s.pcs| && Blocked(s, t)
    ensures Blocked(Do(s, a), t)
  {
    assert ThreadInv(s, t);
  }

  /** A blocked thread stays blocked until the refill, whatever the others do. */
  lemma {:induction false} BlockedUntilRefill(s: State, acts: seq<Action>, s': State, t: nat)
    requires Inv(s) && Exec(s, acts) == At(s') && t < |s.pcs| && Blocked(s, t)
    requires forall i :: 0 <= i < |acts| ==> !acts[i].Refill?
    ensures Blocked(s', t)
  {
    if acts != [] {
      var init, a := acts[..|acts| - 1], acts[|acts| - 1];
      var p := Exec(s, init).state;
      BlockedUntilRefill(s, init, p, t);
      InvFrom(s, init, p);
      assert !a.Refill?;
      BlockedStep(p, a, t);
    }
  }

  /** The refill empties the wait set and gives every thread its positive initial money. */
  lemma RefillFrees(s: State, next: seq<nat>)
    requires Inv(s) && Enabled(s, Refill(next))
    ensures
      var s' := Do(s, Refill(next));
      forall t :: 0 <= t < |s'.pcs| ==>
        !s'.pcs[t].Waiting? && s'.money[t] == s.init[t] > 0 && !Blocked(s', t)
  {
    InvStep(s, Refill(next));
    var s' := Do(s, Refill(next));
    forall t | 0 <= t < |s'.pcs| ensures !Blocked(s', t) {
      assert ThreadInv(s', t) && ThreadInv(s, t);
    }
  }

  /** Whoever holds the scheduler's mutex gives it back in one step. */
  function FreeMutex(s: State): seq<Action> {
    if !s.mutex.Worker? then []
    else if s.mutex.t < |s.pcs| && s.pcs[s.mutex.t].Inside? then [Body(s.mutex.t)]
    else [Recheck(s.mutex.t)]
  }

  /** The supervisor's steps up to the point where it is ready to refill. */
  function BossSteps(s: State): seq<Action> {
    if s.boss.RefillReady? then []
    else if s.boss.Refilling? then [BossAcquire]
    else if s.lastTick == s.tick then [Poll, BossAcquire]
    else [Poll, Poll, BossAcquire]
  }

  lemma OneMore(s: State, acts: seq<Action>, p: State, a: Action) returns (q: State)
    requires Sized(s) && Exec(s, acts) == At(p) && Inv(p) && Enabled(p, a)
    ensures q == Do(p, a) && Inv(q) && Exec(s, acts + [a]) == At(q)
  {
    ExecSnoc(s, acts, a);
    InvStep(p, a);
    q := Do(p, a);
  }

  lemma FreeMutexWorks(s: State) returns (p: State)
    requires Inv(s)
    ensures Exec(s, FreeMutex(s)) == At(p) && Inv(p) && !p.mutex.Worker?
    ensures p.init == s.init
  {
    p := s;
    if s.mutex.Worker? {
      var a := FreeMutex(s)[0];
      assert ThreadInv(s, s.mutex.t);
      p := OneMore(s, [], s, a);
      assert [] + [a] == FreeMutex(s);
    }
  }

  lemma BossWorks(s: State) returns (p: State)
    requires Inv(s) && !s.mutex.Worker?
    ensures Exec(s, BossSteps(s)) == At(p) && Inv(p) && p.boss.RefillReady? && p.init == s.init
  {
    assert s.boss.RefillReady? <==> s.mutex.Boss?;
    assert Exec(s, []) == At(s);
    p := s;
    hide Inv, Exec;
    var acts := [];
    if p.boss.Sleeping? && p.lastTick != p.tick {
      p := OneMore(s, acts, p, Poll);
      acts := [Poll];
    }
    if p.boss.Sleeping? {
      p := OneMore(s, acts, p, Poll);
      acts := acts + [Poll];
    }
    if p.boss.Refilling? {
      p := OneMore(s, acts, p, BossAcquire);
      acts := acts + [BossAcquire];
    }
    assert acts == BossSteps(s);
  }

  /** The steps of a rescue: a thread that holds the scheduler's mutex finishes its turn, the
      supervisor polls and takes the mutex, everybody is refilled. */
  predicate Rescue(more: seq<Action>) {
    && |more| <= 5 && Polls(more) <= 2
    && forall i :: 0 <= i < |more| ==>
         more[i].Body? || more[i].Recheck? || more[i].Poll? || more[i].BossAcquire? || more[i].Refill?
  }

  /** The money discipline cannot deadlock the program: from every reachable state, wherever the
      threads are, at most five steps refill everybody and empty the wait set; at most two of
      them are polls, and a thread takes part only to give the scheduler's mutex back. */
  lemma {:induction false} BoundedProgress(init: seq<nat>, acts: seq<Action>, s: State)
    returns (more: seq<Action>, s': State)
    requires Positive(init) && Reaches(init, acts, s)
    ensures Reaches(init, acts + more, s') && Rescue(more)
    ensures forall t :: 0 <= t < |s'.pcs| ==> !s'.pcs[t].Waiting? && !Blocked(s', t)
    ensures |s'.money| == |s.init| == |s'.pcs| && s'.money == s.init && Positive(s'.money)
  {
    InvAlways(init, acts, s);
    var p := FreeMutexWorks(s);
    var q := BossWorks(p);
    var xs, ys, refill := FreeMutex(s), BossSteps(p), Refill(q.init);
    RefillFrees(q, q.init);
    IsRescue(s, p, q.init);
    hide Inv, Exec, FreeMutex, BossSteps, Rescue, DoRefill;
    ExecConcat(s, xs, ys);
    ExecSnoc(s, xs + ys, refill);
    more := xs + ys + [refill];
    s' := Do(q, refill);
    ExecConcat(Initial(init), acts, more);
  }

  lemma BossPolls(s: State)
    ensures Polls(BossSteps(s)) <= 2 && |BossSteps(s)| <= 3
    ensures forall i :: 0 <= i < |BossSteps(s)| ==> BossSteps(s)[i].Poll? || BossSteps(s)[i].BossAcquire?
  {
    PollsConcat([Poll], [Poll]);
    PollsConcat([Poll] + [Poll], [BossAcquire]);
    PollsConcat([Poll], [BossAcquire]);
    assert [Poll] + [Poll] + [BossAcquire] == [Poll, Poll, BossAcquire];
    assert [Poll] + [BossAcquire] == [Poll, BossAcquire];
  }

  lemma IsRescue(s: State, p: State, next: seq<nat>)
    ensures Rescue(FreeMutex(s) + BossSteps(p) + [Refill(next)])
  {
    assert Polls(FreeMutex(s)) == 0 && |FreeMutex(s)| <= 1;
    assert forall i :: 0 <= i < |FreeMutex(s)| ==> FreeMutex(s)[i].Body? || FreeMutex(s)[i].Recheck?;
    assert Polls([Refill(next)]) == 0;
    BossPolls(p);
    hide FreeMutex, BossSteps, Polls;
    PollsConcat(FreeMutex(s), BossSteps(p));
    PollsConcat(FreeMutex(s) + BossSteps(p), [Refill(next)]);
  }

  lemma {:induction false} PollsConcat(xs: seq<Action>, ys: seq<Action>)
    ensures Polls(xs + ys) == Polls(xs) + Polls(ys)
    decreases |ys|
  {
    if ys == [] {
      assert xs + ys == xs;
    } else {
      PollsConcat(xs, ys[..|ys| - 1]);
      assert (xs + ys)[..|xs + ys| - 1] == xs + ys[..|ys| - 1];
    }
  }
}
