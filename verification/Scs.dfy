// The speed-control scheduler as interleaved steps: hooks and the supervisor share one mutex,
// one condition variable, the money counters and the epoch.
module Scs {
  import opened Events
  import opened Money

  /** What a hook does once it has the scheduler's mutex. */
  datatype Hook =
    | BeforeSync   // block without money, charge, enter sync
    | AfterSync    // leave sync
    | FuncCall     // block without money, charge

  datatype Pc =
    | Idle
    | Entering(hook: Hook)                // wants the scheduler's mutex
    | Inside(hook: Hook)                  // holds it, money not yet looked at
    | Waiting(hook: Hook, seen: nat)      // in the wait set; `seen` is the epoch it saw
    | Woken(hook: Hook, seen: nat)        // out of the wait set, wants the mutex back
    | Rechecking(hook: Hook, seen: nat)   // holds it again, epoch not yet compared

  datatype Supervisor =
    | Sleeping
    | Refilling(tick: nat)     // decided to refill, wants the mutex
    | RefillReady(tick: nat)   // holds the mutex

  datatype Agent = Nobody | Worker(t: nat) | Boss

  /** What happened to a thread's money since its last refill. `balanced`: every charge was
      made with as many leaves as enters before it. */
  datatype Account = Account(grant: nat, charges: nat, enters: nat, leaves: nat, balanced: bool)

  datatype State = State(
    money: seq<nat>, init: seq<nat>, accounts: seq<Account>, pcs: seq<Pc>,
    epoch: nat, mutex: Agent, boss: Supervisor, tick: nat, lastTick: nat)

  datatype Action =
    | Touch(t: nat)               // an instrumented operation advances the global tick
    | Invoke(t: nat, hook: Hook)
    | Acquire(t: nat)
    | Body(t: nat)
    | SpuriousWakeup(t: nat)
    | Reacquire(t: nat)
    | Recheck(t: nat)
    | Poll
    | BossAcquire
    | Refill(next: seq<nat>)      // `next`: the initial money from now on

  function Initial(init: seq<nat>): State {
    State(init, init, seq(|init|, i requires 0 <= i < |init| => Account(init[i], 0, 0, 0, true)),
          seq(|init|, _ => Idle), 0, Nobody, Sleeping, 0, 0)
  }

  predicate Sized(s: State) { |s.money| == |s.init| == |s.accounts| == |s.pcs| }

  predicate Enabled(s: State, a: Action) {
    match a
    case Touch(t) => t < |s.pcs| && s.pcs[t].Idle?
    case Invoke(t, _) => t < |s.pcs| && s.pcs[t].Idle?
    case Acquire(t) => t < |s.pcs| && s.pcs[t].Entering? && s.mutex.Nobody?
    case Body(t) => t < |s.pcs| && s.pcs[t].Inside?
    case SpuriousWakeup(t) => t < |s.pcs| && s.pcs[t].Waiting?
    case Reacquire(t) => t < |s.pcs| && s.pcs[t].Woken? && s.mutex.Nobody?
    case Recheck(t) => t < |s.pcs| && s.pcs[t].Rechecking?
    case Poll => s.boss.Sleeping?
    case BossAcquire => s.boss.Refilling? && s.mutex.Nobody?
    case Refill(next) => s.boss.RefillReady? && |next| == |s.init| && Positive(next)
  }

  function SetPc(s: State, t: nat, pc: Pc): State
    requires t < |s.pcs|
  {
    s.(pcs := s.pcs[t := pc])
  }

  /** Charge, and enter sync if the hook says so, then give the mutex up. */
  function Pay(s: State, t: nat, hook: Hook): State
    requires Sized(s) && t < |s.pcs|
  {
    var x := Charged(s.money[t]);
    var acc := s.accounts[t];
    var paid := acc.(charges := acc.charges + 1, balanced := acc.balanced && acc.enters == acc.leaves);
    var sync := hook.BeforeSync?;
    SetPc(s, t, Idle).(
      money := s.money[t := if sync then Entered(x) else x],
      accounts := s.accounts[t := if sync then paid.(enters := acc.enters + 1) else paid],
      mutex := Nobody)
  }

  function Leave(s: State, t: nat): State
    requires Sized(s) && t < |s.pcs|
  {
    var acc := s.accounts[t];
    SetPc(s, t, Idle).(
      money := s.money[t := Left(s.money[t])],
      accounts := s.accounts[t := acc.(leaves := acc.leaves + 1)],
      mutex := Nobody)
  }

  /** Refill everybody, start a new epoch, wake everybody, change the initial money. */
  function DoRefill(s: State, next: seq<nat>): State
    requires Sized(s) && s.boss.RefillReady?
  {
    State(s.init, next,
          seq(|s.init|, i requires 0 <= i < |s.init| => Account(s.init[i], 0, 0, 0, true)),
          seq(|s.pcs|, i requires 0 <= i < |s.pcs| =>
            if s.pcs[i].Waiting? then Woken(s.pcs[i].hook, s.pcs[i].seen) else s.pcs[i]),
          s.epoch + 1, Nobody, Sleeping, s.tick, s.boss.tick)
  }

  function Do(s: State, a: Action): (s': State)
    requires Sized(s) && Enabled(s, a)
    ensures Sized(s') && |s'.pcs| == |s.pcs|
  {
    match a
    case Touch(_) => s.(tick := s.tick + 1)
    case Invoke(t, hook) => SetPc(s, t, Entering(hook))
    case Acquire(t) => SetPc(s, t, Inside(s.pcs[t].hook)).(mutex := Worker(t))
    case Body(t) =>
      var hook := s.pcs[t].hook;
      if hook.AfterSync? then Leave(s, t)
      else if s.money[t] == 0 then SetPc(s, t, Waiting(hook, s.epoch)).(mutex := Nobody)
      else Pay(s, t, hook)
    case SpuriousWakeup(t) => SetPc(s, t, Woken(s.pcs[t].hook, s.pcs[t].seen))
    case Reacquire(t) => SetPc(s, t, Rechecking(s.pcs[t].hook, s.pcs[t].seen)).(mutex := Worker(t))
    case Recheck(t) =>
      var hook, seen := s.pcs[t].hook, s.pcs[t].seen;
      if seen == s.epoch then SetPc(s, t, Waiting(hook, seen)).(mutex := Nobody)
      else Pay(s, t, hook)
    case Poll =>
      if s.lastTick == s.tick then s.(boss := Refilling(s.tick)) else s.(lastTick := s.tick)
    case BossAcquire => s.(boss := RefillReady(s.boss.tick), mutex := Boss)
    case Refill(next) => DoRefill(s, next)
  }

  datatype Outcome = Stopped | At(state: State)

  /** The state after performing `acts` from `s`, if every action was possible. */
  function Exec(s: State, acts: seq<Action>): (o: Outcome)
    requires Sized(s)
    ensures o.At? ==> Sized(o.state) && |o.state.pcs| == |s.pcs|
  {
    if acts == [] then At(s)
    else match Exec(s, acts[..|acts| - 1])
      case Stopped => Stopped
      case At(p) =>
        var a := acts[|acts| - 1];
        if Enabled(p, a) then At(Do(p, a)) else Stopped
  }

  predicate Reaches(init: seq<nat>, acts: seq<Action>, s: State) {
    Exec(Initial(init), acts) == At(s)
  }

  // ----- the invariant --------------------------------------------------------------

  /** The money law: grant, minus charges, plus MAX_MONEY per enter not left, modulo 2^64. */
  predicate Law(x: nat, acc: Account) {
    x == Mod64(acc.grant - acc.charges + MAX_MONEY * (acc.enters - acc.leaves))
  }

  predicate HoldsMutex(pc: Pc) { pc.Inside? || pc.Rechecking? }

  /** What a thread's pc says about its money. */
  predicate ThreadInv(s: State, t: nat)
    requires Sized(s) && t < |s.pcs|
  {
    var pc, x, acc := s.pcs[t], s.money[t], s.accounts[t];
    && x < WORD && 0 < acc.grant < WORD && Law(x, acc)
    && (acc.balanced ==> acc.charges <= acc.grant)
    && (HoldsMutex(pc) <==> s.mutex == Worker(t))
    && (pc.Waiting? ==> x == 0 && pc.seen == s.epoch)
    && (pc.Woken? || pc.Rechecking? ==>
          pc.seen <= s.epoch && (if pc.seen == s.epoch then x == 0 else 0 < x))
    && (pc.Waiting? || pc.Woken? || pc.Rechecking? ==> !pc.hook.AfterSync?)
  }

  predicate Inv(s: State) {
    && Sized(s) && Positive(s.init)
    && (s.boss.RefillReady? <==> s.mutex.Boss?)
    && (s.mutex.Worker? ==> s.mutex.t < |s.pcs|)
    && forall t :: 0 <= t < |s.pcs| ==> ThreadInv(s, t)
  }

  lemma ChargedLaw(x: nat, acc: Account)
    requires 0 < x < WORD && Law(x, acc)
    ensures Law(Charged(x), acc.(charges := acc.charges + 1))
  {
    ChargeNeverWraps(x);
    Mod64Add(acc.grant - acc.charges + MAX_MONEY * (acc.enters - acc.leaves), -1);
    Mod64Small(x - 1);
  }

  lemma EnteredLaw(x: nat, acc: Account)
    requires Law(x, acc)
    ensures Law(Entered(x), acc.(enters := acc.enters + 1))
  {
    Mod64Add(acc.grant - acc.charges + MAX_MONEY * (acc.enters - acc.leaves), MAX_MONEY);
  }

  lemma LeftLaw(x: nat, acc: Account)
    requires Law(x, acc)
    ensures Law(Left(x), acc.(leaves := acc.leaves + 1))
  {
    Mod64Add(acc.grant - acc.charges + MAX_MONEY * (acc.enters - acc.leaves), 0 - MAX_MONEY);
  }

  /** Within a balanced epoch the money left is what the grant has left. */
  lemma BalancedMoney(x: nat, acc: Account)
    requires Law(x, acc) && acc.enters == acc.leaves && acc.charges <= acc.grant < WORD
    ensures x == acc.grant - acc.charges
  {
    Mod64Small(acc.grant - acc.charges);
  }

  lemma PayInv(s: State, t: nat, hook: Hook)
    requires Inv(s) && t < |s.pcs| && HoldsMutex(s.pcs[t]) && 0 < s.money[t]
    ensures Inv(Pay(s, t, hook))
  {
    var acc, s' := s.accounts[t], Pay(s, t, hook);
    assert ThreadInv(s, t);
    ChargedLaw(s.money[t], acc);
    EnteredLaw(Charged(s.money[t]), acc.(charges := acc.charges + 1));
    if acc.balanced && acc.enters == acc.leaves {
      BalancedMoney(s.money[t], acc);
    }
    forall u | 0 <= u < |s'.pcs| ensures ThreadInv(s', u) {
      assert ThreadInv(s, u);
    }
  }

  lemma LeaveInv(s: State, t: nat)
    requires Inv(s) && t < |s.pcs| && s.pcs[t].Inside?
    ensures Inv(Leave(s, t))
  {
    assert ThreadInv(s, t);
    LeftLaw(s.money[t], s.accounts[t]);
    forall u | 0 <= u < |s.pcs| ensures ThreadInv(Leave(s, t), u) {
      assert ThreadInv(s, u);
    }
  }

  lemma RefillInv(s: State, next: seq<nat>)
    requires Inv(s) && Enabled(s, Refill(next))
    ensures Inv(DoRefill(s, next))
  {
    forall u | 0 <= u < |s.pcs| ensures ThreadInv(DoRefill(s, next), u) {
      assert ThreadInv(s, u);
      Mod64Small(s.init[u]);
    }
  }

  /** The steps that move no money. */
  lemma OtherInv(s: State, a: Action)
    requires Inv(s) && Enabled(s, a) && !a.Refill? && Do(s, a).money == s.money && Do(s, a).accounts == s.accounts
    requires a.Body? ==> s.money[a.t] == 0 && !s.pcs[a.t].hook.AfterSync?
    requires a.Recheck? ==> s.pcs[a.t].seen == s.epoch
    ensures Inv(Do(s, a))
  {
    if !a.Poll? && !a.BossAcquire? {
      assert ThreadInv(s, a.t);
    }
    hide Law, Charged, Entered, Left;
    forall u | 0 <= u < |s.pcs| ensures ThreadInv(Do(s, a), u) {
      assert ThreadInv(s, u);
    }
  }

  lemma InvStep(s: State, a: Action)
    requires Inv(s) && Enabled(s, a)
    ensures Inv(Do(s, a))
  {
    if a.Refill? {
      RefillInv(s, a.next);
    } else if a.Body? && s.pcs[a.t].hook.AfterSync? {
      LeaveInv(s, a.t);
    } else if (a.Body? && s.money[a.t] != 0) || (a.Recheck? && s.pcs[a.t].seen != s.epoch) {
      assert ThreadInv(s, a.t);
      PayInv(s, a.t, s.pcs[a.t].hook);
    } else {
      OtherInv(s, a);
    }
  }
}
