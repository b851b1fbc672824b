// Logged traces are legal lock traces: whatever the interleaving, the events that take and give
// up a mutex alternate in timestamp order, with matching threads. LOCK and TRYLOCK events whose
// call took nothing are logged like the others and have to be discounted first.
module LockTraces {
  import opened Events
  import opened LockDiscipline
  import opened Runtime
  import opened LogSlots

  /** Between the real mutex operation and its log entry. */
  predicate InGap(pc: Pc, m: nat) {
    match pc
    case LockTaken(m') => m == m'
    case TryDone(m', took) => took && m == m'
    case Unlocking(m') => m == m'
    case CondEntering(_, m') => m == m'
    case CondTaken(_, m') => m == m'
    case _ => false
  }

  /** The log with the events that took nothing discounted. */
  function Shown(s: State): seq<Event> {
    seq(|s.log|, i requires 0 <= i < |s.log| =>
      if i in s.hollow then Discounted(s.log[i].Planned()) else s.log[i].Planned())
  }

  lemma ShownDiscounts(s: State)
    ensures Discounts(Trace(s), Shown(s))
  {
  }

  /** Only slots of the log are hollow. */
  predicate HollowBelow(s: State) { forall i :: i in s.hollow ==> i < |s.log| }

  /** Whom the log should show as the holder, read off the real mutex and the pcs. */
  function Expected(s: State, m: nat): Holder {
    if m in s.owner && s.owner[m] < |s.threads| && !InGap(s.threads[s.owner[m]].pc, m)
    then HeldBy(s.owner[m]) else Free
  }

  predicate LockInv(s: State, m: nat) {
    && HollowBelow(s) && Legal(Shown(s), m)
    && HolderOf(Shown(s), m) == Expected(s, m)
    && (m in s.owner ==> s.owner[m] < |s.threads|)
    && (forall t :: 0 <= t < |s.threads| && InGap(s.threads[t].pc, m) ==> Owns(s, t, m))
  }

  predicate Neutral(e: Event, m: nat) { !Concerns(e, m) }

  // ----- growing and completing a legal trace ---------------------------------------

  lemma Extend(tr: seq<Event>, e: Event, m: nat)
    requires Legal(tr, m) && LegalNext(HolderOf(tr, m), e, m)
    ensures Legal(tr + [e], m)
    ensures HolderOf(tr + [e], m) == NextHolder(HolderOf(tr, m), e, m)
  {
    var tr' := tr + [e];
    assert tr'[..|tr|] == tr;
    forall k | 0 <= k < |tr'| ensures LegalNext(HolderAt(tr', m, k), tr'[k], m) {
      assert tr'[..k] == if k < |tr| then tr[..k] else tr;
    }
  }

  lemma {:induction false} ExtendNeutral(tr: seq<Event>, es: seq<Event>, m: nat)
    requires Legal(tr, m) && forall k :: 0 <= k < |es| ==> Neutral(es[k], m)
    ensures Legal(tr + es, m) && HolderOf(tr + es, m) == HolderOf(tr, m)
    decreases |es|
  {
    if es == [] {
      assert tr + es == tr;
    } else {
      hide Legal, HolderOf;
      var init, e := es[..|es| - 1], es[|es| - 1];
      ExtendNeutral(tr, init, m);
      Extend(tr + init, e, m);
      assert tr + es == (tr + init) + [e];
    }
  }

  /** Deciding an event that is not about `m` changes no holder of `m`. */
  lemma {:induction false} ReplaceHolder(tr: seq<Event>, i: nat, e: Event, m: nat)
    requires i < |tr| && Neutral(tr[i], m) && Neutral(e, m)
    ensures HolderOf(tr[i := e], m) == HolderOf(tr, m)
    decreases |tr|
  {
    var k := |tr| - 1;
    if i < k {
      ReplaceHolder(tr[..k], i, e, m);
      assert tr[i := e][..k] == tr[..k][i := e];
    } else {
      assert tr[i := e][..k] == tr[..k];
    }
  }

  lemma ReplaceLegal(tr: seq<Event>, i: nat, e: Event, m: nat)
    requires i < |tr| && Neutral(tr[i], m) && Neutral(e, m) && Legal(tr, m)
    ensures Legal(tr[i := e], m)
    ensures forall k :: 0 <= k <= |tr| ==> HolderAt(tr[i := e], m, k) == HolderAt(tr, m, k)
  {
    var tr' := tr[i := e];
    forall k | 0 <= k <= |tr| ensures HolderAt(tr', m, k) == HolderAt(tr, m, k) {
      if i < k {
        ReplaceHolder(tr[..k], i, e, m);
        assert tr'[..k] == tr[..k][i := e];
      } else {
        assert tr'[..k] == tr[..k];
      }
    }
    forall k | 0 <= k < |tr| ensures LegalNext(HolderAt(tr', m, k), tr'[k], m) {
      assert LegalNext(HolderAt(tr, m, k), tr[k], m);
    }
  }

  // ----- the trace after each kind of effect ----------------------------------------

  function Stamped(e: Event, ts: nat, t: nat): Event { e.(ts := ts, tid := t) }

  lemma ShownReserveOne(s: State, t: nat, e: Event, pc: Pc)
    requires t < |s.threads| && HollowBelow(s)
    ensures Shown(Reserve(s, t, [e], pc)) == Shown(s) + [Stamped(e, |s.log|, t)]
  {
  }

  lemma ShownReserveHollow(s: State, t: nat, e: Event)
    requires t < |s.threads| && HollowBelow(s) && Takes(e)
    ensures Shown(ReserveHollow(s, t, e)) == Shown(s) + [Discounted(Stamped(e, |s.log|, t))]
  {
  }

  lemma ShownReserveTwo(s: State, t: nat, e: Event, f: Event, pc: Pc)
    requires t < |s.threads| && HollowBelow(s)
    ensures Shown(Reserve(s, t, [e, f], pc)) ==
      Shown(s) + [Stamped(e, |s.log|, t)] + [Stamped(f, |s.log| + 1, t)]
  {
  }

  lemma ShownOpen(s: State, t: nat, n: nat, pc: Pc)
    requires t < |s.threads|
    ensures Shown(Open(s, t, n, pc)) == Shown(s) + seq(n, _ => Blank(t).Planned())
  {
  }

  lemma ShownFill(s: State, t: nat, e: Event, pc: Pc)
    requires t < |s.threads| && CanFill(s, s.threads[t].batch) && !Takes(e)
    ensures
      var i := s.threads[t].batch.id + s.threads[t].batch.pos;
      i < |Shown(s)| && Shown(Fill(s, t, e, pc)) == Shown(s)[i := Stamped(e, i, t)]
  {
  }

  lemma ShownWrite(s: State, t: nat)
    requires Enabled(s, Write(t))
    ensures Shown(Do(s, Write(t))) == Shown(s)
  {
  }

  // ----- preserved by every action --------------------------------------------------

  /** Nothing about `m` changed, neither in the log nor in the real mutex nor in the pcs. */
  lemma Unconcerned(s: State, s': State, m: nat)
    requires LockInv(s, m) && Legal(Shown(s'), m) && HolderOf(Shown(s'), m) == HolderOf(Shown(s), m)
    requires HollowBelow(s') && |s.threads| <= |s'.threads|
    requires m in s'.owner <==> m in s.owner
    requires m in s.owner ==> s'.owner[m] == s.owner[m]
    requires forall u :: 0 <= u < |s'.threads| ==>
      (InGap(s'.threads[u].pc, m) <==> u < |s.threads| && InGap(s.threads[u].pc, m))
    ensures LockInv(s', m)
  {
  }

  lemma PcUnconcerned(s: State, s': State, m: nat)
    requires LockInv(s, m) && s'.log == s.log && s'.hollow == s.hollow && |s.threads| <= |s'.threads|
    requires m in s'.owner <==> m in s.owner
    requires m in s.owner ==> s'.owner[m] == s.owner[m]
    requires forall u :: 0 <= u < |s'.threads| ==>
      (InGap(s'.threads[u].pc, m) <==> u < |s.threads| && InGap(s.threads[u].pc, m))
    ensures LockInv(s', m)
  {
    assert Shown(s') == Shown(s);
    Unconcerned(s, s', m);
  }

  lemma ReserveOneUnconcerned(s: State, t: nat, e: Event, pc: Pc, m: nat)
    requires LockInv(s, m) && t < |s.threads| && Neutral(e, m)
    requires InGap(pc, m) <==> InGap(s.threads[t].pc, m)
    ensures LockInv(Reserve(s, t, [e], pc), m)
  {
    var s' := Reserve(s, t, [e], pc);
    ShownReserveOne(s, t, e, pc);
    Extend(Shown(s), Stamped(e, |s.log|, t), m);
    Unconcerned(s, s', m);
  }

  lemma HollowUnconcerned(s: State, t: nat, e: Event, m: nat)
    requires LockInv(s, m) && t < |s.threads| && Takes(e) && !InGap(s.threads[t].pc, m)
    ensures LockInv(ReserveHollow(s, t, e), m)
  {
    ShownReserveHollow(s, t, e);
    Extend(Shown(s), Discounted(Stamped(e, |s.log|, t)), m);
    Unconcerned(s, ReserveHollow(s, t, e), m);
  }

  lemma OpenUnconcerned(s: State, t: nat, n: nat, pc: Pc, m: nat)
    requires LockInv(s, m) && t < |s.threads|
    requires !InGap(pc, m) && !InGap(s.threads[t].pc, m)
    ensures LockInv(Open(s, t, n, pc), m)
  {
    ShownOpen(s, t, n, pc);
    assert HollowBelow(Open(s, t, n, pc));
    hide Shown, Legal, HolderOf;
    ExtendNeutral(Shown(s), seq(n, _ => Blank(t).Planned()), m);
    Unconcerned(s, Open(s, t, n, pc), m);
  }

  lemma FillUnconcerned(s: State, t: nat, e: Event, pc: Pc, m: nat)
    requires LockInv(s, m) && Sound(s) && t < |s.threads| && CanFill(s, s.threads[t].batch)
    requires !Takes(e) && Neutral(e, m) && !InGap(pc, m) && !InGap(s.threads[t].pc, m)
    ensures LockInv(Fill(s, t, e, pc), m)
  {
    var i := s.threads[t].batch.id + s.threads[t].batch.pos;
    ShownFill(s, t, e, pc);
    assert ThreadOk(s, t);
    assert s.log[i] == Blank(t);
    ReplaceLegal(Shown(s), i, Stamped(e, i, t), m);
    var tr' := Shown(Fill(s, t, e, pc));
    assert Shown(s)[..|s.log|] == Shown(s) && tr'[..|s.log|] == tr';
    assert HolderAt(tr', m, |s.log|) == HolderAt(Shown(s), m, |s.log|);
    Unconcerned(s, Fill(s, t, e, pc), m);
  }

  /** The thread that logs LOCK or a successful TRYLOCK on `m` just took it: the log shows it as the holder. */
  lemma LockLogged(s: State, t: nat, e: Event, m: nat)
    requires LockInv(s, m) && t < |s.threads| && InGap(s.threads[t].pc, m)
    requires Takes(e) && e.addr == m
    ensures Legal(Shown(s) + [Stamped(e, |s.log|, t)], m)
    ensures HolderOf(Shown(s) + [Stamped(e, |s.log|, t)], m) == HeldBy(t)
  {
    Extend(Shown(s), Stamped(e, |s.log|, t), m);
  }

  /** The thread that logs UNLOCK on `m` holds it, really and in the log. */
  lemma UnlockLogged(s: State, t: nat, e: Event, m: nat)
    requires LockInv(s, m) && t < |s.threads| && Owns(s, t, m) && !InGap(s.threads[t].pc, m)
    requires e.op.Unlock? && e.addr == m
    ensures Legal(Shown(s) + [Stamped(e, |s.log|, t)], m)
    ensures HolderOf(Shown(s) + [Stamped(e, |s.log|, t)], m) == Free
  {
    Extend(Shown(s), Stamped(e, |s.log|, t), m);
  }

  /** A free mutex is really taken, its log entry still to come. */
  lemma TakeStep(s: State, t: nat, pc: Pc, m': nat, m: nat)
    requires LockInv(s, m) && t < |s.threads| && m' !in s.owner && !InGap(s.threads[t].pc, m)
    requires InGap(pc, m) <==> m == m'
    ensures LockInv(Take(Go(s, t, pc), t, m'), m)
  {
    var s' := Take(Go(s, t, pc), t, m');
    assert Shown(s') == Shown(s);
    hide Legal, HolderOf, Shown;
  }

  /** A mutex is really given up, its log entry already made. */
  lemma DropStep(s: State, t: nat, pc: Pc, m': nat, m: nat)
    requires LockInv(s, m) && t < |s.threads| && !InGap(pc, m)
    requires InGap(s.threads[t].pc, m) <==> m == m'
    ensures LockInv(Drop(Go(s, t, pc), m'), m)
  {
    var s' := Drop(Go(s, t, pc), m');
    assert Shown(s') == Shown(s);
    hide Legal, HolderOf, Shown;
  }

  lemma LockActionStep(s: State, a: Action, m: nat)
    requires LockInv(s, m) && Enabled(s, a)
    requires a.LockTake? || a.TryReal? || a.UnlockReal? || a.WaitReal? || a.WakeTake?
    ensures LockInv(Do(s, a), m)
  {
    hide LockInv;
    var t, pc := a.t, s.threads[a.t].pc;
    match a {
      case LockTake(_) => TakeStep(s, t, LockTaken(pc.m), pc.m, m);
      case TryReal(_, m') =>
        if m' in s.owner {
          PcUnconcerned(s, Do(s, a), m);
        } else {
          TakeStep(s, t, TryDone(m', true), m', m);
        }
      case UnlockReal(_) => DropStep(s, t, Running, pc.m, m);
      case WaitReal(_) => DropStep(s, t, CondSleeping(pc.c, pc.m), pc.m, m);
      case WakeTake(_) => TakeStep(s, t, CondTaken(pc.c, pc.m), pc.m, m);
    }
  }

  /** Nothing about the other threads changed, and this one is out of the gap or owns `m`. */
  lemma HolderShown(s: State, s': State, t: nat, m: nat)
    requires LockInv(s, m) && Legal(Shown(s'), m) && HollowBelow(s') && t < |s.threads| && s'.owner == s.owner
    requires |s'.threads| == |s.threads| && s'.threads == s.threads[t := s'.threads[t]]
    requires InGap(s'.threads[t].pc, m) ==> Owns(s, t, m)
    requires HolderOf(Shown(s'), m) == Expected(s', m)
    ensures LockInv(s', m)
  {
    hide Legal, HolderOf, Shown;
  }

  lemma WaitLogStep(s: State, a: Action, m: nat)
    requires LockInv(s, m) && Enabled(s, a) && a.WaitLog?
    ensures LockInv(Do(s, a), m)
  {
    hide Legal, HolderOf, Shown;
    var t, e, f := a.t, SyncEvent(Unlock, a.m, a.inst), SyncEvent(Wait, a.c, a.inst);
    ShownReserveTwo(s, t, e, f, CondEntering(a.c, a.m));
    if a.m == m {
      UnlockLogged(s, t, e, m);
    } else {
      Extend(Shown(s), Stamped(e, |s.log|, t), m);
    }
    Extend(Shown(s) + [Stamped(e, |s.log|, t)], Stamped(f, |s.log| + 1, t), m);
    HolderShown(s, Do(s, a), t, m);
  }

  lemma AwakeLogStep(s: State, a: Action, m: nat)
    requires LockInv(s, m) && Enabled(s, a) && a.AwakeLog?
    ensures LockInv(Do(s, a), m)
  {
    hide Legal, HolderOf, Shown;
    var t, pc := a.t, s.threads[a.t].pc;
    var e, f := SyncEvent(Lock, pc.m, a.inst), SyncEvent(Awake, pc.c, a.inst);
    ShownReserveTwo(s, t, e, f, Running);
    if pc.m == m {
      LockLogged(s, t, e, m);
    } else {
      Extend(Shown(s), Stamped(e, |s.log|, t), m);
    }
    Extend(Shown(s) + [Stamped(e, |s.log|, t)], Stamped(f, |s.log| + 1, t), m);
    HolderShown(s, Do(s, a), t, m);
  }

  lemma TakeLogStep(s: State, a: Action, m: nat)
    requires LockInv(s, m) && Enabled(s, a) && (a.LockLog? || a.TryLog? || a.DestroyLog?)
    ensures LockInv(Do(s, a), m)
  {
    hide Legal, HolderOf, Shown;
    var t, pc := a.t, s.threads[a.t].pc;
    if a.DestroyLog? {
      HollowUnconcerned(s, t, SyncEvent(Lock, a.m, a.inst), m);
    } else if a.TryLog? && !pc.took {
      HollowUnconcerned(s, t, SyncEvent(TryLock, pc.m, a.inst), m);
    } else {
      var e := SyncEvent(if a.TryLog? then TryLock else Lock, pc.m, a.inst);
      if pc.m == m {
        LockLogged(s, t, e, m);
        ShownReserveOne(s, t, e, Running);
        HolderShown(s, Do(s, a), t, m);
      } else {
        ReserveOneUnconcerned(s, t, e, Running, m);
      }
    }
  }

  lemma UnlockLogStep(s: State, a: Action, m: nat)
    requires LockInv(s, m) && Enabled(s, a) && a.UnlockLog?
    ensures LockInv(Do(s, a), m)
  {
    hide Legal, HolderOf, Shown;
    var t, e := a.t, SyncEvent(Unlock, a.m, a.inst);
    if a.m == m {
      UnlockLogged(s, t, e, m);
      ShownReserveOne(s, t, e, Unlocking(m));
      HolderShown(s, Do(s, a), t, m);
    } else {
      ReserveOneUnconcerned(s, t, e, Unlocking(a.m), m);
    }
  }

  lemma MutexStep(s: State, a: Action, m: nat)
    requires LockInv(s, m) && Enabled(s, a) && MutexAction(a)
    ensures LockInv(Do(s, a), m)
  {
    if a.LockLog? || a.TryLog? || a.DestroyLog? {
      TakeLogStep(s, a, m);
    } else if a.UnlockLog? {
      UnlockLogStep(s, a, m);
    } else if a.WaitLog? {
      WaitLogStep(s, a, m);
    } else if a.AwakeLog? {
      AwakeLogStep(s, a, m);
    } else {
      hide LockInv;
      LockActionStep(s, a, m);
    }
  }

  lemma AccessStep(s: State, a: Action, m: nat)
    requires LockInv(s, m) && Sound(s) && Enabled(s, a) && AccessAction(a)
    ensures LockInv(Do(s, a), m)
  {
    hide Legal, HolderOf, Shown, LockInv;
    var t, th, s' := a.t, s.threads[a.t], Do(s, a);
    assert BatchOk(s, t);
    match a {
      case LogAccess(_, e) => ReserveOneUnconcerned(s, t, e, Running, m);
      case OpenBatch(_, accesses) =>
        var n := Loggable(accesses, s.stack);
        if n > 1 { OpenUnconcerned(s, t, n, Logging(accesses), m); }
        else { PcUnconcerned(s, s', m); }
      case LogNext(_) =>
        var e, rest := th.pc.todo[0], Logging(th.pc.todo[1..]);
        if e.addr in s.stack { PcUnconcerned(s, s', m); }
        else if th.batch.NoBatch? { ReserveOneUnconcerned(s, t, e, rest, m); }
        else { FillUnconcerned(s, t, e, rest, m); }
      case CloseBatch(_) => PcUnconcerned(s, s', m);
    }
  }

  lemma ThreadStep(s: State, a: Action, m: nat)
    requires LockInv(s, m) && Sound(s) && Enabled(s, a) && ThreadAction(a)
    ensures LockInv(Do(s, a), m)
  {
    hide Legal, HolderOf, Shown, LockInv, Sound, Loggable;
    var t, th, s' := a.t, s.threads[a.t], Do(s, a);
    match a {
      case CreateOpen(_) => OpenUnconcerned(s, t, 1, Creating, m);
      case CreateLog(_, inst) =>
        FillUnconcerned(s, t, ThreadEvent(Create, th.pc.child, inst), Logging([]), m);
      case JoinLog(_, inst) => ReserveOneUnconcerned(s, t, ThreadEvent(Join, th.pc.u, inst), Running, m);
      case _ => PcUnconcerned(s, s', m);
    }
  }

  lemma LockInvStep(s: State, a: Action, m: nat)
    requires LockInv(s, m) && Sound(s) && Enabled(s, a)
    ensures LockInv(Do(s, a), m)
  {
    if AccessAction(a) {
      AccessStep(s, a, m);
    } else if ThreadAction(a) {
      ThreadStep(s, a, m);
    } else if MutexAction(a) {
      MutexStep(s, a, m);
    } else {
      hide Legal, HolderOf, Shown;
      match a {
        case Write(_) => ShownWrite(s, a.t); Unconcerned(s, Do(s, a), m);
        case LockCall(_, _) => PcUnconcerned(s, Do(s, a), m);
        case Notify(_, c, all, inst) =>
          var e := SyncEvent(if all then Broadcast else Signal, c, inst);
          ReserveOneUnconcerned(s, a.t, e, Running, m);
      }
    }
  }

  /** In every interleaving, for every mutex. */
  lemma {:induction false} LockInvAlways(stack: set<nat>, acts: seq<Action>, s: State, m: nat)
    requires Reaches(stack, acts, s)
    ensures LockInv(s, m)
  {
    if acts != [] {
      var p := Exec(stack, acts[..|acts| - 1]).state;
      LockInvAlways(stack, acts[..|acts| - 1], p, m);
      SoundAlways(stack, acts[..|acts| - 1], p);
      LockInvStep(p, acts[|acts| - 1], m);
    }
  }

  /** The log of every run, with the events that took nothing discounted, is a legal lock trace,
      and shows every thread that is not between a real mutex operation and its log entry as the
      holder of exactly the mutexes it really holds. */
  lemma {:induction false} LoggedTracesLegal(stack: set<nat>, acts: seq<Action>, s: State, m: nat)
    requires Reaches(stack, acts, s)
    ensures Discounts(Trace(s), Shown(s)) && Legal(Shown(s), m)
    ensures forall t :: 0 <= t < |s.threads| && !InGap(s.threads[t].pc, m) ==>
      (HolderOf(Shown(s), m) == HeldBy(t) <==> Owns(s, t, m))
  {
    LockInvAlways(stack, acts, s, m);
    ShownDiscounts(s);
  }

  /** The log as it stands is a legal lock trace exactly if every event on the mutex that took
      nothing goes unnoticed: the log shows the mutex free there and has nothing more about it. */
  lemma PlainLogLegalExactly(stack: set<nat>, acts: seq<Action>, s: State, m: nat)
    requires Reaches(stack, acts, s)
    ensures Discounts(Trace(s), Shown(s))
    ensures Legal(Trace(s), m) <==>
      forall i :: 0 <= i < |s.log| && Trace(s)[i].addr == m && Shown(s)[i] != Trace(s)[i] ==>
        Unnoticed(Trace(s), Shown(s), m, i)
  {
    LoggedTracesLegal(stack, acts, s, m);
    CountedLegalExactly(Trace(s), Shown(s), m);
  }

  /** The action logs an event that took nothing: a trylock that failed, or a destroyed mutex. */
  predicate LogsHollow(s: State, a: Action)
    requires Enabled(s, a)
  {
    a.DestroyLog? || (a.TryLog? && !s.threads[a.t].pc.took)
  }

  predicate NoHollow(stack: set<nat>, acts: seq<Action>) {
    acts == [] ||
    (&& NoHollow(stack, acts[..|acts| - 1])
     && var o := Exec(stack, acts[..|acts| - 1]);
       o.At? && Enabled(o.state, acts[|acts| - 1]) ==> !LogsHollow(o.state, acts[|acts| - 1]))
  }

  lemma HollowGrows(s: State, a: Action)
    requires Enabled(s, a)
    ensures Do(s, a).hollow == if LogsHollow(s, a) then s.hollow + {|s.log|} else s.hollow
  {
    hide Loggable;
  }

  lemma {:induction false} HollowExactly(stack: set<nat>, acts: seq<Action>, s: State)
    requires Reaches(stack, acts, s)
    ensures s.hollow == {} <==> NoHollow(stack, acts)
  {
    if acts != [] {
      var init := acts[..|acts| - 1];
      var p := Exec(stack, init).state;
      HollowExactly(stack, init, p);
      HollowGrows(p, acts[|acts| - 1]);
    }
  }

  /** If every trylock of the run succeeded and no mutex was destroyed, the log itself is a legal
      lock trace, TRYLOCK events included. */
  lemma {:induction false} SuccessfulTrylocksLegal(stack: set<nat>, acts: seq<Action>, s: State, m: nat)
    requires Reaches(stack, acts, s) && NoHollow(stack, acts)
    ensures Legal(Trace(s), m)
  {
    HollowExactly(stack, acts, s);
    PlainLogLegalExactly(stack, acts, s, m);
  }

  /** A thread tries the mutex it holds: the call fails, its TRYLOCK is logged all the same. */
  function LockThenTry(m: nat): seq<Action> {
    [LockCall(0, m), LockTake(0), LockLog(0, 0), Write(0), TryReal(0, m), TryLog(0, 0)]
  }

  lemma Then(stack: set<nat>, acts: seq<Action>, s: State, a: Action)
    requires Reaches(stack, acts, s) && Enabled(s, a)
    ensures Reaches(stack, acts + [a], Do(s, a))
  {
    assert (acts + [a])[..|acts|] == acts;
  }

  /** The single thread of a run. */
  function Single(log: seq<Slot>, pc: Pc, pending: seq<nat>, owner: map<nat, nat>, hollow: set<nat>): State {
    State(log, [Thread(pc, NoBatch, pending)], owner, {}, hollow)
  }

  lemma SingleSteps(log: seq<Slot>, pc: Pc, owner: map<nat, nat>, e: Event, pc': Pc)
    ensures Go(Single(log, pc, [], owner, {}), 0, pc') == Single(log, pc', [], owner, {})
    ensures Reserve(Single(log, pc, [], owner, {}), 0, [e], pc') ==
            Single(log + [Promised(e.(ts := |log|, tid := 0))], pc', [|log|], owner, {})
  {
    var s := Single(log, pc, [], owner, {});
    assert Go(s, 0, pc').threads == [Thread(pc', NoBatch, [])];
    var r := Reserve(s, 0, [e], pc');
    assert r.threads[0].pending == [|log|];
    assert r.threads == [Thread(pc', NoBatch, [|log|])];
    assert r.log == log + [Promised(e.(ts := |log|, tid := 0))];
  }

  lemma CallAndTake(m: nat)
    ensures
      var s0, s1 := Initial({}), Single([], LockWaiting(m), [], map[], {});
      && Enabled(s0, LockCall(0, m)) && Do(s0, LockCall(0, m)) == s1
      && Enabled(s1, LockTake(0)) && Do(s1, LockTake(0)) == Single([], LockTaken(m), [], map[m := 0], {})
  {
    var e := SyncEvent(Lock, m, 0);
    assert Initial({}) == Single([], Running, [], map[], {});
    SingleSteps([], Running, map[], e, LockWaiting(m));
    SingleSteps([], LockWaiting(m), map[], e, LockTaken(m));
    assert map[][m := 0] == map[m := 0];
  }

  lemma LogLock(m: nat)
    ensures
      var s2, e := Single([], LockTaken(m), [], map[m := 0], {}), Event(0, 0, Lock, 0, m, 1, 0);
      Enabled(s2, LockLog(0, 0)) && Do(s2, LockLog(0, 0)) == Single([Promised(e)], Running, [0], map[m := 0], {})
  {
    SingleSteps([], LockTaken(m), map[m := 0], SyncEvent(Lock, m, 0), Running);
    assert [] + [Promised(Event(0, 0, Lock, 0, m, 1, 0))] == [Promised(Event(0, 0, Lock, 0, m, 1, 0))];
  }

  lemma WriteLock(m: nat, e: Event)
    ensures
      var s3 := Single([Promised(e)], Running, [0], map[m := 0], {});
      Enabled(s3, Write(0)) && Do(s3, Write(0)) == Single([Written(e)], Running, [], map[m := 0], {})
  {
    var s4 := Do(Single([Promised(e)], Running, [0], map[m := 0], {}), Write(0));
    assert [0][1..] == [];
    assert s4.threads == [Thread(Running, NoBatch, [])] && s4.log == [Written(e)];
  }

  lemma TryStates(m: nat, e: Event)
    ensures
      var s4 := Single([Written(e)], Running, [], map[m := 0], {});
      var s5 := Single([Written(e)], TryDone(m, false), [], map[m := 0], {});
      && Enabled(s4, TryReal(0, m)) && Do(s4, TryReal(0, m)) == s5
      && Enabled(s5, TryLog(0, 0))
      && Do(s5, TryLog(0, 0)) ==
         Single([Written(e), Promised(Event(0, 1, TryLock, 0, m, 1, 0))], Running, [1], map[m := 0], {1})
  {
    SingleSteps([Written(e)], Running, map[m := 0], e, TryDone(m, false));
    SingleSteps([Written(e)], TryDone(m, false), map[m := 0], SyncEvent(TryLock, m, 0), Running);
    assert {} + {1} == {1};
    assert [Written(e)] + [Promised(Event(0, 1, TryLock, 0, m, 1, 0))] ==
           [Written(e), Promised(Event(0, 1, TryLock, 0, m, 1, 0))];
  }

  /** With a failed trylock the log as it stands need not be legal. */
  lemma FailedTrylockBreaks(m: nat) returns (s: State)
    ensures Reaches({}, LockThenTry(m), s) && !Legal(Trace(s), m)
  {
    var e, f := Event(0, 0, Lock, 0, m, 1, 0), Event(0, 1, TryLock, 0, m, 1, 0);
    s := Single([Written(e), Promised(f)], Running, [1], map[m := 0], {1});
    assert Trace(s) == [e, f];
    TryAfterLock(e, f, m);
    CallAndTake(m);
    LogLock(m);
    WriteLock(m, e);
    TryStates(m, e);
    assert Reaches({}, [], Initial({}));
    hide Do, Enabled, Reaches, Single, Trace, Legal;
    var acts := [LockCall(0, m)];
    assert [] + [LockCall(0, m)] == acts;
    Then({}, [], Initial({}), LockCall(0, m));
    Then({}, acts, Single([], LockWaiting(m), [], map[], {}), LockTake(0));
    Then({}, acts + [LockTake(0)], Single([], LockTaken(m), [], map[m := 0], {}), LockLog(0, 0));
    acts := acts + [LockTake(0)] + [LockLog(0, 0)];
    Then({}, acts, Single([Promised(e)], Running, [0], map[m := 0], {}), Write(0));
    Then({}, acts + [Write(0)], Single([Written(e)], Running, [], map[m := 0], {}), TryReal(0, m));
    acts := acts + [Write(0)] + [TryReal(0, m)];
    Then({}, acts, Single([Written(e)], TryDone(m, false), [], map[m := 0], {}), TryLog(0, 0));
    assert acts + [TryLog(0, 0)] == LockThenTry(m);
  }

  lemma TryAfterLock(e: Event, f: Event, m: nat)
    requires e.op.Lock? && f.op.TryLock? && e.addr == f.addr == m
    ensures !Legal([e, f], m)
  {
    var t := [e, f];
    assert t[..1] == [e] && [e][..0] == [];
    assert HolderAt(t, m, 1) == HeldBy(e.tid) && !LegalNext(HolderAt(t, m, 1), t[1], m);
  }
}
