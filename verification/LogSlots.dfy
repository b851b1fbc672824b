// Every log slot is filled exactly once, by the thread that reserved it, with an event whose
// timestamp is the slot's index.
module LogSlots {
  import opened Events
  import opened Runtime

  /** A slot is owed by, or was written for, a thread that exists. */
  predicate SlotOk(s: State, i: nat)
    requires i < |s.log|
  {
    match s.log[i]
    case Blank(t) =>
      && t < |s.threads| && s.threads[t].batch.Batch?
      && s.threads[t].batch.id + s.threads[t].batch.pos <= i < s.threads[t].batch.id + s.threads[t].batch.size
    case Promised(e) => e.ts == i && e.tid < |s.threads| && i in s.threads[e.tid].pending
    case Written(e) => e.ts == i && e.tid < |s.threads|
  }

  predicate Distinct(xs: seq<nat>) {
    forall i, j :: 0 <= i < j < |xs| ==> xs[i] != xs[j]
  }

  /** A thread's debts are slots of its own. */
  predicate ThreadOk(s: State, t: nat)
    requires t < |s.threads|
  {
    var th := s.threads[t];
    && Distinct(th.pending)
    && (forall k :: 0 <= k < |th.pending| ==>
          && th.pending[k] < |s.log| && s.log[th.pending[k]].Promised?
          && s.log[th.pending[k]].event.tid == t)
    && (th.batch.Batch? ==>
          && th.batch.pos <= th.batch.size && th.batch.id + th.batch.size <= |s.log|
          && forall i :: th.batch.id + th.batch.pos <= i < th.batch.id + th.batch.size ==>
               s.log[i] == Blank(t))
  }

  /** The open batch has exactly as many slots left as the hook has accesses to log. */
  predicate BatchOk(s: State, t: nat)
    requires t < |s.threads|
  {
    var th := s.threads[t];
    match th.pc
    case Logging(todo) =>
      && (forall i :: 0 <= i < |todo| ==> todo[i].IsAccess())
      && if th.batch.Batch? then
           th.batch.pos <= th.batch.size && Loggable(todo, s.stack) == th.batch.size - th.batch.pos
         else Loggable(todo, s.stack) <= 1
    case Creating => th.batch.Batch? && th.batch.pos == 0 && th.batch.size == 1
    case Created(_) => th.batch.Batch? && th.batch.pos == 0 && th.batch.size == 1
    case _ => th.batch.NoBatch?
  }

  predicate Sound(s: State) {
    && (forall i :: 0 <= i < |s.log| ==> SlotOk(s, i))
    && (forall t :: 0 <= t < |s.threads| ==> ThreadOk(s, t))
    && (forall t :: 0 <= t < |s.threads| ==> BatchOk(s, t))
  }

  /** Where the thread's next event goes: its batch's next slot, or a fresh one. */
  function SlotOf(s: State, t: nat): nat
    requires t < |s.threads|
  {
    var b := s.threads[t].batch;
    if b.Batch? then b.id + b.pos else |s.log|
  }

  // ----- preserved by every effect --------------------------------------------------

  lemma GoSound(s: State, t: nat, pc: Pc)
    requires Sound(s) && t < |s.threads|
    requires BatchOk(Go(s, t, pc), t)
    ensures Sound(Go(s, t, pc))
  {
    var s' := Go(s, t, pc);
    forall i | 0 <= i < |s'.log| ensures SlotOk(s', i) { assert SlotOk(s, i); }
    forall u | 0 <= u < |s'.threads| ensures ThreadOk(s', u) && BatchOk(s', u) {
      assert ThreadOk(s, u) && BatchOk(s, u);
    }
  }

  /** Neither the mutexes nor the hollow slots matter. */
  lemma OwnerSound(s: State, owner: map<nat, nat>, hollow: set<nat>)
    requires Sound(s)
    ensures Sound(s.(owner := owner, hollow := hollow))
  {
    var s' := s.(owner := owner, hollow := hollow);
    forall i | 0 <= i < |s'.log| ensures SlotOk(s', i) { assert SlotOk(s, i); }
    forall u | 0 <= u < |s'.threads| ensures ThreadOk(s', u) && BatchOk(s', u) {
      assert ThreadOk(s, u) && BatchOk(s, u);
    }
  }

  lemma ReserveSound(s: State, t: nat, es: seq<Event>, pc: Pc)
    requires Sound(s) && t < |s.threads| && s.threads[t].pending == []
    requires BatchOk(Reserve(s, t, es, pc), t)
    ensures Sound(Reserve(s, t, es, pc))
  {
    var s' := Reserve(s, t, es, pc);
    forall i | 0 <= i < |s'.log| ensures SlotOk(s', i) {
      if i < |s.log| {
        assert SlotOk(s, i);
      } else {
        assert s'.threads[t].pending[i - |s.log|] == i;
      }
    }
    forall u | 0 <= u < |s'.threads| ensures ThreadOk(s', u) && BatchOk(s', u) {
      assert ThreadOk(s, u) && BatchOk(s, u);
    }
  }

  lemma OpenSound(s: State, t: nat, n: nat, pc: Pc)
    requires Sound(s) && t < |s.threads| && s.threads[t].batch.NoBatch?
    requires BatchOk(Open(s, t, n, pc), t)
    ensures Sound(Open(s, t, n, pc))
  {
    var s' := Open(s, t, n, pc);
    forall i | 0 <= i < |s'.log| ensures SlotOk(s', i) {
      if i < |s.log| { assert SlotOk(s, i); }
    }
    forall u | 0 <= u < |s'.threads| ensures ThreadOk(s', u) && BatchOk(s', u) {
      assert ThreadOk(s, u) && BatchOk(s, u);
    }
  }

  lemma FillSound(s: State, t: nat, e: Event, pc: Pc)
    requires Sound(s) && t < |s.threads| && s.threads[t].pending == [] && CanFill(s, s.threads[t].batch)
    requires BatchOk(Fill(s, t, e, pc), t)
    ensures Sound(Fill(s, t, e, pc))
  {
    var s' := Fill(s, t, e, pc);
    assert ThreadOk(s, t);
    var ts := s.threads[t].batch.id + s.threads[t].batch.pos;
    assert s.log[ts] == Blank(t) && s'.threads[t].pending[0] == ts;
    forall i | 0 <= i < |s'.log| ensures SlotOk(s', i) {
      assert SlotOk(s, i);
    }
    forall u | 0 <= u < |s'.threads| ensures ThreadOk(s', u) && BatchOk(s', u) {
      assert ThreadOk(s, u) && BatchOk(s, u);
      var b := s'.threads[u].batch;
      forall i | b.Batch? && b.id + b.pos <= i < b.id + b.size ensures s'.log[i] == Blank(u) {
        assert s.log[i] == Blank(u);
      }
    }
  }

  lemma WriteSound(s: State, t: nat)
    requires Sound(s) && Enabled(s, Write(t))
    ensures Sound(Do(s, Write(t)))
  {
    var s' := Do(s, Write(t));
    var w := s.threads[t].pending[0];
    assert ThreadOk(s, t);
    forall i | 0 <= i < |s'.log| ensures SlotOk(s', i) {
      assert SlotOk(s, i);
      if i != w && i in s.threads[t].pending {
        assert i in s'.threads[t].pending;
      }
    }
    forall u | 0 <= u < |s'.threads| ensures ThreadOk(s', u) && BatchOk(s', u) {
      assert ThreadOk(s, u) && BatchOk(s, u);
    }
  }

  lemma SpawnSound(s: State, t: nat)
    requires Sound(s) && Enabled(s, Spawn(t))
    ensures Sound(Do(s, Spawn(t)))
  {
    var s' := Do(s, Spawn(t));
    forall i | 0 <= i < |s'.log| ensures SlotOk(s', i) { assert SlotOk(s, i); }
    assert BatchOk(s, t);
    forall u | 0 <= u < |s'.threads| ensures ThreadOk(s', u) && BatchOk(s', u) {
      if u < |s.threads| { assert ThreadOk(s, u) && BatchOk(s, u); }
    }
  }

  lemma CloseSound(s: State, t: nat)
    requires Sound(s) && Enabled(s, CloseBatch(t))
    ensures Sound(Do(s, CloseBatch(t)))
  {
    var s' := Do(s, CloseBatch(t));
    forall i | 0 <= i < |s'.log| ensures SlotOk(s', i) { assert SlotOk(s, i); }
    forall u | 0 <= u < |s'.threads| ensures ThreadOk(s', u) && BatchOk(s', u) {
      assert ThreadOk(s, u) && BatchOk(s, u);
    }
  }

  lemma AccessSound(s: State, a: Action)
    requires Sound(s) && Enabled(s, a) && AccessAction(a)
    ensures Sound(Do(s, a))
  {
    var t, th := a.t, s.threads[a.t];
    assert BatchOk(s, t);
    hide SlotOk, ThreadOk, Sound;
    match a {
      case LogAccess(_, e) => ReserveSound(s, t, [e], Running);
      case OpenBatch(_, accesses) =>
        var n := Loggable(accesses, s.stack);
        if n > 1 { OpenSound(s, t, n, Logging(accesses)); } else { GoSound(s, t, Logging(accesses)); }
      case LogNext(_) =>
        var e, rest := th.pc.todo[0], Logging(th.pc.todo[1..]);
        if e.addr in s.stack { GoSound(s, t, rest); }
        else if th.batch.NoBatch? { ReserveSound(s, t, [e], rest); }
        else { FillSound(s, t, e, rest); }
      case CloseBatch(_) => CloseSound(s, t);
    }
  }

  lemma HollowSound(s: State, t: nat, e: Event)
    requires Sound(s) && t < |s.threads| && s.threads[t].pending == [] && s.threads[t].batch.NoBatch?
    ensures Sound(Reserve(s, t, [e], Running)) && Sound(ReserveHollow(s, t, e))
  {
    ReserveSound(s, t, [e], Running);
    OwnerSound(Reserve(s, t, [e], Running), s.owner, s.hollow + {|s.log|});
  }

  lemma MutexSound(s: State, a: Action)
    requires Sound(s) && Enabled(s, a) && MutexAction(a)
    ensures Sound(Do(s, a))
  {
    var t, pc := a.t, s.threads[a.t].pc;
    assert BatchOk(s, t);
    hide SlotOk, ThreadOk, Sound, Loggable;
    match a {
      case LockTake(_) =>
        GoSound(s, t, LockTaken(pc.m));
        OwnerSound(Go(s, t, LockTaken(pc.m)), s.owner[pc.m := t], s.hollow);
      case LockLog(_, inst) => ReserveSound(s, t, [SyncEvent(Lock, pc.m, inst)], Running);
      case TryReal(_, m) =>
        GoSound(s, t, TryDone(m, m !in s.owner));
        OwnerSound(Go(s, t, TryDone(m, m !in s.owner)), s.owner[m := t], s.hollow);
      case TryLog(_, inst) => HollowSound(s, t, SyncEvent(TryLock, pc.m, inst));
      case DestroyLog(_, m, inst) => HollowSound(s, t, SyncEvent(Lock, m, inst));
      case UnlockLog(_, m, inst) => ReserveSound(s, t, [SyncEvent(Unlock, m, inst)], Unlocking(m));
      case UnlockReal(_) =>
        GoSound(s, t, Running);
        OwnerSound(Go(s, t, Running), s.owner - {pc.m}, s.hollow);
      case WaitLog(_, c, m, inst) =>
        ReserveSound(s, t, [SyncEvent(Unlock, m, inst), SyncEvent(Wait, c, inst)], CondEntering(c, m));
      case WaitReal(_) =>
        GoSound(s, t, CondSleeping(pc.c, pc.m));
        OwnerSound(Go(s, t, CondSleeping(pc.c, pc.m)), s.owner - {pc.m}, s.hollow);
      case WakeTake(_) =>
        GoSound(s, t, CondTaken(pc.c, pc.m));
        OwnerSound(Go(s, t, CondTaken(pc.c, pc.m)), s.owner[pc.m := t], s.hollow);
      case AwakeLog(_, inst) =>
        ReserveSound(s, t, [SyncEvent(Lock, pc.m, inst), SyncEvent(Awake, pc.c, inst)], Running);
    }
  }

  lemma SoundStep(s: State, a: Action)
    requires Sound(s) && Enabled(s, a)
    ensures Sound(Do(s, a))
  {
    var t, pc := a.t, s.threads[a.t].pc;
    assert BatchOk(s, t);
    hide SlotOk, ThreadOk, Sound, Loggable;
    if AccessAction(a) {
      AccessSound(s, a);
    } else if MutexAction(a) {
      MutexSound(s, a);
    } else {
      match a {
        case Write(_) => WriteSound(s, t);
        case LockCall(_, m) => GoSound(s, t, LockWaiting(m));
        case Notify(_, c, all, inst) =>
          ReserveSound(s, t, [SyncEvent(if all then Broadcast else Signal, c, inst)], Running);
        case CreateOpen(_) => OpenSound(s, t, 1, Creating);
        case Spawn(_) => SpawnSound(s, t);
        case CreateLog(_, inst) => FillSound(s, t, ThreadEvent(Create, pc.child, inst), Logging([]));
        case JoinCall(_, u) => GoSound(s, t, Joining(u));
        case JoinReal(_) => GoSound(s, t, Joined(pc.u));
        case JoinLog(_, inst) => ReserveSound(s, t, [ThreadEvent(Join, pc.u, inst)], Running);
        case Exit(_) => GoSound(s, t, Exited);
      }
    }
  }

  /** In every interleaving. */
  lemma {:induction false} SoundAlways(stack: set<nat>, acts: seq<Action>, s: State)
    requires Reaches(stack, acts, s)
    ensures Sound(s)
  {
    if acts != [] {
      var p := Exec(stack, acts[..|acts| - 1]).state;
      SoundAlways(stack, acts[..|acts| - 1], p);
      SoundStep(p, acts[|acts| - 1]);
    }
  }

  // ----- the main results -----------------------------------------------------------

  /** No write is pending and no batch is open. */
  predicate Quiescent(s: State) {
    forall t :: 0 <= t < |s.threads| ==> s.threads[t].pending == [] && s.threads[t].batch.NoBatch?
  }

  /** The check made when the log is saved: every slot holds an event stamped with its index. */
  predicate FlushOk(log: seq<Slot>) {
    forall i :: 0 <= i < |log| ==> log[i].Written? && log[i].event.ts == i
  }

  /** In every reachable quiescent state the check on saving the log cannot fail. */
  lemma FlushCannotFail(stack: set<nat>, acts: seq<Action>, s: State)
    requires Reaches(stack, acts, s) && Quiescent(s)
    ensures FlushOk(s.log)
  {
    SoundAlways(stack, acts, s);
    forall i | 0 <= i < |s.log| ensures s.log[i].Written? && s.log[i].event.ts == i {
      assert SlotOk(s, i);
    }
  }

  /** None of the logger's assertions can stop a thread: pending writes go to promised slots, no
      batch is open when one is started, a batch has a slot for every access still to log, and
      is used up when it is closed. */
  lemma AssertionsHold(stack: set<nat>, acts: seq<Action>, s: State, t: nat)
    requires Reaches(stack, acts, s) && t < |s.threads|
    ensures s.threads[t].pending != [] ==> Enabled(s, Write(t))
    ensures s.threads[t].pc.Running? ==> s.threads[t].batch.NoBatch?
    ensures s.threads[t].pending == [] && s.threads[t].pc.Logging? ==>
      Enabled(s, if s.threads[t].pc.todo == [] then CloseBatch(t) else LogNext(t))
    ensures s.threads[t].pending == [] && s.threads[t].pc.Created? ==> Enabled(s, CreateLog(t, 0))
  {
    SoundAlways(stack, acts, s);
    assert ThreadOk(s, t) && BatchOk(s, t);
  }

  /** Outside the hooks any accesses off the stack may be logged, and any library call may hand any
      accesses over. */
  lemma MayLogAnything(s: State, t: nat, e: Event, accesses: seq<Event>)
    requires t < |s.threads| && s.threads[t].pending == [] && s.threads[t].pc == Running
    ensures e.op in {Load, Store} && e.addr !in s.stack ==> Enabled(s, LogAccess(t, e))
    ensures (forall i :: 0 <= i < |accesses| ==> accesses[i].op in {Load, Store}) ==> Enabled(s, OpenBatch(t, accesses))
  {
    hide CanFill, CanWrite;
  }

  /** And the thread may lock, try or destroy any mutex, unlock or wait with one it holds, notify,
      create and join threads, and end. */
  lemma MayCallAnything(s: State, t: nat, m: nat, c: nat, all: bool, u: nat, inst: nat)
    requires t < |s.threads| && s.threads[t].pending == [] && s.threads[t].pc == Running
    ensures Enabled(s, LockCall(t, m)) && Enabled(s, TryReal(t, m)) && Enabled(s, DestroyLog(t, m, inst))
    ensures m in s.owner && s.owner[m] == t ==> Enabled(s, UnlockLog(t, m, inst)) && Enabled(s, WaitLog(t, c, m, inst))
    ensures Enabled(s, Notify(t, c, all, inst)) && Enabled(s, CreateOpen(t)) && Enabled(s, Exit(t))
    ensures u < |s.threads| ==> Enabled(s, JoinCall(t, u))
  {
    hide CanFill, CanWrite;
  }

  lemma MutexGoesOn(s: State, t: nat, inst: nat)
    requires t < |s.threads| && s.threads[t].pending == []
    ensures
      match s.threads[t].pc
      case LockWaiting(m) => m !in s.owner ==> Enabled(s, LockTake(t))
      case LockTaken(_) => Enabled(s, LockLog(t, inst))
      case TryDone(_, _) => Enabled(s, TryLog(t, inst))
      case Unlocking(_) => Enabled(s, UnlockReal(t))
      case CondEntering(_, _) => Enabled(s, WaitReal(t))
      case CondSleeping(_, m) => m !in s.owner ==> Enabled(s, WakeTake(t))
      case CondTaken(_, _) => Enabled(s, AwakeLog(t, inst))
      case _ => true
  {
    hide CanFill, CanWrite;
  }

  lemma ThreadGoesOn(s: State, t: nat, inst: nat)
    requires t < |s.threads| && s.threads[t].pending == []
    ensures
      match s.threads[t].pc
      case Creating => Enabled(s, Spawn(t))
      case Created(_) => Enabled(s, CreateLog(t, inst)) == Enabled(s, CreateLog(t, 0))
      case Joining(u) => u < |s.threads| && s.threads[u].pc == Exited ==> Enabled(s, JoinReal(t))
      case Joined(_) => Enabled(s, JoinLog(t, inst))
      case _ => true
  {
    hide CanFill, CanWrite;
  }

  /** No thread can get stuck inside a hook or a wrapper: the next step can be made as soon as the
      thread library can serve it, a lock or a wakeup when the mutex is free, a join when the joined
      thread has exited. */
  lemma NeverStuck(stack: set<nat>, acts: seq<Action>, s: State, t: nat, inst: nat)
    requires Reaches(stack, acts, s) && t < |s.threads|
    ensures s.threads[t].pending != [] ==> Enabled(s, Write(t))
    ensures s.threads[t].pending == [] ==>
      match s.threads[t].pc
      case Running => true
      case Logging(todo) => Enabled(s, if todo == [] then CloseBatch(t) else LogNext(t))
      case LockWaiting(m) => m !in s.owner ==> Enabled(s, LockTake(t))
      case LockTaken(_) => Enabled(s, LockLog(t, inst))
      case TryDone(_, _) => Enabled(s, TryLog(t, inst))
      case Unlocking(_) => Enabled(s, UnlockReal(t))
      case CondEntering(_, _) => Enabled(s, WaitReal(t))
      case CondSleeping(_, m) => m !in s.owner ==> Enabled(s, WakeTake(t))
      case CondTaken(_, _) => Enabled(s, AwakeLog(t, inst))
      case Creating => Enabled(s, Spawn(t))
      case Created(_) => Enabled(s, CreateLog(t, inst))
      case Joining(u) => u < |s.threads| && s.threads[u].pc == Exited ==> Enabled(s, JoinReal(t))
      case Joined(_) => Enabled(s, JoinLog(t, inst))
      case Exited => true
  {
    hide Reaches, Enabled;
    AssertionsHold(stack, acts, s, t);
    if s.threads[t].pending == [] {
      MutexGoesOn(s, t, inst);
      ThreadGoesOn(s, t, inst);
    }
  }

  /** What may become of a slot: a blank one gets an event of its owner, a promised event is
      written as promised, a written one stays. */
  predicate SlotMoves(before: Slot, after: Slot) {
    match before
    case Blank(t) => after == before || (!after.Blank? && after.event.tid == t)
    case Promised(e) => after == before || after == Written(e)
    case Written(_) => after == before
  }

  predicate LogGrows(before: seq<Slot>, after: seq<Slot>) {
    |before| <= |after| && forall i :: 0 <= i < |before| ==> SlotMoves(before[i], after[i])
  }

  lemma LogGrowsStep(s: State, a: Action)
    requires Sound(s) && Enabled(s, a)
    ensures LogGrows(s.log, Do(s, a).log)
  {
    assert ThreadOk(s, a.t);
  }

  lemma LogGrowsOn(x: seq<Slot>, y: seq<Slot>, z: seq<Slot>)
    requires LogGrows(x, y) && LogGrows(y, z)
    ensures LogGrows(x, z)
  {
    forall i | 0 <= i < |x| ensures SlotMoves(x[i], z[i]) {
      assert SlotMoves(x[i], y[i]) && SlotMoves(y[i], z[i]);
    }
  }

  /** No slot is ever given to two events: along every run, slots only move forward. */
  lemma {:induction false} SlotsFilledOnce(stack: set<nat>, acts: seq<Action>, more: seq<Action>, s: State, s': State)
    requires Reaches(stack, acts, s) && Reaches(stack, acts + more, s')
    ensures LogGrows(s.log, s'.log)
    decreases |more|
  {
    if more == [] {
      assert acts + more == acts;
    } else {
      var fewer, all := more[..|more| - 1], acts + more;
      assert all[..|all| - 1] == acts + fewer;
      var p := Exec(stack, acts + fewer).state;
      hide LogGrows, Enabled, Do, Sound;
      SlotsFilledOnce(stack, acts, fewer, s, p);
      SoundAlways(stack, acts + fewer, p);
      LogGrowsStep(p, all[|all| - 1]);
      LogGrowsOn(s.log, p.log, s'.log);
    }
  }
}
