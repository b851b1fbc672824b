// The lengths of logged accesses. The hooks log whatever length they are given; the loader
// insists on positive ones.
module LoggedLengths {
  import opened Events
  import opened Runtime
  import opened LogSlots

  /** What the hook logs has positive lengths. */
  predicate HookMeasured(a: Action, stack: set<nat>) {
    match a
    case LogAccess(_, e) => HasLength(e)
    case OpenBatch(_, accesses) => TodoMeasured(accesses, stack)
    case _ => true
  }

  predicate TodoMeasured(todo: seq<Event>, stack: set<nat>) {
    forall i :: 0 <= i < |todo| && todo[i].addr !in stack ==> HasLength(todo[i])
  }

  predicate LogMeasured(s: State) {
    forall i :: 0 <= i < |s.log| ==> HasLength(s.log[i].Planned())
  }

  predicate PcMeasured(pc: Pc, stack: set<nat>) { pc.Logging? ==> TodoMeasured(pc.todo, stack) }

  predicate HooksMeasured(s: State) {
    forall t :: 0 <= t < |s.threads| ==> PcMeasured(s.threads[t].pc, s.stack)
  }

  // ----- what one action does to the lengths ----------------------------------------

  lemma ReserveLengths(s: State, t: nat, es: seq<Event>, pc: Pc)
    requires t < |s.threads|
    ensures LogMeasured(Reserve(s, t, es, pc)) <==>
            LogMeasured(s) && forall k :: 0 <= k < |es| ==> HasLength(es[k])
  {
    var s' := Reserve(s, t, es, pc);
    forall k | 0 <= k < |es| ensures HasLength(s'.log[|s.log| + k].Planned()) <==> HasLength(es[k]) {}
    forall i | 0 <= i < |s.log| ensures s'.log[i] == s.log[i] {}
    forall i | |s.log| <= i < |s'.log| ensures HasLength(s'.log[i].Planned()) <==> HasLength(es[i - |s.log|]) {}
  }

  lemma ReserveOneLength(s: State, t: nat, e: Event, pc: Pc)
    requires t < |s.threads|
    ensures LogMeasured(Reserve(s, t, [e], pc)) <==> LogMeasured(s) && HasLength(e)
  {
    ReserveLengths(s, t, [e], pc);
    assert [e][0] == e;
  }

  lemma HollowLength(s: State, t: nat, e: Event)
    requires t < |s.threads| && HasLength(e)
    ensures LogMeasured(Reserve(s, t, [e], Running)) <==> LogMeasured(s)
    ensures LogMeasured(ReserveHollow(s, t, e)) <==> LogMeasured(s)
  {
    ReserveOneLength(s, t, e, Running);
    SameLog(Reserve(s, t, [e], Running), ReserveHollow(s, t, e));
  }

  lemma FillLengths(s: State, t: nat, e: Event, pc: Pc)
    requires Sound(s) && t < |s.threads| && CanFill(s, s.threads[t].batch)
    ensures LogMeasured(Fill(s, t, e, pc)) <==> LogMeasured(s) && HasLength(e)
  {
    var s', ts := Fill(s, t, e, pc), s.threads[t].batch.id + s.threads[t].batch.pos;
    assert ThreadOk(s, t);
    assert s.log[ts] == Blank(t) && s'.log[ts].Planned() == e.(ts := ts, tid := t);
    forall i | 0 <= i < |s.log| && i != ts ensures s'.log[i] == s.log[i] {}
  }

  lemma OpenLengths(s: State, t: nat, n: nat, pc: Pc)
    requires t < |s.threads|
    ensures LogMeasured(Open(s, t, n, pc)) <==> LogMeasured(s)
  {
    forall i | 0 <= i < |s.log| ensures Open(s, t, n, pc).log[i] == s.log[i] {}
  }

  lemma WriteLengths(s: State, t: nat)
    requires Enabled(s, Write(t))
    ensures LogMeasured(Do(s, Write(t))) <==> LogMeasured(s)
  {
    var s', w := Do(s, Write(t)), s.threads[t].pending[0];
    forall i | 0 <= i < |s.log| ensures s'.log[i].Planned() == s.log[i].Planned() {}
  }

  lemma AccessLengths(s: State, a: Action)
    requires Sound(s) && Enabled(s, a) && AccessAction(a)
    ensures LogMeasured(Do(s, a)) <==>
      && LogMeasured(s)
      && (a.LogAccess? ==> HasLength(a.e))
      && (a.LogNext? && s.threads[a.t].pc.todo[0].addr !in s.stack ==> HasLength(s.threads[a.t].pc.todo[0]))
  {
    var t, pc := a.t, s.threads[a.t].pc;
    hide Sound, LogMeasured, Loggable, HasLength;
    match a {
      case LogAccess(_, e) => ReserveOneLength(s, t, e, Running);
      case OpenBatch(_, accesses) =>
        OpenLengths(s, t, Loggable(accesses, s.stack), Logging(accesses));
        SameLog(s, Go(s, t, Logging(accesses)));
      case LogNext(_) =>
        var e, rest := pc.todo[0], Logging(pc.todo[1..]);
        if e.addr in s.stack { SameLog(s, Do(s, a)); }
        else if s.threads[t].batch.NoBatch? { ReserveOneLength(s, t, e, rest); }
        else { FillLengths(s, t, e, rest); }
      case CloseBatch(_) => SameLog(s, Do(s, a));
    }
  }

  /** Only the access hooks log lengths. */
  lemma OtherLengths(s: State, a: Action)
    requires Sound(s) && Enabled(s, a) && !AccessAction(a)
    ensures LogMeasured(Do(s, a)) <==> LogMeasured(s)
  {
    var t, pc := a.t, s.threads[a.t].pc;
    hide Sound, LogMeasured, Loggable;
    if Do(s, a).log == s.log {
      SameLog(s, Do(s, a));
      return;
    }
    match a {
      case Write(_) => WriteLengths(s, t);
      case LockLog(_, inst) => ReserveOneLength(s, t, SyncEvent(Lock, pc.m, inst), Running);
      case TryLog(_, inst) => HollowLength(s, t, SyncEvent(TryLock, pc.m, inst));
      case DestroyLog(_, m, inst) => HollowLength(s, t, SyncEvent(Lock, m, inst));
      case UnlockLog(_, m, inst) => ReserveOneLength(s, t, SyncEvent(Unlock, m, inst), Unlocking(m));
      case WaitLog(_, c, m, inst) =>
        ReserveLengths(s, t, [SyncEvent(Unlock, m, inst), SyncEvent(Wait, c, inst)], CondEntering(c, m));
      case AwakeLog(_, inst) =>
        ReserveLengths(s, t, [SyncEvent(Lock, pc.m, inst), SyncEvent(Awake, pc.c, inst)], Running);
      case Notify(_, c, all, inst) =>
        ReserveOneLength(s, t, SyncEvent(if all then Broadcast else Signal, c, inst), Running);
      case CreateOpen(_) => OpenLengths(s, t, 1, Creating);
      case CreateLog(_, inst) => FillLengths(s, t, ThreadEvent(Create, pc.child, inst), Logging([]));
      case JoinLog(_, inst) => ReserveOneLength(s, t, ThreadEvent(Join, pc.u, inst), Running);
      case _ =>
    }
  }

  lemma SameLog(s: State, s': State)
    requires s'.log == s.log
    ensures LogMeasured(s') <==> LogMeasured(s)
  {
  }

  /** What the acting thread has still to log. */
  predicate TodoEffect(s: State, a: Action, s': State)
    requires Enabled(s, a)
  {
    && s'.stack == s.stack && a.t < |s'.threads|
    && var pc, pc' := s.threads[a.t].pc, s'.threads[a.t].pc;
      if a.OpenBatch? then PcMeasured(pc', s.stack) == TodoMeasured(a.accesses, s.stack) && PcMeasured(pc, s.stack)
      else if a.LogNext? then pc.Logging? && pc.todo != [] && pc' == Logging(pc.todo[1..])
      else PcMeasured(pc', s.stack) == PcMeasured(pc, s.stack)
  }

  lemma AccessTodo(s: State, a: Action)
    requires Sound(s) && Enabled(s, a) && AccessAction(a)
    ensures TodoEffect(s, a, Do(s, a))
  {
    assert TodoMeasured([], s.stack);
    hide Sound, Loggable, TodoMeasured;
  }

  lemma MutexTodo(s: State, a: Action)
    requires Enabled(s, a) && MutexAction(a)
    ensures TodoEffect(s, a, Do(s, a))
  {
    hide Loggable, CanFill, TodoMeasured;
  }

  lemma OwnTodo(s: State, a: Action)
    requires Sound(s) && Enabled(s, a)
    ensures TodoEffect(s, a, Do(s, a))
  {
    if AccessAction(a) {
      AccessTodo(s, a);
    } else if MutexAction(a) {
      MutexTodo(s, a);
    } else {
      assert TodoMeasured([], s.stack);
      hide Sound, Loggable, TodoMeasured;
    }
  }

  lemma TodoNext(todo: seq<Event>, stack: set<nat>)
    requires todo != []
    ensures TodoMeasured(todo, stack) <==>
            TodoMeasured(todo[1..], stack) && (todo[0].addr !in stack ==> HasLength(todo[0]))
  {
    hide HasLength;
    forall i | 0 <= i < |todo| && todo[i].addr !in stack && i > 0 && TodoMeasured(todo[1..], stack)
      ensures HasLength(todo[i])
    {
      assert todo[1..][i - 1] == todo[i];
    }
  }

  lemma HooksStep(s: State, a: Action)
    requires Sound(s) && Enabled(s, a)
    ensures Do(s, a).stack == s.stack
    ensures HooksMeasured(Do(s, a)) <==>
      && PcMeasured(Do(s, a).threads[a.t].pc, s.stack)
      && forall t :: 0 <= t < |s.threads| && t != a.t ==> PcMeasured(s.threads[t].pc, s.stack)
  {
    OwnTodo(s, a);
    hide PcMeasured, Do, Enabled, Sound;
    var s' := Do(s, a);
    forall t | 0 <= t < |s'.threads| && t != a.t
      ensures if t < |s.threads| then s'.threads[t] == s.threads[t] else PcMeasured(s'.threads[t].pc, s.stack)
    {
      OthersUntouched(s, a, t);
      RunningMeasured(s'.threads[t].pc, s.stack);
    }
    MoreThreads(s, a);
  }

  lemma RunningMeasured(pc: Pc, stack: set<nat>)
    ensures pc.Running? ==> PcMeasured(pc, stack)
  {
  }

  lemma MoreThreads(s: State, a: Action)
    requires Enabled(s, a)
    ensures |s.threads| <= |Do(s, a).threads|
  {
  }

  lemma LengthsStep(s: State, a: Action)
    requires Sound(s) && Enabled(s, a)
    ensures LogMeasured(Do(s, a)) && HooksMeasured(Do(s, a)) <==>
            LogMeasured(s) && HooksMeasured(s) && HookMeasured(a, s.stack)
  {
    if AccessAction(a) {
      AccessLengths(s, a);
    } else {
      OtherLengths(s, a);
    }
    OwnTodo(s, a);
    HooksStep(s, a);
    if a.LogNext? {
      TodoNext(s.threads[a.t].pc.todo, s.stack);
    }
    assert a.t < |s.threads|;
    hide Do, Enabled, Sound, LogMeasured, HasLength, TodoMeasured;
    assert HooksMeasured(s) <==>
      && PcMeasured(s.threads[a.t].pc, s.stack)
      && forall t :: 0 <= t < |s.threads| && t != a.t ==> PcMeasured(s.threads[t].pc, s.stack);
  }

  // ----- over whole runs ------------------------------------------------------------

  /** Every hook of the run was given positive lengths, stack addresses apart. */
  predicate RunMeasured(acts: seq<Action>, stack: set<nat>) {
    forall k :: 0 <= k < |acts| ==> HookMeasured(acts[k], stack)
  }

  lemma RunLonger(acts: seq<Action>, stack: set<nat>)
    requires acts != []
    ensures RunMeasured(acts, stack) <==>
            RunMeasured(acts[..|acts| - 1], stack) && HookMeasured(acts[|acts| - 1], stack)
  {
    hide HookMeasured;
    var init := acts[..|acts| - 1];
    forall k | 0 <= k < |init| ensures init[k] == acts[k] {}
  }

  /** At every moment of every run: what is in the log and what is still to be logged has
      positive lengths if and only if every hook so far was given positive lengths. */
  lemma {:induction false} LengthsAlways(stack: set<nat>, acts: seq<Action>, s: State)
    requires Reaches(stack, acts, s)
    ensures s.stack == stack
    ensures LogMeasured(s) && HooksMeasured(s) <==> RunMeasured(acts, stack)
  {
    if acts != [] {
      var init, a := acts[..|acts| - 1], acts[|acts| - 1];
      var p := Exec(stack, init).state;
      LengthsAlways(stack, init, p);
      SoundAlways(stack, init, p);
      LengthsStep(p, a);
      HooksStep(p, a);
      RunLonger(acts, stack);
    }
  }

  /** No write is pending and no hook is at work. */
  predicate Finished(s: State) {
    Quiescent(s) && forall t :: 0 <= t < |s.threads| ==> !s.threads[t].pc.Logging?
  }

  /** Every decided event is written, and the thread is neither inside a library-call hook nor
      between reserving CREATE's slot and logging it. */
  predicate AtRest(th: Thread) {
    th.pending == [] && !th.pc.Logging? && !th.pc.Creating? && !th.pc.Created?
  }

  lemma FinishedExactly(stack: set<nat>, acts: seq<Action>, s: State)
    requires Reaches(stack, acts, s)
    ensures Finished(s) <==> forall t :: 0 <= t < |s.threads| ==> AtRest(s.threads[t])
  {
    SoundAlways(stack, acts, s);
    hide Reaches;
    forall t | 0 <= t < |s.threads|
      ensures AtRest(s.threads[t]) <==>
        s.threads[t].pending == [] && s.threads[t].batch.NoBatch? && !s.threads[t].pc.Logging?
    {
      RestMeansNoBatch(s, t);
    }
  }

  lemma RestMeansNoBatch(s: State, t: nat)
    requires Sound(s) && t < |s.threads|
    ensures AtRest(s.threads[t]) <==>
      s.threads[t].pending == [] && s.threads[t].batch.NoBatch? && !s.threads[t].pc.Logging?
  {
    assert BatchOk(s, t);
    hide Loggable, Sound;
  }

  /** The loader's assertion on lengths holds of a finished run's log if and only if every hook
      of the run was given positive lengths. */
  lemma LengthsAssertedExactly(stack: set<nat>, acts: seq<Action>, s: State)
    requires Reaches(stack, acts, s) && Finished(s)
    ensures (forall i :: 0 <= i < |s.log| ==> HasLength(Trace(s)[i])) <==> RunMeasured(acts, stack)
  {
    LengthsAlways(stack, acts, s);
    assert HooksMeasured(s);
    hide HasLength;
    forall i | 0 <= i < |s.log| ensures Trace(s)[i] == s.log[i].Planned() {}
  }

  /** Clearing no bytes at all: the hook logs a store of length zero. */
  function EmptyStore(addr: nat): Event { Event(0, 0, Store, 0, addr, 0, 0) }

  /** A finished run whose log the loader rejects. */
  lemma EmptyStoreRejected(addr: nat) returns (s: State)
    ensures Reaches({}, [LogAccess(0, EmptyStore(addr)), Write(0)], s) && Finished(s)
    ensures Trace(s) == [EmptyStore(addr)] && FlushOk(s.log) && !HasLength(Trace(s)[0])
  {
    var e := EmptyStore(addr);
    var log, write := LogAccess(0, e), Write(0);
    var s0 := Initial({});
    var s1 := Do(s0, log);
    s := Do(s1, write);
    assert s1.threads[0].pending == [0] && s1.threads == [Thread(Running, NoBatch, [0])];
    assert s1.log == [Promised(e)];
    assert s.log == [Written(e)] && s.threads == [Thread(Running, NoBatch, [0][1..])];
    assert [log][..0] == [] && [log, write][..1] == [log];
    assert Exec({}, []) == At(s0) && Exec({}, [log]) == At(s1);
  }
}
