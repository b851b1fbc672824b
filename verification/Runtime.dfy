// The instrumented program as interleaved steps: threads reserve log slots, write them later,
// and call the real thread library in between.
module Runtime {
  import opened Events

  /** A log slot: reserved by an open batch, reserved for a known event, or written. */
  datatype Slot = Blank(owner: nat) | Promised(event: Event) | Written(event: Event) {
    /** The slot's event; a blank slot stands for no event yet. */
    function Planned(): Event {
      if Blank? then Event(0, 0, Call, owner, 0, 0, 0) else event
    }
  }

  datatype Batch = NoBatch | Batch(id: nat, pos: nat, size: nat)

  datatype Pc =
    | Running
    | Logging(todo: seq<Event>)      // a library-call hook with accesses still to log
    | LockWaiting(m: nat)            // in the real lock call
    | LockTaken(m: nat)              // mutex taken, LOCK not yet logged
    | TryDone(m: nat, took: bool)    // real trylock returned, TRYLOCK not yet logged
    | Unlocking(m: nat)              // UNLOCK logged, mutex not yet given up
    | CondEntering(c: nat, m: nat)   // UNLOCK and WAIT logged, mutex not yet given up
    | CondSleeping(c: nat, m: nat)   // in the real wait call, mutex given up
    | CondTaken(c: nat, m: nat)      // mutex retaken, LOCK and AWAKE not yet logged
    | Creating                       // CREATE's slot reserved, no child yet
    | Created(child: nat)            // child runs, CREATE not yet logged
    | Joining(u: nat)                // in the real join call
    | Joined(u: nat)                 // join returned, JOIN not yet logged
    | Exited

  /** `pending`: slots whose event is decided but not yet written. */
  datatype Thread = Thread(pc: Pc, batch: Batch, pending: seq<nat>)

  /** Thread `t` is `threads[t]`; `owner` is the real state of the mutexes; `stack` are the
      addresses the stack test filters out. `hollow` are the slots of LOCK and TRYLOCK events
      whose call took no mutex; nothing in the log tells them from the others. */
  datatype State = State(
    log: seq<Slot>, threads: seq<Thread>, owner: map<nat, nat>, stack: set<nat>, hollow: set<nat>)

  datatype Action =
    | Write(t: nat)
    | LogAccess(t: nat, e: Event)
    | OpenBatch(t: nat, accesses: seq<Event>)
    | LogNext(t: nat)
    | CloseBatch(t: nat)
    | LockCall(t: nat, m: nat) | LockTake(t: nat) | LockLog(t: nat, inst: nat)
    | TryReal(t: nat, m: nat) | TryLog(t: nat, inst: nat)
    | DestroyLog(t: nat, m: nat, inst: nat)
    | UnlockLog(t: nat, m: nat, inst: nat) | UnlockReal(t: nat)
    | WaitLog(t: nat, c: nat, m: nat, inst: nat) | WaitReal(t: nat) | WakeTake(t: nat)
    | AwakeLog(t: nat, inst: nat)
    | Notify(t: nat, c: nat, all: bool, inst: nat)
    | CreateOpen(t: nat) | Spawn(t: nat) | CreateLog(t: nat, inst: nat)
    | JoinCall(t: nat, u: nat) | JoinReal(t: nat) | JoinLog(t: nat, inst: nat)
    | Exit(t: nat)

  /** The actions of the access hooks. */
  predicate AccessAction(a: Action) { a.LogAccess? || a.OpenBatch? || a.LogNext? || a.CloseBatch? }

  /** The actions of the lock, trylock, destroy, unlock and wait wrappers, the call of lock apart. */
  predicate MutexAction(a: Action) {
    a.LockTake? || a.LockLog? || a.TryReal? || a.TryLog? || a.DestroyLog? || a.UnlockLog? || a.UnlockReal? ||
    a.WaitLog? || a.WaitReal? || a.WakeTake? || a.AwakeLog?
  }

  /** The actions of the create and join wrappers, and a thread's end. */
  predicate ThreadAction(a: Action) {
    a.CreateOpen? || a.Spawn? || a.CreateLog? || a.JoinCall? || a.JoinReal? || a.JoinLog? || a.Exit?
  }

  /** One thread, instrumentation just started, no mutex held. */
  function Initial(stack: set<nat>): State {
    State([], [Thread(Running, NoBatch, [])], map[], stack, {})
  }

  /** How many of the accesses pass the stack test. */
  function Loggable(accesses: seq<Event>, stack: set<nat>): (n: nat)
    ensures n <= |accesses|
  {
    if accesses == [] then 0
    else (if accesses[0].addr in stack then 0 else 1) + Loggable(accesses[1..], stack)
  }

  predicate Owns(s: State, t: nat, m: nat) { m in s.owner && s.owner[m] == t }

  /** The logger's assertion on taking a slot of a batch, and the slot is in the log. */
  predicate CanFill(s: State, b: Batch) {
    b.Batch? && b.pos < b.size && b.id + b.pos < |s.log|
  }

  predicate CanWrite(s: State, th: Thread) {
    th.pending != [] && th.pending[0] < |s.log| && s.log[th.pending[0]].Promised?
  }

  /** What the program, the thread library and the logger's assertions allow next. */
  predicate Enabled(s: State, a: Action) {
    && a.t < |s.threads|
    && (a.Write? || s.threads[a.t].pending == [])
    && var th := s.threads[a.t];
      match a
      case Write(_) => CanWrite(s, th)
      case LogAccess(_, e) => th.pc.Running? && e.IsAccess() && e.addr !in s.stack
      case OpenBatch(_, accesses) =>
        th.pc.Running? && forall i :: 0 <= i < |accesses| ==> accesses[i].IsAccess()
      case LogNext(_) =>
        && th.pc.Logging? && th.pc.todo != []
        && (th.pc.todo[0].addr in s.stack || th.batch.NoBatch? || CanFill(s, th.batch))
      case CloseBatch(_) =>
        && th.pc.Logging? && th.pc.todo == []
        && (th.batch.Batch? ==> th.batch.pos == th.batch.size)
      case LockCall(_, m) => th.pc.Running?
      case LockTake(_) => th.pc.LockWaiting? && th.pc.m !in s.owner
      case LockLog(_, _) => th.pc.LockTaken?
      case TryReal(_, _) => th.pc.Running?
      case TryLog(_, _) => th.pc.TryDone?
      case DestroyLog(_, _, _) => th.pc.Running?
      case UnlockLog(t, m, _) => th.pc.Running? && Owns(s, t, m)
      case UnlockReal(_) => th.pc.Unlocking?
      case WaitLog(t, c, m, _) => th.pc.Running? && Owns(s, t, m)
      case WaitReal(_) => th.pc.CondEntering?
      case WakeTake(_) => th.pc.CondSleeping? && th.pc.m !in s.owner
      case AwakeLog(_, _) => th.pc.CondTaken?
      case Notify(_, _, _, _) => th.pc.Running?
      case CreateOpen(_) => th.pc.Running?
      case Spawn(_) => th.pc.Creating?
      case CreateLog(_, _) => th.pc.Created? && CanFill(s, th.batch)
      case JoinCall(_, u) => th.pc.Running? && u < |s.threads|
      case JoinReal(_) => th.pc.Joining? && th.pc.u < |s.threads| && s.threads[th.pc.u].pc.Exited?
      case JoinLog(_, _) => th.pc.Joined?
      case Exit(_) => th.pc.Running?
  }

  // ----- the kinds of effect --------------------------------------------------------

  function WithThread(s: State, t: nat, th: Thread): State
    requires t < |s.threads|
  {
    s.(threads := s.threads[t := th])
  }

  /** Reserve fresh slots for known events and owe their writes. */
  function Reserve(s: State, t: nat, es: seq<Event>, pc: Pc): State
    requires t < |s.threads|
  {
    var base := |s.log|;
    var slots := seq(|es|, k requires 0 <= k < |es| => Promised(es[k].(ts := base + k, tid := t)));
    WithThread(s, t, s.threads[t].(pc := pc, pending := seq(|es|, k => base + k)))
      .(log := s.log + slots)
  }

  /** Reserve a slot for a LOCK or TRYLOCK whose call took nothing. */
  function ReserveHollow(s: State, t: nat, e: Event): State
    requires t < |s.threads|
  {
    Reserve(s, t, [e], Running).(hollow := s.hollow + {|s.log|})
  }

  /** Reserve `n` consecutive blank slots as this thread's batch. */
  function Open(s: State, t: nat, n: nat, pc: Pc): State
    requires t < |s.threads|
  {
    WithThread(s, t, s.threads[t].(pc := pc, batch := Batch(|s.log|, 0, n)))
      .(log := s.log + seq(n, _ => Blank(t)))
  }

  /** Use the batch's next slot. */
  function Fill(s: State, t: nat, e: Event, pc: Pc): State
    requires t < |s.threads| && CanFill(s, s.threads[t].batch)
  {
    var b := s.threads[t].batch;
    var ts := b.id + b.pos;
    WithThread(s, t, Thread(pc, b.(pos := b.pos + 1), [ts]))
      .(log := s.log[ts := Promised(e.(ts := ts, tid := t))])
  }

  function Go(s: State, t: nat, pc: Pc): State
    requires t < |s.threads|
  {
    WithThread(s, t, s.threads[t].(pc := pc))
  }

  function Take(s: State, t: nat, m: nat): State { s.(owner := s.owner[m := t]) }

  function Drop(s: State, m: nat): State { s.(owner := s.owner - {m}) }

  function SyncEvent(op: Op, a: nat, inst: nat): Event { Event(inst, 0, op, 0, a, 1, 0) }

  function ThreadEvent(op: Op, u: nat, inst: nat): Event { Event(inst, 0, op, 0, 0, 0, u) }

  function DoLogNext(s: State, t: nat): State
    requires Enabled(s, LogNext(t))
  {
    var th := s.threads[t];
    var e, rest := th.pc.todo[0], Logging(th.pc.todo[1..]);
    if e.addr in s.stack then Go(s, t, rest)
    else if th.batch.NoBatch? then Reserve(s, t, [e], rest)
    else Fill(s, t, e, rest)
  }

  function Do(s: State, a: Action): State
    requires Enabled(s, a)
  {
    var t, th := a.t, s.threads[a.t];
    match a
    case Write(_) =>
      var i := th.pending[0];
      WithThread(s, t, th.(pending := th.pending[1..])).(log := s.log[i := Written(s.log[i].event)])
    case LogAccess(_, e) => Reserve(s, t, [e], Running)
    case OpenBatch(_, accesses) =>
      var n := Loggable(accesses, s.stack);
      if n > 1 then Open(s, t, n, Logging(accesses)) else Go(s, t, Logging(accesses))
    case LogNext(_) => DoLogNext(s, t)
    case CloseBatch(_) => WithThread(s, t, Thread(Running, NoBatch, []))
    case LockCall(_, m) => Go(s, t, LockWaiting(m))
    case LockTake(_) => Take(Go(s, t, LockTaken(th.pc.m)), t, th.pc.m)
    case LockLog(_, inst) => Reserve(s, t, [SyncEvent(Lock, th.pc.m, inst)], Running)
    case TryReal(_, m) =>
      if m in s.owner then Go(s, t, TryDone(m, false)) else Take(Go(s, t, TryDone(m, true)), t, m)
    case TryLog(_, inst) =>
      var e := SyncEvent(TryLock, th.pc.m, inst);
      if th.pc.took then Reserve(s, t, [e], Running) else ReserveHollow(s, t, e)
    case DestroyLog(_, m, inst) => ReserveHollow(s, t, SyncEvent(Lock, m, inst))
    case UnlockLog(_, m, inst) => Reserve(s, t, [SyncEvent(Unlock, m, inst)], Unlocking(m))
    case UnlockReal(_) => Drop(Go(s, t, Running), th.pc.m)
    case WaitLog(_, c, m, inst) =>
      Reserve(s, t, [SyncEvent(Unlock, m, inst), SyncEvent(Wait, c, inst)], CondEntering(c, m))
    case WaitReal(_) => Drop(Go(s, t, CondSleeping(th.pc.c, th.pc.m)), th.pc.m)
    case WakeTake(_) => Take(Go(s, t, CondTaken(th.pc.c, th.pc.m)), t, th.pc.m)
    case AwakeLog(_, inst) =>
      Reserve(s, t, [SyncEvent(Lock, th.pc.m, inst), SyncEvent(Awake, th.pc.c, inst)], Running)
    case Notify(_, c, all, inst) =>
      Reserve(s, t, [SyncEvent(if all then Broadcast else Signal, c, inst)], Running)
    case CreateOpen(_) => Open(s, t, 1, Creating)
    case Spawn(_) =>
      Go(s, t, Created(|s.threads|)).(
        threads := s.threads[t := th.(pc := Created(|s.threads|))] + [Thread(Running, NoBatch, [])])
    case CreateLog(_, inst) => Fill(s, t, ThreadEvent(Create, th.pc.child, inst), Logging([]))
    case JoinCall(_, u) => Go(s, t, Joining(u))
    case JoinReal(_) => Go(s, t, Joined(th.pc.u))
    case JoinLog(_, inst) => Reserve(s, t, [ThreadEvent(Join, th.pc.u, inst)], Running)
    case Exit(_) => Go(s, t, Exited)
  }

  /** An action leaves the other threads and the stack alone; new threads start running. */
  lemma OthersUntouched(s: State, a: Action, u: nat)
    requires Enabled(s, a) && u < |Do(s, a).threads| && u != a.t
    ensures Do(s, a).stack == s.stack
    ensures if u < |s.threads| then Do(s, a).threads[u] == s.threads[u] else Do(s, a).threads[u].pc.Running?
  {
    hide CanFill, CanWrite, Loggable;
    if AccessAction(a) {
    } else if MutexAction(a) {
    } else {
    }
  }

  lemma StackStays(s: State, a: Action)
    requires Enabled(s, a)
    ensures Do(s, a).stack == s.stack
  {
    hide Loggable, CanFill, CanWrite;
  }

  datatype Outcome = Stopped | At(state: State)

  /** The state after performing `acts` from the start, if every action was possible. */
  function Exec(stack: set<nat>, acts: seq<Action>): Outcome {
    if acts == [] then At(Initial(stack))
    else match Exec(stack, acts[..|acts| - 1])
      case Stopped => Stopped
      case At(s) =>
        var a := acts[|acts| - 1];
        if Enabled(s, a) then At(Do(s, a)) else Stopped
  }

  /** `acts` is a run of the instrumented program to state `s`. */
  predicate Reaches(stack: set<nat>, acts: seq<Action>, s: State) {
    Exec(stack, acts) == At(s)
  }

  /** The log as a sequence of events. */
  function Trace(s: State): seq<Event> {
    seq(|s.log|, i requires 0 <= i < |s.log| => s.log[i].Planned())
  }
}
