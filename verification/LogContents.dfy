// What the log holds: for every thread exactly the operations it performed, in order, said of the
// actions of the run and not of the machine's state.
module LogContents {
  import opened Events
  import opened HappensBefore
  import opened Runtime
  import opened LogSlots
  import opened ThreadOrder
  import LockTraces

  /** An event without its thread and its place. */
  datatype Logged = Logged(op: Op, addr: nat, len: nat, inst: nat, remote: nat)

  function What(e: Event): Logged { Logged(e.op, e.addr, e.len, e.inst, e.remote) }

  predicate Holds(slot: Slot, t: nat) { !slot.Blank? && slot.event.tid == t }

  /** The events of thread `t` in the log, in the order of their timestamps. */
  function ThreadLog(log: seq<Slot>, t: nat): seq<Logged> {
    if log == [] then []
    else
      var init, last := ThreadLog(log[..|log| - 1], t), log[|log| - 1];
      if Holds(last, t) then init + [What(last.event)] else init
  }

  // ----- what a thread performs, from the actions alone -----------------------------

  /** What a thread's earlier calls say about what comes next: the mutex it last asked for or gave
      up and whether a trylock took it, the condition it last waited on, the thread it last asked to
      join, the thread it last created, and the accesses its library call has still to log. */
  datatype Memory = Memory(mutex: nat, took: bool, cond: nat, joinee: nat, child: nat, todo: seq<Event>)

  function Spawns(acts: seq<Action>): nat {
    if acts == [] then 0 else Spawns(acts[..|acts| - 1]) + if acts[|acts| - 1].Spawn? then 1 else 0
  }

  function Note(m: Memory, a: Action, spawns: nat, owners: map<nat, nat>): Memory {
    match a
    case LockCall(_, x) => m.(mutex := x)
    case TryReal(_, x) => m.(mutex := x, took := x !in owners)
    case UnlockLog(_, x, _) => m.(mutex := x)
    case WaitLog(_, c, x, _) => m.(mutex := x, cond := c)
    case JoinCall(_, u) => m.(joinee := u)
    case Spawn(_) => m.(child := spawns + 1)  // thread ids are given out in order, from 1 on
    case OpenBatch(_, accesses) => m.(todo := accesses)
    case LogNext(_) => if m.todo == [] then m else m.(todo := m.todo[1..])
    case _ => m
  }

  function Remembers(acts: seq<Action>, t: nat): Memory {
    if acts == [] then Memory(0, false, 0, 0, 0, [])
    else
      var fewer, a := acts[..|acts| - 1], acts[|acts| - 1];
      if a.t == t then Note(Remembers(fewer, t), a, Spawns(fewer), Owners(fewer)) else Remembers(fewer, t)
  }

  /** Who holds which mutex: a lock, a trylock of a free mutex and the end of a wait take it, an
      unlock and the start of a wait give it up. */
  function Owners(acts: seq<Action>): map<nat, nat> {
    if acts == [] then map[]
    else
      var fewer, a := acts[..|acts| - 1], acts[|acts| - 1];
      Handed(Owners(fewer), a, Remembers(fewer, a.t).mutex)
  }

  function Handed(owners: map<nat, nat>, a: Action, mutex: nat): map<nat, nat> {
    match a
    case LockTake(t) => owners[mutex := t]
    case TryReal(t, x) => if x in owners then owners else owners[x := t]
    case UnlockReal(_) => owners - {mutex}
    case WaitReal(_) => owners - {mutex}
    case WakeTake(t) => owners[mutex := t]
    case _ => owners
  }

  /** What one action performs and the log has to hold. */
  function Performs(stack: set<nat>, m: Memory, a: Action): seq<Logged> {
    match a
    case LogAccess(_, e) => [Logged(e.op, e.addr, e.len, e.inst, e.remote)]
    case LogNext(_) =>
      if m.todo == [] || m.todo[0].addr in stack then []
      else var e := m.todo[0]; [Logged(e.op, e.addr, e.len, e.inst, e.remote)]
    case LockLog(_, inst) => [Logged(Lock, m.mutex, 1, inst, 0)]
    case TryLog(_, inst) => [Logged(TryLock, m.mutex, 1, inst, 0)]
    case DestroyLog(_, x, inst) => [Logged(Lock, x, 1, inst, 0)]
    case UnlockLog(_, x, inst) => [Logged(Unlock, x, 1, inst, 0)]
    case WaitLog(_, c, x, inst) => [Logged(Unlock, x, 1, inst, 0), Logged(Wait, c, 1, inst, 0)]
    case AwakeLog(_, inst) => [Logged(Lock, m.mutex, 1, inst, 0), Logged(Awake, m.cond, 1, inst, 0)]
    case Notify(_, c, all, inst) => [Logged(if all then Broadcast else Signal, c, 1, inst, 0)]
    case CreateLog(_, inst) => [Logged(Create, 0, 0, inst, m.child)]
    case JoinLog(_, inst) => [Logged(Join, 0, 0, inst, m.joinee)]
    case _ => []
  }

  function Performed(stack: set<nat>, acts: seq<Action>, t: nat): seq<Logged> {
    if acts == [] then []
    else
      var fewer, a := acts[..|acts| - 1], acts[|acts| - 1];
      Performed(stack, fewer, t) + if a.t == t then Performs(stack, Remembers(fewer, t), a) else []
  }

  // ----- the memory agrees with the machine -----------------------------------------

  predicate Recalls(pc: Pc, m: Memory) {
    && m.todo == (if pc.Logging? then pc.todo else [])
    && match pc
      case LockWaiting(x) => m.mutex == x
      case LockTaken(x) => m.mutex == x
      case TryDone(x, took) => m.mutex == x && m.took == took
      case Unlocking(x) => m.mutex == x
      case CondEntering(c, x) => m.mutex == x && m.cond == c
      case CondSleeping(c, x) => m.mutex == x && m.cond == c
      case CondTaken(c, x) => m.mutex == x && m.cond == c
      case Created(child) => m.child == child
      case Joining(u) => m.joinee == u
      case Joined(u) => m.joinee == u
      case _ => true
  }

  ghost predicate Remembered(s: State, acts: seq<Action>) {
    && |s.threads| == 1 + Spawns(acts) && s.owner == Owners(acts)
    && (forall t :: 0 <= t < |s.threads| ==> Recalls(s.threads[t].pc, Remembers(acts, t)))
    && (forall t: nat :: |s.threads| <= t ==> Remembers(acts, t).todo == [])
  }

  lemma MutexMemory(s: State, a: Action, m: Memory)
    requires Enabled(s, a) && MutexAction(a) && Recalls(s.threads[a.t].pc, m)
    ensures |Do(s, a).threads| == |s.threads|
    ensures Recalls(Do(s, a).threads[a.t].pc, Note(m, a, |s.threads| - 1, s.owner))
  {
    hide CanFill, CanWrite;
  }

  lemma OwnMemory(s: State, a: Action, m: Memory)
    requires Enabled(s, a) && Recalls(s.threads[a.t].pc, m)
    ensures |Do(s, a).threads| == |s.threads| + if a.Spawn? then 1 else 0
    ensures Recalls(Do(s, a).threads[a.t].pc, Note(m, a, |s.threads| - 1, s.owner))
  {
    if MutexAction(a) {
      MutexMemory(s, a, m);
    } else {
      hide Loggable, CanFill, CanWrite;
    }
  }

  lemma MutexHanded(s: State, a: Action, m: Memory)
    requires Enabled(s, a) && Recalls(s.threads[a.t].pc, m)
    ensures Do(s, a).owner == Handed(s.owner, a, m.mutex)
  {
    hide Loggable, CanFill, CanWrite;
    if MutexAction(a) {
    } else {
      OthersHandNothing(s, a);
    }
  }

  lemma OthersHandNothing(s: State, a: Action)
    requires Enabled(s, a) && !MutexAction(a)
    ensures Do(s, a).owner == s.owner
  {
    hide Loggable, CanFill, CanWrite;
  }

  lemma NextMemory(acts: seq<Action>, a: Action, t: nat)
    ensures Remembers(acts + [a], t) ==
      if a.t == t then Note(Remembers(acts, t), a, Spawns(acts), Owners(acts)) else Remembers(acts, t)
    ensures Owners(acts + [a]) == Handed(Owners(acts), a, Remembers(acts, a.t).mutex)
    ensures Spawns(acts + [a]) == Spawns(acts) + if a.Spawn? then 1 else 0
  {
    assert (acts + [a])[..|acts|] == acts;
  }

  lemma RememberedStep(s: State, acts: seq<Action>, a: Action)
    requires Remembered(s, acts) && Enabled(s, a)
    ensures Remembered(Do(s, a), acts + [a])
  {
    var s', more := Do(s, a), acts + [a];
    hide Enabled, Note, Handed, Recalls, Remembers, Owners, Spawns, Do;
    OwnMemory(s, a, Remembers(acts, a.t));
    MutexHanded(s, a, Remembers(acts, a.t));
    NextMemory(acts, a, a.t);
    forall t | 0 <= t < |s'.threads| ensures Recalls(s'.threads[t].pc, Remembers(more, t)) {
      NextMemory(acts, a, t);
      if t != a.t {
        OthersUntouched(s, a, t);
        if |s.threads| <= t {
          StartsRunning(s'.threads[t].pc, Remembers(acts, t));
        }
      }
    }
    forall t: nat | |s'.threads| <= t ensures Remembers(more, t).todo == [] {
      NextMemory(acts, a, t);
      ActorExists(s, a);
    }
  }

  lemma StartsRunning(pc: Pc, m: Memory)
    requires pc.Running? && m.todo == []
    ensures Recalls(pc, m)
  {
  }

  lemma ActorExists(s: State, a: Action)
    requires Enabled(s, a)
    ensures a.t < |s.threads|
  {
  }

  lemma {:induction false} RememberedAlways(stack: set<nat>, acts: seq<Action>, s: State)
    requires Reaches(stack, acts, s)
    ensures Remembered(s, acts)
  {
    if acts != [] {
      var fewer, a := acts[..|acts| - 1], acts[|acts| - 1];
      var p := Exec(stack, fewer).state;
      assert fewer + [a] == acts;
      RememberedAlways(stack, fewer, p);
      RememberedStep(p, fewer, a);
    }
  }

  /** In every run the mutexes are held by those to whom the calls gave them. */
  lemma OwnersExactly(stack: set<nat>, acts: seq<Action>, s: State)
    requires Reaches(stack, acts, s)
    ensures s.owner == Owners(acts)
  {
    RememberedAlways(stack, acts, s);
  }

  /** Step `k` logs a LOCK or TRYLOCK that took nothing: a destroyed mutex, or a failed trylock. */
  predicate TookNothing(acts: seq<Action>, k: nat)
    requires k < |acts|
  {
    acts[k].DestroyLog? || (acts[k].TryLog? && !Remembers(acts[..k], acts[k].t).took)
  }

  predicate AllTook(acts: seq<Action>) { forall k :: 0 <= k < |acts| ==> !TookNothing(acts, k) }

  lemma AllTookNext(acts: seq<Action>)
    requires acts != []
    ensures AllTook(acts) <==> AllTook(acts[..|acts| - 1]) && !TookNothing(acts, |acts| - 1)
  {
    var fewer := acts[..|acts| - 1];
    forall k | 0 <= k < |fewer| ensures TookNothing(acts, k) <==> TookNothing(fewer, k) {
      assert fewer[..k] == acts[..k];
    }
  }

  lemma HollowNext(stack: set<nat>, acts: seq<Action>, s: State)
    requires acts != [] && Reaches(stack, acts, s)
    ensures Exec(stack, acts[..|acts| - 1]).At?
    ensures LockTraces.NoHollow(stack, acts) <==>
            LockTraces.NoHollow(stack, acts[..|acts| - 1]) && !TookNothing(acts, |acts| - 1)
  {
    var fewer, a := acts[..|acts| - 1], acts[|acts| - 1];
    var p := Exec(stack, fewer).state;
    hide Remembers, Do, Owners, Spawns, Note;
    RememberedAlways(stack, fewer, p);
    assert Recalls(p.threads[a.t].pc, Remembers(fewer, a.t));
  }

  /** No event of the run took nothing exactly if, by the calls alone, no mutex was destroyed and
      every logged trylock found its mutex free. */
  lemma {:induction false} NoHollowExactly(stack: set<nat>, acts: seq<Action>, s: State)
    requires Reaches(stack, acts, s)
    ensures LockTraces.NoHollow(stack, acts) <==> AllTook(acts)
  {
    if acts != [] {
      HollowNext(stack, acts, s);
      AllTookNext(acts);
      hide LockTraces.NoHollow, AllTook, TookNothing;
      NoHollowExactly(stack, acts[..|acts| - 1], Exec(stack, acts[..|acts| - 1]).state);
    }
  }

  // ----- what an action does to a thread's part of the log --------------------------

  lemma {:induction false} ThreadLogConcat(log: seq<Slot>, more: seq<Slot>, t: nat)
    ensures ThreadLog(log + more, t) == ThreadLog(log, t) + ThreadLog(more, t)
    decreases |more|
  {
    if more == [] {
      assert log + more == log;
    } else {
      assert (log + more)[..|log + more| - 1] == log + more[..|more| - 1];
      ThreadLogConcat(log, more[..|more| - 1], t);
    }
  }

  lemma {:induction false} ThreadLogNone(log: seq<Slot>, t: nat)
    requires forall i :: 0 <= i < |log| ==> !Holds(log[i], t)
    ensures ThreadLog(log, t) == []
  {
    if log != [] {
      ThreadLogNone(log[..|log| - 1], t);
    }
  }

  predicate SameFor(x: Slot, y: Slot, t: nat) {
    (Holds(x, t) <==> Holds(y, t)) && (Holds(x, t) ==> What(x.event) == What(y.event))
  }

  lemma {:induction false} ThreadLogSame(log: seq<Slot>, log': seq<Slot>, t: nat)
    requires |log| == |log'| && forall i :: 0 <= i < |log| ==> SameFor(log[i], log'[i], t)
    ensures ThreadLog(log, t) == ThreadLog(log', t)
  {
    if log != [] {
      assert SameFor(log[|log| - 1], log'[|log| - 1], t);
      ThreadLogSame(log[..|log| - 1], log'[..|log| - 1], t);
    }
  }

  /** The slots handed out by an action without a batch, with the events they are to get. */
  predicate Appends(s: State, t: nat, ps: seq<Logged>, s': State) {
    && |s'.log| == |s.log| + |ps| && s'.log[..|s.log|] == s.log
    && forall i :: |s.log| <= i < |s'.log| ==> Holds(s'.log[i], t) && What(s'.log[i].event) == ps[i - |s.log|]
  }

  /** The next slot of the thread's batch gets its event. */
  predicate Fills(s: State, t: nat, ps: seq<Logged>, s': State)
    requires t < |s.threads| && s.threads[t].batch.Batch?
  {
    var i := s.threads[t].batch.id + s.threads[t].batch.pos;
    && |ps| == 1 && |s'.log| == |s.log| && i < |s.log| && s.log[i] == Blank(t)
    && Holds(s'.log[i], t) && What(s'.log[i].event) == ps[0]
    && forall k :: 0 <= k < |s.log| && k != i ==> s'.log[k] == s.log[k]
  }

  /** No event at all: blank slots are reserved, or a promise is kept. */
  predicate Adds(s: State, s': State) {
    && |s.log| <= |s'.log|
    && (forall i :: 0 <= i < |s.log| ==>
          (s.log[i].Blank? <==> s'.log[i].Blank?) && s.log[i].Planned() == s'.log[i].Planned())
    && forall i :: |s.log| <= i < |s'.log| ==> s'.log[i].Blank?
  }

  /** Nothing the thread logged stands where its batch has still to go. */
  predicate Ahead(s: State, t: nat)
    requires t < |s.threads|
  {
    var b := s.threads[t].batch;
    b.Batch? ==> forall i :: b.id + b.pos <= i < |s.log| ==> !Holds(s.log[i], t)
  }

  /** The action logs `ps`. */
  predicate Logs(s: State, t: nat, ps: seq<Logged>, s': State)
    requires t < |s.threads| && t < |s'.threads|
  {
    var b, b' := s.threads[t].batch, s'.threads[t].batch;
    || (Appends(s, t, ps, s') && (ps == [] || b'.NoBatch?) && (b' == b || b'.NoBatch?))
    || (b.Batch? && Fills(s, t, ps, s') && b' == b.(pos := b.pos + 1))
    || (ps == [] && Adds(s, s') && (b' == b || (b'.Batch? && b'.pos == 0 && b'.id == |s.log|)))
  }

  lemma {:induction false} ThreadLogAll(log: seq<Slot>, ps: seq<Logged>, t: nat)
    requires |log| == |ps| && forall k :: 0 <= k < |log| ==> Holds(log[k], t) && What(log[k].event) == ps[k]
    ensures ThreadLog(log, t) == ps
  {
    if log != [] {
      ThreadLogAll(log[..|log| - 1], ps[..|ps| - 1], t);
    }
  }

  lemma AppendsLog(s: State, t: nat, ps: seq<Logged>, s': State, u: nat)
    requires Appends(s, t, ps, s')
    ensures ThreadLog(s'.log, u) == ThreadLog(s.log, u) + if u == t then ps else []
  {
    var more := s'.log[|s.log|..];
    assert s'.log == s.log + more;
    forall k | 0 <= k < |more| ensures Holds(more[k], t) && What(more[k].event) == ps[k] {
      assert more[k] == s'.log[|s.log| + k];
    }
    hide ThreadLog;
    ThreadLogConcat(s.log, more, u);
    if u == t {
      ThreadLogAll(more, ps, t);
    } else {
      ThreadLogNone(more, u);
    }
  }

  lemma OneFilled(init: seq<Slot>, x: Slot, y: Slot, tail: seq<Slot>, t: nat)
    requires !Holds(x, t) && Holds(y, t) && forall k :: 0 <= k < |tail| ==> !Holds(tail[k], t)
    ensures ThreadLog(init + ([y] + tail), t) == ThreadLog(init + ([x] + tail), t) + [What(y.event)]
  {
    ThreadLogNone(tail, t);
    ThreadLogNone([x], t);
    ThreadLogAll([y], [What(y.event)], t);
    hide ThreadLog;
    ThreadLogConcat(init, [x] + tail, t);
    ThreadLogConcat(init, [y] + tail, t);
    ThreadLogConcat([x], tail, t);
    ThreadLogConcat([y], tail, t);
  }

  lemma OwnFilled(log: seq<Slot>, log': seq<Slot>, i: nat, t: nat)
    requires i < |log| == |log'| && !Holds(log[i], t) && Holds(log'[i], t)
    requires forall k :: 0 <= k < |log| && k != i ==> log'[k] == log[k]
    requires forall k :: i < k < |log| ==> !Holds(log[k], t)
    ensures ThreadLog(log', t) == ThreadLog(log, t) + [What(log'[i].event)]
  {
    hide ThreadLog, Holds, What;
    var init, tail := log[..i], log[i + 1..];
    assert log == init + ([log[i]] + tail);
    assert log' == init + ([log'[i]] + tail);
    OneFilled(init, log[i], log'[i], tail, t);
  }

  lemma FillsLog(s: State, t: nat, ps: seq<Logged>, s': State, u: nat)
    requires t < |s.threads| && s.threads[t].batch.Batch? && Fills(s, t, ps, s') && Ahead(s, t)
    ensures ThreadLog(s'.log, u) == ThreadLog(s.log, u) + if u == t then ps else []
  {
    var i := s.threads[t].batch.id + s.threads[t].batch.pos;
    hide ThreadLog;
    if u == t {
      OwnFilled(s.log, s'.log, i, t);
      assert ps == [What(s'.log[i].event)];
    } else {
      OthersKept(s, t, ps, s', u);
    }
  }

  lemma OthersKept(s: State, t: nat, ps: seq<Logged>, s': State, u: nat)
    requires t < |s.threads| && s.threads[t].batch.Batch? && Fills(s, t, ps, s') && u != t
    ensures ThreadLog(s'.log, u) == ThreadLog(s.log, u)
  {
    hide ThreadLog, What;
    forall k | 0 <= k < |s.log| ensures SameFor(s.log[k], s'.log[k], u) {}
    ThreadLogSame(s.log, s'.log, u);
  }

  lemma AddsLog(s: State, s': State, u: nat)
    requires Adds(s, s')
    ensures ThreadLog(s'.log, u) == ThreadLog(s.log, u)
  {
    var old_, more := s'.log[..|s.log|], s'.log[|s.log|..];
    assert s'.log == old_ + more;
    ThreadLogConcat(old_, more, u);
    ThreadLogNone(more, u);
    ThreadLogSame(s.log, old_, u);
  }

  lemma LogsStep(s: State, t: nat, ps: seq<Logged>, s': State, u: nat)
    requires t < |s.threads| && t < |s'.threads| && Logs(s, t, ps, s') && Ahead(s, t)
    ensures Ahead(s', t)
    ensures ThreadLog(s'.log, u) == ThreadLog(s.log, u) + if u == t then ps else []
  {
    var b, b' := s.threads[t].batch, s'.threads[t].batch;
    hide ThreadLog;
    if Appends(s, t, ps, s') && (ps == [] || b'.NoBatch?) && (b' == b || b'.NoBatch?) {
      AppendsLog(s, t, ps, s', u);
    } else if b.Batch? && Fills(s, t, ps, s') && b' == b.(pos := b.pos + 1) {
      FillsLog(s, t, ps, s', u);
    } else {
      AddsLog(s, s', u);
    }
  }

  lemma LogsAlone(s: State, t: nat, ps: seq<Logged>, s': State, u: nat)
    requires t < |s.threads| && t < |s'.threads| && Logs(s, t, ps, s') && u != t
    requires u < |s.threads| && u < |s'.threads| && s'.threads[u] == s.threads[u] && Ahead(s, u)
    ensures Ahead(s', u)
  {
    var b := s.threads[u].batch;
    forall i | b.Batch? && b.id + b.pos <= i < |s'.log| ensures !Holds(s'.log[i], u) {
      assert i < |s.log| ==> !Holds(s.log[i], u);
    }
  }

  // ----- every action logs what it performs -----------------------------------------

  lemma GoLogs(s: State, t: nat, s': State)
    requires t < |s.threads| && t < |s'.threads| && s'.log == s.log && s'.threads[t].batch == s.threads[t].batch
    ensures Logs(s, t, [], s')
  {
    assert Adds(s, s');
  }

  lemma ReserveLogs(s: State, t: nat, es: seq<Event>, pc: Pc, ps: seq<Logged>)
    requires t < |s.threads| && s.threads[t].batch.NoBatch?
    requires |ps| == |es| && forall k :: 0 <= k < |es| ==> What(es[k]) == ps[k]
    ensures Logs(s, t, ps, Reserve(s, t, es, pc))
  {
    var s' := Reserve(s, t, es, pc);
    assert Appends(s, t, ps, s');
  }

  lemma OpenLogs(s: State, t: nat, n: nat, pc: Pc)
    requires t < |s.threads|
    ensures Logs(s, t, [], Open(s, t, n, pc))
  {
    assert Adds(s, Open(s, t, n, pc));
  }

  lemma FillLogs(s: State, t: nat, e: Event, pc: Pc)
    requires t < |s.threads| && CanFill(s, s.threads[t].batch) && ThreadOk(s, t)
    ensures Logs(s, t, [What(e)], Fill(s, t, e, pc))
  {
    assert Fills(s, t, [What(e)], Fill(s, t, e, pc));
  }

  lemma AccessLogs(s: State, a: Action, m: Memory)
    requires Sound(s) && Enabled(s, a) && AccessAction(a) && Recalls(s.threads[a.t].pc, m)
    ensures Logs(s, a.t, Performs(s.stack, m, a), Do(s, a))
  {
    var t, th := a.t, s.threads[a.t];
    assert ThreadOk(s, t) && BatchOk(s, t);
    hide Sound, ThreadOk, Loggable, Logs;
    match a {
      case LogAccess(_, e) => ReserveLogs(s, t, [e], Running, [What(e)]);
      case OpenBatch(_, accesses) =>
        var n := Loggable(accesses, s.stack);
        if n > 1 { OpenLogs(s, t, n, Logging(accesses)); } else { GoLogs(s, t, Do(s, a)); }
      case LogNext(_) =>
        var e, rest := th.pc.todo[0], Logging(th.pc.todo[1..]);
        if e.addr in s.stack { GoLogs(s, t, Do(s, a)); }
        else if th.batch.NoBatch? { ReserveLogs(s, t, [e], rest, [What(e)]); }
        else { FillLogs(s, t, e, rest); }
      case CloseBatch(_) => CloseLogs(s, t);
    }
  }

  lemma CloseLogs(s: State, t: nat)
    requires Enabled(s, CloseBatch(t))
    ensures Logs(s, t, [], Do(s, CloseBatch(t)))
  {
    assert Appends(s, t, [], Do(s, CloseBatch(t)));
  }

  lemma MutexLogs(s: State, a: Action, m: Memory)
    requires Sound(s) && Enabled(s, a) && MutexAction(a) && Recalls(s.threads[a.t].pc, m)
    ensures Logs(s, a.t, Performs(s.stack, m, a), Do(s, a))
  {
    var t, pc, ps := a.t, s.threads[a.t].pc, Performs(s.stack, m, a);
    assert BatchOk(s, t);
    hide Sound, Loggable, Logs;
    match a {
      case LockLog(_, inst) => ReserveLogs(s, t, [SyncEvent(Lock, pc.m, inst)], Running, ps);
      case TryLog(_, inst) => HollowLogs(s, t, SyncEvent(TryLock, pc.m, inst));
      case DestroyLog(_, x, inst) => HollowLogs(s, t, SyncEvent(Lock, x, inst));
      case UnlockLog(_, x, inst) => ReserveLogs(s, t, [SyncEvent(Unlock, x, inst)], Unlocking(x), ps);
      case WaitLog(_, c, x, inst) =>
        ReserveLogs(s, t, [SyncEvent(Unlock, x, inst), SyncEvent(Wait, c, inst)], CondEntering(c, x), ps);
      case AwakeLog(_, inst) =>
        ReserveLogs(s, t, [SyncEvent(Lock, pc.m, inst), SyncEvent(Awake, pc.c, inst)], Running, ps);
      case LockTake(_) => CallLogs(s, a);
      case TryReal(_, _) => CallLogs(s, a);
      case UnlockReal(_) => CallLogs(s, a);
      case WaitReal(_) => CallLogs(s, a);
      case WakeTake(_) => CallLogs(s, a);
    }
  }

  lemma CallLogs(s: State, a: Action)
    requires Enabled(s, a) && (a.LockTake? || a.TryReal? || a.UnlockReal? || a.WaitReal? || a.WakeTake?)
    ensures Logs(s, a.t, [], Do(s, a))
  {
    hide Logs, CanFill, CanWrite;
    GoLogs(s, a.t, Do(s, a));
  }

  lemma HollowLogs(s: State, t: nat, e: Event)
    requires t < |s.threads| && s.threads[t].batch.NoBatch?
    ensures Logs(s, t, [What(e)], Reserve(s, t, [e], Running)) && Logs(s, t, [What(e)], ReserveHollow(s, t, e))
  {
    assert Appends(s, t, [What(e)], Reserve(s, t, [e], Running));
    assert Appends(s, t, [What(e)], ReserveHollow(s, t, e));
  }

  lemma WriteLogs(s: State, t: nat)
    requires Enabled(s, Write(t))
    ensures Logs(s, t, [], Do(s, Write(t)))
  {
    assert Adds(s, Do(s, Write(t)));
  }

  lemma ThreadLogs(s: State, a: Action, m: Memory)
    requires Sound(s) && Enabled(s, a) && ThreadAction(a) && Recalls(s.threads[a.t].pc, m)
    ensures a.t < |Do(s, a).threads| && Logs(s, a.t, Performs(s.stack, m, a), Do(s, a))
  {
    var t, pc := a.t, s.threads[a.t].pc;
    assert ThreadOk(s, t) && BatchOk(s, t);
    hide Sound, Logs, ThreadOk;
    if a.CreateOpen? {
      OpenLogs(s, t, 1, Creating);
    } else if a.CreateLog? {
      FillLogs(s, t, ThreadEvent(Create, pc.child, a.inst), Logging([]));
    } else if a.JoinLog? {
      ReserveLogs(s, t, [ThreadEvent(Join, pc.u, a.inst)], Running, [Logged(Join, 0, 0, a.inst, m.joinee)]);
    } else {
      GoLogs(s, t, Do(s, a));
    }
  }

  lemma ActionLogs(s: State, a: Action, m: Memory)
    requires Sound(s) && Enabled(s, a) && Recalls(s.threads[a.t].pc, m)
    ensures a.t < |Do(s, a).threads| && Logs(s, a.t, Performs(s.stack, m, a), Do(s, a))
  {
    if AccessAction(a) {
      AccessLogs(s, a, m);
    } else if MutexAction(a) {
      MutexLogs(s, a, m);
    } else if ThreadAction(a) {
      ThreadLogs(s, a, m);
    } else {
      assert BatchOk(s, a.t);
      hide Sound, Loggable, Logs;
      match a {
        case Write(t) => WriteLogs(s, t);
        case Notify(t, c, all, inst) =>
          var op := if all then Broadcast else Signal;
          ReserveLogs(s, t, [SyncEvent(op, c, inst)], Running, [Logged(op, c, 1, inst, 0)]);
        case LockCall(t, _) => GoLogs(s, t, Do(s, a));
      }
    }
  }

  // ----- the log is complete --------------------------------------------------------

  predicate AllAhead(s: State) { forall t :: 0 <= t < |s.threads| ==> Ahead(s, t) }

  /** Every thread's part of the log is what it performed. */
  ghost predicate Complete(s: State, acts: seq<Action>) {
    forall t: nat :: ThreadLog(s.log, t) == Performed(s.stack, acts, t)
  }

  lemma AheadStep(s: State, a: Action, ps: seq<Logged>)
    requires Sound(s) && Enabled(s, a) && AllAhead(s)
    requires a.t < |Do(s, a).threads| && Logs(s, a.t, ps, Do(s, a))
    ensures AllAhead(Do(s, a))
  {
    var s' := Do(s, a);
    hide Do, Enabled, Sound, Logs;
    forall t | 0 <= t < |s'.threads| ensures Ahead(s', t) {
      if t == a.t {
        LogsStep(s, t, ps, s', t);
      } else {
        OthersUntouched(s, a, t);
        if t < |s.threads| {
          LogsAlone(s, a.t, ps, s', t);
        } else {
          NewThread(s, a, t);
        }
      }
    }
  }

  lemma NewThread(s: State, a: Action, t: nat)
    requires Enabled(s, a) && |s.threads| <= t < |Do(s, a).threads|
    ensures Do(s, a).threads[t].batch.NoBatch?
  {
    hide Loggable, CanFill, CanWrite;
  }

  lemma CompleteStep(s: State, acts: seq<Action>, a: Action)
    requires Sound(s) && Enabled(s, a) && Remembered(s, acts) && AllAhead(s) && Complete(s, acts)
    ensures AllAhead(Do(s, a)) && Complete(Do(s, a), acts + [a])
  {
    var s', more, m := Do(s, a), acts + [a], Remembers(acts, a.t);
    var ps := Performs(s.stack, m, a);
    assert more[..|acts|] == acts;
    StackStays(s, a);
    ActionLogs(s, a, m);
    AheadStep(s, a, ps);
    forall t: nat ensures ThreadLog(s'.log, t) == Performed(s.stack, more, t) {
      hide Do, Enabled, Sound, Logs, ThreadLog, Performs;
      LogsStep(s, a.t, ps, s', t);
    }
  }

  lemma {:induction false} CompleteAlways(stack: set<nat>, acts: seq<Action>, s: State)
    requires Reaches(stack, acts, s)
    ensures s.stack == stack && AllAhead(s) && Complete(s, acts)
  {
    if acts != [] {
      var fewer, a := acts[..|acts| - 1], acts[|acts| - 1];
      var p := Exec(stack, fewer).state;
      assert fewer + [a] == acts;
      CompleteAlways(stack, fewer, p);
      SoundAlways(stack, fewer, p);
      RememberedAlways(stack, fewer, p);
      StackStays(p, a);
      CompleteStep(p, fewer, a);
    }
  }

  /** In every interleaving, every thread's events, in the order of their timestamps, are exactly
      the operations it performed, with kind, address, length, instruction and remote thread. */
  lemma LogComplete(stack: set<nat>, acts: seq<Action>, s: State, t: nat)
    requires Reaches(stack, acts, s)
    ensures ThreadLog(s.log, t) == Performed(stack, acts, t)
  {
    CompleteAlways(stack, acts, s);
  }

  // ----- creating and joining order the threads -------------------------------------

  lemma {:induction false} Midway(stack: set<nat>, acts: seq<Action>, k: nat, s: State) returns (p: State)
    requires Reaches(stack, acts, s) && k < |acts|
    ensures Reaches(stack, acts[..k], p) && Enabled(p, acts[k]) && Reaches(stack, acts[..k + 1], Do(p, acts[k]))
    decreases |acts|
  {
    var n, fewer := |acts| - 1, acts[..|acts| - 1];
    var q := Exec(stack, fewer).state;
    if k == n {
      p := q;
      assert acts[..k + 1] == acts;
    } else {
      p := Midway(stack, fewer, k, q);
      assert fewer[..k] == acts[..k] && fewer[..k + 1] == acts[..k + 1];
    }
  }

  /** What stands before a thread's next slot is its own for good. */
  lemma PlaceSame(p: State, s: State, t: nat)
    requires Sound(p) && LogGrows(p.log, s.log) && t < |p.threads| && SlotOf(p, t) <= |p.log|
    ensures ThreadLog(s.log[..SlotOf(p, t)], t) == ThreadLog(p.log[..SlotOf(p, t)], t)
  {
    var g := SlotOf(p, t);
    hide ThreadLog;
    forall i | 0 <= i < g ensures SameFor(p.log[i], s.log[i], t) {
      assert SlotMoves(p.log[i], s.log[i]) && SlotOk(p, i);
    }
    ThreadLogSame(p.log[..g], s.log[..g], t);
  }

  lemma NothingAhead(p: State, t: nat)
    requires t < |p.threads| && Ahead(p, t) && SlotOf(p, t) <= |p.log|
    ensures ThreadLog(p.log[..SlotOf(p, t)], t) == ThreadLog(p.log, t)
  {
    var g := SlotOf(p, t);
    hide ThreadLog;
    assert p.log == p.log[..g] + p.log[g..];
    ThreadLogConcat(p.log[..g], p.log[g..], t);
    ThreadLogNone(p.log[g..], t);
  }

  /** Whatever happens later, before a thread's next slot stands exactly what it performed so far. */
  lemma PlaceKept(stack: set<nat>, acts: seq<Action>, k: nat, p: State, s: State, t: nat)
    requires Reaches(stack, acts, s) && k <= |acts| && Reaches(stack, acts[..k], p)
    requires t < |p.threads| && SlotOf(p, t) <= |p.log|
    ensures SlotOf(p, t) <= |s.log|
    ensures ThreadLog(s.log[..SlotOf(p, t)], t) == Performed(stack, acts[..k], t)
  {
    hide Reaches, ThreadLog, Performed, Sound, SlotOf;
    assert acts[..k] + acts[k..] == acts;
    SlotsFilledOnce(stack, acts[..k], acts[k..], p, s);
    SoundAlways(stack, acts[..k], p);
    CompleteAlways(stack, acts[..k], p);
    assert ThreadLog(p.log, t) == Performed(p.stack, acts[..k], t);
    assert Ahead(p, t);
    NothingAhead(p, t);
    PlaceSame(p, s, t);
  }

  /** What the log holds once an event has its slot. */
  lemma PromiseKept(stack: set<nat>, acts: seq<Action>, k: nat, q: State, s: State, g: nat)
    requires Reaches(stack, acts, s) && k <= |acts| && Reaches(stack, acts[..k], q)
    requires g < |q.log| && q.log[g].Promised?
    ensures g < |s.log| && Trace(s)[g] == q.log[g].event
  {
    assert acts[..k] + acts[k..] == acts;
    SlotsFilledOnce(stack, acts[..k], acts[k..], q, s);
    assert SlotMoves(q.log[g], s.log[g]);
  }

  lemma JoinSlot(p: State, a: Action)
    requires Sound(p) && Enabled(p, a) && a.JoinLog?
    ensures p.threads[a.t].pc.Joined?
    ensures
      var g, q := |p.log|, Do(p, a);
      && SlotOf(p, a.t) == g < |q.log|
      && q.log[g] == Promised(Event(a.inst, g, Join, a.t, 0, 0, p.threads[a.t].pc.u))
  {
    assert BatchOk(p, a.t);
  }

  lemma CreateSlot(p: State, a: Action)
    requires Sound(p) && Enabled(p, a) && a.CreateLog?
    ensures p.threads[a.t].pc.Created?
    ensures
      var g, q := SlotOf(p, a.t), Do(p, a);
      && g < |p.log| == |q.log|
      && q.log[g] == Promised(Event(a.inst, g, Create, a.t, 0, 0, p.threads[a.t].pc.child))
  {
    assert BatchOk(p, a.t);
  }

  lemma RecalledPc(pc: Pc, m: Memory)
    requires Recalls(pc, m)
    ensures pc.Joined? ==> pc.u == m.joinee
    ensures pc.Created? ==> pc.child == m.child
  {
  }

  lemma Recalled(stack: set<nat>, acts: seq<Action>, p: State, t: nat)
    requires Reaches(stack, acts, p) && t < |p.threads|
    ensures p.threads[t].pc.Joined? ==> p.threads[t].pc.u == Remembers(acts, t).joinee
    ensures p.threads[t].pc.Created? ==> p.threads[t].pc.child == Remembers(acts, t).child
  {
    hide Reaches, Remembers, Owners, Spawns, Recalls;
    RememberedAlways(stack, acts, p);
    RecalledPc(p.threads[t].pc, Remembers(acts, t));
  }

  lemma JoinPlace(stack: set<nat>, acts: seq<Action>, k: nat, s: State) returns (g: nat)
    requires Reaches(stack, acts, s) && k < |acts| && acts[k].JoinLog?
    ensures
      var t := acts[k].t;
      && g < |s.log| && Trace(s)[g] == Event(acts[k].inst, g, Join, t, 0, 0, Remembers(acts[..k], t).joinee)
      && ThreadLog(s.log[..g], t) == Performed(stack, acts[..k], t)
  {
    hide Do, Reaches, Sound, ThreadLog, Performed, Remembers, Trace;
    var p := Midway(stack, acts, k, s);
    SoundAlways(stack, acts[..k], p);
    JoinSlot(p, acts[k]);
    Recalled(stack, acts[..k], p, acts[k].t);
    hide Enabled;
    g := |p.log|;
    PlaceKept(stack, acts, k, p, s, acts[k].t);
    PromiseKept(stack, acts, k + 1, Do(p, acts[k]), s, g);
  }

  /** Every join is in the log, after everything its thread performed before it: the thread it
      names is the one last asked for, and all that thread's events happen before it and before
      everything the joining thread logs later. */
  lemma JoinOrdersThreads(stack: set<nat>, acts: seq<Action>, k: nat, s: State) returns (g: nat)
    requires Reaches(stack, acts, s) && k < |acts| && acts[k].JoinLog?
    ensures
      var t, u := acts[k].t, Remembers(acts[..k], acts[k].t).joinee;
      && g < |s.log| && Trace(s)[g] == Event(acts[k].inst, g, Join, t, 0, 0, u)
      && ThreadLog(s.log[..g], t) == Performed(stack, acts[..k], t)
      && (forall i :: 0 <= i < |s.log| && Trace(s)[i].tid == u ==> i < g && HB(Trace(s), i, g))
      && (forall i, j :: 0 <= i < |s.log| && g < j < |s.log| && Trace(s)[i].tid == u && Trace(s)[j].tid == t ==>
            HB(Trace(s), i, j))
  {
    var t, u := acts[k].t, Remembers(acts[..k], acts[k].t).joinee;
    g := JoinPlace(stack, acts, k, s);
    hide Exec, ThreadLog, Performed, HB, Remembers;
    forall i | 0 <= i < |s.log| && Trace(s)[i].tid == u ensures i < g && HB(Trace(s), i, g) {
      CreateAndJoinOrder(stack, acts, s, g, i);
    }
    forall i, j | 0 <= i < |s.log| && g < j < |s.log| && Trace(s)[i].tid == u && Trace(s)[j].tid == t
      ensures HB(Trace(s), i, j)
    {
      SameThreadLater(Trace(s), i, g, j);
    }
  }

  lemma SameThreadLater(x: seq<Event>, i: nat, g: nat, j: nat)
    requires i < g < j < |x| && HB(x, i, g) && x[g].tid == x[j].tid
    ensures HB(x, i, j)
  {
    assert Edge(x, g, j);
    HBTransitive(x, i, g, j);
  }

  lemma SameThreadEarlier(x: seq<Event>, i: nat, g: nat, j: nat)
    requires i < g < j < |x| && HB(x, g, j) && x[i].tid == x[g].tid
    ensures HB(x, i, j)
  {
    assert Edge(x, i, g);
    HBTransitive(x, i, g, j);
  }

  lemma CreatePlace(stack: set<nat>, acts: seq<Action>, k: nat, s: State) returns (g: nat)
    requires Reaches(stack, acts, s) && k < |acts| && acts[k].CreateLog?
    ensures
      var t := acts[k].t;
      && g < |s.log| && Trace(s)[g] == Event(acts[k].inst, g, Create, t, 0, 0, Remembers(acts[..k], t).child)
      && ThreadLog(s.log[..g], t) == Performed(stack, acts[..k], t)
  {
    hide Do, Reaches, Sound, ThreadLog, Performed, Remembers, Trace;
    var p := Midway(stack, acts, k, s);
    SoundAlways(stack, acts[..k], p);
    CreateSlot(p, acts[k]);
    Recalled(stack, acts[..k], p, acts[k].t);
    hide Enabled;
    g := SlotOf(p, acts[k].t);
    PlaceKept(stack, acts, k, p, s, acts[k].t);
    PromiseKept(stack, acts, k + 1, Do(p, acts[k]), s, g);
  }

  /** Every creation is in the log, after everything its thread performed before it, with the id
      the new thread was given; it and all that stands before it in its thread happen before
      everything the new thread logs. */
  lemma CreateOrdersThreads(stack: set<nat>, acts: seq<Action>, k: nat, s: State) returns (g: nat)
    requires Reaches(stack, acts, s) && k < |acts| && acts[k].CreateLog?
    ensures
      var t, u := acts[k].t, Remembers(acts[..k], acts[k].t).child;
      && g < |s.log| && Trace(s)[g] == Event(acts[k].inst, g, Create, t, 0, 0, u)
      && ThreadLog(s.log[..g], t) == Performed(stack, acts[..k], t)
      && (forall j :: 0 <= j < |s.log| && Trace(s)[j].tid == u ==> g < j && HB(Trace(s), g, j))
      && (forall i, j :: 0 <= i < g && 0 <= j < |s.log| && Trace(s)[i].tid == t && Trace(s)[j].tid == u ==>
            HB(Trace(s), i, j))
  {
    var t, u := acts[k].t, Remembers(acts[..k], acts[k].t).child;
    g := CreatePlace(stack, acts, k, s);
    hide Exec, ThreadLog, Performed, HB, Remembers;
    forall j | 0 <= j < |s.log| && Trace(s)[j].tid == u ensures g < j && HB(Trace(s), g, j) {
      CreateAndJoinOrder(stack, acts, s, g, j);
    }
    forall i, j | 0 <= i < g && 0 <= j < |s.log| && Trace(s)[i].tid == t && Trace(s)[j].tid == u
      ensures HB(Trace(s), i, j)
    {
      SameThreadEarlier(Trace(s), i, g, j);
    }
  }
}
