// The logger's own code: a size counter, an array of events and thread-local batch variables,
// proved to perform the steps of the recorder's machine.
module Logging {
  import opened Events
  import opened Runtime
  import opened LogSlots

  /** The actions that take one slot with `FetchAddLogSize`. */
  predicate TakesSlot(s: State, a: Action) {
    && Enabled(s, a)
    && (a.LogAccess? || a.LockLog? || a.TryLog? || a.DestroyLog? || a.UnlockLog? || a.Notify?
        || a.CreateLog? || a.JoinLog?
        || (a.LogNext? && s.threads[a.t].pc.todo[0].addr !in s.stack))
  }

  /** The state once the thread has made its pending writes, uninterrupted. */
  function Settled(s: State, t: nat): State
    requires t < |s.threads|
    decreases |s.threads[t].pending|
  {
    if Enabled(s, Write(t)) then Settled(Do(s, Write(t)), t) else s
  }

  lemma TakesItsSlot(s: State, a: Action)
    requires Sound(s) && TakesSlot(s, a)
    ensures
      var t, s', i := a.t, Do(s, a), SlotOf(s, a.t);
      && s'.threads[t].pending == [i] && i < |s'.log| && s'.log[i].Promised?
      && |s'.log| == (if s.threads[t].batch.Batch? then |s.log| else |s.log| + 1)
      && (forall k :: 0 <= k < |s.log| && k != i ==> s'.log[k] == s.log[k])
      && |s'.threads| == |s.threads| && s'.stack == s.stack
      && (forall u :: 0 <= u < |s.threads| && u != t ==> s'.threads[u] == s.threads[u])
      && s'.threads[t].batch ==
         (if s.threads[t].batch.Batch? then s.threads[t].batch.(pos := s.threads[t].batch.pos + 1) else NoBatch)
  {
    assert BatchOk(s, a.t);
    hide Sound, Loggable;
  }

  /** The actions of the real thread library, and a thread's end. */
  predicate LibraryAction(a: Action) {
    || a.LockCall? || a.LockTake? || a.TryReal? || a.UnlockReal? || a.WaitReal? || a.WakeTake?
    || a.Spawn? || a.JoinCall? || a.JoinReal? || a.Exit?
  }

  lemma LibraryEffect(s: State, a: Action)
    requires Enabled(s, a) && LibraryAction(a)
    ensures
      var s' := Do(s, a);
      && s'.log == s.log && s'.stack == s.stack
      && |s.threads| <= |s'.threads| <= |s.threads| + (if a.Spawn? then 1 else 0)
      && (forall t :: 0 <= t < |s.threads| ==> s'.threads[t].batch == s.threads[t].batch)
      && (forall t :: |s.threads| <= t < |s'.threads| ==> s'.threads[t].batch == NoBatch)
  {
    hide Loggable, CanFill, CanWrite;
    if a.Spawn? {
    } else if MutexAction(a) {
    } else {
    }
  }

  class Logger {
    var size: nat               // how many slots were handed out
    const events: array<Event>  // uninitialised memory to begin with
    var batches: seq<Batch>     // the batch variables of every thread there can be
    const stack: set<nat>

    /** The logger's variables are those of the machine in state `s`. */
    ghost predicate Shows(s: State)
      reads this, events
    {
      && size == |s.log| && stack == s.stack && |s.threads| <= |batches|
      && (forall t :: 0 <= t < |batches| ==>
            batches[t] == if t < |s.threads| then s.threads[t].batch else NoBatch)
      && (forall i :: 0 <= i < |s.log| && s.log[i].Written? ==>
            i < events.Length && events[i] == s.log[i].event)
    }

    constructor (threads: nat, capacity: nat, stack: set<nat>)
      requires 0 < threads
      ensures Shows(Initial(stack)) && fresh(events)
      ensures events.Length == capacity && |batches| == threads
    {
      size := 0;
      events := new Event[capacity];
      batches := seq(threads, _ => NoBatch);
      this.stack := stack;
    }

    /** Takes the next slot of the thread's batch, or a fresh one: this is the whole step of the
        machine up to the write. The bound is the source's assertion on the capacity. */
    method FetchAddLogSize(t: nat, ghost s: State, ghost a: Action) returns (ts: nat)
      requires Shows(s) && Sound(s) && TakesSlot(s, a) && a.t == t && SlotOf(s, t) < events.Length
      modifies this`size, this`batches
      ensures Shows(Do(s, a)) && Do(s, a).threads[t].pending == [ts] && ts == SlotOf(s, t)
    {
      TakesItsSlot(s, a);
      hide Do, Enabled, Sound, TakesSlot;
      if batches[t].Batch? {
        var b := batches[t];
        ts := b.id + b.pos;
        batches := batches[t := b.(pos := b.pos + 1)];
      } else {
        ts := size;
        size := size + 1;
      }
    }

    /** Storing an event under its timestamp is the machine's write. */
    method Put(t: nat, ts: nat, e: Event, ghost s: State)
      requires Shows(s) && Enabled(s, Write(t)) && ts < events.Length
      requires s.threads[t].pending[0] == ts && s.log[ts].event == e
      modifies events
      ensures Shows(Do(s, Write(t))) && events[..] == old(events[..])[ts := e]
    {
      events[ts] := e;
    }

    /** Opening a batch of `n` slots. */
    method StartBatch(t: nat, n: nat, ghost s: State, ghost pc: Pc)
      requires Shows(s) && t < |s.threads| && s.threads[t].batch.NoBatch?
      modifies this`size, this`batches
      ensures Shows(Open(s, t, n, pc))
    {
      batches := batches[t := Batch(size, 0, n)];
      size := size + n;
    }

    /** Counts the accesses that pass the stack test; a batch is opened for two or more. This is
        the machine's step at the start of a library-call hook. */
    method StartBatchFor(t: nat, accesses: seq<Event>, ghost s: State)
      requires Shows(s) && Sound(s) && Enabled(s, OpenBatch(t, accesses))
      modifies this`size, this`batches
      ensures Shows(Do(s, OpenBatch(t, accesses)))
    {
      assert BatchOk(s, t);
      var n := 0;
      for i := 0 to |accesses|
        invariant n + Loggable(accesses[i..], stack) == Loggable(accesses, stack)
      {
        if accesses[i].addr !in stack {
          n := n + 1;
        }
        assert accesses[i..][1..] == accesses[i + 1..];
      }
      if n > 1 {
        StartBatch(t, n, s, Logging(accesses));
      }
    }

    /** Closing a batch, or none, at the end of a hook. */
    method EndBatch(t: nat, ghost s: State)
      requires Shows(s) && Enabled(s, CloseBatch(t))
      modifies this`batches
      ensures Shows(Do(s, CloseBatch(t)))
    {
      batches := batches[t := NoBatch];
    }

    /** One uninterrupted slot-and-write: the slot, then the event in it. */
    method LogOne(t: nat, e: Event, ghost s: State, ghost a: Action)
      requires Shows(s) && Sound(s) && TakesSlot(s, a) && a.t == t && SlotOf(s, t) < events.Length
      requires
        var i := SlotOf(s, t);
        i < |Do(s, a).log| && Do(s, a).log[i].Planned() == e.(ts := i, tid := t)
      modifies this`size, this`batches, events
      ensures Shows(Settled(Do(s, a), t))
      ensures events[..] == old(events[..])[SlotOf(s, t) := e.(ts := SlotOf(s, t), tid := t)]
    {
      TakesItsSlot(s, a);
      var ts := FetchAddLogSize(t, s, a);
      ghost var s1 := Do(s, a);
      hide Do, Sound, TakesSlot;
      Put(t, ts, e.(ts := ts, tid := t), s1);
      SettledOnce(s1, t);
    }

    /** An access, unless it is on the stack: outside a hook, or the hook's next one. */
    method LogArrayAccessEvent(inst: nat, t: nat, op: Op, addr: nat, len: nat, ghost s: State, ghost a: Action)
      requires Shows(s) && Sound(s) && t < |s.threads| && s.threads[t].pending == []
      requires SlotOf(s, t) < events.Length
      requires a == if s.threads[t].pc.Running? then LogAccess(t, Event(inst, 0, op, 0, addr, len, 0)) else LogNext(t)
      requires if s.threads[t].pc.Running? then op.Load? || op.Store?
               else Enabled(s, a) && s.threads[t].pc.todo[0] == Event(inst, 0, op, 0, addr, len, 0)
      modifies this`size, this`batches, events
      ensures Shows(if Enabled(s, a) then Settled(Do(s, a), t) else s)
      ensures Enabled(s, a) || addr in stack
      ensures events[..] == if addr in stack then old(events[..])
        else old(events[..])[SlotOf(s, t) := Event(inst, SlotOf(s, t), op, t, addr, len, 0)]
    {
      if addr in stack {
        if s.threads[t].pc.Logging? {
          SettledAlready(Do(s, a), t);
        }
        return;
      }
      assert BatchOk(s, t);
      TakesItsSlot(s, a);
      LogOne(t, Event(inst, 0, op, 0, addr, len, 0), s, a);
    }

    /** LOCK, also around destroying a mutex, TRYLOCK, whatever the call returned, UNLOCK, SIGNAL
        or BROADCAST. */
    method LogSyncOpEvent(inst: nat, t: nat, op: Op, addr: nat, ghost s: State, ghost a: Action)
      requires Shows(s) && Sound(s) && Enabled(s, a) && a.t == t && SlotOf(s, t) < events.Length
      requires
        || (op == Lock && a == LockLog(t, inst) && addr == s.threads[t].pc.m)
        || (op == Lock && a == DestroyLog(t, addr, inst))
        || (op == TryLock && a == TryLog(t, inst) && addr == s.threads[t].pc.m)
        || (op == Unlock && a == UnlockLog(t, addr, inst))
        || (op == Signal && a == Notify(t, addr, false, inst))
        || (op == Broadcast && a == Notify(t, addr, true, inst))
      modifies this`size, this`batches, events
      ensures Shows(Settled(Do(s, a), t))
      ensures events[..] == old(events[..])[SlotOf(s, t) := Event(inst, SlotOf(s, t), op, t, addr, 1, 0)]
    {
      assert BatchOk(s, t);
      LogOne(t, SyncEvent(op, addr, inst), s, a);
    }

    /** CREATE, in the slot reserved before the thread was created. */
    method LogThreadCreateEvent(inst: nat, t: nat, remote: nat, ghost s: State)
      requires Shows(s) && Sound(s) && Enabled(s, CreateLog(t, inst)) && SlotOf(s, t) < events.Length
      requires remote == s.threads[t].pc.child
      modifies this`size, this`batches, events
      ensures Shows(Settled(Do(s, CreateLog(t, inst)), t))
      ensures events[..] == old(events[..])[SlotOf(s, t) := Event(inst, SlotOf(s, t), Create, t, 0, 0, remote)]
    {
      LogOne(t, ThreadEvent(Create, remote, inst), s, CreateLog(t, inst));
    }

    method LogThreadJoinEvent(inst: nat, t: nat, remote: nat, ghost s: State)
      requires Shows(s) && Sound(s) && Enabled(s, JoinLog(t, inst)) && SlotOf(s, t) < events.Length
      requires remote == s.threads[t].pc.u
      modifies this`size, this`batches, events
      ensures Shows(Settled(Do(s, JoinLog(t, inst)), t))
      ensures events[..] == old(events[..])[SlotOf(s, t) := Event(inst, SlotOf(s, t), Join, t, 0, 0, remote)]
    {
      assert BatchOk(s, t);
      LogOne(t, ThreadEvent(Join, remote, inst), s, JoinLog(t, inst));
    }

    /** UNLOCK of the mutex and WAIT on the condition, in two slots taken at once. */
    method LogCondWait(inst: nat, t: nat, mutex: nat, cond: nat, ghost s: State)
      requires Shows(s) && Enabled(s, WaitLog(t, cond, mutex, inst)) && size + 1 < events.Length
      modifies this`size, events
      ensures Shows(Settled(Do(s, WaitLog(t, cond, mutex, inst)), t))
      ensures
        var i := old(size);
        events[..] == old(events[..])[i := Event(inst, i, Unlock, t, mutex, 1, 0)]
                                     [i + 1 := Event(inst, i + 1, Wait, t, cond, 1, 0)]
    {
      var e, f := SyncEvent(Unlock, mutex, inst), SyncEvent(Wait, cond, inst);
      LogTwo(t, e, f, s, CondEntering(cond, mutex));
    }

    /** LOCK of the mutex and AWAKE on the condition, in two slots taken at once. */
    method LogCondAwake(inst: nat, t: nat, mutex: nat, cond: nat, ghost s: State)
      requires Shows(s) && Enabled(s, AwakeLog(t, inst)) && size + 1 < events.Length
      requires s.threads[t].pc == CondTaken(cond, mutex)
      modifies this`size, events
      ensures Shows(Settled(Do(s, AwakeLog(t, inst)), t))
      ensures
        var i := old(size);
        events[..] == old(events[..])[i := Event(inst, i, Lock, t, mutex, 1, 0)]
                                     [i + 1 := Event(inst, i + 1, Awake, t, cond, 1, 0)]
    {
      var e, f := SyncEvent(Lock, mutex, inst), SyncEvent(Awake, cond, inst);
      LogTwo(t, e, f, s, Running);
    }

    method LogTwo(t: nat, e: Event, f: Event, ghost s: State, ghost pc: Pc)
      requires Shows(s) && t < |s.threads| && size + 1 < events.Length
      modifies this`size, events
      ensures Shows(Settled(Reserve(s, t, [e, f], pc), t))
      ensures
        var i := old(size);
        events[..] == old(events[..])[i := e.(ts := i, tid := t)][i + 1 := f.(ts := i + 1, tid := t)]
    {
      var ts := size;
      size := size + 2;
      ghost var s1 := Reserve(s, t, [e, f], pc);
      ghost var s2 := Do(s1, Write(t));
      SettledTwice(s1, t);
      events[ts] := e.(ts := ts, tid := t);
      assert Shows(s2);
      events[ts + 1] := f.(ts := ts + 1, tid := t);
    }

    /** What the real thread library does is no business of the logger's. */
    lemma Unseen(s: State, a: Action)
      requires Shows(s) && Enabled(s, a) && LibraryAction(a) && (a.Spawn? ==> |s.threads| < |batches|)
      ensures Shows(Do(s, a))
    {
      LibraryEffect(s, a);
      hide Enabled, Do;
    }

    /** The loop that saves the log stops at the first slot whose timestamp is not its index. It
        accepts every log the machine's check accepts. */
    method Flush(ghost s: State) returns (ok: bool)
      requires Shows(s) && size <= events.Length
      ensures ok <==> forall i :: 0 <= i < size ==> events[i].ts == i
      ensures FlushOk(s.log) ==> ok
    {
      for i := 0 to size
        invariant forall k :: 0 <= k < i ==> events[k].ts == k
      {
        if events[i].ts != i {
          return false;
        }
      }
      return true;
    }
  }

  lemma SettledOnce(s: State, t: nat)
    requires t < |s.threads| && |s.threads[t].pending| == 1 && Enabled(s, Write(t))
    ensures Settled(s, t) == Do(s, Write(t))
  {
  }

  lemma SettledAlready(s: State, t: nat)
    requires t < |s.threads| && s.threads[t].pending == []
    ensures Settled(s, t) == s
  {
  }

  lemma SettledTwice(s: State, t: nat)
    requires t < |s.threads| && |s.threads[t].pending| == 2
    requires Enabled(s, Write(t)) && Enabled(Do(s, Write(t)), Write(t))
    ensures Settled(s, t) == Do(Do(s, Write(t)), Write(t))
  {
    SettledOnce(Do(s, Write(t)), t);
  }
}
