// From program to report: data that a program always accesses under one common mutex is never
// reported, whatever the interleaving, however its accesses were logged, loaded and filtered.
module EndToEnd {
  import opened Events
  import opened ClockMachine
  import opened Races
  import opened LockDiscipline
  import opened Runtime
  import opened LogSlots
  import opened LockTraces
  import opened ThreadOrder
  import opened Filtering
  import opened TraceLoading
  import RawTraces

  // ----- the program's discipline ---------------------------------------------------

  /** Some access that will be logged touches `x`. */
  ghost predicate Hot(accesses: seq<Event>, stack: set<nat>, x: nat) {
    exists i :: 0 <= i < |accesses| && accesses[i].addr !in stack && accesses[i].Touches(x)
  }

  /** Whoever touches `x` holds the mutex `m`. */
  ghost predicate Disciplined(s: State, a: Action, x: nat, m: nat) {
    match a
    case LogAccess(t, e) => e.Touches(x) ==> Owns(s, t, m)
    case OpenBatch(t, accesses) => Hot(accesses, s.stack, x) ==> Owns(s, t, m)
    case _ => true
  }

  ghost predicate DisciplinedRun(stack: set<nat>, acts: seq<Action>, x: nat, m: nat) {
    acts == [] ||
    (&& DisciplinedRun(stack, acts[..|acts| - 1], x, m)
     && var o := Exec(stack, acts[..|acts| - 1]);
       o.At? ==> Disciplined(o.state, acts[|acts| - 1], x, m))
  }

  /** The action hands the logger an access that has `x` among its bytes. */
  ghost predicate HandsOver(stack: set<nat>, a: Action, x: nat) {
    || (a.LogAccess? && RawTraces.InRange(a.e, x))
    || (a.OpenBatch? && exists i :: 0 <= i < |a.accesses| && a.accesses[i].addr !in stack
                                    && RawTraces.InRange(a.accesses[i], x))
  }

  /** Step `k` hands over no access to `x`, or its thread holds `m` at that moment. */
  ghost predicate HeldThen(stack: set<nat>, acts: seq<Action>, k: nat, x: nat, m: nat)
    requires k < |acts|
  {
    var o := Exec(stack, acts[..k]);
    o.At? && (HandsOver(stack, acts[k], x) ==> m in o.state.owner && o.state.owner[m] == acts[k].t)
  }

  lemma TouchesBytes(e: Event, x: nat)
    ensures e.Touches(x) <==> RawTraces.InRange(e, x)
  {
    if e.Touches(x) {
      var l: nat :| l < e.len && e.Element(l).addr == x;
      assert RawTraces.AtOffset(e, l, x);
    }
    if RawTraces.InRange(e, x) {
      var l: nat :| l < e.len && RawTraces.AtOffset(e, l, x);
      assert e.Element(l).addr == x;
    }
  }

  lemma DisciplinedStep(s: State, a: Action, x: nat, m: nat)
    ensures Disciplined(s, a, x, m) <==> (HandsOver(s.stack, a, x) ==> m in s.owner && s.owner[m] == a.t)
  {
    hide RawTraces.InRange;
    if a.LogAccess? {
      TouchesBytes(a.e, x);
    } else if a.OpenBatch? {
      forall i | 0 <= i < |a.accesses|
        ensures a.accesses[i].Touches(x) <==> RawTraces.InRange(a.accesses[i], x)
      {
        TouchesBytes(a.accesses[i], x);
      }
    }
  }

  lemma HeldLast(stack: set<nat>, acts: seq<Action>, p: State, x: nat, m: nat)
    requires acts != [] && Reaches(stack, acts[..|acts| - 1], p) && p.stack == stack
    ensures HeldThen(stack, acts, |acts| - 1, x, m) <==> Disciplined(p, acts[|acts| - 1], x, m)
  {
    DisciplinedStep(p, acts[|acts| - 1], x, m);
    hide HandsOver, Disciplined;
  }

  lemma HeldBefore(stack: set<nat>, acts: seq<Action>, k: nat, x: nat, m: nat)
    requires k + 1 < |acts|
    ensures HeldThen(stack, acts, k, x, m) <==> HeldThen(stack, acts[..|acts| - 1], k, x, m)
  {
    assert acts[..|acts| - 1][..k] == acts[..k];
    hide Exec, HandsOver;
  }

  lemma LastAction(stack: set<nat>, acts: seq<Action>, s: State, x: nat, m: nat) returns (p: State)
    requires acts != [] && Reaches(stack, acts, s)
    ensures Reaches(stack, acts[..|acts| - 1], p) && p.stack == s.stack
    ensures DisciplinedRun(stack, acts, x, m) <==>
            DisciplinedRun(stack, acts[..|acts| - 1], x, m) && Disciplined(p, acts[|acts| - 1], x, m)
  {
    p := Exec(stack, acts[..|acts| - 1]).state;
    StackStays(p, acts[|acts| - 1]);
    hide Disciplined, Do, Enabled;
  }

  ghost predicate HeldThroughout(stack: set<nat>, acts: seq<Action>, x: nat, m: nat) {
    forall k :: 0 <= k < |acts| ==> HeldThen(stack, acts, k, x, m)
  }

  lemma HeldNext(stack: set<nat>, acts: seq<Action>, x: nat, m: nat)
    requires acts != []
    ensures HeldThroughout(stack, acts, x, m) <==>
            HeldThroughout(stack, acts[..|acts| - 1], x, m) && HeldThen(stack, acts, |acts| - 1, x, m)
  {
    hide HeldThen;
    var n, fewer := |acts| - 1, acts[..|acts| - 1];
    forall k | 0 <= k < n ensures HeldThen(stack, acts, k, x, m) <==> HeldThen(stack, fewer, k, x, m) {
      HeldBefore(stack, acts, k, x, m);
    }
  }

  /** A run is disciplined exactly if, whenever an access to `x` is handed to the logger, its thread
      holds `m`. */
  lemma {:induction false} DisciplinedExactly(stack: set<nat>, acts: seq<Action>, s: State, x: nat, m: nat)
    requires Reaches(stack, acts, s)
    ensures s.stack == stack && (DisciplinedRun(stack, acts, x, m) <==> HeldThroughout(stack, acts, x, m))
  {
    if acts != [] {
      hide Reaches, Disciplined, DisciplinedRun, HeldThen, HeldThroughout;
      var p := LastAction(stack, acts, s, x, m);
      DisciplinedExactly(stack, acts[..|acts| - 1], p, x, m);
      HeldLast(stack, acts, p, x, m);
      HeldNext(stack, acts, x, m);
    }
  }

  // ----- in the log, accesses to x stand where the log shows their thread as holder ---

  ghost predicate RawGuarded(raw: seq<Event>, x: nat, m: nat) {
    forall i :: 0 <= i < |raw| && raw[i].IsAccess() && raw[i].Touches(x) ==>
      HolderAt(raw, m, i) == HeldBy(raw[i].tid)
  }

  /** A hook with accesses to `x` still to log holds the mutex, and held it when it reserved
      its batch. */
  ghost predicate HookGuarded(s: State, t: nat, x: nat, m: nat)
    requires t < |s.threads|
  {
    var th := s.threads[t];
    th.pc.Logging? && Hot(th.pc.todo, s.stack, x) ==>
      && Owns(s, t, m)
      && (th.batch.Batch? ==> forall i :: th.batch.id <= i < th.batch.id + th.batch.size && i <= |s.log| ==>
            HolderAt(Shown(s), m, i) == HeldBy(t))
  }

  ghost predicate GuardInv(s: State, x: nat, m: nat) {
    && RawGuarded(Shown(s), x, m)
    && forall t :: 0 <= t < |s.threads| ==> HookGuarded(s, t, x, m)
  }

  /** The shorter trace's holders are those of the longer one. */
  predicate HoldersKept(tr: seq<Event>, tr': seq<Event>, m: nat) {
    |tr| <= |tr'| && forall k :: 0 <= k <= |tr| ==> HolderAt(tr', m, k) == HolderAt(tr, m, k)
  }

  lemma PrefixKeepsHolders(tr: seq<Event>, tr': seq<Event>, m: nat)
    requires tr <= tr'
    ensures HoldersKept(tr, tr', m)
  {
    forall k | 0 <= k <= |tr| ensures HolderAt(tr', m, k) == HolderAt(tr, m, k) {
      assert tr'[..k] == tr[..k];
    }
  }

  lemma WholeHolder(tr: seq<Event>, m: nat)
    ensures HolderAt(tr, m, |tr|) == HolderOf(tr, m)
  {
    assert tr[..|tr|] == tr;
  }

  // ----- preserved by every disciplined action --------------------------------------

  lemma FillKept(s: State, t: nat, e: Event, pc: Pc, m: nat)
    requires Sound(s) && LockInv(s, m) && t < |s.threads| && CanFill(s, s.threads[t].batch)
    requires !Takes(e) && Neutral(e, m)
    ensures HoldersKept(Shown(s), Shown(Fill(s, t, e, pc)), m)
  {
    var b := s.threads[t].batch;
    var i := b.id + b.pos;
    assert ThreadOk(s, t);
    assert s.log[i] == Blank(t);
    ShownFill(s, t, e, pc);
    ReplaceLegal(Shown(s), i, Stamped(e, i, t), m);
  }

  lemma LogAppends(s: State, a: Action)
    requires Enabled(s, a) && !a.CreateLog? && !a.Write?
    requires a.LogNext? ==> s.threads[a.t].pc.todo[0].addr in s.stack || s.threads[a.t].batch.NoBatch?
    ensures Shown(s) <= Shown(Do(s, a))
  {
    hide Loggable;
    assert s.log <= Do(s, a).log;
    assert forall i :: 0 <= i < |s.log| ==> (i in Do(s, a).hollow <==> i in s.hollow);
  }

  lemma TraceKept(s: State, a: Action, m: nat)
    requires Sound(s) && LockInv(s, m) && Enabled(s, a)
    ensures HoldersKept(Shown(s), Shown(Do(s, a)), m)
  {
    var t, th := a.t, s.threads[a.t];
    if a.CreateLog? {
      FillKept(s, t, ThreadEvent(Create, th.pc.child, a.inst), Logging([]), m);
    } else if a.LogNext? && th.pc.todo[0].addr !in s.stack && th.batch.Batch? {
      assert BatchOk(s, t);
      FillKept(s, t, th.pc.todo[0], Logging(th.pc.todo[1..]), m);
    } else if a.Write? {
      ShownWrite(s, t);
      PrefixKeepsHolders(Shown(s), Shown(Do(s, a)), m);
    } else {
      LogAppends(s, a);
      hide Sound, LockInv, Do, Shown;
      PrefixKeepsHolders(Shown(s), Shown(Do(s, a)), m);
    }
  }

  /** Only the owner's own unlock or wait takes a mutex away. */
  lemma OwnsKept(s: State, a: Action, u: nat, m: nat)
    requires LockInv(s, m) && Enabled(s, a) && u < |s.threads| && Owns(s, u, m)
    requires u != a.t || s.threads[u].pc.Logging? || s.threads[u].pc.Running?
    ensures Owns(Do(s, a), u, m)
  {
  }

  /** The log shows a thread outside the gaps as the holder of what it owns. */
  lemma OwnerShown(s: State, t: nat, m: nat)
    requires LockInv(s, m) && t < |s.threads| && Owns(s, t, m)
    requires s.threads[t].pc.Running? || s.threads[t].pc.Logging?
    ensures HolderAt(Shown(s), m, |s.log|) == HeldBy(t)
  {
    WholeHolder(Shown(s), m);
  }

  lemma HotTail(accesses: seq<Event>, stack: set<nat>, x: nat)
    requires accesses != [] && Hot(accesses[1..], stack, x)
    ensures Hot(accesses, stack, x)
  {
    var i :| 0 <= i < |accesses[1..]| && accesses[1..][i].addr !in stack && accesses[1..][i].Touches(x);
    assert accesses[i + 1] == accesses[1..][i];
  }

  /** Only plain accesses and hooks put accesses into the log. */
  lemma OthersLogNoAccess(s: State, a: Action, i: nat)
    requires Sound(s) && Enabled(s, a) && !a.LogAccess? && !a.LogNext?
    requires i < |Do(s, a).log| && (i < |s.log| ==> Do(s, a).log[i].Planned() != s.log[i].Planned())
    ensures !Do(s, a).log[i].Planned().IsAccess()
  {
    assert ThreadOk(s, a.t);
    hide Sound, ThreadOk, BatchOk, Loggable;
  }

  /** An access entering the log enters it under the mutex. */
  lemma EntryGuarded(s: State, a: Action, x: nat, m: nat, i: nat)
    requires GuardInv(s, x, m) && Sound(s) && LockInv(s, m) && Enabled(s, a) && Disciplined(s, a, x, m)
    requires i < |Do(s, a).log| && Do(s, a).log[i].Planned().IsAccess()
    requires Do(s, a).log[i].Planned().Touches(x)
    requires i < |s.log| ==> Do(s, a).log[i].Planned() != s.log[i].Planned()
    ensures i <= |s.log| && HolderAt(Shown(s), m, i) == HeldBy(a.t)
    ensures Do(s, a).log[i].Planned().tid == a.t
  {
    hide HolderAt, LockInv, RawGuarded;
    if a.LogAccess? {
      StampTouches(a.e, i, a.t, x);
      OwnerShown(s, a.t, m);
    } else if a.LogNext? {
      NextGuarded(s, a.t, x, m, i);
    } else {
      OthersLogNoAccess(s, a, i);
    }
  }

  lemma NextGuarded(s: State, t: nat, x: nat, m: nat, i: nat)
    requires Sound(s) && LockInv(s, m) && Enabled(s, LogNext(t)) && HookGuarded(s, t, x, m)
    requires i < |Do(s, LogNext(t)).log| && Do(s, LogNext(t)).log[i].Planned().Touches(x)
    requires i < |s.log| ==> Do(s, LogNext(t)).log[i].Planned() != s.log[i].Planned()
    ensures i <= |s.log| && HolderAt(Shown(s), m, i) == HeldBy(t)
    ensures Do(s, LogNext(t)).log[i].Planned().tid == t
  {
    hide HolderAt, LockInv;
    var th := s.threads[t];
    assert ThreadOk(s, t) && BatchOk(s, t);
    var e := th.pc.todo[0];
    StampTouches(e, i, t, x);
    assert Hot(th.pc.todo, s.stack, x);
    if th.batch.NoBatch? {
      OwnerShown(s, t, m);
    }
  }

  lemma StampTouches(e: Event, ts: nat, t: nat, x: nat)
    ensures Stamped(e, ts, t).Touches(x) <==> e.Touches(x)
  {
    forall k: nat ensures Stamped(e, ts, t).Element(k).addr == e.Element(k).addr {}
  }

  /** Accesses are never discounted. */
  lemma ShownAccess(s: State, i: nat)
    requires i < |s.log|
    ensures |Shown(s)| == |s.log| && Shown(s)[i].tid == s.log[i].Planned().tid
    ensures Shown(s)[i].IsAccess() || s.log[i].Planned().IsAccess() ==> Shown(s)[i] == s.log[i].Planned()
  {
  }

  lemma RawGuardedAt(s: State, a: Action, x: nat, m: nat, i: nat)
    requires GuardInv(s, x, m) && Sound(s) && LockInv(s, m) && Enabled(s, a) && Disciplined(s, a, x, m)
    requires HoldersKept(Shown(s), Shown(Do(s, a)), m)
    requires i < |Shown(Do(s, a))| && Shown(Do(s, a))[i].IsAccess() && Shown(Do(s, a))[i].Touches(x)
    ensures HolderAt(Shown(Do(s, a)), m, i) == HeldBy(Shown(Do(s, a))[i].tid)
  {
    assert |Shown(Do(s, a))| == |Do(s, a).log| && |Shown(s)| == |s.log|;
    hide Shown, Sound, LockInv, HolderAt, Do, Enabled;
    ShownAccess(Do(s, a), i);
    if i < |s.log| && Do(s, a).log[i].Planned() == s.log[i].Planned() {
      ShownAccess(s, i);
      assert HolderAt(Shown(s), m, i) == HeldBy(Shown(s)[i].tid);
    } else {
      EntryGuarded(s, a, x, m, i);
    }
  }

  lemma RawGuardedStep(s: State, a: Action, x: nat, m: nat)
    requires GuardInv(s, x, m) && Sound(s) && LockInv(s, m) && Enabled(s, a) && Disciplined(s, a, x, m)
    requires HoldersKept(Shown(s), Shown(Do(s, a)), m)
    ensures RawGuarded(Shown(Do(s, a)), x, m)
  {
    hide GuardInv, Sound, LockInv, Do, Enabled, HolderAt, Shown, Disciplined, HoldersKept;
    var tr' := Shown(Do(s, a));
    forall i | 0 <= i < |tr'| && tr'[i].IsAccess() && tr'[i].Touches(x)
      ensures HolderAt(tr', m, i) == HeldBy(tr'[i].tid)
    {
      RawGuardedAt(s, a, x, m, i);
    }
  }

  /** Blank slots show whoever held the mutex when they were reserved. */
  lemma OpenHolders(s: State, t: nat, n: nat, pc: Pc, m: nat)
    requires t < |s.threads| && Legal(Shown(s), m)
    ensures
      var tr' := Shown(Open(s, t, n, pc));
      forall i :: |s.log| <= i <= |s.log| + n && i <= |tr'| ==>
        HolderAt(tr', m, i) == HolderAt(Shown(s), m, |s.log|)
  {
    var tr, blank := Shown(s), Blank(t).Planned();
    ShownOpen(s, t, n, pc);
    WholeHolder(tr, m);
    hide Shown, Open, HolderOf, Legal;
    var tr' := tr + seq(n, _ => blank);
    forall i | |s.log| <= i <= |s.log| + n && i <= |tr'| ensures HolderAt(tr', m, i) == HolderOf(tr, m) {
      ExtendNeutral(tr, seq(i - |tr|, _ => blank), m);
      assert tr'[..i] == tr + seq(i - |tr|, _ => blank);
    }
  }

  /** Opening a hook under the mutex. */
  lemma OpenHookStep(s: State, t: nat, accesses: seq<Event>, x: nat, m: nat)
    requires Sound(s) && LockInv(s, m) && Enabled(s, OpenBatch(t, accesses))
    requires Disciplined(s, OpenBatch(t, accesses), x, m)
    ensures HookGuarded(Do(s, OpenBatch(t, accesses)), t, x, m)
  {
    assert BatchOk(s, t);
    if Hot(accesses, s.stack, x) {
      OwnerShown(s, t, m);
      var n := Loggable(accesses, s.stack);
      if n > 1 {
        OpenHolders(s, t, n, Logging(accesses), m);
      }
    }
  }

  /** The thread that acts keeps its hook guarded. */
  lemma NextHookStep(s: State, a: Action, x: nat, m: nat)
    requires Sound(s) && Enabled(s, a) && a.LogNext? && HookGuarded(s, a.t, x, m)
    requires HoldersKept(Shown(s), Shown(Do(s, a)), m)
    ensures HookGuarded(Do(s, a), a.t, x, m)
  {
    hide HolderAt;
    var todo := s.threads[a.t].pc.todo;
    assert ThreadOk(s, a.t);
    if Hot(todo[1..], s.stack, x) {
      HotTail(todo, s.stack, x);
    }
  }

  /** No other action leaves its thread with accesses to log that were not there before. */
  lemma OwnPc(s: State, a: Action)
    requires Enabled(s, a) && !a.OpenBatch? && !a.LogNext?
    ensures a.t < |Do(s, a).threads|
    ensures
      var th, th' := s.threads[a.t], Do(s, a).threads[a.t];
      th'.pc.Logging? ==>
        || th'.pc.todo == []
        || (th'.pc == th.pc && th'.batch == th.batch && Do(s, a).owner == s.owner && |Do(s, a).log| == |s.log|)
  {
    hide Loggable;
  }

  lemma OwnHookStep(s: State, a: Action, x: nat, m: nat)
    requires GuardInv(s, x, m) && Sound(s) && LockInv(s, m) && Enabled(s, a) && Disciplined(s, a, x, m)
    requires HoldersKept(Shown(s), Shown(Do(s, a)), m)
    ensures HookGuarded(Do(s, a), a.t, x, m)
  {
    var t := a.t;
    assert ThreadOk(s, t) && HookGuarded(s, t, x, m);
    if a.OpenBatch? {
      OpenHookStep(s, t, a.accesses, x, m);
    } else if a.LogNext? {
      NextHookStep(s, a, x, m);
    } else {
      OwnPc(s, a);
      StackStays(s, a);
      hide HolderAt, LockInv, GuardInv, Sound, Do, Enabled;
    }
  }

  lemma OtherHookStep(s: State, a: Action, u: nat, x: nat, m: nat)
    requires GuardInv(s, x, m) && Sound(s) && LockInv(s, m) && Enabled(s, a)
    requires HoldersKept(Shown(s), Shown(Do(s, a)), m)
    requires u < |Do(s, a).threads| && u != a.t
    ensures HookGuarded(Do(s, a), u, x, m)
  {
    hide Do, HolderAt, LockInv;
    OthersUntouched(s, a, u);
    if u < |s.threads| {
      assert ThreadOk(s, u) && HookGuarded(s, u, x, m);
      var th := s.threads[u];
      if th.pc.Logging? && Hot(th.pc.todo, s.stack, x) {
        OwnsKept(s, a, u, m);
      }
    }
  }

  lemma GuardStep(s: State, a: Action, x: nat, m: nat)
    requires GuardInv(s, x, m) && Sound(s) && LockInv(s, m) && Enabled(s, a) && Disciplined(s, a, x, m)
    ensures GuardInv(Do(s, a), x, m)
  {
    TraceKept(s, a, m);
    RawGuardedStep(s, a, x, m);
    forall u | 0 <= u < |Do(s, a).threads| ensures HookGuarded(Do(s, a), u, x, m) {
      if u == a.t {
        OwnHookStep(s, a, x, m);
      } else {
        OtherHookStep(s, a, u, x, m);
      }
    }
  }

  lemma {:induction false} GuardAlways(stack: set<nat>, acts: seq<Action>, s: State, x: nat, m: nat)
    requires Reaches(stack, acts, s) && DisciplinedRun(stack, acts, x, m)
    ensures GuardInv(s, x, m)
  {
    if acts != [] {
      var init, a := acts[..|acts| - 1], acts[|acts| - 1];
      var p := Exec(stack, init).state;
      GuardAlways(stack, init, p, x, m);
      SoundAlways(stack, init, p);
      LockInvAlways(stack, init, p, m);
      GuardStep(p, a, x, m);
    }
  }

  // ----- through expansion ----------------------------------------------------------

  /** Appending accesses whose thread holds `m`, if they touch `x` at all. */
  lemma {:induction false} ExtendGuarded(tr: seq<Event>, es: seq<Event>, x: nat, m: nat)
    requires Legal(tr, m) && Guarded(tr, x, m)
    requires forall k :: 0 <= k < |es| ==> Neutral(es[k], m)
    requires forall k :: 0 <= k < |es| && es[k].IsAccess() && es[k].addr == x ==>
      HolderOf(tr, m) == HeldBy(es[k].tid)
    ensures Legal(tr + es, m) && Guarded(tr + es, x, m) && HolderOf(tr + es, m) == HolderOf(tr, m)
    decreases |es|
  {
    ExtendNeutral(tr, es, m);
    forall k | 0 <= k < |tr + es| && (tr + es)[k].IsAccess() && (tr + es)[k].addr == x
      ensures HolderAt(tr + es, m, k) == HeldBy((tr + es)[k].tid)
    {
      if k < |tr| {
        assert (tr + es)[..k] == tr[..k];
        assert HolderAt(tr, m, k) == HeldBy(tr[k].tid);
      } else {
        ExtendNeutral(tr, es[..k - |tr|], m);
        assert (tr + es)[..k] == tr + es[..k - |tr|];
      }
    }
  }

  /** One raw event, expanded after a legal and guarded trace. */
  lemma ExpandOneGuarded(tr: seq<Event>, e: Event, x: nat, m: nat)
    requires Legal(tr, m) && Guarded(tr, x, m) && LegalNext(HolderOf(tr, m), e, m)
    requires e.IsAccess() && e.Touches(x) ==> HolderOf(tr, m) == HeldBy(e.tid)
    ensures Legal(tr + ExpandOne(e), m) && Guarded(tr + ExpandOne(e), x, m)
    ensures HolderOf(tr + ExpandOne(e), m) == NextHolder(HolderOf(tr, m), e, m)
  {
    hide Legal, Guarded, HolderOf;
    var es := ExpandOne(e);
    if Neutral(e, m) {
      forall l | 0 <= l < |es| && es[l].IsAccess() && es[l].addr == x
        ensures HolderOf(tr, m) == HeldBy(es[l].tid)
      {
        assert e.Element(l).addr == x;
      }
      ExtendGuarded(tr, es, x, m);
    } else {
      Extend(tr, e, m);
      GuardedByOther(tr, e, x, m);
    }
  }

  /** A legal, guarded raw trace expands to a legal, guarded trace of single accesses. */
  lemma {:induction false} ExpandGuarded(raw: seq<Event>, k: nat, x: nat, m: nat)
    requires k <= |raw| && Legal(raw, m) && RawGuarded(raw, x, m)
    ensures Legal(Expand(raw, k), m) && Guarded(Expand(raw, k), x, m)
    ensures HolderOf(Expand(raw, k), m) == HolderAt(raw, m, k)
  {
    if k > 0 {
      ExpandGuarded(raw, k - 1, x, m);
      HolderStep(raw, m, k - 1);
      var e := raw[k - 1];
      assert LegalNext(HolderAt(raw, m, k - 1), e, m);
      assert e.IsAccess() && e.Touches(x) ==> HolderAt(raw, m, k - 1) == HeldBy(e.tid);
      hide HolderAt, HolderOf, Legal, Guarded, RawGuarded, ExpandOne;
      ExpandOneGuarded(Expand(raw, k - 1), raw[k - 1], x, m);
    }
  }

  lemma GuardedByOther(tr: seq<Event>, e: Event, x: nat, m: nat)
    requires Guarded(tr, x, m) && !e.IsAccess()
    ensures Guarded(tr + [e], x, m)
  {
    forall k | 0 <= k < |tr| && tr[k].IsAccess() && tr[k].addr == x
      ensures HolderAt(tr + [e], m, k) == HeldBy(tr[k].tid)
    {
      assert (tr + [e])[..k] == tr[..k];
    }
  }

  lemma {:induction false} ExpandTids(raw: seq<Event>, k: nat, n: nat)
    requires TidsBelow(raw, n) && k <= |raw|
    ensures TidsBelow(Expand(raw, k), n)
  {
    if k > 0 {
      ExpandTids(raw, k - 1, n);
      assert TidBelow(raw[k - 1], n);
    }
  }

  /** Every thread id in the log, also of created and joined threads, is one given out. */
  lemma LogTidsBelow(stack: set<nat>, acts: seq<Action>, s: State)
    requires Reaches(stack, acts, s)
    ensures TidsBelow(Trace(s), |s.threads|)
  {
    SoundAlways(stack, acts, s);
    OrderAlways(stack, acts, s);
    forall i | 0 <= i < |s.log| ensures TidBelow(Trace(s)[i], |s.threads|) {
      assert SlotOk(s, i);
    }
  }

  // ----- the main result ------------------------------------------------------------

  /** Discounting commutes with expansion. */
  lemma {:induction false} ExpandDiscounts(raw: seq<Event>, shown: seq<Event>, k: nat)
    requires Discounts(raw, shown) && k <= |raw|
    ensures Discounts(Expand(raw, k), Expand(shown, k))
  {
    if k > 0 {
      ExpandDiscounts(raw, shown, k - 1);
      assert Discounts(ExpandOne(raw[k - 1]), ExpandOne(shown[k - 1]));
      hide ExpandOne;
    }
  }

  /** For every run of a program that touches `x` only while holding `m`, taken by locking or by a
      successful trylock, and at every moment of it: nothing is reported on `x` from the log,
      whichever set of addresses loading keeps. */
  lemma {:induction false} LockedDataNeverReported(stack: set<nat>, acts: seq<Action>, s: State, x: nat, m: nat,
                                keep: set<nat>)
    requires Reaches(stack, acts, s) && DisciplinedRun(stack, acts, x, m)
    ensures !RacyAddress(Expand(Trace(s), |s.log|), x)
    ensures !ReportedAddress(Filter(Expand(Trace(s), |s.log|), keep), x)
  {
    LoggedTracesLegal(stack, acts, s, m);
    GuardAlways(stack, acts, s, x, m);
    LogTidsBelow(stack, acts, s);
    ExpandTids(Trace(s), |s.log|, |s.threads|);
    var full := Expand(Trace(s), |s.log|);
    ExpandGuarded(Shown(s), |s.log|, x, m);
    ExpandDiscounts(Trace(s), Shown(s), |s.log|);
    GuardedSilent(full, Expand(Shown(s), |s.log|), x, m);
    var y := Filter(full, keep);
    if ReportedAddress(y, x) {
      var i: nat, j: nat :| Reported(y, i, j) && y[j].addr == x;
      FilteringKeepsReports(full, keep, |s.threads|, i, j);
    }
  }
}
