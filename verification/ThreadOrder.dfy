// Thread creation and joining in the log: CREATE comes before everything its child logs, JOIN
// after everything the joined thread logs.
module ThreadOrder {
  import opened HappensBefore
  import opened Runtime
  import opened LogSlots

  /** What one action does to the events of the log. */
  predicate LogEffect(s: State, a: Action, s': State)
    requires a.t < |s.threads|
  {
    var th := s.threads[a.t];
    && |s.log| <= |s'.log|
    && (forall i :: 0 <= i < |s.log| ==>
          || s'.log[i].Planned() == s.log[i].Planned()
          || (&& s.log[i] == Blank(a.t) && s'.log[i].Planned().tid == a.t
              && (s'.log[i].Planned().IsAccess()
                  || (&& th.pc.Created? && th.batch.Batch? && i == th.batch.id
                      && s'.log[i].Planned().op.Create? && s'.log[i].Planned().remote == th.pc.child))))
    && (forall i :: |s.log| <= i < |s'.log| ==>
          && s'.log[i].Planned().tid == a.t && !s'.log[i].Planned().op.Create?
          && (s'.log[i].Planned().op.Join? ==> th.pc.Joined? && s'.log[i].Planned().remote == th.pc.u))
  }

  lemma FillEffect(s: State, a: Action)
    requires Sound(s) && Enabled(s, a) && (a.LogNext? || a.CreateLog?)
    ensures LogEffect(s, a, Do(s, a))
  {
    assert ThreadOk(s, a.t) && BatchOk(s, a.t);
  }

  lemma AppendEffect(s: State, a: Action)
    requires Enabled(s, a) && !a.LogNext? && !a.CreateLog? && !a.Write?
    ensures LogEffect(s, a, Do(s, a))
  {
    hide Loggable;
  }

  lemma LogEffectHolds(s: State, a: Action)
    requires Sound(s) && Enabled(s, a) && !a.Write?
    ensures LogEffect(s, a, Do(s, a))
  {
    if a.LogNext? || a.CreateLog? {
      FillEffect(s, a);
    } else {
      AppendEffect(s, a);
    }
  }

  /** What one action does to its own thread, where creating, joining and exiting go. */
  predicate OwnEffect(s: State, a: Action, s': State)
    requires a.t < |s.threads| <= |s'.threads|
  {
    var before, after := s.threads[a.t], s'.threads[a.t];
    && (before.pc.Exited? ==> after.pc.Exited? && s'.log == s.log)
    && (after.pc.Created? ==>
          || (after.pc == before.pc && after.batch == before.batch)
          || (&& after.pc.child == |s.threads| < |s'.threads| && s'.log == s.log
              && after.batch == before.batch && before.batch.Batch? && before.batch.id < |s.log|))
    && (after.pc.Joined? ==>
          || after.pc == before.pc
          || (after.pc.u < |s.threads| && s.threads[after.pc.u].pc.Exited?))
  }

  /** What one action does to the threads. */
  predicate ThreadEffect(s: State, a: Action, s': State)
    requires a.t < |s.threads|
  {
    && |s.threads| <= |s'.threads|
    && (forall u :: 0 <= u < |s.threads| && u != a.t ==> s'.threads[u] == s.threads[u])
    && (forall u :: |s.threads| <= u < |s'.threads| ==> s'.threads[u].pc.Running?)
    && OwnEffect(s, a, s')
  }

  lemma OwnEffectHolds(s: State, a: Action)
    requires Sound(s) && Enabled(s, a) && !a.Write?
    ensures |s.threads| <= |Do(s, a).threads| && OwnEffect(s, a, Do(s, a))
  {
    assert ThreadOk(s, a.t) && BatchOk(s, a.t);
    hide Sound, ThreadOk, BatchOk, Loggable;
  }

  lemma ThreadEffectHolds(s: State, a: Action)
    requires Sound(s) && Enabled(s, a) && !a.Write?
    ensures ThreadEffect(s, a, Do(s, a))
  {
    OwnEffectHolds(s, a);
    hide Sound, Enabled, Do, OwnEffect;
    var s' := Do(s, a);
    forall u | 0 <= u < |s'.threads| && u != a.t
      ensures if u < |s.threads| then s'.threads[u] == s.threads[u] else s'.threads[u].pc.Running?
    {
      OthersUntouched(s, a, u);
    }
  }

  /** Child threads named by the log exist, and everything they log comes later. */
  predicate CreatesFirst(s: State) {
    && (forall i, j :: 0 <= i < |s.log| && 0 <= j < |s.log| ==>
          (s.log[i].Planned().op.Create? && s.log[j].Planned().tid == s.log[i].Planned().remote ==> i < j))
    && (forall i :: 0 <= i < |s.log| && s.log[i].Planned().op.Create? ==>
          s.log[i].Planned().remote < |s.threads|)
    && (forall t :: 0 <= t < |s.threads| && s.threads[t].pc.Created? ==> ChildLater(s, s.threads[t]))
  }

  predicate ChildLater(s: State, th: Thread)
    requires th.pc.Created?
  {
    && th.batch.Batch? && th.batch.id < |s.log| && th.pc.child < |s.threads|
    && forall j :: 0 <= j < |s.log| && s.log[j].Planned().tid == th.pc.child ==> th.batch.id < j
  }

  /** Joined threads have exited, and everything they log comes earlier. */
  predicate JoinsLast(s: State) {
    && (forall t :: 0 <= t < |s.threads| && s.threads[t].pc.Joined? ==>
          s.threads[t].pc.u < |s.threads| && s.threads[s.threads[t].pc.u].pc.Exited?)
    && (forall i :: 0 <= i < |s.log| && s.log[i].Planned().op.Join? ==>
          && s.log[i].Planned().remote < |s.threads|
          && s.threads[s.log[i].Planned().remote].pc.Exited?)
    && (forall i, j :: 0 <= i < |s.log| && 0 <= j < |s.log| ==>
          (s.log[i].Planned().op.Join? && s.log[j].Planned().tid == s.log[i].Planned().remote ==> j < i))
  }

  predicate TidsExist(s: State) {
    forall i :: 0 <= i < |s.log| ==> s.log[i].Planned().tid < |s.threads|
  }

  lemma CreatesFirstStep(s: State, a: Action, s': State)
    requires CreatesFirst(s) && TidsExist(s) && a.t < |s.threads|
    requires LogEffect(s, a, s') && ThreadEffect(s, a, s')
    ensures CreatesFirst(s')
  {
    forall i, j | 0 <= i < |s'.log| && 0 <= j < |s'.log|
      && s'.log[i].Planned().op.Create? && s'.log[j].Planned().tid == s'.log[i].Planned().remote
      ensures i < j
    {
      assert i < |s.log|;
      if s'.log[i].Planned() != s.log[i].Planned() {
        assert ChildLater(s, s.threads[a.t]);
      }
    }
    forall t | 0 <= t < |s'.threads| && s'.threads[t].pc.Created? ensures ChildLater(s', s'.threads[t]) {
      if s'.threads[t].pc == s.threads[t].pc {
        assert ChildLater(s, s.threads[t]);
      }
    }
  }

  lemma JoinsLastStep(s: State, a: Action, s': State)
    requires JoinsLast(s) && a.t < |s.threads|
    requires LogEffect(s, a, s') && ThreadEffect(s, a, s')
    ensures JoinsLast(s')
  {
    forall i, j | 0 <= i < |s'.log| && 0 <= j < |s'.log|
      && s'.log[i].Planned().op.Join? && s'.log[j].Planned().tid == s'.log[i].Planned().remote
      ensures j < i
    {
    }
  }

  lemma OrderStep(s: State, a: Action)
    requires CreatesFirst(s) && JoinsLast(s) && Sound(s) && Enabled(s, a)
    ensures CreatesFirst(Do(s, a)) && JoinsLast(Do(s, a))
  {
    var s' := Do(s, a);
    forall i | 0 <= i < |s.log| ensures s.log[i].Planned().tid < |s.threads| {
      assert SlotOk(s, i);
    }
    if a.Write? {
      WriteKeepsPlans(s, a.t);
      SameOrder(s, s');
    } else {
      LogEffectHolds(s, a);
      ThreadEffectHolds(s, a);
      hide Do, CreatesFirst, JoinsLast, LogEffect, ThreadEffect;
      CreatesFirstStep(s, a, s');
      JoinsLastStep(s, a, s');
    }
  }

  lemma WriteKeepsPlans(s: State, t: nat)
    requires Enabled(s, Write(t))
    ensures
      var s' := Do(s, Write(t));
      && |s'.log| == |s.log| && |s'.threads| == |s.threads|
      && (forall i :: 0 <= i < |s.log| ==> s'.log[i].Planned() == s.log[i].Planned())
      && (forall u :: 0 <= u < |s.threads| ==>
            s'.threads[u].pc == s.threads[u].pc && s'.threads[u].batch == s.threads[u].batch)
  {
  }

  lemma SameOrder(s: State, s': State)
    requires CreatesFirst(s) && JoinsLast(s)
    requires |s'.log| == |s.log| && |s'.threads| == |s.threads|
    requires forall i :: 0 <= i < |s.log| ==> s'.log[i].Planned() == s.log[i].Planned()
    requires forall u :: 0 <= u < |s.threads| ==>
      s'.threads[u].pc == s.threads[u].pc && s'.threads[u].batch == s.threads[u].batch
    ensures CreatesFirst(s') && JoinsLast(s')
  {
    forall t | 0 <= t < |s'.threads| && s'.threads[t].pc.Created? ensures ChildLater(s', s'.threads[t]) {
      assert ChildLater(s, s.threads[t]);
    }
  }

  lemma {:induction false} OrderAlways(stack: set<nat>, acts: seq<Action>, s: State)
    requires Reaches(stack, acts, s)
    ensures CreatesFirst(s) && JoinsLast(s)
  {
    if acts != [] {
      var p := Exec(stack, acts[..|acts| - 1]).state;
      OrderAlways(stack, acts[..|acts| - 1], p);
      SoundAlways(stack, acts[..|acts| - 1], p);
      OrderStep(p, acts[|acts| - 1]);
    }
  }

  /** In every run: a CREATE's timestamp is below every timestamp of its child, a JOIN's above
      every timestamp of the joined thread; so the detector's create and join edges order all
      of them. */
  lemma CreateAndJoinOrder(stack: set<nat>, acts: seq<Action>, s: State, i: nat, j: nat)
    requires Reaches(stack, acts, s) && i < |s.log| && j < |s.log|
    requires s.log[j].Planned().tid == s.log[i].Planned().remote
    ensures s.log[i].Planned().op.Create? ==> i < j && HB(Trace(s), i, j)
    ensures s.log[i].Planned().op.Join? ==> j < i && HB(Trace(s), j, i)
  {
    OrderAlways(stack, acts, s);
  }
}
