/** Read locks: when they are all held, and when they are all free. */
module LockDiscipline {
  import opened Options
  import opened Cluster
  import opened Agreement

  predicate Locked(s: State, m: ServerId) { Rep(s, m).isLocked }

  /** A put locks member after member, and writes with all of them locked. */
  ghost predicate PutLocks(s: State) {
    forall id, m | id in s.tasks && s.tasks[id].req.Put? && m in s.members ::
      && (s.tasks[id].pc.Locking? && m !in s.tasks[id].pc.todo ==> Locked(s, m))
      && (s.tasks[id].pc.Writing? ==> Locked(s, m))
  }

  /** Without any exhausted retry: who may be locked at all. */
  ghost predicate MayBeLocked(s: State, m: ServerId) {
    && s.serversLock.Some? && s.serversLock.value in s.tasks && m in s.members
    && var pc := s.tasks[s.serversLock.value].pc;
       pc.Unlocking? ==> m in pc.todo
  }

  ghost predicate OnlyGuardedLocks(s: State) {
    LockHeld(s) && forall m | Locked(s, m) :: MayBeLocked(s, m)
  }

  lemma KeepsPutLocks(s: State, step: Step)
    requires LockHeld(s) && PutLocks(s) && Enabled(s, step) && KeepsLocks(s, step)
    ensures PutLocks(Apply(s, step))
  {
    var s' := Apply(s, step);
    forall id, m | id in s'.tasks && s'.tasks[id].req.Put? && m in s'.members
      ensures s'.tasks[id].pc.Locking? && m !in s'.tasks[id].pc.todo ==> Locked(s', m)
      ensures s'.tasks[id].pc.Writing? ==> Locked(s', m)
    {
      if Holding(s'.tasks[id].pc) && (step.Remove? || step.id != id) {
        OthersStay(s, step, id);
        assert Holding(s.tasks[id].pc);
      }
    }
  }

  lemma KeepsOnlyGuardedLocks(s: State, step: Step)
    requires OnlyGuardedLocks(s) && Enabled(s, step) && NoGiveUp(step)
    ensures OnlyGuardedLocks(Apply(s, step))
  {
    KeepsLockHeld(s, step);
    var s' := Apply(s, step);
    forall m | Locked(s', m) ensures MayBeLocked(s', m) {
      if Locked(s, m) {
        assert MayBeLocked(s, m);
      }
    }
  }

  lemma {:induction false} PutLocksAlways(run: Run, t: nat)
    requires LockedRun(run) && t <= |run.steps|
    ensures PutLocks(run.states[t])
  {
    if t > 0 {
      PutLocksAlways(run, t - 1);
      InvAlways(run, t - 1);
      assert StepAt(run, t - 1) && KeepsLocks(run.states[t - 1], run.steps[t - 1]);
      KeepsPutLocks(run.states[t - 1], run.steps[t - 1]);
    }
  }

  lemma {:induction false} GuardedLocksAlways(run: Run, t: nat)
    requires FaultFreeRun(run) && t <= |run.steps|
    ensures OnlyGuardedLocks(run.states[t])
  {
    if t > 0 {
      GuardedLocksAlways(run, t - 1);
      assert StepAt(run, t - 1) && NoGiveUp(run.steps[t - 1]);
      KeepsOnlyGuardedLocks(run.states[t - 1], run.steps[t - 1]);
    }
  }

  predicate IsJoinOf(s: State, id: TaskId, m: ServerId) { id in s.tasks && s.tasks[id].req == Join(m) }

  /** A member's data changes only by a write, while every member is locked, or because it joins again. */
  lemma DataChangesOnlyUnderLocks(run: Run, t: nat, m: ServerId, x: ServerId)
    requires LockedRun(run) && t < |run.steps|
    requires m in run.states[t].members && x in run.states[t].members
    requires Rep(run.states[t + 1], m).data != Rep(run.states[t], m).data
    ensures (run.steps[t].WriteAttempt? && Locked(run.states[t], x))
         || (run.steps[t].SendAttempt? && IsJoinOf(run.states[t], run.steps[t].id, m))
  {
    assert StepAt(run, t);
    InvAlways(run, t);
    PutLocksAlways(run, t);
  }

  /** Without exhausted retries, no process at all is locked while nobody holds serversLock. */
  lemma AllUnlockedWhenFree(run: Run, t: nat, m: ServerId)
    requires FaultFreeRun(run) && t <= |run.steps| && run.states[t].serversLock == None
    ensures !Locked(run.states[t], m)
  {
    GuardedLocksAlways(run, t);
  }
}
