/** A path that starts like a new cluster is a run, so the theorems about runs apply to it. */
module PathRuns {
  import opened Options
  import opened Cluster
  import opened Agreement
  import opened AgreementTheorems
  import opened Paths

  /** The same but for processes that are known to be empty and unlocked. */
  ghost predicate Same(s: State, t: State) {
    && s.members == t.members && s.serversLock == t.serversLock && s.tasks == t.tasks
    && forall m :: Rep(s, m) == Rep(t, m)
  }

  lemma SameEnabled(s: State, t: State, step: Step)
    requires Same(s, t)
    ensures Enabled(s, step) == Enabled(t, step)
  {
    hide Rep;
  }

  lemma SameApply(s: State, t: State, step: Step)
    requires Same(s, t) && Enabled(s, step) && Enabled(t, step)
    ensures Same(Apply(s, step), Apply(t, step))
  {
    forall m ensures Rep(Apply(s, step), m) == Rep(Apply(t, step), m) {
      SameReplicas(s, t, step, m);
    }
    SameMembers(s, t, step);
    SameTasks(s, t, step);
  }

  lemma SameMembers(s: State, t: State, step: Step)
    requires Same(s, t) && Enabled(s, step) && Enabled(t, step)
    ensures Apply(s, step).members == Apply(t, step).members
    ensures Apply(s, step).serversLock == Apply(t, step).serversLock
  {
    hide Rep;
    if Remote(step) {
      SameMembersRemote(s, t, step);
    }
  }

  lemma SameMembersRemote(s: State, t: State, step: Step)
    requires Same(s, t) && Enabled(s, step) && Enabled(t, step) && Remote(step)
    ensures Apply(s, step).members == Apply(t, step).members
    ensures Apply(s, step).serversLock == Apply(t, step).serversLock
  {
    hide Rep;
  }

  lemma SameTasks(s: State, t: State, step: Step)
    requires Same(s, t) && Enabled(s, step) && Enabled(t, step)
    ensures Apply(s, step).tasks == Apply(t, step).tasks
  {
    if step.JoinBeginSend? || step.SendRestart? {
      assert Rep(s, s.tasks[step.id].pc.sender) == Rep(t, s.tasks[step.id].pc.sender);
    } else if step.GetRead? {
      assert Rep(s, s.tasks[step.id].pc.from) == Rep(t, s.tasks[step.id].pc.from);
    } else if Remote(step) {
      SameTasksRemote(s, t, step);
    } else {
      SameTasksLocal(s, t, step);
    }
  }

  lemma SameTasksRemote(s: State, t: State, step: Step)
    requires s.tasks == t.tasks && Enabled(s, step) && Enabled(t, step) && Remote(step)
    ensures Apply(s, step).tasks == Apply(t, step).tasks
  {
    match step
    case LockAttempt(_, _, _) =>
    case LockGiveUp(_, _) =>
    case WriteAttempt(_, _, _) =>
    case UnlockAttempt(_, _, _) =>
    case SendAttempt(_, _, _) =>
  }

  lemma SameTasksLocal(s: State, t: State, step: Step)
    requires s.members == t.members && s.tasks == t.tasks && Enabled(s, step) && Enabled(t, step)
    requires !Remote(step) && !step.JoinBeginSend? && !step.SendRestart? && !step.GetRead?
    ensures Apply(s, step).tasks == Apply(t, step).tasks
  {
    hide Rep;
  }

  lemma SameReplicas(s: State, t: State, step: Step, m: ServerId)
    requires Same(s, t) && Enabled(s, step) && Enabled(t, step)
    ensures Rep(Apply(s, step), m) == Rep(Apply(t, step), m)
  {
    assert Rep(s, m) == Rep(t, m);
    if Remote(step) {
      SameTouched(s, t, step, m);
    } else {
      LocalsTouchNothing(s, step);
      LocalsTouchNothing(t, step);
    }
  }

  lemma SameTouched(s: State, t: State, step: Step, m: ServerId)
    requires Same(s, t) && Enabled(s, step) && Enabled(t, step) && Remote(step)
    ensures Rep(Apply(s, step), m) == Rep(Apply(t, step), m)
  {
    assert Rep(s, m) == Rep(t, m);
    if step.SendAttempt? {
      var joiner, sender := s.tasks[step.id].req.server, s.tasks[step.id].pc.sender;
      assert Rep(s, joiner) == Rep(t, joiner) && Rep(s, sender) == Rep(t, sender);
    } else {
      assert Rep(s, step.server) == Rep(t, step.server);
    }
  }

  lemma SameHappens(s: State, t: State, step: Step, x: Mishap)
    requires Same(s, t)
    ensures Happens(s, step, x) == Happens(t, step, x)
  {
  }

  /** A run in which nothing goes wrong but mishaps in `may`. */
  ghost predicate RunWith(run: Run, may: set<Mishap>) {
    IsRun(run) && forall t | 0 <= t < |run.steps| :: Only(run.states[t], run.steps[t], may)
  }

  lemma OneStepMore(run: Run, step: Step, may: set<Mishap>) returns (longer: Run)
    requires RunWith(run, may) && Enabled(run.states[|run.steps|], step) && Only(run.states[|run.steps|], step, may)
    ensures RunWith(longer, may) && longer.steps == run.steps + [step]
    ensures longer.states[|longer.steps|] == Apply(run.states[|run.steps|], step)
  {
    longer := Run(run.states + [Apply(run.states[|run.steps|], step)], run.steps + [step]);
    forall t | 0 <= t < |longer.steps| ensures StepAt(longer, t) {
      if t < |run.steps| {
        assert StepAt(run, t);
      }
    }
    forall t | 0 <= t < |longer.steps| ensures Only(longer.states[t], longer.steps[t], may) {
      if t < |run.steps| {
        assert Only(run.states[t], run.steps[t], may);
      }
    }
  }

  lemma {:induction false} PathContinues(run: Run, s: State, steps: seq<Step>, t: State, may: set<Mishap>)
    returns (longer: Run)
    requires RunWith(run, may) && Same(run.states[|run.steps|], s) && Path(s, steps, t, may)
    ensures RunWith(longer, may) && longer.steps == run.steps + steps && Same(longer.states[|longer.steps|], t)
    decreases |steps|
  {
    if steps == [] {
      longer := run;
    } else {
      var last, step := run.states[|run.steps|], steps[0];
      SameEnabled(last, s, step);
      forall x | Happens(last, step, x) ensures x in may {
        SameHappens(last, s, step, x);
      }
      SameApply(last, s, step);
      longer := OneStepMore(run, step, may);
      longer := PathContinues(longer, Apply(s, step), steps[1..], t, may);
      assert run.steps + [step] + steps[1..] == run.steps + steps;
    }
  }

  /** A path from a state like the initial one is a run with the same steps, up to the same state, and
      with the same mishaps. */
  lemma PathIsRun(s: State, steps: seq<Step>, t: State, may: set<Mishap>) returns (run: Run)
    requires Same(Init(), s) && Path(s, steps, t, may)
    ensures RunWith(run, may) && run.steps == steps && Same(run.states[|steps|], t)
  {
    run := PathContinues(Run([Init()], []), s, steps, t, may);
    assert [] + steps == steps;
  }

  /** Which theorems about runs apply is a matter of these mishaps. */
  lemma RunWithout(run: Run, may: set<Mishap>)
    requires RunWith(run, may)
    ensures may !! {RacingJoin, LastMemberRemoved, PutWithoutMembers} ==> OrderlyRun(run)
    ensures may <= {LockLost} ==> WrittenRun(run)
    ensures may <= {WriteLost} ==> LockedRun(run)
    ensures may == {} ==> SafeRun(run)
  {
    forall t, x | 0 <= t < |run.steps| && x !in may ensures !Happens(run.states[t], run.steps[t], x) {
      assert Only(run.states[t], run.steps[t], may);
    }
  }

  /** When no mishap but a lost lock happens on a path, and serversLock is free at its end, all members
      hold the single map. */
  lemma PathEndsInAgreement(s: State, steps: seq<Step>, t: State, may: set<Mishap>, m: ServerId)
    requires Same(Init(), s) && Path(s, steps, t, may) && may <= {LockLost}
    requires t.serversLock == None && m in t.members
    ensures Rep(t, m).data == MapAt(steps, |steps|)
  {
    var run := PathIsRun(s, steps, t, may);
    RunWithout(run, may);
    ReplicaAgreement(run, |steps|);
    assert Rep(run.states[|steps|], m) == Rep(t, m);
  }
}
