/** What a path stores, when a single request moves along it. */
module PathEffects {
  import opened Cluster
  import opened Agreement
  import opened Lifecycle
  import opened Paths

  predicate IsOver(t: Task) {
    t.pc.Finished? || t.pc.Failed?
  }

  /** Put `id` has begun its write phase, or is past it. */
  predicate HasBegun(s: State, id: TaskId) {
    IsPut(s, id) && Rank(s.tasks[id].pc) >= 4
  }

  /** A put begins to write once, and in no other step. */
  lemma BeginsInOneStep(s: State, step: Step, id: TaskId)
    requires Enabled(s, step)
    ensures HasBegun(Apply(s, step), id) <==> HasBegun(s, id) || (step.PutBeginWrite? && step.id == id)
    ensures step.PutBeginWrite? ==> !HasBegun(s, step.id)
    ensures step.PutBeginWrite? ==> Apply(s, step).tasks[step.id].req == Put(step.key, step.value)
  {
    if id in s.tasks && (step.Remove? || step.id != id) {
      OthersStay(s, step, id);
    }
  }

  lemma {:induction false} PathForward(s: State, steps: seq<Step>, t: State, id: TaskId, may: set<Mishap>)
    requires Path(s, steps, t, may) && id in s.tasks
    ensures id in t.tasks && t.tasks[id].req == s.tasks[id].req && (HasBegun(s, id) ==> HasBegun(t, id))
    decreases |steps|
  {
    if steps != [] {
      StepForward(s, steps[0], id);
      PathForward(Apply(s, steps[0]), steps[1..], t, id, may);
    }
  }

  /** All requests but `id` are over, and `t` knows no other. */
  ghost predicate OnlyMoves(s: State, id: TaskId, t: State) {
    (forall i | i in s.tasks && i != id :: IsOver(s.tasks[i])) && t.tasks.Keys <= s.tasks.Keys + {id}
  }

  lemma OverIsStill(s: State, step: Step)
    requires Enabled(s, step) && !step.Remove?
    ensures step.id in Apply(s, step).tasks && (step.id in s.tasks ==> !IsOver(s.tasks[step.id]))
  {
  }

  /** So every step but a removal is a step of `id`. */
  lemma StepOfTheOne(s: State, steps: seq<Step>, t: State, id: TaskId, may: set<Mishap>)
    requires Path(s, steps, t, may) && OnlyMoves(s, id, t) && steps != []
    ensures steps[0].Remove? || steps[0].id == id
  {
    var step := steps[0];
    if !step.Remove? {
      hide Apply, Enabled;
      OverIsStill(s, step);
      PathForward(Apply(s, step), steps[1..], t, step.id, may);
    }
  }

  lemma OnlyMovesStill(s: State, step: Step, id: TaskId, t: State)
    requires Enabled(s, step) && OnlyMoves(s, id, t) && (step.Remove? || step.id == id)
    ensures OnlyMoves(Apply(s, step), id, t)
  {
    forall i | i in Apply(s, step).tasks && i != id ensures IsOver(Apply(s, step).tasks[i]) {
      NoNewTask(s, step, i);
      OthersStay(s, step, i);
    }
  }

  lemma NoNewTask(s: State, step: Step, id: TaskId)
    requires Enabled(s, step) && (step.Remove? || step.id != id)
    ensures id in Apply(s, step).tasks ==> id in s.tasks
  {
    if !Remote(step) {
      NoNewTaskLocal(s, step, id);
    }
  }

  lemma NoNewTaskLocal(s: State, step: Step, id: TaskId)
    requires Enabled(s, step) && (step.Remove? || step.id != id) && !Remote(step)
    ensures id in Apply(s, step).tasks ==> id in s.tasks
  {
  }

  lemma {:induction false} MapAtPrefix(steps: seq<Step>, more: seq<Step>, t: nat)
    requires t <= |steps|
    ensures MapAt(steps + more, t) == MapAt(steps, t)
  {
    if t > 0 {
      MapAtPrefix(steps, more, t - 1);
    }
  }

  /** Such a path changes the single map exactly if the request is a put that begins to write on it. */
  lemma {:induction false} OneRequestStores(done: seq<Step>, s: State, steps: seq<Step>, t: State, id: TaskId,
                                            may: set<Mishap>)
    requires Path(s, steps, t, may) && OnlyMoves(s, id, t)
    ensures var before, after := MapAt(done, |done|), MapAt(done + steps, |done + steps|);
            after == if HasBegun(t, id) && !HasBegun(s, id)
                     then before[t.tasks[id].req.key := t.tasks[id].req.value] else before
    decreases |steps|
  {
    if steps == [] {
      assert done + steps == done;
    } else {
      var step := steps[0];
      StepOfTheOne(s, steps, t, id, may);
      OnlyMovesStill(s, step, id, t);
      BeginsInOneStep(s, step, id);
      OneRequestStores(done + [step], Apply(s, step), steps[1..], t, id, may);
      assert done + [step] + steps[1..] == done + steps;
      MapAtPrefix(done, [step], |done|);
      if HasBegun(Apply(s, step), id) {
        PathForward(Apply(s, step), steps[1..], t, id, may);
      }
    }
  }
}
