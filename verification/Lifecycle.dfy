/** A request never changes, and its program counter only moves forward. */
module Lifecycle {
  import opened Options
  import opened Cluster
  import opened Agreement

  function Rank(pc: Pc): nat {
    match pc
    case Called => 0
    case NotPresent => 1
    case LookedUp(_) => 1
    case FoundNone => 2
    case FoundSender(_) => 2
    case Locking(_) => 3
    case JoinLocking(_, _) => 3
    case Checked(_) => 4
    case Writing(_) => 4
    case Sending(_, _) => 4
    case HasRead(_) => 5
    case Unlocking(_) => 5
    case Released => 6
    case Finished => 7
    case Failed => 7
  }

  lemma StepForward(s: State, step: Step, id: TaskId)
    requires Enabled(s, step) && id in s.tasks
    ensures id in Apply(s, step).tasks && Apply(s, step).tasks[id].req == s.tasks[id].req
    ensures Rank(s.tasks[id].pc) <= Rank(Apply(s, step).tasks[id].pc)
  {
    if step.Remove? || step.id != id {
      OthersStay(s, step, id);
    }
  }

  lemma {:induction false} Forward(run: Run, i: nat, j: nat, id: TaskId)
    requires IsRun(run) && i <= j <= |run.steps| && id in run.states[i].tasks
    ensures id in run.states[j].tasks && run.states[j].tasks[id].req == run.states[i].tasks[id].req
    ensures Rank(run.states[i].tasks[id].pc) <= Rank(run.states[j].tasks[id].pc)
  {
    if i < j {
      Forward(run, i, j - 1, id);
      assert StepAt(run, j - 1);
      StepForward(run.states[j - 1], run.steps[j - 1], id);
    }
  }

  /** A request is called before anything else happens to it, and called once. */
  lemma CalledBefore(run: Run, i: nat, j: nat, id: TaskId)
    requires IsRun(run) && i < |run.steps| && j <= |run.steps|
    requires (run.steps[i].CallPut? || run.steps[i].CallGet? || run.steps[i].CallJoin?) && run.steps[i].id == id
    requires id in run.states[j].tasks
    ensures i < j
  {
    assert StepAt(run, i);
    if j <= i {
      Forward(run, j, i, id);
    }
  }

  // ---------------------------------------------------------------- Joins

  /** Request `id` is a join of `m` that has passed its duplicate check and is not over. */
  predicate IsJoining(s: State, id: TaskId, m: ServerId) {
    id in s.tasks && s.tasks[id].req == Join(m) && 0 < Rank(s.tasks[id].pc) < 7
  }

  predicate Inserts(s: State, step: Step, m: ServerId) {
    (step.JoinFirst? || step.JoinInsert?) && step.id in s.tasks && s.tasks[step.id].req == Join(m)
  }

  lemma JoiningBefore(s: State, step: Step, id: TaskId, m: ServerId)
    requires Enabled(s, step) && IsJoining(Apply(s, step), id, m) && m in Apply(s, step).members
    ensures IsJoining(s, id, m) || (step == JoinCheck(id) && m !in s.members)
    ensures m in s.members || (Inserts(s, step, m) && step.id != id)
  {
    if id in s.tasks && (step.Remove? || step.id != id) {
      OthersStay(s, step, id);
    }
  }

  /** A server is a member while its own join is under way only because another join of it was faster:
      that one inserted it after this one had checked for duplicates. */
  lemma {:induction false} InsertedMeanwhile(run: Run, t: nat, id: TaskId, m: ServerId) returns (p: nat)
    requires IsRun(run) && t <= |run.steps| && IsJoining(run.states[t], id, m) && m in run.states[t].members
    ensures p < t && Inserts(run.states[p], run.steps[p], m) && run.steps[p].id != id
    ensures IsJoining(run.states[p], id, m)
  {
    assert t > 0 && StepAt(run, t - 1);
    JoiningBefore(run.states[t - 1], run.steps[t - 1], id, m);
    if m in run.states[t - 1].members {
      p := InsertedMeanwhile(run, t - 1, id, m);
    } else {
      p := t - 1;
    }
  }

  // ---------------------------------------------------------------- The latest write to a key

  /** The latest write phase for `k` that began before instant `t`. */
  function LastBegun(steps: seq<Step>, t: nat, k: Key): (r: Option<nat>)
    requires t <= |steps|
    ensures r.Some? ==> r.value < t && steps[r.value].PutBeginWrite? && steps[r.value].key == k
  {
    if t == 0 then None
    else if steps[t - 1].PutBeginWrite? && steps[t - 1].key == k then Some(t - 1)
    else LastBegun(steps, t - 1, k)
  }

  lemma {:induction false} BegunGrows(steps: seq<Step>, i: nat, t: nat)
    requires i < t <= |steps| && steps[i].PutBeginWrite?
    ensures LastBegun(steps, t, steps[i].key).Some? && i <= LastBegun(steps, t, steps[i].key).value
  {
    if i < t - 1 {
      BegunGrows(steps, i, t - 1);
    }
  }

  /** The single map holds the value of the latest write. */
  lemma {:induction false} MapHoldsLastBegun(steps: seq<Step>, t: nat, k: Key)
    requires t <= |steps|
    ensures Lookup(MapAt(steps, t), k)
         == match LastBegun(steps, t, k) case None => None case Some(b) => Some(steps[b].value)
  {
    if t > 0 {
      MapHoldsLastBegun(steps, t - 1, k);
    }
  }
}
