/**
 Durability: what a returned put has stored is never rolled back, in any orderly run, whatever
 calls run out of retries.
 */
module Durability {
  import opened Options
  import opened Cluster
  import opened Agreement
  import opened Lifecycle

  /** The latest write phase for `k` that was complete, with every member reached, before `t`. */
  function LastDone(steps: seq<Step>, t: nat, k: Key): (r: Option<nat>)
    requires t <= |steps|
    ensures r.Some? ==> LastBegun(steps, t, k).Some? && r.value <= LastBegun(steps, t, k).value
  {
    if t == 0 then None
    else if steps[t - 1].PutBeginUnlock? && steps[t - 1].key == k then LastBegun(steps, t - 1, k)
    else LastDone(steps, t - 1, k)
  }

  /** Write phase `j` is not older than the last complete one, and wrote `v`. */
  ghost predicate Stored(steps: seq<Step>, t: nat, k: Key, v: Option<Value>, j: nat)
    requires t <= |steps|
  {
    && j < t && steps[j].PutBeginWrite? && steps[j].key == k && v == Some(steps[j].value)
    && LastDone(steps, t, k).Some? && LastDone(steps, t, k).value <= j
  }

  /** Once a put to `k` is complete, `v` is its value or that of a later put. */
  ghost predicate Durable(steps: seq<Step>, t: nat, k: Key, v: Option<Value>)
    requires t <= |steps|
  {
    LastDone(steps, t, k).Some? ==> exists j: nat :: Stored(steps, t, k, v, j)
  }

  lemma MapIsDurable(steps: seq<Step>, t: nat, k: Key)
    requires t <= |steps|
    ensures Durable(steps, t, k, Lookup(MapAt(steps, t), k))
  {
    MapHoldsLastBegun(steps, t, k);
    if LastDone(steps, t, k).Some? {
      assert Stored(steps, t, k, Lookup(MapAt(steps, t), k), LastBegun(steps, t, k).value);
    }
  }

  lemma StaysDurable(steps: seq<Step>, t: nat, k: Key, v: Option<Value>)
    requires t < |steps| && Durable(steps, t, k, v)
    requires !(steps[t].PutBeginUnlock? && steps[t].key == k)
    ensures Durable(steps, t + 1, k, v)
  {
    if LastDone(steps, t, k).Some? {
      var j: nat :| Stored(steps, t, k, v, j);
      assert Stored(steps, t + 1, k, v, j);
    }
  }

  // ---------------------------------------------------------------- Every step keeps it

  ghost predicate MemberDurable(run: Run, t: nat, m: ServerId, k: Key)
    requires t <= |run.steps| < |run.states|
  {
    Durable(run.steps, t, k, Lookup(Rep(run.states[t], m).data, k))
  }

  /** The server of a join whose transfer is complete. */
  ghost predicate IsFilled(s: State, m: ServerId) {
    exists id | id in s.tasks :: FilledBy(s, id, m)
  }

  predicate FilledBy(s: State, id: TaskId, m: ServerId) {
    IsJoin(s, id) && s.tasks[id].req.server == m && s.tasks[id].pc.Unlocking?
  }

  ghost predicate AllDurable(run: Run, t: nat)
    requires t <= |run.steps| < |run.states|
  {
    && (forall m, k | m in run.states[t].members || IsFilled(run.states[t], m) :: MemberDurable(run, t, m, k))
    && (run.states[t].members == {} ==> NothingDone(run.steps, t))
  }

  ghost predicate NothingDone(steps: seq<Step>, t: nat)
    requires t <= |steps|
  {
    forall k :: LastDone(steps, t, k) == None
  }

  /** Only a member without data may be the last to go, and it would have what is complete. */
  lemma NothingIsDoneStill(run: Run, t: nat)
    requires OrderlyRun(run) && t < |run.steps| && AllDurable(run, t) && run.states[t + 1].members == {}
    ensures NothingDone(run.steps, t + 1)
  {
    var s, step, next := run.states[t], run.steps[t], t + 1;
    assert StepAt(run, t);
    InvAlways(run, t);
    forall k ensures LastDone(run.steps, next, k) == None {
      if s.members != {} {
        assert MemberDurable(run, t, step.server, k);
      }
    }
  }

  /** A member's data changes only to the value being written, or to that of another member; a completed
      write is everywhere. */
  lemma MemberStaysDurable(run: Run, t: nat, m: ServerId, k: Key)
    requires OrderlyRun(run) && t < |run.steps|
    requires m in run.states[t].members && m in run.states[t + 1].members && AllDurable(run, t)
    ensures MemberDurable(run, t + 1, m, k)
  {
    var s, step := run.states[t], run.steps[t];
    assert StepAt(run, t);
    InvAlways(run, t);
    DataAfter(s, step, m);
    assert MemberDurable(run, t, m, k);
    if step.PutBeginUnlock? && step.key == k {
      CompleteIsEverywhere(run, t, m, k);
    } else if step.WriteAttempt? && step.server == m && s.tasks[step.id].req.key == k {
      assert WriterIs(s, step.id);
      MapIsDurable(run.steps, t + 1, k);
    } else {
      assert step.SendAttempt? ==> MemberDurable(run, t, s.tasks[step.id].pc.sender, k);
      StaysDurable(run.steps, t, k, Lookup(Rep(run.states[t + 1], m).data, k));
    }
  }

  lemma CompleteIsEverywhere(run: Run, t: nat, m: ServerId, k: Key)
    requires OrderlyRun(run) && t < |run.steps| && m in run.states[t + 1].members
    requires run.steps[t].PutBeginUnlock? && run.steps[t].key == k
    ensures MemberDurable(run, t + 1, m, k)
  {
    var s' := run.states[t + 1];
    assert StepAt(run, t);
    InvAlways(run, t);
    InvAlways(run, t + 1);
    assert Holding(run.states[t].tasks[run.steps[t].id].pc) && !WritingKey(s', k);
    assert MemberHas(s', m, k, MapAt(run.steps, t + 1), PrevAt(run.steps, t + 1), DirtyAt(run.steps, t + 1));
    MapIsDurable(run.steps, t + 1, k);
  }

  /** A complete transfer has copied every durable value from a member. */
  lemma TransferIsDurable(run: Run, t: nat, id: TaskId, k: Key)
    requires OrderlyRun(run) && t < |run.steps| && AllDurable(run, t)
    requires run.steps[t] == JoinBeginUnlock(id)
    ensures id in run.states[t].tasks && run.states[t].tasks[id].req.Join?
    ensures MemberDurable(run, t + 1, run.states[t].tasks[id].req.server, k)
  {
    var s := run.states[t];
    assert StepAt(run, t);
    InvAlways(run, t);
    var joiner, sender := s.tasks[id].req.server, s.tasks[id].pc.sender;
    assert Transferred(s, joiner, sender, {});
    assert MemberDurable(run, t, sender, k);
    assert Durable(run.steps, t, k, Lookup(Rep(s, joiner).data, k));
    StaysDurable(run.steps, t, k, Lookup(Rep(s, joiner).data, k));
  }

  /** Nobody writes to a filled server before it is a member. */
  lemma FilledStaysDurable(run: Run, t: nat, id: TaskId, m: ServerId, k: Key)
    requires OrderlyRun(run) && t < |run.steps|
    requires FilledBy(run.states[t], id, m) && MemberDurable(run, t, m, k)
    ensures MemberDurable(run, t + 1, m, k)
  {
    var s, step := run.states[t], run.steps[t];
    assert StepAt(run, t);
    InvAlways(run, t);
    DataAfter(s, step, m);
    assert Holding(s.tasks[id].pc) && s.serversLock == Some(id);
    assert step.PutBeginUnlock? || step.WriteAttempt? || step.SendAttempt? ==> Holding(s.tasks[step.id].pc);
    StaysDurable(run.steps, t, k, Lookup(Rep(s, m).data, k));
  }

  lemma FilledBefore(s: State, step: Step, id: TaskId, m: ServerId)
    requires LockHeld(s) && Enabled(s, step) && FilledBy(Apply(s, step), id, m)
    ensures step == JoinBeginUnlock(id) || FilledBy(s, id, m)
    ensures id in s.tasks && s.tasks[id].req == Join(m)
  {
    if step.Remove? || step.id != id {
      if id in s.tasks {
        OthersStay(s, step, id);
      }
    }
  }

  lemma NewMemberBefore(s: State, step: Step, m: ServerId)
    requires LockHeld(s) && Enabled(s, step) && Orderly(s, step) && m !in s.members && m in Apply(s, step).members
    ensures (step.JoinFirst? && s.members == {}) || (step.JoinInsert? && FilledBy(s, step.id, m))
    ensures Rep(Apply(s, step), m).data == Rep(s, m).data
  {
    assert step.JoinFirst? || step.JoinInsert?;
    DataAfter(s, step, m);
  }

  lemma NewMemberIsDurable(run: Run, t: nat, m: ServerId, k: Key)
    requires OrderlyRun(run) && t < |run.steps| && AllDurable(run, t)
    requires m !in run.states[t].members && m in run.states[t + 1].members
    ensures MemberDurable(run, t + 1, m, k)
  {
    var s, step := run.states[t], run.steps[t];
    assert StepAt(run, t);
    InvAlways(run, t);
    NewMemberBefore(s, step, m);
    if step.JoinFirst? {
      assert NothingDone(run.steps, t);
      assert LastDone(run.steps, t + 1, k) == LastDone(run.steps, t, k);
    } else {
      assert IsFilled(s, m);
      assert MemberDurable(run, t, m, k);
      StaysDurable(run.steps, t, k, Lookup(Rep(s, m).data, k));
    }
  }

  lemma StepStaysDurable(run: Run, t: nat, m: ServerId, k: Key)
    requires OrderlyRun(run) && t < |run.steps| && AllDurable(run, t)
    requires m in run.states[t + 1].members || IsFilled(run.states[t + 1], m)
    ensures MemberDurable(run, t + 1, m, k)
  {
    var s, s' := run.states[t], run.states[t + 1];
    if m in s'.members {
      if m in s.members {
        MemberStaysDurable(run, t, m, k);
      } else {
        NewMemberIsDurable(run, t, m, k);
      }
    } else {
      var id :| id in s'.tasks && FilledBy(s', id, m);
      assert StepAt(run, t);
      InvAlways(run, t);
      FilledBefore(s, run.steps[t], id, m);
      if FilledBy(s, id, m) {
        assert IsFilled(s, m) && MemberDurable(run, t, m, k);
        FilledStaysDurable(run, t, id, m, k);
      } else {
        TransferIsDurable(run, t, id, k);
      }
    }
  }

  lemma {:induction false} DurableAlways(run: Run, t: nat)
    requires OrderlyRun(run) && t <= |run.steps|
    ensures AllDurable(run, t)
  {
    if t > 0 {
      DurableAlways(run, t - 1);
      forall m, k | m in run.states[t].members || IsFilled(run.states[t], m)
        ensures MemberDurable(run, t, m, k)
      {
        StepStaysDurable(run, t - 1, m, k);
      }
      if run.states[t].members == {} {
        NothingIsDoneStill(run, t - 1);
      }
    }
  }

  // ---------------------------------------------------------------- Theorem

  predicate PastUnlock(t: Task) {
    t.req.Put? && (t.pc.Unlocking? || t.pc.Released?)
  }

  lemma UnlockBefore(s: State, step: Step, id: TaskId)
    requires LockHeld(s) && Enabled(s, step) && id in Apply(s, step).tasks
    requires PastUnlock(Apply(s, step).tasks[id])
    ensures id in s.tasks && (PastUnlock(s.tasks[id]) || (step.PutBeginUnlock? && step.id == id))
  {
    if id in s.tasks && (step.Remove? || step.id != id) {
      OthersStay(s, step, id);
    }
  }

  /** A put that releases its locks has completed its writes. */
  lemma {:induction false} HasCompleted(run: Run, t: nat, id: TaskId) returns (u: nat)
    requires OrderlyRun(run) && t <= |run.steps| && id in run.states[t].tasks && PastUnlock(run.states[t].tasks[id])
    ensures u < t && run.steps[u] == PutBeginUnlock(id, run.states[t].tasks[id].req.key)
  {
    assert t > 0 && StepAt(run, t - 1);
    InvAlways(run, t - 1);
    var s, step := run.states[t - 1], run.steps[t - 1];
    UnlockBefore(s, step, id);
    StepForward(s, step, id);
    if PastUnlock(s.tasks[id]) {
      u := HasCompleted(run, t - 1, id);
    } else {
      u := t - 1;
    }
  }

  lemma {:induction false} DoneGrows(steps: seq<Step>, i: nat, u: nat, t: nat)
    requires i < u < t <= |steps| && steps[i].PutBeginWrite?
    requires steps[u].PutBeginUnlock? && steps[u].key == steps[i].key
    ensures LastDone(steps, t, steps[i].key).Some? && i <= LastDone(steps, t, steps[i].key).value
  {
    BegunGrows(steps, i, t - 1);
    if u < t - 1 {
      DoneGrows(steps, i, u, t - 1);
    }
  }

  lemma ReturnedIsComplete(run: Run, i: nat, p: nat) returns (u: nat)
    requires OrderlyRun(run) && i < |run.steps| && p < |run.steps|
    requires run.steps[i].PutBeginWrite? && run.steps[p] == RetPut(run.steps[i].id)
    ensures i < u < p && run.steps[u] == PutBeginUnlock(run.steps[i].id, run.steps[i].key)
  {
    var id := run.steps[i].id;
    assert StepAt(run, i) && StepAt(run, p);
    if p <= i {
      Forward(run, p + 1, i + 1, id);
    }
    Forward(run, i, p, id);
    u := HasCompleted(run, p, id);
    assert StepAt(run, u);
    if u <= i {
      Forward(run, u + 1, i + 1, id);
    }
  }

  /** Once a put has returned, every member there will ever be holds, at any time, its value or that
      of a put to the same key whose writes began later. */
  lemma ReturnedPutIsDurable(run: Run, i: nat, p: nat, t: nat, m: ServerId) returns (j: nat)
    requires OrderlyRun(run) && i < |run.steps| && p < t <= |run.steps|
    requires run.steps[i].PutBeginWrite? && run.steps[p] == RetPut(run.steps[i].id)
    requires m in run.states[t].members
    ensures i <= j < t && run.steps[j].PutBeginWrite? && run.steps[j].key == run.steps[i].key
    ensures Lookup(Rep(run.states[t], m).data, run.steps[i].key) == Some(run.steps[j].value)
  {
    var k := run.steps[i].key;
    var u := ReturnedIsComplete(run, i, p);
    DoneGrows(run.steps, i, u, t);
    DurableAlways(run, t);
    assert MemberDurable(run, t, m, k);
    j :| Stored(run.steps, t, k, Lookup(Rep(run.states[t], m).data, k), j);
  }
}
