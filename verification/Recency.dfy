/**
 Reads are never older than returned writes, in any orderly run: even when locks and writes are
 lost, even from a server that has been removed, and even while it is being filled again.
 */
module Recency {
  import opened Options
  import opened Cluster
  import opened Agreement
  import opened Lifecycle
  import opened Durability
  import opened Hindsight
  import opened HindsightTheorems

  /** Write phase `j`, not older than the last one complete before `lo`, wrote `v`. */
  ghost predicate WrittenSince(steps: seq<Step>, lo: nat, t: nat, k: Key, v: Option<Value>, j: nat)
    requires lo <= t <= |steps|
  {
    && j < t && steps[j].PutBeginWrite? && steps[j].key == k && v == Some(steps[j].value)
    && LastDone(steps, lo, k).Some? && LastDone(steps, lo, k).value <= j
  }

  /** `v` is not older than what was complete before `lo`. */
  ghost predicate Recent(steps: seq<Step>, lo: nat, t: nat, k: Key, v: Option<Value>)
    requires lo <= t <= |steps|
  {
    LastDone(steps, lo, k).Some? ==> exists j: nat :: WrittenSince(steps, lo, t, k, v, j)
  }

  lemma {:induction false} DoneNeverShrinks(steps: seq<Step>, lo: nat, t: nat, k: Key)
    requires lo <= t <= |steps| && LastDone(steps, lo, k).Some?
    ensures LastDone(steps, t, k).Some? && LastDone(steps, lo, k).value <= LastDone(steps, t, k).value
  {
    if lo < t {
      DoneNeverShrinks(steps, lo, t - 1, k);
    }
  }

  lemma DurableIsRecent(steps: seq<Step>, lo: nat, t: nat, k: Key, v: Option<Value>)
    requires lo <= t <= |steps| && Durable(steps, t, k, v)
    ensures Recent(steps, lo, t, k, v)
  {
    if LastDone(steps, lo, k).Some? {
      DoneNeverShrinks(steps, lo, t, k);
      var j: nat :| Stored(steps, t, k, v, j);
      assert WrittenSince(steps, lo, t, k, v, j);
    }
  }

  lemma StaysRecent(steps: seq<Step>, lo: nat, t: nat, k: Key, v: Option<Value>)
    requires lo <= t < |steps| && Recent(steps, lo, t, k, v)
    ensures Recent(steps, lo, t + 1, k, v)
  {
    if LastDone(steps, lo, k).Some? {
      var j: nat :| WrittenSince(steps, lo, t, k, v, j);
      assert WrittenSince(steps, lo, t + 1, k, v, j);
    }
  }

  // ---------------------------------------------------------------- Every step keeps it

  /** Any process, member or not, stays recent: it only ever receives the value being written, or the
      value of a member. */
  lemma ProcessStaysRecent(run: Run, lo: nat, t: nat, m: ServerId, k: Key)
    requires OrderlyRun(run) && lo <= t < |run.steps|
    requires Recent(run.steps, lo, t, k, Lookup(Rep(run.states[t], m).data, k))
    ensures Recent(run.steps, lo, t + 1, k, Lookup(Rep(run.states[t + 1], m).data, k))
  {
    var s, step := run.states[t], run.steps[t];
    assert StepAt(run, t);
    InvAlways(run, t);
    DataAfter(s, step, m);
    if step.WriteAttempt? && step.server == m && s.tasks[step.id].req.key == k {
      assert WriterIs(s, step.id);
      MapIsDurable(run.steps, t, k);
      DurableIsRecent(run.steps, lo, t, k, Lookup(MapAt(run.steps, t), k));
      StaysRecent(run.steps, lo, t, k, Lookup(MapAt(run.steps, t), k));
    } else if step.SendAttempt? && s.tasks[step.id].req.server == m && step.key == k {
      SenderIsRecent(run, lo, t, k);
    } else {
      StaysRecent(run.steps, lo, t, k, Lookup(Rep(s, m).data, k));
    }
  }

  lemma SenderIsRecent(run: Run, lo: nat, t: nat, k: Key)
    requires OrderlyRun(run) && lo <= t < |run.steps| && run.steps[t].SendAttempt? && run.steps[t].key == k
    requires Enabled(run.states[t], run.steps[t])
    ensures var from := run.states[t].tasks[run.steps[t].id].pc.sender;
            Recent(run.steps, lo, t + 1, k, Some(Rep(run.states[t], from).data[k]))
  {
    var s, id := run.states[t], run.steps[t].id;
    InvAlways(run, t);
    DurableAlways(run, t);
    var sender := s.tasks[id].pc.sender;
    assert Transferred(s, s.tasks[id].req.server, sender, s.tasks[id].pc.keys);
    assert MemberDurable(run, t, sender, k);
    DurableIsRecent(run.steps, lo, t, k, Lookup(Rep(s, sender).data, k));
    StaysRecent(run.steps, lo, t, k, Lookup(Rep(s, sender).data, k));
  }

  /** What a get has in front of it, or has read, is recent since its lookup. */
  ghost predicate GetIsRecent(run: Run, t: nat, id: TaskId)
    requires t <= |run.steps| && t < |run.states|
  {
    var s := run.states[t];
    IsGet(s, id) ==>
      var lo, k := LookupTime(run.steps, t, id), s.tasks[id].req.key;
      match s.tasks[id].pc
      case LookedUp(m) => Recent(run.steps, lo, t, k, Lookup(Rep(s, m).data, k))
      case Checked(m) => Recent(run.steps, lo, t, k, Lookup(Rep(s, m).data, k))
      case HasRead(r) => Recent(run.steps, lo, t, k, r)
      case _ => true
  }

  lemma OtherKeepsRecent(run: Run, t: nat, id: TaskId)
    requires OrderlyRun(run) && t < |run.steps| && GetIsRecent(run, t, id) && IsGet(run.states[t], id)
    requires run.steps[t].Remove? || run.steps[t].id != id
    ensures GetIsRecent(run, t + 1, id)
  {
    assert StepAt(run, t);
    OthersStay(run.states[t], run.steps[t], id);
    var lo, task := LookupTime(run.steps, t, id), run.states[t].tasks[id];
    if task.pc.LookedUp? || task.pc.Checked? {
      ProcessStaysRecent(run, lo, t, task.pc.from, task.req.key);
    } else if task.pc.HasRead? {
      StaysRecent(run.steps, lo, t, task.req.key, task.pc.result);
    }
  }

  lemma OwnKeepsRecent(run: Run, t: nat, id: TaskId)
    requires OrderlyRun(run) && t < |run.steps| && GetIsRecent(run, t, id)
    requires !run.steps[t].Remove? && run.steps[t].id == id && IsGet(run.states[t + 1], id)
    ensures GetIsRecent(run, t + 1, id)
  {
    assert StepAt(run, t);
    var s, step := run.states[t], run.steps[t];
    if step.GetLookup? {
      DurableAlways(run, t);
      var k := s.tasks[id].req.key;
      assert MemberDurable(run, t, step.server, k);
      StaysDurable(run.steps, t, k, Lookup(Rep(s, step.server).data, k));
      DurableIsRecent(run.steps, t + 1, t + 1, k, Lookup(Rep(s, step.server).data, k));
    } else if step.GetCheck? || step.GetRead? {
      ProcessStaysRecent(run, LookupTime(run.steps, t, id), t, s.tasks[id].pc.from, s.tasks[id].req.key);
    } else {
      InvAlways(run, t);
      assert id in s.tasks ==> Typed(s.tasks[id]);
    }
  }

  lemma StepKeepsRecent(run: Run, t: nat, id: TaskId)
    requires OrderlyRun(run) && t < |run.steps| && GetIsRecent(run, t, id)
    ensures GetIsRecent(run, t + 1, id)
  {
    assert StepAt(run, t);
    var step := run.steps[t];
    if IsGet(run.states[t + 1], id) {
      if step.Remove? || step.id != id {
        OtherKeepsRecent(run, t, id);
      } else {
        OwnKeepsRecent(run, t, id);
      }
    }
  }

  lemma {:induction false} RecentAlways(run: Run, t: nat, id: TaskId)
    requires OrderlyRun(run) && t <= |run.steps|
    ensures GetIsRecent(run, t, id)
  {
    if t > 0 {
      RecentAlways(run, t - 1, id);
      StepKeepsRecent(run, t - 1, id);
    }
  }

  // ---------------------------------------------------------------- Theorem

  /** A get that looks up its server after a put to its key has returned answers with the value of
      that put or of one that began to write later. */
  lemma ReadsAreRecent(run: Run, i: nat, p: nat, c: nat, l: nat, r: nat) returns (j: nat)
    requires OrderlyRun(run) && i < |run.steps| && c < |run.steps| && r < |run.steps| && p < l < |run.steps|
    requires run.steps[i].PutBeginWrite? && run.steps[p] == RetPut(run.steps[i].id)
    requires run.steps[l].GetLookup? && run.steps[r].RetGet? && run.steps[r].id == run.steps[l].id
    requires run.steps[c] == CallGet(run.steps[l].id, run.steps[i].key)
    ensures i <= j < r && run.steps[j].PutBeginWrite? && run.steps[j].key == run.steps[i].key
    ensures run.steps[r].result == Some(run.steps[j].value)
  {
    var id, k := run.steps[r].id, run.steps[i].key;
    assert StepAt(run, l) && StepAt(run, r);
    if r <= l {
      Forward(run, r, l, id);
    }
    KeyOf(run, c, r);
    RecentAlways(run, r, id);
    LookupTimeIsLatest(run.steps, l, r, id);
    var lo := LookupTime(run.steps, r, id);
    var u := ReturnedIsComplete(run, i, p);
    DoneGrows(run.steps, i, u, lo);
    assert Recent(run.steps, lo, r, k, run.steps[r].result);
    j :| WrittenSince(run.steps, lo, r, k, run.steps[r].result, j);
  }
}
