/** What replica agreement means for clients: the theorems about whole runs. */
module AgreementTheorems {
  import opened Options
  import opened Cluster
  import opened Agreement

  // ---------------------------------------------------------------- Retries may run out

  /** In every orderly run, whatever calls give up: a member agrees with the single map on every
      key that is neither dirty nor being written, so any two members agree with each other. */
  lemma AgreementOutsideDirtyKeys(run: Run, t: nat, a: ServerId, b: ServerId, k: Key)
    requires OrderlyRun(run) && t <= |run.steps|
    requires a in run.states[t].members && b in run.states[t].members
    requires k !in DirtyAt(run.steps, t) && !WritingKey(run.states[t], k)
    ensures Lookup(Rep(run.states[t], a).data, k) == Lookup(Rep(run.states[t], b).data, k)
    ensures Lookup(Rep(run.states[t], a).data, k) == Lookup(MapAt(run.steps, t), k)
  {
    InvAlways(run, t);
    var now, prev, dirty := MapAt(run.steps, t), PrevAt(run.steps, t), DirtyAt(run.steps, t);
    assert MemberHas(run.states[t], a, k, now, prev, dirty);
    assert MemberHas(run.states[t], b, k, now, prev, dirty);
  }

  /** `k` carries no lost write, or a put is writing it anew. */
  ghost predicate IsClean(run: Run, t: nat, k: Key)
    requires t <= |run.steps| < |run.states|
  {
    k !in DirtyAt(run.steps, t) || WritingKey(run.states[t], k)
  }

  /** A write of `k` is under way that `m` still has to acknowledge. */
  predicate AwaitsWriteOf(s: State, m: ServerId, k: Key) {
    Awaits(s, m) && WritingKey(s, k)
  }

  /** A member that does not await a write of a clean key holds what the single map holds under it. */
  lemma MemberHoldsCleanKey(run: Run, t: nat, m: ServerId, k: Key)
    requires OrderlyRun(run) && t <= |run.steps| && m in run.states[t].members
    requires !AwaitsWriteOf(run.states[t], m, k) && IsClean(run, t, k)
    ensures Lookup(Rep(run.states[t], m).data, k) == Lookup(MapAt(run.steps, t), k)
  {
    InvAlways(run, t);
    assert MemberHas(run.states[t], m, k, MapAt(run.steps, t), PrevAt(run.steps, t), DirtyAt(run.steps, t));
  }

  ghost predicate AbortedAt(steps: seq<Step>, i: nat, k: Key) {
    i < |steps| && steps[i].WriteGiveUp? && steps[i].key == k
  }

  ghost predicate NotCompletedIn(steps: seq<Step>, i: nat, t: nat, k: Key) {
    forall j | i < j < t && j < |steps| :: !(steps[j].PutBeginUnlock? && steps[j].key == k)
  }

  /** Dirty means: some put to the key gave up, and no later put to it completed its writes. */
  lemma {:induction false} DirtyExactly(steps: seq<Step>, t: nat, k: Key)
    requires t <= |steps|
    ensures k in DirtyAt(steps, t) <==>
              exists i | 0 <= i < t :: AbortedAt(steps, i, k) && NotCompletedIn(steps, i, t, k)
  {
    if t > 0 {
      DirtyExactly(steps, t - 1, k);
      var last := steps[t - 1];
      var completes := last.PutBeginUnlock? && last.key == k;
      assert forall i | 0 <= i < t - 1 ::
          NotCompletedIn(steps, i, t, k) <==> NotCompletedIn(steps, i, t - 1, k) && !completes;
      if last.WriteGiveUp? && last.key == k {
        assert AbortedAt(steps, t - 1, k) && NotCompletedIn(steps, t - 1, t, k);
      }
    }
  }

  // ---------------------------------------------------------------- No write is lost

  lemma {:induction false} WrittenRunIsClean(run: Run, t: nat)
    requires WrittenRun(run) && t <= |run.steps|
    ensures DirtyAt(run.steps, t) == {}
  {
    if t > 0 {
      WrittenRunIsClean(run, t - 1);
      assert KeepsWrites(run.states[t - 1], run.steps[t - 1]);
    }
  }

  /** As long as no write is lost, a member that does not await the write under way holds exactly the single map. */
  lemma MemberHoldsTheMap(run: Run, t: nat, m: ServerId)
    requires WrittenRun(run) && t <= |run.steps| && m in run.states[t].members
    requires !Awaits(run.states[t], m)
    ensures Rep(run.states[t], m).data == MapAt(run.steps, t)
  {
    WrittenRunIsClean(run, t);
    forall k ensures Lookup(Rep(run.states[t], m).data, k) == Lookup(MapAt(run.steps, t), k) {
      MemberHoldsCleanKey(run, t, m, k);
    }
    SameLookups(Rep(run.states[t], m).data, MapAt(run.steps, t));
  }

  /** Replica agreement: whenever serversLock is free, all members hold the same map, and it is
      the fold of all puts in the order in which they held the lock. */
  lemma ReplicaAgreement(run: Run, t: nat)
    requires WrittenRun(run) && t <= |run.steps| && run.states[t].serversLock == None
    ensures forall m | m in run.states[t].members :: Rep(run.states[t], m).data == MapAt(run.steps, t)
  {
    forall m | m in run.states[t].members
      ensures Rep(run.states[t], m).data == MapAt(run.steps, t)
    {
      MemberHoldsTheMap(run, t, m);
    }
  }
}
