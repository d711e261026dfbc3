/**
 Replica agreement: what every step of every orderly run keeps, with retries allowed to run out.
 Members may differ only on keys whose latest put gave up half-way (the dirty keys), and on the
 key that is being written right now.
 */
module Agreement {
  import opened Options
  import opened Cluster

  // ---------------------------------------------------------------- The invariant

  predicate Holding(pc: Pc) {
    pc.Locking? || pc.Writing? || pc.Unlocking? || pc.JoinLocking? || pc.Sending?
  }

  predicate Typed(t: Task) {
    match t.pc
    case Locking(_) => t.req.Put?
    case Writing(_) => t.req.Put?
    case Released => t.req.Put?
    case Unlocking(_) => !t.req.Get?
    case LookedUp(_) => t.req.Get?
    case Checked(_) => t.req.Get?
    case HasRead(_) => t.req.Get?
    case NotPresent => t.req.Join?
    case FoundNone => t.req.Join?
    case FoundSender(_) => t.req.Join?
    case JoinLocking(_, _) => t.req.Join?
    case Sending(_, _) => t.req.Join?
    case _ => true
  }

  function Todo(pc: Pc): set<ServerId> {
    if pc.Locking? || pc.Writing? || pc.Unlocking? || pc.JoinLocking? then pc.todo else {}
  }

  /** The serversLock is held by exactly the one task that is inside a guarded section, and the
      loops of that section run over current members. */
  ghost predicate LockHeld(s: State) {
    && (forall id | id in s.tasks :: Typed(s.tasks[id]) && Todo(s.tasks[id].pc) <= s.members)
    && (forall id | id in s.tasks && Holding(s.tasks[id].pc) :: s.serversLock == Some(id))
    && (s.serversLock.Some? ==> s.serversLock.value in s.tasks && Holding(s.tasks[s.serversLock.value].pc))
  }

  /** The put in its write phase, if there is one. */
  ghost predicate WriterIs(s: State, id: TaskId) {
    id in s.tasks && s.tasks[id].req.Put? && s.tasks[id].pc.Writing?
  }

  predicate WritingKey(s: State, k: Key) {
    s.serversLock.Some? && s.serversLock.value in s.tasks
    && s.tasks[s.serversLock.value].req.Put?
    && s.tasks[s.serversLock.value].pc.Writing?
    && s.tasks[s.serversLock.value].req.key == k
  }

  /** `m` still has to acknowledge the write that is under way. */
  predicate Awaits(s: State, m: ServerId) {
    s.serversLock.Some? && s.serversLock.value in s.tasks
    && s.tasks[s.serversLock.value].pc.Writing?
    && m in s.tasks[s.serversLock.value].pc.todo
  }

  /** What member `m` may hold under key `k`. */
  predicate MemberHas(s: State, m: ServerId, k: Key, now: Data, prev: Data, dirty: set<Key>) {
    var held := Lookup(Rep(s, m).data, k);
    || held == Lookup(now, k)
    || (WritingKey(s, k) && Awaits(s, m) && (held == Lookup(prev, k) || k in dirty))
    || (!WritingKey(s, k) && k in dirty)
  }

  ghost predicate Agreed(s: State, now: Data, prev: Data, dirty: set<Key>) {
    forall m, k | m in s.members :: MemberHas(s, m, k, now, prev, dirty)
  }

  /** No process, member or not, has ever seen a key that no put has used. */
  ghost predicate KeysKnown(s: State, now: Data) {
    forall m :: Rep(s, m).data.Keys <= now.Keys
  }

  /** Without members there is nothing that is not dirty. */
  ghost predicate NothingHeld(s: State, now: Data, dirty: set<Key>) {
    s.members == {} ==> now.Keys <= dirty
  }

  ghost predicate PutHasMembers(s: State) {
    forall id | id in s.tasks && s.tasks[id].req.Put? && Holding(s.tasks[id].pc) :: s.members != {}
  }

  ghost predicate WriteIsLatest(s: State, now: Data) {
    forall id | WriterIs(s, id) :: Lookup(now, s.tasks[id].req.key) == Some(s.tasks[id].req.value)
  }

  /** State transfer: everything already sent is at the joining server, unchanged. */
  ghost predicate Transferred(s: State, joiner: ServerId, sender: ServerId, keys: set<Key>) {
    && sender in s.members
    && keys <= Rep(s, sender).data.Keys
    && forall k | k in Rep(s, sender).data && k !in keys ::
         Lookup(Rep(s, joiner).data, k) == Lookup(Rep(s, sender).data, k)
  }

  ghost predicate JoinerReady(s: State, joiner: ServerId, now: Data, dirty: set<Key>) {
    forall k | k !in dirty :: Lookup(Rep(s, joiner).data, k) == Lookup(now, k)
  }

  ghost predicate TransferOk(s: State, now: Data, dirty: set<Key>) {
    forall id | id in s.tasks && s.tasks[id].req.Join? ::
      && (s.tasks[id].pc.Sending? ==>
            Transferred(s, s.tasks[id].req.server, s.tasks[id].pc.sender, s.tasks[id].pc.keys))
      && (s.tasks[id].pc.Unlocking? ==> JoinerReady(s, s.tasks[id].req.server, now, dirty))
  }

  ghost predicate Inv(s: State, now: Data, prev: Data, dirty: set<Key>) {
    && LockHeld(s) && PutHasMembers(s)
    && KeysKnown(s, now) && NothingHeld(s, now, dirty) && WriteIsLatest(s, now)
    && Agreed(s, now, prev, dirty) && TransferOk(s, now, dirty)
  }

  // ---------------------------------------------------------------- Every step keeps it

  function Now'(now: Data, step: Step): Data {
    if step.PutBeginWrite? then now[step.key := step.value] else now
  }

  function Prev'(now: Data, prev: Data, step: Step): Data {
    if step.PutBeginWrite? then now else prev
  }

  function Dirty'(dirty: set<Key>, step: Step): set<Key> {
    if step.WriteGiveUp? then dirty + {step.key}
    else if step.PutBeginUnlock? then dirty - {step.key}
    else dirty
  }

  /** Steps that reach a server. */
  predicate Remote(step: Step) {
    step.LockAttempt? || step.LockGiveUp? || step.WriteAttempt? || step.UnlockAttempt? || step.SendAttempt?
  }

  lemma OthersStayLocal(s: State, step: Step, id: TaskId)
    requires Enabled(s, step) && id in s.tasks && (step.Remove? || step.id != id) && !Remote(step)
    ensures id in Apply(s, step).tasks && Apply(s, step).tasks[id] == s.tasks[id]
  {
  }

  /** A step moves only the task it belongs to; `Remove` moves none. */
  lemma OthersStay(s: State, step: Step, id: TaskId)
    requires Enabled(s, step) && id in s.tasks && (step.Remove? || step.id != id)
    ensures id in Apply(s, step).tasks && Apply(s, step).tasks[id] == s.tasks[id]
  {
    if !Remote(step) {
      OthersStayLocal(s, step, id);
    }
  }

  lemma KeepsTyped(s: State, step: Step, id: TaskId)
    requires LockHeld(s) && Enabled(s, step) && id in Apply(s, step).tasks
    ensures Typed(Apply(s, step).tasks[id])
  {
    if id in s.tasks && (step.Remove? || step.id != id) {
      OthersStay(s, step, id);
    }
  }

  lemma KeepsTodo(s: State, step: Step, id: TaskId)
    requires LockHeld(s) && Enabled(s, step) && id in Apply(s, step).tasks
    ensures Todo(Apply(s, step).tasks[id].pc) <= Apply(s, step).members
  {
    if id in s.tasks && (step.Remove? || step.id != id) {
      OthersStay(s, step, id);
    }
  }

  lemma KeepsHolder(s: State, step: Step, id: TaskId)
    requires LockHeld(s) && Enabled(s, step) && id in Apply(s, step).tasks
    ensures Holding(Apply(s, step).tasks[id].pc) ==> Apply(s, step).serversLock == Some(id)
  {
    if id in s.tasks && (step.Remove? || step.id != id) {
      OthersStay(s, step, id);
    }
  }

  lemma KeepsLockHeld(s: State, step: Step)
    requires LockHeld(s) && Enabled(s, step)
    ensures LockHeld(Apply(s, step))
  {
    var s' := Apply(s, step);
    forall id | id in s'.tasks
      ensures Typed(s'.tasks[id]) && Todo(s'.tasks[id].pc) <= s'.members
      ensures Holding(s'.tasks[id].pc) ==> s'.serversLock == Some(id)
    {
      KeepsTyped(s, step, id);
      KeepsTodo(s, step, id);
      KeepsHolder(s, step, id);
    }
  }

  lemma KeepsPutHasMembers(s: State, step: Step)
    requires LockHeld(s) && PutHasMembers(s) && Enabled(s, step) && Orderly(s, step)
    ensures PutHasMembers(Apply(s, step))
  {
    var s' := Apply(s, step);
    forall id | id in s'.tasks && s'.tasks[id].req.Put? && Holding(s'.tasks[id].pc)
      ensures s'.members != {}
    {
      if id in s.tasks && (step.Remove? || step.id != id) {
        OthersStay(s, step, id);
      }
    }
  }

  lemma KeepsWriteIsLatest(s: State, step: Step, now: Data)
    requires LockHeld(s) && WriteIsLatest(s, now) && Enabled(s, step)
    ensures WriteIsLatest(Apply(s, step), Now'(now, step))
  {
    forall id | WriterIs(Apply(s, step), id)
      ensures Lookup(Now'(now, step), Apply(s, step).tasks[id].req.key) == Some(Apply(s, step).tasks[id].req.value)
    {
      WriterBefore(s, step, id);
      if step.Remove? || step.id != id {
        OthersStay(s, step, id);
      }
    }
  }

  /** Nobody but the holder of serversLock is in a write phase, and only a PutBeginWrite gets it there. */
  lemma WriterBefore(s: State, step: Step, id: TaskId)
    requires LockHeld(s) && Enabled(s, step) && WriterIs(Apply(s, step), id)
    ensures if step.PutBeginWrite? then step.id == id else WriterIs(s, id)
  {
    if step.PutBeginWrite? {
      assert Holding(s.tasks[step.id].pc);
      if step.id != id {
        OthersStay(s, step, id);
        assert Holding(s.tasks[id].pc);
      }
    }
  }

  lemma LocalsTouchNothing(s: State, step: Step)
    requires Enabled(s, step) && !Remote(step)
    ensures Apply(s, step).replicas == s.replicas
  {
  }

  /** The only steps that change data: a write to a member, and a transfer to a joining server. */
  lemma DataAfter(s: State, step: Step, m: ServerId)
    requires Enabled(s, step)
    ensures Rep(Apply(s, step), m).data ==
      if step.WriteAttempt? && step.server == m
      then Rep(s, m).data[s.tasks[step.id].req.key := s.tasks[step.id].req.value]
      else if step.SendAttempt? && s.tasks[step.id].req.server == m
      then Rep(s, m).data[step.key := Rep(s, s.tasks[step.id].pc.sender).data[step.key]]
      else Rep(s, m).data
  {
    if !Remote(step) {
      LocalsTouchNothing(s, step);
    }
  }

  lemma KeepsKeysOf(s: State, step: Step, m: ServerId, now: Data)
    requires KeysKnown(s, now) && WriteIsLatest(s, now) && Enabled(s, step)
    ensures Rep(Apply(s, step), m).data.Keys <= Now'(now, step).Keys
  {
    DataAfter(s, step, m);
    assert Rep(s, m).data.Keys <= now.Keys;
    if step.SendAttempt? {
      assert Rep(s, s.tasks[step.id].pc.sender).data.Keys <= now.Keys;
    } else if step.WriteAttempt? {
      assert WriterIs(s, step.id);
    }
  }

  lemma KeepsKeysKnown(s: State, step: Step, now: Data)
    requires KeysKnown(s, now) && WriteIsLatest(s, now) && Enabled(s, step)
    ensures KeysKnown(Apply(s, step), Now'(now, step))
  {
    forall m
      ensures Rep(Apply(s, step), m).data.Keys <= Now'(now, step).Keys
    {
      KeepsKeysOf(s, step, m, now);
    }
  }

  /** A last member that may go has no data, and so knows of nothing but dirty keys. */
  lemma KeepsNothingHeld(s: State, step: Step, now: Data, prev: Data, dirty: set<Key>)
    requires Inv(s, now, prev, dirty) && Enabled(s, step) && Orderly(s, step)
    ensures NothingHeld(Apply(s, step), Now'(now, step), Dirty'(dirty, step))
  {
    if WriteStep(step) {
      assert Holding(s.tasks[step.id].pc);
    } else if Apply(s, step).members == {} && s.members != {} {
      assert step.Remove?;
      forall k | k in now ensures k in dirty {
        assert MemberHas(s, step.server, k, now, prev, dirty);
      }
    }
  }

  /** The steps of a write phase. */
  predicate WriteStep(step: Step) {
    step.PutBeginWrite? || step.WriteAttempt? || step.WriteGiveUp? || step.PutBeginUnlock?
  }

  lemma OtherStepsKeepWriter(s: State, step: Step, m: ServerId, k: Key)
    requires LockHeld(s) && Enabled(s, step) && !WriteStep(step)
    ensures WritingKey(Apply(s, step), k) == WritingKey(s, k) && Awaits(Apply(s, step), m) == Awaits(s, m)
  {
    if s.serversLock.Some? && (step.Remove? || step.id != s.serversLock.value) {
      OthersStay(s, step, s.serversLock.value);
    }
  }

  lemma WriteStepsKeepMember(s: State, step: Step, m: ServerId, k: Key, now: Data, prev: Data, dirty: set<Key>)
    requires LockHeld(s) && Enabled(s, step) && WriteStep(step) && WriteIsLatest(s, now)
    requires m in s.members && MemberHas(s, m, k, now, prev, dirty)
    ensures MemberHas(Apply(s, step), m, k, Now'(now, step), Prev'(now, prev, step), Dirty'(dirty, step))
  {
    assert Holding(s.tasks[step.id].pc) && (!step.PutBeginWrite? ==> WriterIs(s, step.id));
  }

  /** Outside of a write phase a member changes only when it joins again: it is then sent what another
      member holds. */
  lemma OtherStepsKeepMember(s: State, step: Step, m: ServerId, k: Key, now: Data, prev: Data, dirty: set<Key>)
    requires LockHeld(s) && Enabled(s, step) && !WriteStep(step) && TransferOk(s, now, dirty)
    requires m in s.members && Agreed(s, now, prev, dirty)
    ensures MemberHas(Apply(s, step), m, k, Now'(now, step), Prev'(now, prev, step), Dirty'(dirty, step))
  {
    OtherStepsKeepWriter(s, step, m, k);
    DataAfter(s, step, m);
    assert MemberHas(s, m, k, now, prev, dirty);
    if step.SendAttempt? {
      assert Holding(s.tasks[step.id].pc) && MemberHas(s, s.tasks[step.id].pc.sender, k, now, prev, dirty);
    }
  }

  /** A server enters with the data of the single map. */
  lemma NewMember(s: State, step: Step, m: ServerId, k: Key, now: Data, dirty: set<Key>)
    requires LockHeld(s) && KeysKnown(s, now) && NothingHeld(s, now, dirty) && TransferOk(s, now, dirty)
    requires Enabled(s, step) && Orderly(s, step)
    requires m !in s.members && m in Apply(s, step).members
    ensures k !in dirty ==> Lookup(Rep(Apply(s, step), m).data, k) == Lookup(now, k)
    ensures !WriteStep(step) && !WritingKey(Apply(s, step), k)
  {
    assert step.JoinFirst? || step.JoinInsert?;
    DataAfter(s, step, m);
    if step.JoinFirst? {
      assert Rep(s, m).data.Keys <= now.Keys;
    }
  }

  lemma KeepsAgreed(s: State, step: Step, now: Data, prev: Data, dirty: set<Key>)
    requires Inv(s, now, prev, dirty) && Enabled(s, step) && Orderly(s, step)
    ensures Agreed(Apply(s, step), Now'(now, step), Prev'(now, prev, step), Dirty'(dirty, step))
  {
    forall m, k | m in Apply(s, step).members
      ensures MemberHas(Apply(s, step), m, k, Now'(now, step), Prev'(now, prev, step), Dirty'(dirty, step))
    {
      if m in s.members && WriteStep(step) {
        WriteStepsKeepMember(s, step, m, k, now, prev, dirty);
      } else if m in s.members {
        OtherStepsKeepMember(s, step, m, k, now, prev, dirty);
      } else {
        NewMember(s, step, m, k, now, dirty);
      }
    }
  }

  lemma TransferComplete(s: State, joiner: ServerId, sender: ServerId, now: Data, prev: Data, dirty: set<Key>)
    requires Agreed(s, now, prev, dirty) && KeysKnown(s, now) && Transferred(s, joiner, sender, {})
    requires forall k :: !WritingKey(s, k)
    ensures JoinerReady(s, joiner, now, dirty)
  {
    forall k | k !in dirty
      ensures Lookup(Rep(s, joiner).data, k) == Lookup(now, k)
    {
      assert MemberHas(s, sender, k, now, prev, dirty);
      assert Rep(s, joiner).data.Keys <= now.Keys;
    }
  }

  lemma KeepsSending(s: State, step: Step, id: TaskId)
    requires LockHeld(s) && Enabled(s, step)
    requires id in s.tasks && s.tasks[id].req.Join? && s.tasks[id].pc.Sending?
    requires Transferred(s, s.tasks[id].req.server, s.tasks[id].pc.sender, s.tasks[id].pc.keys)
    requires id in Apply(s, step).tasks && Apply(s, step).tasks[id].pc.Sending?
    ensures var t := Apply(s, step).tasks[id];
            Transferred(Apply(s, step), t.req.server, t.pc.sender, t.pc.keys)
  {
    if step.Remove? || step.id != id {
      OthersStay(s, step, id);
    }
    assert Holding(s.tasks[id].pc);
  }

  lemma BeginsSending(s: State, step: Step, id: TaskId)
    requires Enabled(s, step) && id in Apply(s, step).tasks && Apply(s, step).tasks[id].pc.Sending?
    requires !(id in s.tasks && s.tasks[id].pc.Sending?)
    ensures var t := Apply(s, step).tasks[id];
            Transferred(Apply(s, step), t.req.server, t.pc.sender, t.pc.keys)
  {
    if id in s.tasks && (step.Remove? || step.id != id) {
      OthersStay(s, step, id);
    }
  }

  lemma KeepsReady(s: State, step: Step, id: TaskId, now: Data, dirty: set<Key>)
    requires LockHeld(s) && Enabled(s, step)
    requires id in s.tasks && s.tasks[id].req.Join? && s.tasks[id].pc.Unlocking?
    requires JoinerReady(s, s.tasks[id].req.server, now, dirty)
    requires id in Apply(s, step).tasks && Apply(s, step).tasks[id].pc.Unlocking?
    ensures JoinerReady(Apply(s, step), Apply(s, step).tasks[id].req.server, Now'(now, step), Dirty'(dirty, step))
  {
    if step.Remove? || step.id != id {
      OthersStay(s, step, id);
    }
    assert Holding(s.tasks[id].pc);
  }

  lemma BecomesReady(s: State, step: Step, id: TaskId, now: Data, prev: Data, dirty: set<Key>)
    requires Inv(s, now, prev, dirty) && Enabled(s, step) && id in Apply(s, step).tasks
    requires Apply(s, step).tasks[id].req.Join? && Apply(s, step).tasks[id].pc.Unlocking?
    requires !(id in s.tasks && s.tasks[id].pc.Unlocking?)
    ensures JoinerReady(Apply(s, step), Apply(s, step).tasks[id].req.server, Now'(now, step), Dirty'(dirty, step))
  {
    if id in s.tasks && (step.Remove? || step.id != id) {
      OthersStay(s, step, id);
    } else {
      assert step.JoinBeginUnlock? && Holding(s.tasks[id].pc);
      TransferComplete(s, s.tasks[id].req.server, s.tasks[id].pc.sender, now, prev, dirty);
    }
  }

  lemma KeepsTransferOk(s: State, step: Step, now: Data, prev: Data, dirty: set<Key>)
    requires Inv(s, now, prev, dirty) && Enabled(s, step)
    ensures TransferOk(Apply(s, step), Now'(now, step), Dirty'(dirty, step))
  {
    var s' := Apply(s, step);
    forall id | id in s'.tasks && s'.tasks[id].req.Join?
      ensures s'.tasks[id].pc.Sending? ==>
        Transferred(s', s'.tasks[id].req.server, s'.tasks[id].pc.sender, s'.tasks[id].pc.keys)
      ensures s'.tasks[id].pc.Unlocking? ==>
        JoinerReady(s', s'.tasks[id].req.server, Now'(now, step), Dirty'(dirty, step))
    {
      if s'.tasks[id].pc.Sending? {
        if id in s.tasks && s.tasks[id].pc.Sending? {
          KeepsSending(s, step, id);
        } else {
          BeginsSending(s, step, id);
        }
      }
      if s'.tasks[id].pc.Unlocking? {
        if id in s.tasks && s.tasks[id].pc.Unlocking? {
          assert s'.tasks[id].req == s.tasks[id].req;
          KeepsReady(s, step, id, now, dirty);
        } else {
          BecomesReady(s, step, id, now, prev, dirty);
        }
      }
    }
  }

  lemma KeepsInv(s: State, step: Step, now: Data, prev: Data, dirty: set<Key>)
    requires Inv(s, now, prev, dirty) && Enabled(s, step) && Orderly(s, step)
    ensures Inv(Apply(s, step), Now'(now, step), Prev'(now, prev, step), Dirty'(dirty, step))
  {
    KeepsLockHeld(s, step);
    KeepsPutHasMembers(s, step);
    KeepsWriteIsLatest(s, step, now);
    KeepsKeysKnown(s, step, now);
    KeepsNothingHeld(s, step, now, prev, dirty);
    KeepsAgreed(s, step, now, prev, dirty);
    KeepsTransferOk(s, step, now, prev, dirty);
  }

  lemma {:induction false} InvAlways(run: Run, t: nat)
    requires OrderlyRun(run) && t <= |run.steps|
    ensures Inv(run.states[t], MapAt(run.steps, t), PrevAt(run.steps, t), DirtyAt(run.steps, t))
  {
    if t > 0 {
      InvAlways(run, t - 1);
      assert StepAt(run, t - 1);
      KeepsInv(run.states[t - 1], run.steps[t - 1],
               MapAt(run.steps, t - 1), PrevAt(run.steps, t - 1), DirtyAt(run.steps, t - 1));
    }
  }
}
