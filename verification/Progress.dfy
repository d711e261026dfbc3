/**
 Nothing is stuck for good: what exactly can hold a request up, and that from every instant of every orderly
 run a put can still be completed and a get still be answered, without any mishap.
 */
module Progress {
  import opened Options
  import opened Cluster
  import opened Agreement
  import opened Lifecycle
  import opened LockDiscipline
  import opened Paths

  /** A step that brings its request forward. An attempt that is not acknowledged, starting over, a refusal
      and giving up do not. */
  predicate Progresses(step: Step) {
    match step
    case LockAttempt(_, _, done) => done
    case WriteAttempt(_, _, done) => done
    case UnlockAttempt(_, _, done) => done
    case SendAttempt(_, _, done) => done
    case SendRestart(_) => false
    case LockGiveUp(_, _) => false
    case WriteGiveUp(_, _) => false
    case UnlockGiveUp(_) => false
    case JoinGiveUp(_) => false
    case JoinRefuse(_) => false
    case GetFail(_) => false
    case Remove(_) => false
    case _ => true
  }

  ghost predicate CanProgress(s: State, id: TaskId) {
    exists step | Progresses(step) && step.id == id :: Enabled(s, step)
  }

  // ---------------------------------------------------------------- What holds a request up

  /** It has come to the point where it takes serversLock, and another request has it. */
  predicate WaitsForLock(s: State, id: TaskId)
    requires id in s.tasks
  {
    var t := s.tasks[id];
    s.serversLock.Some? && ((t.req.Put? && t.pc.Called?) || t.pc.FoundNone? || t.pc.FoundSender?)
  }

  /** It is a get at a server that is locked. */
  predicate WaitsAtServer(s: State, id: TaskId)
    requires id in s.tasks
  {
    s.tasks[id].pc.LookedUp? && Rep(s, s.tasks[id].pc.from).isLocked
  }

  /** It is a get, and there is no member to ask. */
  predicate FindsNobody(s: State, id: TaskId)
    requires id in s.tasks
  {
    s.tasks[id].req.Get? && s.tasks[id].pc.Called? && s.members == {}
  }

  /** It is a join whose sender has been removed. */
  predicate HasLostSender(s: State, id: TaskId)
    requires id in s.tasks
  {
    s.tasks[id].pc.JoinLocking? && s.tasks[id].pc.sender !in s.members
  }

  /** It is a join that is about to send, and its sender has been removed. */
  predicate LostSender(s: State, id: TaskId)
    requires id in s.tasks
  {
    HasLostSender(s, id) && s.tasks[id].pc.todo == {}
  }

  predicate IsOver(s: State, id: TaskId)
    requires id in s.tasks
  {
    s.tasks[id].pc.Finished? || s.tasks[id].pc.Failed?
  }

  predicate IsHeldUp(s: State, id: TaskId)
    requires id in s.tasks
  {
    WaitsForLock(s, id) || WaitsAtServer(s, id) || FindsNobody(s, id) || LostSender(s, id)
  }

  /** What a transfer still has to send is there. */
  predicate CanSend(s: State, id: TaskId) {
    id in s.tasks && s.tasks[id].pc.Sending? ==>
      s.tasks[id].pc.keys <= Rep(s, s.tasks[id].pc.sender).data.Keys
  }

  /** What is still to be done in the loop that a request is in. */
  function Left(pc: Pc): set<int> {
    if pc.Sending? then pc.keys else Todo(pc)
  }

  /** The next step of the request that holds serversLock. */
  lemma HolderStep(s: State, id: TaskId) returns (step: Step)
    requires LockHeld(s) && CanSend(s, id) && s.serversLock == Some(id) && !LostSender(s, id)
    ensures Progresses(step) && step.id == id && Enabled(s, step) && Quiet(step)
  {
    var t := s.tasks[id];
    assert Typed(t) && Holding(t.pc);
    var left := Left(t.pc);
    if left == {} {
      step := match t.pc
        case Locking(_) => PutBeginWrite(id, t.req.key, t.req.value)
        case Writing(_) => PutBeginUnlock(id, t.req.key)
        case Unlocking(_) => if t.req.Put? then PutRelease(id) else JoinInsert(id)
        case JoinLocking(_, _) => JoinBeginSend(id)
        case _ => JoinBeginUnlock(id);
    } else {
      assert (forall x :: x !in left) ==> left == {};
      var x :| x in left;
      step := match t.pc
        case Locking(_) => LockAttempt(id, x, true)
        case Writing(_) => WriteAttempt(id, x, true)
        case Unlocking(_) => UnlockAttempt(id, x, true)
        case JoinLocking(_, _) => LockAttempt(id, x, true)
        case _ => SendAttempt(id, x, true);
    }
  }

  /** The next step of a request that does not hold serversLock. */
  lemma OwnStep(s: State, id: TaskId) returns (step: Step)
    requires LockHeld(s) && id in s.tasks && !Holding(s.tasks[id].pc) && !IsOver(s, id) && !IsHeldUp(s, id)
    ensures Progresses(step) && step.id == id && Enabled(s, step)
  {
    var t := s.tasks[id];
    assert Typed(t);
    match t.pc
    case Called =>
      if t.req.Get? {
        assert (forall x :: x !in s.members) ==> s.members == {};
        var m :| m in s.members;
        step := GetLookup(id, m);
      } else {
        step := if t.req.Put? then PutAcquire(id) else JoinCheck(id);
      }
    case Released => step := RetPut(id);
    case LookedUp(_) => step := GetCheck(id);
    case Checked(_) => step := GetRead(id);
    case HasRead(r) => step := RetGet(id, r);
    case NotPresent =>
      if s.members == {} {
        step := JoinFindNone(id);
      } else {
        assert (forall x :: x !in s.members) ==> s.members == {};
        var m :| m in s.members;
        step := JoinFindSender(id, m);
      }
    case FoundNone => step := JoinFirst(id);
    case FoundSender(_) => step := JoinAcquire(id);
  }

  lemma HeldUp(s: State, id: TaskId, step: Step)
    requires LockHeld(s) && id in s.tasks && (IsOver(s, id) || IsHeldUp(s, id))
    requires Progresses(step) && step.id == id
    ensures !Enabled(s, step)
  {
    assert Typed(s.tasks[id]);
  }

  /** At every instant of every orderly run: a request that is not over can make its next step at once, whatever
      all others are doing, if and only if it is not held up in one of the four ways. */
  lemma HeldUpExactly(run: Run, t: nat, id: TaskId)
    requires OrderlyRun(run) && t <= |run.steps| && id in run.states[t].tasks
    ensures CanProgress(run.states[t], id) <==> !IsOver(run.states[t], id) && !IsHeldUp(run.states[t], id)
  {
    var s := run.states[t];
    InvAlways(run, t);
    if IsOver(s, id) || IsHeldUp(s, id) {
      forall step | Progresses(step) && step.id == id ensures !Enabled(s, step) {
        HeldUp(s, id, step);
      }
    } else if Holding(s.tasks[id].pc) {
      var step := HolderStep(s, id);
      assert Enabled(s, step);
    } else {
      var step := OwnStep(s, id);
      assert Enabled(s, step);
    }
  }

  // ---------------------------------------------------------------- The lock can always be handed back

  /** An unlock loop has unlocked the members that it is through with. */
  ghost predicate UnlockedSoFar(s: State, id: TaskId) {
    id in s.tasks && s.tasks[id].pc.Unlocking? ==>
      forall m | m in s.members && m !in s.tasks[id].pc.todo :: !Locked(s, m)
  }

  /** `s` inside the guarded section of request `id`. */
  ghost predicate Inside(s: State, id: TaskId) {
    LockHeld(s) && CanSend(s, id) && s.serversLock == Some(id)
  }

  /** Only request `id` has moved. */
  ghost predicate OthersWait(s: State, t: State, id: TaskId) {
    && s.tasks.Keys == t.tasks.Keys
    && forall i | i in s.tasks :: t.tasks[i].req == s.tasks[i].req && (i != id ==> t.tasks[i] == s.tasks[i])
  }

  lemma HolderCanSend(s: State, id: TaskId, step: Step)
    requires LockHeld(s) && CanSend(s, id) && Enabled(s, step) && Progresses(step) && step.id == id
    ensures CanSend(Apply(s, step), id)
  {
    if step.SendAttempt? {
      assert Apply(s, step).tasks[id].pc.keys == s.tasks[id].pc.keys - {step.key};
    }
  }

  lemma OnlyItMoves(s: State, id: TaskId, step: Step)
    requires id in s.tasks && Enabled(s, step) && Progresses(step) && step.id == id
    ensures OthersWait(s, Apply(s, step), id)
  {
    var t := Apply(s, step);
    forall i | i in s.tasks
      ensures i in t.tasks && t.tasks[i].req == s.tasks[i].req && (i != id ==> t.tasks[i] == s.tasks[i])
    {
      StepForward(s, step, i);
      if i != id {
        OthersStay(s, step, i);
      }
    }
    assert t.tasks.Keys == s.tasks.Keys;
  }

  /** One step further: the guarded section is left, or less of it remains. */
  lemma HolderMoves(s: State, id: TaskId, step: Step)
    requires Inside(s, id) && Enabled(s, step) && Progresses(step) && step.id == id
    ensures var t := Apply(s, step);
            && OthersWait(s, t, id) && s.members <= t.members
            && if Holding(t.tasks[id].pc) then
                 && Inside(t, id) && t.members == s.members
                 && HasLostSender(t, id) == HasLostSender(s, id)
                 && (Rank(t.tasks[id].pc) > Rank(s.tasks[id].pc)
                     || (Rank(t.tasks[id].pc) == Rank(s.tasks[id].pc)
                         && |Left(t.tasks[id].pc)| < |Left(s.tasks[id].pc)|))
               else
                 && t.serversLock == None && LockHeld(t)
                 && t.tasks[id].pc == (if s.tasks[id].req.Put? then Released else Finished) && !HasLostSender(s, id)
  {
    KeepsLockHeld(s, step);
    HolderCanSend(s, id, step);
    OnlyItMoves(s, id, step);
    assert Typed(s.tasks[id]) && Holding(s.tasks[id].pc) && LockHeld(Apply(s, step));
    hide Rep, CanSend, OthersWait, LockHeld;
  }

  /** Nobody locks a server again that an unlock loop is through with. */
  lemma KeepsUnlocked(s: State, step: Step, id: TaskId)
    requires LockHeld(s) && UnlockedSoFar(s, id) && Enabled(s, step)
    ensures UnlockedSoFar(Apply(s, step), id)
  {
    var t := Apply(s, step);
    if id in s.tasks && (step.Remove? || step.id != id) {
      OthersStay(s, step, id);
      if Holding(s.tasks[id].pc) {
        assert t.members == s.members && forall m | Locked(t, m) :: Locked(s, m);
      }
    }
  }

  lemma UnlockedWhenReleased(s: State, id: TaskId)
    requires LockHeld(s) && UnlockedSoFar(s, id) && Enabled(s, PutRelease(id))
    ensures forall m | m in s.members :: !Locked(Apply(s, PutRelease(id)), m)
  {
  }

  lemma {:induction false} UnlockedSoFarAlways(run: Run, t: nat, id: TaskId)
    requires OrderlyRun(run) && t <= |run.steps|
    ensures UnlockedSoFar(run.states[t], id)
  {
    if t > 0 {
      UnlockedSoFarAlways(run, t - 1, id);
      InvAlways(run, t - 1);
      assert StepAt(run, t - 1);
      KeepsUnlocked(run.states[t - 1], run.steps[t - 1], id);
    }
  }

  /** The request that holds serversLock can hand it back by its own steps alone, without any mishap: a put has
      then completed, and left no member locked; a join has, unless its sender is gone. */
  lemma {:induction false} HolderFinishes(s: State, id: TaskId) returns (path: seq<Step>, t: State)
    requires Inside(s, id) && UnlockedSoFar(s, id)
    ensures Path(s, path, t, {}) && t.serversLock == None && LockHeld(t)
    ensures OthersWait(s, t, id) && s.members <= t.members
    ensures t.tasks[id].pc
         == if s.tasks[id].req.Put? then Released else if HasLostSender(s, id) then Failed else Finished
    ensures s.tasks[id].req.Put? ==> forall m | m in t.members :: !Locked(t, m)
    decreases 7 - Rank(s.tasks[id].pc), |Left(s.tasks[id].pc)|
  {
    var step: Step;
    if LostSender(s, id) {
      step := JoinGiveUp(id);
      path, t := [step], Apply(s, step);
      KeepsLockHeld(s, step);
      assert Path(t, [], t, {});
    } else {
      step := HolderStep(s, id);
      HolderMoves(s, id, step);
      KeepsUnlocked(s, step, id);
      var next := Apply(s, step);
      if Holding(next.tasks[id].pc) {
        path, t := HolderFinishes(next, id);
      } else {
        path, t := [], next;
        if step.PutRelease? {
          UnlockedWhenReleased(s, id);
        }
      }
      path := [step] + path;
    }
  }

  /** Whoever holds serversLock hands it back. */
  lemma FreeLock(s: State) returns (path: seq<Step>, t: State)
    requires LockHeld(s) && forall id | s.serversLock == Some(id) :: CanSend(s, id) && UnlockedSoFar(s, id)
    ensures Path(s, path, t, {}) && t.serversLock == None && LockHeld(t) && s.members <= t.members
    ensures s.tasks.Keys == t.tasks.Keys
    ensures forall id | id in s.tasks && !Holding(s.tasks[id].pc) :: t.tasks[id] == s.tasks[id]
  {
    if s.serversLock == None {
      path, t := [], s;
    } else {
      path, t := HolderFinishes(s, s.serversLock.value);
    }
  }

  /** A put on members, when serversLock is free. */
  lemma PutRuns(s: State, id: TaskId) returns (path: seq<Step>, t: State)
    requires LockHeld(s) && s.serversLock == None && IsPut(s, id) && At(s, id, Called) && s.members != {}
    ensures Path(s, path, t, {}) && t.serversLock == None && LockHeld(t) && s.members <= t.members
    ensures OthersWait(s, t, id) && At(t, id, Released)
    ensures forall m | m in t.members :: !Locked(t, m)
  {
    var step := PutAcquire(id);
    KeepsLockHeld(s, step);
    var next := Apply(s, step);
    path, t := HolderFinishes(next, id);
    path := [step] + path;
  }

  lemma Returns(s: State, path: seq<Step>, t: State, id: TaskId) returns (longer: seq<Step>, end: State)
    requires Path(s, path, t, {}) && IsPut(t, id) && At(t, id, Released)
    ensures Path(s, longer, end, {}) && longer == path + [RetPut(id)]
  {
    longer := Then(s, path, t, RetPut(id), {});
    end := Apply(t, RetPut(id));
  }

  /** From every instant of every orderly run: a put that has not given up can still be completed, without any
      mishap, if there is a member. */
  lemma PutCanReturn(run: Run, t: nat, id: TaskId) returns (path: seq<Step>, end: State)
    requires OrderlyRun(run) && t <= |run.steps|
    requires IsPut(run.states[t], id) && !IsOver(run.states[t], id)
    requires At(run.states[t], id, Called) ==> run.states[t].members != {}
    ensures Path(run.states[t], path, end, {}) && path != [] && path[|path| - 1] == RetPut(id)
  {
    var s := run.states[t];
    InvAlways(run, t);
    forall i ensures UnlockedSoFar(s, i) { UnlockedSoFarAlways(run, t, i); }
    var mid := s;
    path := [];
    if At(s, id, Called) {
      path, mid := FreeLock(s);
      var more, released := PutRuns(mid, id);
      path := Paths.Join(s, path, mid, more, released, {});
      mid := released;
    } else if Holding(s.tasks[id].pc) {
      path, mid := HolderFinishes(s, id);
    }
    path, end := Returns(s, path, mid, id);
  }

  /** A get at a server that is not locked, or past its check. */
  lemma GetRuns(s: State, id: TaskId) returns (path: seq<Step>, t: State)
    requires LockHeld(s) && IsGet(s, id) && !IsOver(s, id)
    requires At(s, id, Called) ==> s.members != {} && forall m | m in s.members :: !Locked(s, m)
    requires s.tasks[id].pc.LookedUp? ==> !WaitsAtServer(s, id)
    ensures Path(s, path, t, {}) && path != [] && path[|path| - 1].RetGet? && path[|path| - 1].id == id
    decreases 7 - Rank(s.tasks[id].pc)
  {
    var step := OwnStep(s, id);
    KeepsLockHeld(s, step);
    t := Apply(s, step);
    path := [];
    if !step.RetGet? {
      path, t := GetRuns(t, id);
    }
    path := [step] + path;
  }

  /** A put called from now on, under a number not in use, unlocks every member. */
  lemma AllCanBeUnlocked(s: State, other: TaskId) returns (path: seq<Step>, t: State)
    requires LockHeld(s) && forall id | s.serversLock == Some(id) :: CanSend(s, id) && UnlockedSoFar(s, id)
    requires other !in s.tasks && s.members != {}
    ensures Path(s, path, t, {}) && LockHeld(t) && s.members <= t.members && forall m | m in t.members :: !Locked(t, m)
    ensures forall id | id in s.tasks && !Holding(s.tasks[id].pc) :: id in t.tasks && t.tasks[id] == s.tasks[id]
  {
    var free, more;
    path, free := FreeLock(s);
    path := Then(s, path, free, CallPut(other, 0, 0), {});
    KeepsLockHeld(free, CallPut(other, 0, 0));
    var called := Apply(free, CallPut(other, 0, 0));
    more, t := PutRuns(called, other);
    path := Paths.Join(s, path, called, more, t, {});
  }

  /** And a get that has not failed can still be answered, without any mishap, unless there is no member to ask,
      or the server it is at has been removed and is locked. `other` is a put called only now. */
  lemma GetCanBeAnswered(run: Run, t: nat, id: TaskId, other: TaskId) returns (path: seq<Step>, end: State)
    requires OrderlyRun(run) && t <= |run.steps|
    requires IsGet(run.states[t], id) && !IsOver(run.states[t], id) && other !in run.states[t].tasks
    requires !FindsNobody(run.states[t], id)
    requires WaitsAtServer(run.states[t], id) ==> run.states[t].tasks[id].pc.from in run.states[t].members
    ensures Path(run.states[t], path, end, {}) && path != []
    ensures path[|path| - 1].RetGet? && path[|path| - 1].id == id
  {
    var s := run.states[t];
    InvAlways(run, t);
    if At(s, id, Called) || WaitsAtServer(s, id) {
      forall i ensures UnlockedSoFar(s, i) { UnlockedSoFarAlways(run, t, i); }
      var unlocked, more;
      path, unlocked := AllCanBeUnlocked(s, other);
      assert unlocked.tasks[id] == s.tasks[id];
      hide Inv;
      more, end := GetRuns(unlocked, id);
      path := Paths.Join(s, path, unlocked, more, end, {});
    } else {
      path, end := GetRuns(s, id);
    }
  }
}
