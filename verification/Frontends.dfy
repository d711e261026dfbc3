/**
 The frontend as sequential code: the locking loops, put, get, addServer, shutdownServer and one
 heartbeat sweep. Each method performs a path of the step machine, from the state before the call
 to the state after it, whatever becomes of its remote calls.
 */
module Frontends {
  import opened Options
  import opened Fates
  import opened Servers
  import opened Paths
  import opened LoopPaths
  import C = Cluster
  import Retry
  import Selector
  import Text

  type Tasks = map<int, C.Task>

  /** Task `id` at program counter `pc`. */
  function Moved(tasks: Tasks, id: int, pc: C.Pc): Tasks
    requires id in tasks
  {
    tasks[id := tasks[id].(pc := pc)]
  }

  /** The locking loop of a put, or of a join that will copy from `sender`. */
  function LockingPc(sender: Option<int>, todo: set<int>): C.Pc {
    match sender
    case None => C.Locking(todo)
    case Some(m) => C.JoinLocking(m, todo)
  }

  lemma MovedTwice(tasks: Tasks, id: int, a: C.Pc, b: C.Pc)
    requires id in tasks
    ensures Moved(Moved(tasks, id, a), id, b) == Moved(tasks, id, b)
  {
  }

  lemma MovedNew(tasks: Tasks, id: int, req: C.Request, pc: C.Pc)
    ensures Moved(tasks[id := C.Task(req, C.Called)], id, pc) == tasks[id := C.Task(req, pc)]
  {
  }

  /** Task `id` moves from one loop to the next. */
  lemma NextPhase(start: C.State, path: seq<C.Step>, s: C.State, id: int, tasks: Tasks, step: C.Step, from: C.Pc,
                  may: set<C.Mishap>)
    returns (longer: seq<C.Step>)
    requires Path(start, path, s, may) && id in tasks && s.tasks == Moved(tasks, id, from)
    requires !step.Remove? && step.id == id && C.Enabled(s, step)
    requires step.PutBeginWrite? || step.PutBeginUnlock? || step.PutRelease?
    ensures var to := if step.PutBeginWrite? then C.Writing(s.members)
                      else if step.PutBeginUnlock? then C.Unlocking(s.members) else C.Released;
            Path(start, longer, s.(tasks := Moved(tasks, id, to),
                                   serversLock := if step.PutRelease? then None else s.serversLock), may)
  {
    MovedTwice(tasks, id, from, C.Writing(s.members));
    MovedTwice(tasks, id, from, C.Unlocking(s.members));
    MovedTwice(tasks, id, from, C.Released);
    longer := Then(start, path, s, step, may);
  }

  /** The processes in `written` have stored the entry. */
  function WrittenTo(contents: map<int, map<int, int>>, written: set<int>, key: int, value: int):
    (r: map<int, map<int, int>>)
    ensures r.Keys == contents.Keys
  {
    map i | i in contents :: if i in written then contents[i][key := value] else contents[i]
  }

  lemma WrittenToOneMore(contents: map<int, map<int, int>>, written: set<int>, key: int, value: int, i: int,
                         lands: bool)
    requires i in contents
    ensures var before := WrittenTo(contents, written, key, value);
            && i in before
            && WrittenTo(contents, written + if lands then {i} else {}, key, value)
               == before[i := if lands then before[i][key := value] else before[i]]
  {
    assert contents[i][key := value][key := value] == contents[i][key := value];
  }

  /** The mishap that comes with a removal of all members, if one of them holds data. */
  ghost function RemovalMishaps(before: map<int, Server>, after: map<int, Server>): set<C.Mishap>
    reads before.Values
  {
    if after == map[] && exists i | i in before :: before[i].data != map[] then {C.LastMemberRemoved} else {}
  }

  /** The members that are still to be asked, or have answered. */
  ghost function Survivors(members: map<int, Server>, todo: set<int>, luck: int -> Retry.Luck): map<int, Server> {
    map i | i in members && (i in todo || Retry.Succeeds(luck(i))) :: members[i]
  }

  lemma AllAreLeft(members: map<int, Server>, luck: int -> Retry.Luck)
    ensures Survivors(members, members.Keys, luck) == members
  {
  }

  lemma OneIsAsked(members: map<int, Server>, todo: set<int>, luck: int -> Retry.Luck, i: int)
    requires i in todo && i in members
    ensures var left := Survivors(members, todo, luck);
            && i in left && left[i] == members[i] && todo - {i} <= todo
            && Survivors(members, todo - {i}, luck) == if Retry.Succeeds(luck(i)) then left else left - {i}
  {
  }

  /** A sweep that is about to remove a last member with data leaves nobody. */
  lemma LastToGo(members: map<int, Server>, todo: set<int>, luck: int -> Retry.Luck, i: int)
    requires i in members && Survivors(members, todo, luck).Keys == {i} && !Retry.Succeeds(luck(i))
    ensures members[i].data != map[] ==> C.LastMemberRemoved in RemovalMishaps(members, Survivors(members, {}, luck))
  {
    assert forall j | j in Survivors(members, {}, luck) :: j in Survivors(members, todo, luck).Keys;
    assert Survivors(members, {}, luck).Keys == {};
  }

  datatype JoinReply = Added | AlreadyExists | NotReachable | JoinThrew

  datatype GetReply = Replied(text: string) | GetThrew | Blocked

  class Frontend {
    const processes: map<int, Server>  // the server processes that can be reached, by id
    var servers: map<int, Server>      // the members

    constructor (processes: map<int, Server>)
      requires forall i, j | i in processes && j in processes && processes[i] == processes[j] :: i == j
      ensures Valid() && servers == map[] && this.processes == processes
    {
      this.processes := processes;
      servers := map[];
    }

    ghost predicate Valid()
      reads this
    {
      && (forall i | i in servers :: i in processes && servers[i] == processes[i])
      && (forall i, j | i in processes && j in processes && processes[i] == processes[j] :: i == j)
    }

    /** The machine state that this frontend and its servers are in. */
    ghost function View(lock: Option<int>, tasks: Tasks): C.State
      reads this, processes.Values
    {
      C.State(servers.Keys, Replicas(), lock, tasks)
    }

    ghost function Replicas(): map<int, C.Replica>
      reads processes.Values
    {
      map i | i in processes :: C.Replica(processes[i].data, processes[i].isLocked)
    }

    ghost function LockedIds(): set<int>
      reads processes.Values
    {
      set i | i in processes && processes[i].isLocked
    }

    ghost function Contents(): map<int, map<int, int>>
      reads processes.Values
    {
      map i | i in processes :: processes[i].data
    }

    /** Only the process behind `i` has changed. */
    twostate lemma OneChanged(i: int)
      requires old(Valid()) && Valid() && i in processes
      requires forall j | j in processes && processes[j] != processes[i] :: unchanged(processes[j])
      ensures Replicas() == old(Replicas())[i := C.Replica(processes[i].data, processes[i].isLocked)]
      ensures LockedIds() == if processes[i].isLocked then old(LockedIds()) + {i} else old(LockedIds()) - {i}
      ensures Contents() == old(Contents())[i := processes[i].data]
    {
      var a, b := Replicas(), old(Replicas())[i := C.Replica(processes[i].data, processes[i].isLocked)];
      assert a.Keys == b.Keys;
      forall j | j in a ensures a[j] == b[j] {
        assert j == i || processes[j] != processes[i];
      }
      forall j | j in processes && j != i
        ensures processes[j].isLocked == old(processes[j].isLocked) && processes[j].data == old(processes[j].data)
      {
        assert processes[j] != processes[i];
      }
    }

    // -------------------------------------------------------------- One remote call, retried

    method LockServer(i: int, luck: Retry.Luck, ghost id: int, ghost tasks: Tasks, ghost sender: Option<int>,
                      ghost todo: set<int>, ghost start: C.State, ghost path: seq<C.Step>, ghost may: set<C.Mishap>)
      returns (ghost longer: seq<C.Step>)
      requires Valid() && i in servers && i in todo && id in tasks
      requires Path(start, path, View(Some(id), Moved(tasks, id, LockingPc(sender, todo))), may)
      requires Retry.Lands(luck) || tasks[id].req.Join? || C.LockLost in may
      modifies (servers[i] as Server)`isLocked
      ensures LockedIds() == if Retry.Lands(luck) then old(LockedIds()) + {i} else old(LockedIds())
      ensures Contents() == old(Contents())
      ensures Path(start, longer, View(Some(id), Moved(tasks, id, LockingPc(sender, todo - {i}))), may)
    {
      ghost var s := View(Some(id), Moved(tasks, id, LockingPc(sender, todo)));
      var ok := servers[i].SetLockWithRetry(true, luck);
      OneChanged(i);
      MovedTwice(tasks, id, LockingPc(sender, todo), LockingPc(sender, todo - {i}));
      longer := LockOne(start, path, s, id, i, Retry.Lands(luck), ok, may);
    }

    method UnlockServer(i: int, luck: Retry.Luck, ghost id: int, ghost tasks: Tasks, ghost todo: set<int>,
                        ghost start: C.State, ghost path: seq<C.Step>, ghost may: set<C.Mishap>)
      returns (ok: bool, ghost longer: seq<C.Step>)
      requires Valid() && i in servers && i in todo && id in tasks
      requires Path(start, path, View(Some(id), Moved(tasks, id, C.Unlocking(todo))), may)
      modifies (servers[i] as Server)`isLocked
      ensures ok == Retry.Succeeds(luck) && (ok ==> Retry.Lands(luck))
      ensures LockedIds() == if Retry.Lands(luck) then old(LockedIds()) - {i} else old(LockedIds())
      ensures Contents() == old(Contents())
      ensures Path(start, longer, if ok then View(Some(id), Moved(tasks, id, C.Unlocking(todo - {i})))
                                  else View(None, Moved(tasks, id, C.Failed)), may)
    {
      ghost var s := View(Some(id), Moved(tasks, id, C.Unlocking(todo)));
      ok := servers[i].SetLockWithRetry(false, luck);
      OneChanged(i);
      MovedTwice(tasks, id, C.Unlocking(todo), if ok then C.Unlocking(todo - {i}) else C.Failed);
      longer := UnlockOne(start, path, s, id, i, Retry.Lands(luck), ok, may);
    }

    method WriteServer(i: int, key: int, value: int, luck: Retry.Luck, ghost id: int, ghost tasks: Tasks,
                       ghost todo: set<int>, ghost start: C.State, ghost path: seq<C.Step>, ghost may: set<C.Mishap>,
                       ghost base: map<int, map<int, int>>, ghost written: set<int>)
      returns (ok: bool, ghost longer: seq<C.Step>)
      requires Valid() && i in servers && i in todo && id in tasks && tasks[id].req == C.Put(key, value)
      requires Path(start, path, View(Some(id), Moved(tasks, id, C.Writing(todo))), may)
      requires Retry.Succeeds(luck) || C.WriteLost in may
      requires Contents() == WrittenTo(base, written, key, value)
      modifies (servers[i] as Server)`data
      ensures ok == Retry.Succeeds(luck) && (ok ==> Retry.Lands(luck))
      ensures Contents() == WrittenTo(base, written + if Retry.Lands(luck) then {i} else {}, key, value)
      ensures LockedIds() == old(LockedIds())
      ensures Path(start, longer, if ok then View(Some(id), Moved(tasks, id, C.Writing(todo - {i})))
                                  else View(None, Moved(tasks, id, C.Failed)), may)
    {
      assert i in Contents();
      hide Path, WrittenTo, Retry.Lands, Retry.Succeeds;
      ghost var s := View(Some(id), Moved(tasks, id, C.Writing(todo)));
      ok := servers[i].PutWithRetry(key, value, luck);
      OneChanged(i);
      WrittenToOneMore(base, written, key, value, i, Retry.Lands(luck));
      MovedTwice(tasks, id, C.Writing(todo), if ok then C.Writing(todo - {i}) else C.Failed);
      longer := WriteOne(start, path, s, id, i, Retry.Lands(luck), ok, may);
    }

    // -------------------------------------------------------------- ServerLockUtil

    /** ServerLockUtil.lock: a member whose lock call fails for good is skipped. */
    method LockAll(luck: int -> Retry.Luck, ghost id: int, ghost tasks: Tasks, ghost sender: Option<int>,
                   ghost may: set<C.Mishap>)
      returns (ghost path: seq<C.Step>)
      requires Valid() && id in tasks
      requires (forall i | i in servers :: Retry.Lands(luck(i))) || tasks[id].req.Join? || C.LockLost in may
      modifies servers.Values`isLocked
      ensures Valid()
      ensures LockedIds() == old(LockedIds()) + Landed(servers.Keys, luck) && Contents() == old(Contents())
      ensures Path(old(View(Some(id), Moved(tasks, id, LockingPc(sender, servers.Keys)))), path,
                   View(Some(id), Moved(tasks, id, LockingPc(sender, {}))), may)
    {
      ghost var start := View(Some(id), Moved(tasks, id, LockingPc(sender, servers.Keys)));
      path := [];
      assert Path(start, path, start, may);
      LandedAtEnds(servers.Keys, luck);
      hide Path, Landed, Retry.Lands, Retry.Succeeds;
      var todo := servers.Keys;
      while todo != {}
        invariant todo <= servers.Keys
        invariant LockedIds() == old(LockedIds()) + Landed(servers.Keys - todo, luck) && Contents() == old(Contents())
        invariant Path(start, path, View(Some(id), Moved(tasks, id, LockingPc(sender, todo))), may)
        decreases todo
      {
        var i := Pick(todo);
        assert servers[i] in servers.Values;
        LandedOneMore(servers.Keys, todo, luck, i);
        path := LockServer(i, luck(i), id, tasks, sender, todo, start, path, may);
        todo := todo - {i};
      }
    }

    /** ServerLockUtil.unlock: the first call that fails for good is thrown to the caller. */
    method UnlockAll(luck: int -> Retry.Luck, ghost id: int, ghost tasks: Tasks, ghost may: set<C.Mishap>)
      returns (ok: bool, ghost path: seq<C.Step>)
      requires Valid() && id in tasks
      modifies servers.Values`isLocked
      ensures Valid()
      ensures ok <==> AllSucceed(servers.Keys, luck)
      ensures Unlocks(servers.Keys, luck, old(LockedIds()), LockedIds()) && Contents() == old(Contents())
      ensures Path(old(View(Some(id), Moved(tasks, id, C.Unlocking(servers.Keys)))), path,
                   if ok then View(Some(id), Moved(tasks, id, C.Unlocking({})))
                   else View(None, Moved(tasks, id, C.Failed)), may)
    {
      ghost var start := View(Some(id), Moved(tasks, id, C.Unlocking(servers.Keys)));
      path := [];
      assert Path(start, path, start, may);
      hide Path, Retry.Lands, Retry.Succeeds;
      var todo := servers.Keys;
      while todo != {}
        invariant todo <= servers.Keys
        invariant AllSucceed(servers.Keys - todo, luck)
        invariant LockedIds() == old(LockedIds()) - (servers.Keys - todo) && Contents() == old(Contents())
        invariant Path(start, path, View(Some(id), Moved(tasks, id, C.Unlocking(todo))), may)
        decreases todo
      {
        var i := Pick(todo);
        assert servers[i] in servers.Values;
        var answered;
        answered, path := UnlockServer(i, luck(i), id, tasks, todo, start, path, may);
        if !answered {
          ghost var freed := StopsHere(servers.Keys, luck, todo, i);
          assert LockedIds() == old(LockedIds()) - freed;
          return false, path;
        }
        todo := todo - {i};
      }
      assert StopsAtFirst(servers.Keys, luck, servers.Keys);
      ok := true;
    }

    /** The write loop of runWithLock: the first write that fails for good ends it. */
    method WriteAll(key: int, value: int, luck: int -> Retry.Luck, ghost id: int, ghost tasks: Tasks,
                    ghost may: set<C.Mishap>)
      returns (ok: bool, ghost written: set<int>, ghost path: seq<C.Step>)
      requires Valid() && id in tasks && tasks[id].req == C.Put(key, value)
      requires AllSucceed(servers.Keys, luck) || C.WriteLost in may
      modifies servers.Values`data
      ensures Valid()
      ensures ok <==> AllSucceed(servers.Keys, luck)
      ensures StopsAtFirst(servers.Keys, luck, written) && LockedIds() == old(LockedIds())
      ensures Contents() == WrittenTo(old(Contents()), written, key, value)
      ensures Path(old(View(Some(id), Moved(tasks, id, C.Writing(servers.Keys)))), path,
                   if ok then View(Some(id), Moved(tasks, id, C.Writing({})))
                   else View(None, Moved(tasks, id, C.Failed)), may)
    {
      ghost var start := View(Some(id), Moved(tasks, id, C.Writing(servers.Keys)));
      path := [];
      assert Path(start, path, start, may);
      assert Contents() == WrittenTo(Contents(), {}, key, value);
      hide Path, Retry.Lands, Retry.Succeeds, WrittenTo;
      var todo := servers.Keys;
      written := {};
      while todo != {}
        invariant todo <= servers.Keys && written == servers.Keys - todo && AllSucceed(written, luck)
        invariant Contents() == WrittenTo(old(Contents()), written, key, value) && LockedIds() == old(LockedIds())
        invariant Path(start, path, View(Some(id), Moved(tasks, id, C.Writing(todo))), may)
        decreases todo
      {
        var i := Pick(todo);
        assert servers[i] in servers.Values;
        var answered;
        answered, path :=
          WriteServer(i, key, value, luck(i), id, tasks, todo, start, path, may, old(Contents()), written);
        if !answered {
          written := StopsHere(servers.Keys, luck, todo, i);
          return false, written, path;
        }
        todo, written := todo - {i}, written + {i};
      }
      ok := true;
    }

    /** The part of runWithLock that follows the locking. A write that fails for good leaves every lock as
        it is. */
    method WriteAndUnlock(key: int, value: int, writeLuck: int -> Retry.Luck, unlockLuck: int -> Retry.Luck,
                          ghost id: int, ghost tasks: Tasks, ghost may: set<C.Mishap>)
      returns (ok: bool, ghost written: set<int>, ghost path: seq<C.Step>)
      requires Valid() && id in tasks && tasks[id].req == C.Put(key, value)
      requires AllSucceed(servers.Keys, writeLuck) || C.WriteLost in may
      modifies servers.Values
      ensures Valid()
      ensures ok <==> AllSucceed(servers.Keys, writeLuck) && AllSucceed(servers.Keys, unlockLuck)
      ensures StopsAtFirst(servers.Keys, writeLuck, written)
      ensures Contents() == WrittenTo(old(Contents()), written, key, value)
      ensures if AllSucceed(servers.Keys, writeLuck)
              then Unlocks(servers.Keys, unlockLuck, old(LockedIds()), LockedIds())
              else LockedIds() == old(LockedIds())
      ensures Path(old(View(Some(id), Moved(tasks, id, C.Locking({})))), path,
                   View(None, Moved(tasks, id, if ok then C.Released else C.Failed)), may)
    {
      ghost var start := View(Some(id), Moved(tasks, id, C.Locking({})));
      path := [];
      assert Path(start, path, start, may);
      hide Path, WrittenTo, StopsAtFirst, Unlocks;
      path := NextPhase(start, path, start, id, tasks, C.PutBeginWrite(id, key, value), C.Locking({}), may);
      ghost var writing := View(Some(id), Moved(tasks, id, C.Writing(servers.Keys)));
      ghost var more;
      ok, written, more := WriteAll(key, value, writeLuck, id, tasks, may);
      if !ok {
        path := Paths.Join(start, path, writing, more, View(None, Moved(tasks, id, C.Failed)), may);
        return;
      }
      ghost var done := View(Some(id), Moved(tasks, id, C.Writing({})));
      path := Paths.Join(start, path, writing, more, done, may);
      path := NextPhase(start, path, done, id, tasks, C.PutBeginUnlock(id, key), C.Writing({}), may);
      ghost var unlocking := View(Some(id), Moved(tasks, id, C.Unlocking(servers.Keys)));
      ok, more := UnlockAll(unlockLuck, id, tasks, may);
      if !ok {
        path := Paths.Join(start, path, unlocking, more, View(None, Moved(tasks, id, C.Failed)), may);
        return;
      }
      ghost var unlocked := View(Some(id), Moved(tasks, id, C.Unlocking({})));
      path := Paths.Join(start, path, unlocking, more, unlocked, may);
      path := NextPhase(start, path, unlocked, id, tasks, C.PutRelease(id), C.Unlocking({}), may);
    }

    /** ServerLockUtil.runWithLock, for a put: lock, write and unlock every member. */
    method RunWithLock(key: int, value: int, lockLuck: int -> Retry.Luck, writeLuck: int -> Retry.Luck,
                       unlockLuck: int -> Retry.Luck, ghost id: int, ghost tasks: Tasks, ghost may: set<C.Mishap>)
      returns (ok: bool, ghost written: set<int>, ghost path: seq<C.Step>)
      requires Valid() && id in tasks && tasks[id].req == C.Put(key, value)
      requires PutMishaps(servers.Keys, lockLuck, writeLuck) <= may
      modifies servers.Values
      ensures Valid()
      ensures ok <==> AllSucceed(servers.Keys, writeLuck) && AllSucceed(servers.Keys, unlockLuck)
      ensures StopsAtFirst(servers.Keys, writeLuck, written)
      ensures Contents() == WrittenTo(old(Contents()), written, key, value)
      ensures PutLocks(servers.Keys, lockLuck, writeLuck, unlockLuck, old(LockedIds()), LockedIds())
      ensures Path(old(View(Some(id), Moved(tasks, id, C.Locking(servers.Keys)))), path,
                   View(None, Moved(tasks, id, if ok then C.Released else C.Failed)), may)
    {
      hide Path, AllSucceed, WrittenTo, StopsAtFirst, Unlocks;
      ghost var start := View(Some(id), Moved(tasks, id, C.Locking(servers.Keys)));
      path := LockAll(lockLuck, id, tasks, None, may);
      ghost var locked := View(Some(id), Moved(tasks, id, C.Locking({})));
      ghost var more;
      ok, written, more := WriteAndUnlock(key, value, writeLuck, unlockLuck, id, tasks, may);
      path := Paths.Join(start, path, locked, more,
                         View(None, Moved(tasks, id, if ok then C.Released else C.Failed)), may);
    }

    // -------------------------------------------------------------- FrontendRPCImpl

    /** A put, from call to return; None is an exception. */
    method Put(key: int, value: int, lockLuck: int -> Retry.Luck, writeLuck: int -> Retry.Luck,
               unlockLuck: int -> Retry.Luck, ghost id: int, ghost tasks: Tasks)
      returns (reply: Option<string>, ghost written: set<int>, ghost path: seq<C.Step>)
      requires Valid() && id !in tasks
      modifies servers.Values
      ensures Valid()
      ensures reply.Some? <==> AllSucceed(servers.Keys, writeLuck) && AllSucceed(servers.Keys, unlockLuck)
      ensures reply.Some? ==> reply.value == "Success " + Text.IntText(key) + "=" + Text.IntText(value)
      ensures StopsAtFirst(servers.Keys, writeLuck, written)
      ensures Contents() == WrittenTo(old(Contents()), written, key, value)
      ensures PutLocks(servers.Keys, lockLuck, writeLuck, unlockLuck, old(LockedIds()), LockedIds())
      ensures Path(old(View(None, tasks)), path,
                   View(None, tasks[id := C.Task(C.Put(key, value), if reply.Some? then C.Finished else C.Failed)]),
                   PutMishaps(servers.Keys, lockLuck, writeLuck))
    {
      hide Path, StopsAtFirst, PutLocks, WrittenTo;
      ghost var may := PutMishaps(servers.Keys, lockLuck, writeLuck);
      ghost var start, called := View(None, tasks), tasks[id := C.Task(C.Put(key, value), C.Called)];
      path := Acquire(start, id, key, value, called, may);
      ghost var acquired := View(Some(id), Moved(called, id, C.Locking(servers.Keys)));
      var ok;
      ghost var more;
      ok, written, more := RunWithLock(key, value, lockLuck, writeLuck, unlockLuck, id, called, may);
      ghost var ran := View(None, Moved(called, id, if ok then C.Released else C.Failed));
      path := Paths.Join(start, path, acquired, more, ran, may);
      MovedNew(tasks, id, C.Put(key, value), C.Failed);
      MovedNew(tasks, id, C.Put(key, value), C.Finished);
      if !ok {
        return None, written, path;
      }
      path := Then(start, path, ran, C.RetPut(id), may);
      MovedTwice(called, id, C.Released, C.Finished);
      reply := Some("Success " + Text.IntText(key) + "=" + Text.IntText(value));
    }

    /** A get. It does not take serversLock, and it waits while its server is locked. */
    method Get(key: int, ghost id: int, ghost tasks: Tasks) returns (reply: GetReply, ghost path: seq<C.Step>)
      requires Valid() && id !in tasks
      ensures reply.GetThrew? <==> Selector.Select(key, servers.Keys).None?
      ensures Selector.Select(key, servers.Keys).Some? ==>
                var server := servers[Selector.Select(key, servers.Keys).value];
                reply == if server.isLocked then Blocked else Replied(Text.ReplyText(key, Lookup(server.data, key)))
      ensures reply.Replied? ==>
                var server := servers[Selector.Select(key, servers.Keys).value];
                Path(View(None, tasks), path, View(None, tasks[id := C.Task(C.Get(key), C.Finished)]), {})
                && path != [] && path[|path| - 1] == C.RetGet(id, Lookup(server.data, key))
    {
      hide Path, Selector.Select, C.Enabled, C.Apply, C.Happens, Text.ReplyText;
      path := [];
      var choice := Selector.Select(key, servers.Keys);
      if choice.None? {
        return GetThrew, path;
      }
      var server := servers[choice.value];
      if server.isLocked {
        return Blocked, path;
      }
      path := GetPath(View(None, tasks), id, key, choice.value, {});
      var text := server.Read(key);
      reply := Replied(text);
    }

    /** One attempt at sendValuesToServer, whose own answer may be lost. */
    method SendOnce(sender: Server, joiner: Server, fate: Retry.Fate, luck: int -> Retry.Luck)
      returns (ok: bool, ghost sent: set<int>)
      requires sender != joiner
      modifies joiner`data
      ensures ok == (fate.Answers? && AllSucceed(sender.data.Keys, luck))
      ensures if fate.ThrowsBefore? then sent == {} else StopsAtFirst(sender.data.Keys, luck, sent)
      ensures sent <= sender.data.Keys && (ok ==> sent == sender.data.Keys)
      ensures joiner.data == old(joiner.data) + Restrict(sender.data, sent)
    {
      ok, sent := false, {};
      if !fate.ThrowsBefore? {
        ok, sent := sender.SendValuesToServer(joiner, luck);
        StopsInside(sender.data.Keys, luck, sent);
        ok := ok && fate.Answers?;
      }
    }

    /** sendValuesToServer, itself retried: each attempt may copy any part of the data, and its
        answer may be lost. It succeeds exactly when an attempt is answered, and within it every put. */
    method Transfer(sender: Server, joiner: Server, outer: Retry.Luck, inner: nat -> int -> Retry.Luck)
      returns (ok: bool, ghost sent: set<int>)
      requires sender != joiner
      modifies joiner`data
      ensures ok == Retry.Succeeds(TransferLuck(sender.data.Keys, outer, inner))
      ensures Sent(sender.data.Keys, outer, inner, sent)
      ensures joiner.data == old(joiner.data) + Restrict(sender.data, sent)
    {
      ghost var base, keys, luck := joiner.data, sender.data.Keys, TransferLuck(sender.data.Keys, outer, inner);
      var attempt := 0;
      sent, ok := {}, false;
      NothingSent(keys, outer, inner);
      RestrictToNone(base, sender.data);
      hide SentBy, StopsAtFirst, AllSucceed, Restrict;
      while true
        invariant attempt <= Retry.RETRIES && !ok
        invariant forall j: nat | j < attempt :: !Retry.Stops(luck, j)
        invariant sent <= keys && joiner.data == base + Restrict(sender.data, sent)
        invariant SentBy(keys, outer, inner, attempt, sent)
        decreases Retry.RETRIES - attempt
      {
        ghost var now;
        ok, now := SendOnce(sender, joiner, outer.fate(attempt), inner(attempt));
        RestrictTwice(base, sender.data, sent, now);
        OneMoreAttempt(keys, outer, inner, attempt, sent, now);
        sent := sent + now;
        if ok || attempt == Retry.RETRIES || (attempt >= 1 && outer.interrupted(attempt - 1)) {
          Retry.FirstStopIs(luck, attempt, Retry.RETRIES);
          return;
        }
        attempt := attempt + 1;
      }
    }

    lemma MembersAreProcesses()
      requires Valid()
      ensures servers.Values <= processes.Values
    {
      forall v | v in servers.Values ensures v in processes.Values {
        assert (forall i | i in servers :: servers[i] != v) ==> v !in servers.Values;
        var i :| i in servers && servers[i] == v;
        assert i in processes && processes[i] == v;
      }
    }

    lemma OutsidersAreNoMembers()
      requires Valid()
      ensures forall m | m in processes && m !in servers :: processes[m] !in servers.Values
    {
      forall m | m in processes && processes[m] in servers.Values ensures m in servers {
        var v := processes[m];
        assert (forall i | i in servers :: servers[i] != v) ==> v !in servers.Values;
        var i :| i in servers && servers[i] == v;
      }
    }

    /** The guarded section of addServer up to the transfer from `sender`. */
    method LockAndSend(sender: int, server: int, lockLuck: int -> Retry.Luck, outer: Retry.Luck,
                       inner: nat -> int -> Retry.Luck, ghost id: int, ghost tasks: Tasks, ghost may: set<C.Mishap>)
      returns (ok: bool, ghost sent: set<int>, ghost path: seq<C.Step>)
      requires Valid() && id in tasks && tasks[id].req == C.Join(server)
      requires sender in servers && server !in servers && server in processes
      modifies processes.Values
      ensures Valid()
      ensures ok == Retry.Succeeds(TransferLuck(old(servers[sender].data.Keys), outer, inner))
      ensures Sent(old(servers[sender].data.Keys), outer, inner, sent)
      ensures Contents()
           == old(Contents())[server := old(processes[server].data) + Restrict(old(servers[sender].data), sent)]
      ensures LockedIds() == old(LockedIds()) + Landed(servers.Keys, lockLuck)
      ensures Path(old(View(Some(id), Moved(tasks, id, C.JoinLocking(sender, servers.Keys)))), path,
                   if ok then View(Some(id), Moved(tasks, id, C.Unlocking(servers.Keys)))
                   else View(None, Moved(tasks, id, C.Failed)), may)
    {
      hide Path, TransferLuck, Retry.Succeeds, SentBy, Landed, Restrict;
      MembersAreProcesses();
      OutsidersAreNoMembers();
      ghost var start := View(Some(id), Moved(tasks, id, C.JoinLocking(sender, servers.Keys)));
      path := LockAll(lockLuck, id, tasks, Some(sender), may);
      ghost var locked := View(Some(id), Moved(tasks, id, C.JoinLocking(sender, {})));
      label sending:
      ok, sent := Transfer(servers[sender], processes[server], outer, inner);
      OneChanged@sending(server);
      path := JoinSends(start, path, locked, id, server, sender, sent, ok, tasks, may);
      RestrictToAll(servers[sender].data);
    }

    /** The guarded section of addServer: lock, copy from `sender`, unlock. */
    method CopyFrom(sender: int, server: int, lockLuck: int -> Retry.Luck, outer: Retry.Luck,
                    inner: nat -> int -> Retry.Luck, unlockLuck: int -> Retry.Luck,
                    ghost id: int, ghost tasks: Tasks, ghost may: set<C.Mishap>)
      returns (ok: bool, ghost sent: set<int>, ghost path: seq<C.Step>)
      requires Valid() && id in tasks && tasks[id].req == C.Join(server)
      requires sender in servers && server !in servers && server in processes
      modifies processes.Values
      ensures Valid()
      ensures ok <==> JoinSucceeds(old(servers[sender].data.Keys), outer, inner, servers.Keys, unlockLuck)
      ensures Sent(old(servers[sender].data.Keys), outer, inner, sent)
      ensures Contents()
           == old(Contents())[server := old(processes[server].data) + Restrict(old(servers[sender].data), sent)]
      ensures JoinLocks(servers.Keys, old(servers[sender].data.Keys), lockLuck, outer, inner, unlockLuck,
                        old(LockedIds()), LockedIds())
      ensures Path(old(View(Some(id), Moved(tasks, id, C.JoinLocking(sender, servers.Keys)))), path,
                   if ok then View(Some(id), Moved(tasks, id, C.Unlocking({})))
                   else View(None, Moved(tasks, id, C.Failed)), may)
    {
      hide Path, TransferLuck, Retry.Succeeds, Sent, Landed, Restrict, Unlocks;
      MembersAreProcesses();
      OutsidersAreNoMembers();
      ghost var start := View(Some(id), Moved(tasks, id, C.JoinLocking(sender, servers.Keys)));
      ok, sent, path := LockAndSend(sender, server, lockLuck, outer, inner, id, tasks, may);
      if ok {
        ghost var unlocking := View(Some(id), Moved(tasks, id, C.Unlocking(servers.Keys)));
        ghost var more;
        ok, more := UnlockAll(unlockLuck, id, tasks, may);
        ghost var ended := if ok then View(Some(id), Moved(tasks, id, C.Unlocking({})))
                           else View(None, Moved(tasks, id, C.Failed));
        path := Paths.Join(start, path, unlocking, more, ended, may);
      }
    }

    /** addServer, from call to return. */
    method AddServer(server: int, lockLuck: int -> Retry.Luck, outer: Retry.Luck,
                     inner: nat -> int -> Retry.Luck, unlockLuck: int -> Retry.Luck, ghost id: int, ghost tasks: Tasks)
      returns (reply: JoinReply, ghost sender: Option<int>, ghost sent: set<int>, ghost path: seq<C.Step>)
      requires Valid() && id !in tasks
      modifies this`servers, processes.Values
      ensures Valid()
      ensures reply.AlreadyExists? <==> server in old(servers)
      ensures reply.NotReachable? <==> server !in old(servers) && server !in processes
      ensures servers.Keys == if reply.Added? then old(servers).Keys + {server} else old(servers).Keys
      ensures sender.Some? <==> server !in old(servers) && server in processes && old(servers).Keys != {}
      ensures sender.None? && server !in old(servers) && server in processes ==> reply.Added?
      ensures sender.Some? ==> sender.value in old(servers) && sender.value in processes
      ensures sender.Some? ==> (reply.Added? <==>
                JoinSucceeds(old(servers[sender.value].data.Keys), outer, inner, old(servers).Keys, unlockLuck))
      ensures sender.Some? ==>
                && Sent(old(processes[sender.value].data.Keys), outer, inner, sent)
                && Contents()
                   == old(Contents())[server := old(processes[server].data)
                                                + Restrict(old(processes[sender.value].data), sent)]
                && JoinLocks(old(servers).Keys, old(processes[sender.value].data.Keys), lockLuck, outer, inner,
                             unlockLuck, old(LockedIds()), LockedIds())
      ensures sender.None? ==> Contents() == old(Contents()) && LockedIds() == old(LockedIds())
      ensures Path(old(View(None, tasks)), path,
                   View(None, tasks[id := C.Task(C.Join(server), if reply.JoinThrew? then C.Failed else C.Finished)]),
                   {})
    {
      hide Path;
      ghost var may: set<C.Mishap> := {};
      ghost var start, called := View(None, tasks), tasks[id := C.Task(C.Join(server), C.Called)];
      if server in servers {
        path := JoinKnown(start, id, server, called, may);
        return AlreadyExists, None, {}, path;
      }
      if server !in processes {
        path := JoinUnreachable(start, id, server, called, may);
        return NotReachable, None, {}, path;
      }
      if servers.Keys == {} {
        path := JoinAlone(start, id, server, called, may);
        servers := servers[server := processes[server]];
        assert servers.Keys == {server};
        return Added, None, {}, path;
      }
      var first := Pick(servers.Keys);
      sender := Some(first);
      var ok;
      ok, sent, path := AddBehind(first, server, lockLuck, outer, inner, unlockLuck, id, tasks, may);
      reply := if ok then Added else JoinThrew;
    }

    /** The part of addServer that holds serversLock. */
    method AddBehind(sender: int, server: int, lockLuck: int -> Retry.Luck, outer: Retry.Luck,
                     inner: nat -> int -> Retry.Luck, unlockLuck: int -> Retry.Luck,
                     ghost id: int, ghost tasks: Tasks, ghost may: set<C.Mishap>)
      returns (ok: bool, ghost sent: set<int>, ghost path: seq<C.Step>)
      requires Valid() && id !in tasks && sender in servers && server !in servers && server in processes
      modifies this`servers, processes.Values
      ensures Valid()
      ensures ok <==> JoinSucceeds(old(processes[sender].data.Keys), outer, inner, old(servers).Keys, unlockLuck)
      ensures servers == if ok then old(servers)[server := processes[server]] else old(servers)
      ensures Sent(old(processes[sender].data.Keys), outer, inner, sent)
      ensures Contents()
           == old(Contents())[server := old(processes[server].data) + Restrict(old(processes[sender].data), sent)]
      ensures JoinLocks(old(servers).Keys, old(processes[sender].data.Keys), lockLuck, outer, inner, unlockLuck,
                        old(LockedIds()), LockedIds())
      ensures Path(old(View(None, tasks)), path,
                   View(None, tasks[id := C.Task(C.Join(server), if ok then C.Finished else C.Failed)]), may)
    {
      hide Path, JoinSucceeds, JoinLocks, Sent, Landed, TransferLuck, Restrict, C.Enabled, C.Apply, C.Happens, Contents,
        LockedIds;
      ghost var start, called := View(None, tasks), tasks[id := C.Task(C.Join(server), C.Called)];
      path := JoinBegins(start, id, server, sender, called, may);
      ghost var began := View(Some(id), Moved(called, id, C.JoinLocking(sender, servers.Keys)));
      ghost var more;
      ok, sent, more := CopyFrom(sender, server, lockLuck, outer, inner, unlockLuck, id, called, may);
      ghost var ran := if ok then View(Some(id), Moved(called, id, C.Unlocking({})))
                       else View(None, Moved(called, id, C.Failed));
      path := Paths.Join(start, path, began, more, ran, may);
      if ok {
        MovedNew(tasks, id, C.Join(server), C.Finished);
        path := JoinInserts(start, path, ran, id, server, called, may);
        servers := servers[server := processes[server]];
        assert servers.Keys == old(servers).Keys + {server};
      } else {
        MovedNew(tasks, id, C.Join(server), C.Failed);
      }
    }

    /** shutdownServer. The call to the server is not retried; if it throws, the server stays. */
    method ShutdownServer(server: int, answers: bool, ghost tasks: Tasks)
      returns (reply: Option<string>, ghost path: seq<C.Step>)
      requires Valid()
      modifies this`servers
      ensures Valid()
      ensures reply == if server !in old(servers) then Some("ERR_NOEXIST")
                       else if answers then Some("Success") else None
      ensures servers == if answers then old(servers) - {server} else old(servers)
      ensures Path(old(View(None, tasks)), path, View(None, tasks), RemovalMishaps(old(servers), servers))
    {
      ghost var start := View(None, tasks);
      path := [];
      if server !in servers {
        assert servers - {server} == servers;
        return Some("ERR_NOEXIST"), path;
      }
      if !answers {
        return None, path;
      }
      path := Then(start, path, start, C.Remove(server), RemovalMishaps(servers, servers - {server}));
      servers := servers - {server};
      reply := Some("Success");
    }

    /** One heartbeat: a member that does not answer is removed. */
    method Beat(i: int, luck: Retry.Luck, ghost tasks: Tasks, ghost start: C.State, ghost path: seq<C.Step>,
                ghost may: set<C.Mishap>)
      returns (ghost longer: seq<C.Step>)
      requires Valid() && i in servers && Path(start, path, View(None, tasks), may)
      requires Retry.Succeeds(luck) || servers.Keys != {i} || servers[i].data == map[] || C.LastMemberRemoved in may
      modifies this`servers
      ensures Valid() && servers == if Retry.Succeeds(luck) then old(servers) else old(servers) - {i}
      ensures Path(start, longer, View(None, tasks), may)
    {
      longer := path;
      var state, answer, attempts, slept := Retry.Run((), (u: ()) => (u, true), luck);
      if answer.None? {
        longer := Then(start, path, View(None, tasks), C.Remove(i), may);
        servers := servers - {i};
      }
    }

    /** One sweep of the heartbeat: every member that does not answer in time is removed. */
    method Sweep(luck: int -> Retry.Luck, ghost tasks: Tasks) returns (ghost path: seq<C.Step>)
      requires Valid()
      modifies this`servers
      ensures Valid()
      ensures servers == Survivors(old(servers), {}, luck)
      ensures Path(old(View(None, tasks)), path, View(None, tasks), RemovalMishaps(old(servers), servers))
    {
      ghost var start, before := View(None, tasks), servers;
      ghost var may := RemovalMishaps(servers, Survivors(servers, {}, luck));
      path := [];
      assert Path(start, path, start, may);
      AllAreLeft(servers, luck);
      hide Path, RemovalMishaps, Survivors, Retry.Succeeds;
      var todo := servers.Keys;
      while todo != {}
        invariant Valid() && todo <= before.Keys && servers == Survivors(before, todo, luck)
        invariant Path(start, path, View(None, tasks), may)
        decreases todo
      {
        var i := Pick(todo);
        OneIsAsked(before, todo, luck, i);
        if servers.Keys == {i} && !Retry.Succeeds(luck(i)) {
          LastToGo(before, todo, luck, i);
        }
        path := Beat(i, luck(i), tasks, start, path, may);
        todo := todo - {i};
      }
    }
  }

  lemma RestrictToAll(m: map<int, int>)
    ensures Restrict(m, m.Keys) == m
  {
  }

  lemma RestrictToNone(base: map<int, int>, m: map<int, int>)
    ensures base + Restrict(m, {}) == base
  {
  }

  lemma RestrictTwice(base: map<int, int>, m: map<int, int>, a: set<int>, b: set<int>)
    ensures base + Restrict(m, a) + Restrict(m, b) == base + Restrict(m, a + b)
  {
  }

  lemma JoinKnown(s: C.State, id: int, server: int, called: Tasks, may: set<C.Mishap>) returns (path: seq<C.Step>)
    requires id !in s.tasks && server in s.members && called == s.tasks[id := C.Task(C.Join(server), C.Called)]
    ensures Path(s, path, s.(tasks := s.tasks[id := C.Task(C.Join(server), C.Finished)]), may)
  {
    path := Then(s, [], s, C.CallJoin(id, server), may);
    path := Then(s, path, s.(tasks := called), C.JoinCheck(id), may);
    MovedNew(s.tasks, id, C.Join(server), C.Finished);
  }

  lemma JoinChecks(s: C.State, id: int, server: int, called: Tasks, may: set<C.Mishap>) returns (path: seq<C.Step>)
    requires id !in s.tasks && server !in s.members && called == s.tasks[id := C.Task(C.Join(server), C.Called)]
    ensures Path(s, path, s.(tasks := Moved(called, id, C.NotPresent)), may)
  {
    path := Then(s, [], s, C.CallJoin(id, server), may);
    path := Then(s, path, s.(tasks := called), C.JoinCheck(id), may);
  }

  lemma JoinUnreachable(s: C.State, id: int, server: int, called: Tasks, may: set<C.Mishap>) returns (path: seq<C.Step>)
    requires id !in s.tasks && server !in s.members && called == s.tasks[id := C.Task(C.Join(server), C.Called)]
    ensures Path(s, path, s.(tasks := s.tasks[id := C.Task(C.Join(server), C.Finished)]), may)
  {
    path := JoinChecks(s, id, server, called, may);
    path := Then(s, path, s.(tasks := Moved(called, id, C.NotPresent)), C.JoinRefuse(id), may);
    MovedTwice(called, id, C.NotPresent, C.Finished);
    MovedNew(s.tasks, id, C.Join(server), C.Finished);
  }

  lemma JoinAlone(s: C.State, id: int, server: int, called: Tasks, may: set<C.Mishap>) returns (path: seq<C.Step>)
    requires id !in s.tasks && s.members == {} && s.serversLock == None
    requires called == s.tasks[id := C.Task(C.Join(server), C.Called)]
    ensures Path(s, path, s.(members := {server}, tasks := s.tasks[id := C.Task(C.Join(server), C.Finished)]), may)
  {
    path := JoinChecks(s, id, server, called, may);
    path := Then(s, path, s.(tasks := Moved(called, id, C.NotPresent)), C.JoinFindNone(id), may);
    MovedTwice(called, id, C.NotPresent, C.FoundNone);
    path := Then(s, path, s.(tasks := Moved(called, id, C.FoundNone)), C.JoinFirst(id), may);
    MovedTwice(called, id, C.FoundNone, C.Finished);
    MovedNew(s.tasks, id, C.Join(server), C.Finished);
    assert s.members + {server} == {server};
  }

  lemma JoinBegins(s: C.State, id: int, server: int, sender: int, called: Tasks, may: set<C.Mishap>)
    returns (path: seq<C.Step>)
    requires id !in s.tasks && server !in s.members && sender in s.members && s.serversLock == None
    requires called == s.tasks[id := C.Task(C.Join(server), C.Called)]
    ensures Path(s, path, s.(tasks := Moved(called, id, C.JoinLocking(sender, s.members)), serversLock := Some(id)),
                 may)
  {
    path := JoinChecks(s, id, server, called, may);
    path := Then(s, path, s.(tasks := Moved(called, id, C.NotPresent)), C.JoinFindSender(id, sender), may);
    MovedTwice(called, id, C.NotPresent, C.FoundSender(sender));
    path := Then(s, path, s.(tasks := Moved(called, id, C.FoundSender(sender))), C.JoinAcquire(id), may);
    MovedTwice(called, id, C.FoundSender(sender), C.JoinLocking(sender, s.members));
  }

  /** The transfer, complete or broken off. */
  lemma JoinSends(start: C.State, path: seq<C.Step>, s: C.State, id: int, server: int, sender: int,
                  sent: set<int>, ok: bool, called: Tasks, may: set<C.Mishap>)
    returns (longer: seq<C.Step>)
    requires Path(start, path, s, may) && id in called && called[id].req == C.Join(server)
    requires s.tasks == Moved(called, id, C.JoinLocking(sender, {})) && s.serversLock == Some(id)
    requires sender in s.members && sender in s.replicas && server in s.replicas && server != sender
    requires sent <= s.replicas[sender].data.Keys && (ok ==> sent == s.replicas[sender].data.Keys)
    ensures var r := s.replicas[server];
            var filled := s.replicas[server := r.(data := r.data + Restrict(s.replicas[sender].data, sent))];
            Path(start, longer,
                 if ok then s.(replicas := filled, tasks := Moved(called, id, C.Unlocking(s.members)))
                 else s.(replicas := filled, tasks := Moved(called, id, C.Failed), serversLock := None), may)
  {
    hide Path, C.Happens;
    var keys := s.replicas[sender].data.Keys;
    longer := Then(start, path, s, C.JoinBeginSend(id), may);
    MovedTwice(called, id, C.JoinLocking(sender, {}), C.Sending(sender, keys));
    var sending := s.(tasks := Moved(called, id, C.Sending(sender, keys)));
    longer := SendAll(start, longer, sending, id, sent, may);
    MovedTwice(called, id, C.Sending(sender, keys), C.Sending(sender, keys - sent));
    var arrived := Arrived(sending, id, sent);
    if ok {
      assert keys - sent == {};
      longer := Then(start, longer, arrived, C.JoinBeginUnlock(id), may);
      MovedTwice(called, id, C.Sending(sender, {}), C.Unlocking(s.members));
    } else {
      longer := Then(start, longer, arrived, C.JoinGiveUp(id), may);
      MovedTwice(called, id, C.Sending(sender, keys - sent), C.Failed);
    }
  }

  lemma JoinInserts(start: C.State, path: seq<C.Step>, s: C.State, id: int, server: int, called: Tasks,
                    may: set<C.Mishap>)
    returns (longer: seq<C.Step>)
    requires Path(start, path, s, may) && id in called && called[id].req == C.Join(server)
    requires s.tasks == Moved(called, id, C.Unlocking({}))
    ensures Path(start, longer,
                 s.(members := s.members + {server}, tasks := Moved(called, id, C.Finished), serversLock := None), may)
  {
    longer := Then(start, path, s, C.JoinInsert(id), may);
    MovedTwice(called, id, C.Unlocking({}), C.Finished);
  }

  lemma Acquire(start: C.State, id: int, key: int, value: int, called: Tasks, may: set<C.Mishap>)
    returns (path: seq<C.Step>)
    requires id !in start.tasks && start.serversLock == None && (start.members != {} || C.PutWithoutMembers in may)
    requires called == start.tasks[id := C.Task(C.Put(key, value), C.Called)]
    ensures Path(start, path,
                 start.(tasks := Moved(called, id, C.Locking(start.members)), serversLock := Some(id)), may)
  {
    path := Then(start, [], start, C.CallPut(id, key, value), may);
    path := Then(start, path, start.(tasks := called), C.PutAcquire(id), may);
  }

  lemma GetPath(s: C.State, id: int, key: int, m: int, may: set<C.Mishap>) returns (path: seq<C.Step>)
    requires id !in s.tasks && m in s.members && m in s.replicas && !s.replicas[m].isLocked
    ensures Path(s, path, s.(tasks := s.tasks[id := C.Task(C.Get(key), C.Finished)]), may)
    ensures path != [] && path[|path| - 1] == C.RetGet(id, Lookup(s.replicas[m].data, key))
  {
    var called := s.tasks[id := C.Task(C.Get(key), C.Called)];
    path := Then(s, [], s, C.CallGet(id, key), may);
    path := Then(s, path, s.(tasks := called), C.GetLookup(id, m), may);
    MovedNew(s.tasks, id, C.Get(key), C.Finished);
    path := GetAnswer(s, path, s.(tasks := Moved(called, id, C.LookedUp(m))), id, key, m, called, may);
  }

  lemma GetAnswer(start: C.State, path: seq<C.Step>, s: C.State, id: int, key: int, m: int, called: Tasks,
                  may: set<C.Mishap>)
    returns (longer: seq<C.Step>)
    requires Path(start, path, s, may) && m in s.replicas && !s.replicas[m].isLocked
    requires id in called && called[id].req == C.Get(key) && s.tasks == Moved(called, id, C.LookedUp(m))
    ensures Path(start, longer, s.(tasks := Moved(called, id, C.Finished)), may)
    ensures longer != [] && longer[|longer| - 1] == C.RetGet(id, Lookup(s.replicas[m].data, key))
  {
    var r := Lookup(s.replicas[m].data, key);
    longer := Then(start, path, s, C.GetCheck(id), may);
    MovedTwice(called, id, C.LookedUp(m), C.Checked(m));
    longer := Then(start, longer, s.(tasks := Moved(called, id, C.Checked(m))), C.GetRead(id), may);
    MovedTwice(called, id, C.Checked(m), C.HasRead(r));
    longer := Then(start, longer, s.(tasks := Moved(called, id, C.HasRead(r))), C.RetGet(id, r), may);
    MovedTwice(called, id, C.HasRead(r), C.Finished);
  }
}
