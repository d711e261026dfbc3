/** Any sequence of calls of a frontend, one after the other, on new server processes. */
module Sessions {
  import opened Options
  import opened Fates
  import opened Frontends
  import opened Servers
  import opened Paths
  import opened PathRuns
  import opened PathEffects
  import opened SessionSpec
  import C = Cluster
  import Selector

  /** Request `id` is the call, and is over. A get that waits or fails leaves no request. */
  ghost predicate Served(call: Call, id: int, tasks: Tasks) {
    match call
    case Put(key, value, _, _, _) => id in tasks && tasks[id].req == C.Put(key, value) && IsOver(tasks[id])
    case Get(key) => id in tasks ==> tasks[id] == C.Task(C.Get(key), C.Finished)
    case AddServer(server, _, _, _, _) => id in tasks && tasks[id].req == C.Join(server) && IsOver(tasks[id])
    case ShutdownServer(_, _) => id !in tasks
    case Sweep(_) => id !in tasks
  }

  ghost predicate AllOver(tasks: Tasks) {
    forall id | id in tasks :: IsOver(tasks[id])
  }

  /** `after` knows `tasks`, unchanged, and perhaps request `id`, which is over. */
  ghost predicate GrowsBy(tasks: Tasks, id: int, after: Tasks) {
    && AllOver(after) && after.Keys <= tasks.Keys + {id}
    && forall i | i in tasks :: i in after && after[i] == tasks[i]
  }

  lemma OneMore(tasks: Tasks, id: int, task: C.Task)
    requires AllOver(tasks) && id !in tasks && IsOver(task)
    ensures GrowsBy(tasks, id, tasks[id := task])
  {
  }

  lemma NoneMore(tasks: Tasks, id: int)
    requires AllOver(tasks)
    ensures GrowsBy(tasks, id, tasks)
  {
  }

  /** Requests 0 to `n - 1` are the first `n` calls, and all there are. */
  ghost predicate AllServed(calls: seq<Call>, n: nat, tasks: Tasks) {
    && n <= |calls| && AllOver(tasks) && (forall id | id in tasks :: id < n)
    && forall i | 0 <= i < n :: Served(calls[i], i, tasks)
  }

  lemma OneMoreServed(calls: seq<Call>, n: nat, tasks: Tasks, after: Tasks)
    requires AllServed(calls, n, tasks) && n < |calls| && GrowsBy(tasks, n, after) && Served(calls[n], n, after)
    ensures AllServed(calls, n + 1, after)
  {
    forall i | 0 <= i < n ensures Served(calls[i], i, after) {
      assert Served(calls[i], i, tasks);
    }
  }

  ghost predicate Holds(f: Frontend, stored: C.Data)
    reads f, f.processes.Values
  {
    forall m | m in f.servers && m in f.processes :: f.processes[m].data == stored
  }

  /** What may go wrong in a call of a frontend whose members hold `stored`, or do not. */
  ghost function MayGoWrong(f: Frontend, holds: bool, members: set<int>, stored: C.Data, call: Call): set<C.Mishap> {
    if holds then CallMishaps(f.processes.Keys, members, stored, call) else ALL_MISHAPS
  }

  // ---------------------------------------------------------------- One call

  method ServePut(f: Frontend, call: Call, ghost id: int, ghost tasks: Tasks, ghost stored: C.Data)
    returns (reply: Reply, ghost after: Tasks, ghost path: seq<C.Step>)
    requires f.Valid() && id !in tasks && AllOver(tasks) && call.Put?
    modifies f.processes.Values
    ensures f.Valid() && GrowsBy(tasks, id, after) && Served(call, id, after)
    ensures Path(old(f.View(None, tasks)), path, f.View(None, after),
                 PutMishaps(f.servers.Keys, call.lockLuck, call.writeLuck))
    ensures Behaves(f.processes.Keys, f.servers.Keys, stored, old(f.LockedIds()), call, reply, f.servers.Keys,
                    f.LockedIds())
  {
    hide Path, AllOver, GrowsBy, PutMishaps, AllSucceed, PutLocks, StopsAtFirst;
    f.MembersAreProcesses();
    f.OutsidersAreNoMembers();
    var text;
    ghost var written;
    text, written, path := f.Put(call.key, call.value, call.lockLuck, call.writeLuck, call.unlockLuck, id, tasks);
    reply := ToPut(text);
    ghost var task := C.Task(C.Put(call.key, call.value), if text.Some? then C.Finished else C.Failed);
    after := tasks[id := task];
    OneMore(tasks, id, task);
  }

  method ServeGet(f: Frontend, call: Call, ghost id: int, ghost tasks: Tasks, ghost stored: C.Data)
    returns (reply: Reply, ghost after: Tasks, ghost path: seq<C.Step>)
    requires f.Valid() && id !in tasks && AllOver(tasks) && call.Get?
    ensures GrowsBy(tasks, id, after) && Served(call, id, after)
    ensures Path(f.View(None, tasks), path, f.View(None, after), {})
    ensures Holds(f, stored) ==> Behaves(f.processes.Keys, f.servers.Keys, stored, f.LockedIds(), call, reply,
                                         f.servers.Keys, f.LockedIds())
  {
    hide Selector.Select;
    var get;
    get, path := f.Get(call.key, id, tasks);
    reply := ToGet(get);
    if Holds(f, stored) && Selector.Select(call.key, f.servers.Keys).Some? {
      var m := Selector.Select(call.key, f.servers.Keys).value;
      assert m in f.servers && f.servers[m].data == stored;
    }
    if get.Replied? {
      hide Path, AllOver, GrowsBy;
      after := tasks[id := C.Task(C.Get(call.key), C.Finished)];
      OneMore(tasks, id, C.Task(C.Get(call.key), C.Finished));
    } else {
      hide AllOver, C.Enabled, C.Apply;
      after, path := tasks, [];
    }
  }

  lemma AddServerBehaves(ids: set<int>, members: set<int>, stored: C.Data, locked: set<int>, call: Call,
                         join: JoinReply, after: set<int>, lockedAfter: set<int>)
    requires call.AddServer?
    requires join.AlreadyExists? <==> call.server in members
    requires join.NotReachable? <==> call.server !in members && call.server !in ids
    requires after == if join.Added? then members + {call.server} else members
    requires call.server !in members && call.server in ids ==>
               if members == {} then join.Added? && lockedAfter == locked
               else (join.Added? <==> JoinSucceeds(stored.Keys, call.outer, call.inner, members, call.unlockLuck))
                    && JoinLocks(members, stored.Keys, call.lockLuck, call.outer, call.inner, call.unlockLuck,
                                 locked, lockedAfter)
    requires call.server in members || call.server !in ids ==> lockedAfter == locked
    ensures Behaves(ids, members, stored, locked, call, ToAddServer(join), after, lockedAfter)
  {
    hide JoinLocks, JoinSucceeds;
  }

  method ServeAddServer(f: Frontend, call: Call, ghost id: int, ghost tasks: Tasks, ghost stored: C.Data)
    returns (reply: Reply, ghost after: Tasks, ghost path: seq<C.Step>)
    requires f.Valid() && id !in tasks && AllOver(tasks) && call.AddServer?
    modifies f`servers, f.processes.Values
    ensures f.Valid() && GrowsBy(tasks, id, after) && Served(call, id, after)
    ensures Path(old(f.View(None, tasks)), path, f.View(None, after), {})
    ensures old(Holds(f, stored)) ==> Behaves(f.processes.Keys, old(f.servers.Keys), stored, old(f.LockedIds()), call,
                                              reply, f.servers.Keys, f.LockedIds())
  {
    hide Path, AllOver, GrowsBy, JoinSucceeds, JoinLocks, Sent, Behaves, Restrict;
    assert Holds(f, stored) ==> forall m | m in f.servers :: f.servers[m].data == stored;
    var join;
    ghost var sender, sent;
    join, sender, sent, path :=
      f.AddServer(call.server, call.lockLuck, call.outer, call.inner, call.unlockLuck, id, tasks);
    reply := ToAddServer(join);
    if old(Holds(f, stored)) {
      if sender.Some? {
        ghost var m := sender.value;
        assert m in f.processes && old(f.servers[m]) == f.processes[m];
      }
      AddServerBehaves(f.processes.Keys, old(f.servers.Keys), stored, old(f.LockedIds()), call, join, f.servers.Keys,
                       f.LockedIds());
    }
    ghost var task := C.Task(C.Join(call.server), if join.JoinThrew? then C.Failed else C.Finished);
    after := tasks[id := task];
    OneMore(tasks, id, task);
  }

  /** If the members hold `stored`, a removal goes wrong exactly as the specification says. */
  lemma RemovalIsAsSaid(f: Frontend, before: map<int, Server>, after: map<int, Server>, stored: C.Data, call: Call)
    requires call.ShutdownServer? || call.Sweep?
    requires forall m | m in before :: before[m].data == stored
    requires after.Keys == MembersAfter(f.processes.Keys, before.Keys, stored, call)
    ensures RemovalMishaps(before, after) <= CallMishaps(f.processes.Keys, before.Keys, stored, call)
  {
  }

  method ServeRemoval(f: Frontend, call: Call, ghost tasks: Tasks, ghost stored: C.Data)
    returns (reply: Reply, ghost path: seq<C.Step>)
    requires f.Valid() && (call.ShutdownServer? || call.Sweep?)
    modifies f`servers
    ensures f.Valid()
    ensures Path(old(f.View(None, tasks)), path, f.View(None, tasks),
                 MayGoWrong(f, old(Holds(f, stored)), old(f.servers.Keys), stored, call))
    ensures Behaves(f.processes.Keys, old(f.servers.Keys), stored, old(f.LockedIds()), call, reply, f.servers.Keys,
                    f.LockedIds())
  {
    hide Path, RemovalMishaps;
    ghost var start, before, holds := f.View(None, tasks), f.servers, Holds(f, stored);
    assert holds ==> forall m | m in before :: before[m].data == stored;
    match call {
      case ShutdownServer(server, answers) =>
        var text;
        text, path := f.ShutdownServer(server, answers, tasks);
        reply := ToShutdown(text);
      case Sweep(aliveLuck) =>
        path := f.Sweep(aliveLuck, tasks);
        reply := ToSweep;
    }
    if holds {
      RemovalIsAsSaid(f, before, f.servers, stored, call);
    }
    AllMishaps(RemovalMishaps(before, f.servers));
    Widen(start, path, f.View(None, tasks), RemovalMishaps(before, f.servers),
          MayGoWrong(f, holds, before.Keys, stored, call));
  }

  method Serve(f: Frontend, call: Call, ghost id: int, ghost tasks: Tasks, ghost stored: C.Data)
    returns (reply: Reply, ghost after: Tasks, ghost path: seq<C.Step>)
    requires f.Valid() && id !in tasks && AllOver(tasks)
    modifies f`servers, f.processes.Values
    ensures f.Valid() && GrowsBy(tasks, id, after) && Served(call, id, after)
    ensures Path(old(f.View(None, tasks)), path, f.View(None, after),
                 MayGoWrong(f, old(Holds(f, stored)), old(f.servers.Keys), stored, call))
    ensures old(Holds(f, stored)) ==> Behaves(f.processes.Keys, old(f.servers.Keys), stored, old(f.LockedIds()), call,
                                              reply, f.servers.Keys, f.LockedIds())
  {
    hide Path, GrowsBy, Behaves, PutMishaps, Holds, AllOver, Frontend.LockedIds;
    ghost var start, may := f.View(None, tasks), MayGoWrong(f, Holds(f, stored), f.servers.Keys, stored, call);
    match call {
      case Put(_, _, lockLuck, writeLuck, _) =>
        reply, after, path := ServePut(f, call, id, tasks, stored);
        AllMishaps(PutMishaps(f.servers.Keys, lockLuck, writeLuck));
        Widen(start, path, f.View(None, after), PutMishaps(f.servers.Keys, lockLuck, writeLuck), may);
      case Get(_) =>
        reply, after, path := ServeGet(f, call, id, tasks, stored);
        Widen(start, path, f.View(None, after), {}, may);
      case AddServer(_, _, _, _, _) =>
        reply, after, path := ServeAddServer(f, call, id, tasks, stored);
        Widen(start, path, f.View(None, after), {}, may);
      case _ =>
        reply, path := ServeRemoval(f, call, tasks, stored);
        after := tasks;
        NoneMore(tasks, id);
    }
  }

  // ---------------------------------------------------------------- All calls

  lemma ServedStores(call: Call, id: int, path: seq<C.Step>, before: C.State, more: seq<C.Step>, after: C.State,
                     may: set<C.Mishap>)
    requires id !in before.tasks && AllOver(before.tasks) && after.tasks.Keys <= before.tasks.Keys + {id}
    requires Path(before, more, after, may) && Served(call, id, after.tasks)
    ensures C.MapAt(path + more, |path + more|) == Stored(C.MapAt(path, |path|), call)
  {
    hide Path, C.MapAt;
    OneRequestStores(path, before, more, after, id, may);
  }

  lemma GrownBy(tasks: Tasks, id: int, after: Tasks)
    requires GrowsBy(tasks, id, after)
    ensures after.Keys <= tasks.Keys + {id}
  {
  }

  /** One more call of a session. */
  method ServeNext(f: Frontend, calls: seq<Call>, n: nat, ghost start: C.State, ghost path: seq<C.Step>,
                   ghost tasks: Tasks, ghost replies: seq<Reply>, ghost locks: seq<set<int>>)
    returns (reply: Reply, ghost after: Tasks, ghost longer: seq<C.Step>)
    requires f.Valid() && n < |calls| && AllServed(calls, n, tasks)
    requires AllBehave(f.processes.Keys, calls, n, replies, locks, f.servers.Keys) && locks[n] == f.LockedIds()
    requires IsFine(f.processes.Keys, calls, n) ==> Holds(f, StoredBy(calls, n))
    requires Path(start, path, f.View(None, tasks), MayHappen(f.processes.Keys, calls, n))
    requires C.MapAt(path, |path|) == StoredBy(calls, n)
    modifies f`servers, f.processes.Values
    ensures f.Valid() && AllServed(calls, n + 1, after)
    ensures AllBehave(f.processes.Keys, calls, n + 1, replies + [reply], locks + [f.LockedIds()], f.servers.Keys)
    ensures Path(start, longer, f.View(None, after), MayHappen(f.processes.Keys, calls, n + 1))
    ensures C.MapAt(longer, |longer|) == StoredBy(calls, n + 1)
  {
    hide Path, C.MapAt, Served, GrowsBy, Behaves, IsServed, CallMishaps, MembersAfter, Holds, Frontend.LockedIds;
    ghost var ids, stored, before := f.processes.Keys, StoredBy(calls, n), f.View(None, tasks);
    ghost var members, holds := f.servers.Keys, Holds(f, stored);
    ghost var more;
    reply, after, more := Serve(f, calls[n], n, tasks, stored);
    OneMoreServed(calls, n, tasks, after);
    OneMoreBehaves(ids, calls, n, replies, locks, members, reply, f.servers.Keys, f.LockedIds());
    MoreMayHappen(ids, calls, n);
    ghost var may, said := MayHappen(ids, calls, n + 1), MayGoWrong(f, holds, members, stored, calls[n]);
    GrownBy(tasks, n, after);
    ServedStores(calls[n], n, path, before, more, f.View(None, after), said);
    AllMishaps(said);
    Widen(start, path, before, MayHappen(ids, calls, n), may);
    Widen(before, more, f.View(None, after), said, may);
    longer := Paths.Join(start, path, before, more, f.View(None, after), may);
  }

  lemma NewProcesses(f: Frontend)
    requires f.Valid() && f.servers == map[]
    requires forall i | i in f.processes :: f.processes[i].data == map[] && !f.processes[i].isLocked
    ensures Same(C.Init(), f.View(None, map[])) && f.LockedIds() == {}
  {
    assert forall i | i in f.processes :: i !in f.LockedIds();
    assert f.LockedIds() == {};
  }

  /** Unless a mishap other than a lost lock happens, the members hold what the puts have stored. */
  lemma FineMembersHold(f: Frontend, calls: seq<Call>, n: nat, start: C.State, path: seq<C.Step>, tasks: Tasks)
    requires f.Valid() && n <= |calls| && IsFine(f.processes.Keys, calls, n) && Same(C.Init(), start)
    requires Path(start, path, f.View(None, tasks), MayHappen(f.processes.Keys, calls, n))
    requires C.MapAt(path, |path|) == StoredBy(calls, n)
    ensures Holds(f, StoredBy(calls, n))
  {
    hide Path, C.MapAt, StoredBy, MishapsBy;
    forall m | m in f.servers ensures f.processes[m].data == StoredBy(calls, n) {
      PathEndsInAgreement(start, path, f.View(None, tasks), MayHappen(f.processes.Keys, calls, n), m);
    }
  }

  /** Any sequence of calls on new processes, under any fates of their remote calls. Every reply is that of one
      single map and of the membership, as long as no put found no members or gave up in its writes and no
      removal was the last one while something was stored; after the same calls every member holds exactly
      what the puts have stored. All calls together form one path of the step machine, on which just these
      mishaps happen. */
  method ServeAll(f: Frontend, calls: seq<Call>)
    returns (replies: seq<Reply>, ghost locks: seq<set<int>>, ghost tasks: Tasks, ghost path: seq<C.Step>)
    requires f.Valid() && f.servers == map[]
    requires forall i | i in f.processes :: f.processes[i].data == map[] && !f.processes[i].isLocked
    modifies f`servers, f.processes.Values
    ensures f.Valid() && AllServed(calls, |calls|, tasks)
    ensures AllBehave(f.processes.Keys, calls, |calls|, replies, locks, f.servers.Keys)
    ensures locks[|calls|] == f.LockedIds()
    ensures IsFine(f.processes.Keys, calls, |calls|) ==> Holds(f, StoredBy(calls, |calls|))
    ensures Path(old(f.View(None, map[])), path, f.View(None, tasks), MayHappen(f.processes.Keys, calls, |calls|))
    ensures C.MapAt(path, |path|) == StoredBy(calls, |calls|)
  {
    ghost var start, ids := f.View(None, map[]), f.processes.Keys;
    replies, locks, tasks, path := [], [{}], map[], [];
    NewProcesses(f);
    assert AllServed(calls, 0, tasks) && Path(start, path, start, {}) && C.MapAt(path, |path|) == map[];
    hide Path, Same, AllServed, GrowsBy, AllBehave, C.MapAt, Stored, CallMishaps, MembersAfter;
    for n := 0 to |calls|
      invariant f.Valid() && AllServed(calls, n, tasks)
      invariant AllBehave(ids, calls, n, replies, locks, f.servers.Keys)
      invariant |locks| == n + 1 && locks[n] == f.LockedIds()
      invariant Path(start, path, f.View(None, tasks), MayHappen(ids, calls, n))
      invariant C.MapAt(path, |path|) == StoredBy(calls, n)
    {
      if IsFine(ids, calls, n) {
        FineMembersHold(f, calls, n, start, path, tasks);
      }
      var reply;
      reply, tasks, path := ServeNext(f, calls, n, start, path, tasks, replies, locks);
      replies, locks := replies + [reply], locks + [f.LockedIds()];
    }
    if IsFine(ids, calls, |calls|) {
      FineMembersHold(f, calls, |calls|, start, path, tasks);
    }
  }
}
