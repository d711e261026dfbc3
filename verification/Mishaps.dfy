/**
 Why a run must be safe: each of the five mishaps alone is enough to break the single map. Every
 lemma here gives a concrete run in which nothing else goes wrong and which is not linearizable.
 */
module Mishaps {
  import opened Options
  import opened Cluster
  import opened ClusterLinearizable
  import L = Linearizability

  // ---------------------------------------------------------------- Building runs

  ghost predicate OnlyMishap(run: Run, x: Mishap) {
    IsRun(run) && forall t, y | 0 <= t < |run.steps| && y != x :: !Happens(run.states[t], run.steps[t], y)
  }

  function Last(run: Run): State
    requires run.states != []
  {
    run.states[|run.states| - 1]
  }

  lemma Do(run: Run, step: Step, x: Mishap) returns (next: Run)
    requires OnlyMishap(run, x) && Enabled(Last(run), step)
    requires forall y | y != x :: !Happens(Last(run), step, y)
    ensures OnlyMishap(next, x) && Last(next) == Apply(Last(run), step)
    ensures next.steps == run.steps + [step]
  {
    next := Run(run.states + [Apply(Last(run), step)], run.steps + [step]);
    forall t | 0 <= t < |next.steps|
      ensures StepAt(next, t)
    {
      if t < |run.steps| {
        assert StepAt(run, t);
      }
    }
    forall t, y | 0 <= t < |next.steps| && y != x
      ensures !Happens(next.states[t], next.steps[t], y)
    {
      if t < |run.steps| {
        assert !Happens(run.states[t], run.steps[t], y);
      }
    }
  }

  lemma DoQuietly(run: Run, step: Step, x: Mishap) returns (next: Run)
    requires OnlyMishap(run, x) && Enabled(Last(run), step) && Quiet(step)
    ensures OnlyMishap(next, x) && Last(next) == Apply(Last(run), step)
    ensures next.steps == run.steps + [step]
  {
    next := Do(run, step, x);
  }

  lemma Begin(x: Mishap) returns (run: Run)
    ensures OnlyMishap(run, x) && Last(run) == Init() && run.steps == []
  {
    run := Run([Init()], []);
  }

  ghost predicate Idle(s: State) {
    s.serversLock == None && forall id | id in s.tasks :: s.tasks[id].pc.Finished?
  }

  predicate Shows(run: Run, t: int, step: Step) {
    0 <= t < |run.steps| && run.steps[t] == step
  }

  /** A join is called, and passes its duplicate check. */
  lemma JoinChecked(run: Run, id: TaskId, m: ServerId, x: Mishap) returns (next: Run)
    requires OnlyMishap(run, x) && id !in Last(run).tasks && m !in Last(run).members
    ensures OnlyMishap(next, x) && run.steps <= next.steps
    ensures Last(next) == With(Last(run), id, Task(Join(m), NotPresent))
  {
    next := DoQuietly(run, CallJoin(id, m), x);
    next := DoQuietly(next, JoinCheck(id), x);
  }

  /** The first server joins, with nothing else going on. */
  lemma FirstServer(run: Run, id: TaskId, m: ServerId, x: Mishap) returns (next: Run)
    requires OnlyMishap(run, x) && Idle(Last(run)) && Last(run).members == {} && id !in Last(run).tasks
    ensures OnlyMishap(next, x) && run.steps <= next.steps
    ensures Last(next) == Last(run).(members := {m}, tasks := Last(run).tasks[id := Task(Join(m), Finished)])
  {
    next := JoinChecked(run, id, m, x);
    next := DoQuietly(next, JoinFindNone(id), x);
    next := Do(next, JoinFirst(id), x);
  }

  /** The task `id` moves on; nothing else about the tasks changes. */
  function With(s: State, id: TaskId, t: Task): State {
    s.(tasks := s.tasks[id := t])
  }

  /** A put on a cluster of one server, up to the start of its write phase. */
  lemma PutLocks(run: Run, id: TaskId, k: Key, v: Value, m: ServerId, x: Mishap) returns (next: Run)
    requires OnlyMishap(run, x) && Last(run).serversLock == None && Last(run).members == {m} && id !in Last(run).tasks
    ensures OnlyMishap(next, x) && run.steps <= next.steps && |next.steps| == |run.steps| + 3
    ensures Shows(next, |run.steps|, CallPut(id, k, v))
    ensures Last(next) == With(Last(run).(
                                 replicas := Last(run).replicas[m := Replica(Rep(Last(run), m).data, true)],
                                 serversLock := Some(id)), id, Task(Put(k, v), Locking({})))
  {
    next := DoQuietly(run, CallPut(id, k, v), x);
    next := Do(next, PutAcquire(id), x);
    next := DoQuietly(next, LockAttempt(id, m, true), x);
    assert Remaining({m}, m, true) == {};
  }

  lemma PutWrites(run: Run, id: TaskId, k: Key, v: Value, m: ServerId, x: Mishap) returns (next: Run)
    requires OnlyMishap(run, x) && Last(run).members == {m} && id in Last(run).tasks
    requires Last(run).tasks[id] == Task(Put(k, v), Locking({}))
    ensures OnlyMishap(next, x) && run.steps <= next.steps && |next.steps| == |run.steps| + 3
    ensures var r := Rep(Last(run), m);
            Last(next) == With(Last(run).(replicas := Last(run).replicas[m := r.(data := r.data[k := v])]),
                               id, Task(Put(k, v), Unlocking({m})))
  {
    next := DoQuietly(run, PutBeginWrite(id, k, v), x);
    next := DoQuietly(next, WriteAttempt(id, m, true), x);
    next := DoQuietly(next, PutBeginUnlock(id, k), x);
  }

  lemma PutReturns(run: Run, id: TaskId, k: Key, v: Value, m: ServerId, x: Mishap) returns (next: Run)
    requires OnlyMishap(run, x) && id in Last(run).tasks && Last(run).tasks[id] == Task(Put(k, v), Unlocking({m}))
    ensures OnlyMishap(next, x) && run.steps <= next.steps && |next.steps| == |run.steps| + 3
    ensures Shows(next, |next.steps| - 1, RetPut(id))
    ensures Last(next) == With(Last(run).(
                                 replicas := Last(run).replicas[m := Replica(Rep(Last(run), m).data, false)],
                                 serversLock := None), id, Task(Put(k, v), Finished))
  {
    next := DoQuietly(run, UnlockAttempt(id, m, true), x);
    next := DoQuietly(next, PutRelease(id), x);
    next := DoQuietly(next, RetPut(id), x);
  }

  /** A put on a cluster of one server, from call to return. */
  lemma PutOnOne(run: Run, id: TaskId, k: Key, v: Value, m: ServerId, x: Mishap) returns (next: Run)
    requires OnlyMishap(run, x) && Last(run).serversLock == None && Last(run).members == {m} && id !in Last(run).tasks
    ensures OnlyMishap(next, x) && run.steps <= next.steps && |next.steps| == |run.steps| + 9
    ensures Shows(next, |run.steps|, CallPut(id, k, v)) && Shows(next, |next.steps| - 1, RetPut(id))
    ensures Last(next) == With(Last(run).(
                                 replicas := Last(run).replicas[m := Replica(Rep(Last(run), m).data[k := v], false)]),
                               id, Task(Put(k, v), Finished))
  {
    hide OnlyMishap;
    next := PutLocks(run, id, k, v, m, x);
    next := PutWrites(next, id, k, v, m, x);
    next := PutReturns(next, id, k, v, m, x);
  }

  /** A get up to the point where it has found member `m` unlocked. */
  lemma GetPasses(run: Run, id: TaskId, k: Key, m: ServerId, x: Mishap) returns (next: Run)
    requires OnlyMishap(run, x) && m in Last(run).members && id !in Last(run).tasks
    requires !Rep(Last(run), m).isLocked
    ensures OnlyMishap(next, x) && run.steps <= next.steps && |next.steps| == |run.steps| + 3
    ensures Shows(next, |run.steps|, CallGet(id, k))
    ensures Last(next) == With(Last(run), id, Task(Get(k), Checked(m)))
  {
    next := DoQuietly(run, CallGet(id, k), x);
    next := DoQuietly(next, GetLookup(id, m), x);
    next := DoQuietly(next, GetCheck(id), x);
  }

  lemma GetAnswers(run: Run, id: TaskId, k: Key, m: ServerId, x: Mishap) returns (next: Run)
    requires OnlyMishap(run, x) && id in Last(run).tasks && Last(run).tasks[id] == Task(Get(k), Checked(m))
    ensures OnlyMishap(next, x) && run.steps <= next.steps && |next.steps| == |run.steps| + 2
    ensures Shows(next, |next.steps| - 1, RetGet(id, Lookup(Rep(Last(run), m).data, k)))
    ensures Last(next) == With(Last(run), id, Task(Get(k), Finished))
  {
    next := DoQuietly(run, GetRead(id), x);
    next := DoQuietly(next, RetGet(id, Lookup(Rep(Last(run), m).data, k)), x);
  }

  /** A join has picked its sender and holds serversLock. */
  lemma JoinAcquires(run: Run, id: TaskId, m: ServerId, sender: ServerId, x: Mishap) returns (next: Run)
    requires OnlyMishap(run, x) && Last(run).serversLock == None && id !in Last(run).tasks
    requires sender in Last(run).members && m !in Last(run).members
    ensures OnlyMishap(next, x) && run.steps <= next.steps
    ensures Last(next) == With(Last(run).(serversLock := Some(id)), id,
                               Task(Join(m), JoinLocking(sender, Last(run).members)))
  {
    next := JoinChecked(run, id, m, x);
    next := DoQuietly(next, JoinFindSender(id, sender), x);
    next := DoQuietly(next, JoinAcquire(id), x);
  }

  /** A second, fresh server joins a cluster of one empty server. */
  lemma SecondServer(run: Run, id: TaskId, a: ServerId, m: ServerId, x: Mishap) returns (next: Run)
    requires OnlyMishap(run, x) && Idle(Last(run)) && Last(run).members == {a} && id !in Last(run).tasks
    requires m != a && Rep(Last(run), a).data == map[]
    ensures OnlyMishap(next, x) && run.steps <= next.steps
    ensures Last(next) == With(Last(run).(
                                 members := {a, m}, replicas := Last(run).replicas[a := Replica(map[], false)]),
                               id, Task(Join(m), Finished))
  {
    next := JoinAcquires(run, id, m, a, x);
    next := SecondServerServed(next, id, a, m, x);
  }

  lemma SecondServerServed(run: Run, id: TaskId, a: ServerId, m: ServerId, x: Mishap) returns (next: Run)
    requires OnlyMishap(run, x) && Last(run).members == {a} && id in Last(run).tasks && m != a
    requires Last(run).tasks[id] == Task(Join(m), JoinLocking(a, {a})) && Rep(Last(run), a).data == map[]
    ensures OnlyMishap(next, x) && run.steps <= next.steps
    ensures Last(next) == With(Last(run).(
                                 members := {a, m}, replicas := Last(run).replicas[a := Replica(map[], false)],
                                 serversLock := None),
                               id, Task(Join(m), Finished))
  {
    assert Remaining({a}, a, true) == {};
    next := DoQuietly(run, LockAttempt(id, a, true), x);
    next := JoinSendsNothing(next, id, m, a, x);
    assert Last(next) == With(Last(run).(replicas := Last(run).replicas[a := Replica(map[], true)]),
                              id, Task(Join(m), Unlocking({a})));
    next := SecondServerInserted(next, id, a, m, x);
  }

  lemma SecondServerInserted(run: Run, id: TaskId, a: ServerId, m: ServerId, x: Mishap) returns (next: Run)
    requires OnlyMishap(run, x) && Last(run).members == {a} && id in Last(run).tasks && m != a
    requires Last(run).tasks[id] == Task(Join(m), Unlocking({a})) && Rep(Last(run), a).data == map[]
    ensures OnlyMishap(next, x) && run.steps <= next.steps
    ensures Last(next) == With(Last(run).(
                                 members := {a, m}, replicas := Last(run).replicas[a := Replica(map[], false)],
                                 serversLock := None),
                               id, Task(Join(m), Finished))
  {
    assert Remaining({a}, a, true) == {};
    next := DoQuietly(run, UnlockAttempt(id, a, true), x);
    next := DoQuietly(next, JoinInsert(id), x);
  }

  // ---------------------------------------------------------------- A key that vanishes

  /** `e` shows that key `k` is present. */
  predicate ShowsKey(e: L.Entry, k: Key) {
    (e.op.Write? && e.op.key == k) || (e.op == L.Read(k) && e.response.Answer? && e.response.value.Some?)
  }

  lemma {:induction false} KeysStay(order: seq<L.Entry>, i: nat, n: nat, k: Key)
    requires L.Legal(order) && i < n <= |order| && ShowsKey(order[i], k)
    ensures k in L.Replay(order[..n])
  {
    assert order[..n][..n - 1] == order[..n - 1];
    if i < n - 1 {
      KeysStay(order, i, n - 1, k);
    } else {
      assert L.LegalAt(order, i);
    }
  }

  /** One operation shows the key and has responded; a later one does not find it. */
  ghost predicate KeyVanishes(trace: seq<L.Event>, a: L.Entry, b: L.Entry, k: Key) {
    && ShowsKey(a, k) && b.op == L.Read(k) && b.response == L.Answer(None)
    && L.Respond(b.id, b.response) in trace && L.Precedes(trace, a.id, b.id)
    && L.Respond(a.id, a.response) in trace
    && L.CallsOnly(trace, a.id, a.op) && L.CallsOnly(trace, b.id, b.op)
  }

  lemma Placed(trace: seq<L.Event>, order: seq<L.Entry>, e: L.Entry) returns (i: int)
    requires L.IsLinearization(trace, order) && L.Respond(e.id, e.response) in trace
    requires L.CallsOnly(trace, e.id, e.op)
    ensures 0 <= i < |order| && order[i] == e
  {
    var p :| 0 <= p < |trace| && trace[p] == L.Respond(e.id, e.response);
    var q;
    i, q := L.PlaceOf(trace, order, p);
    assert L.IsCall(trace[q], e.id);
  }

  lemma VanishedKeyIsNotLegal(trace: seq<L.Event>, order: seq<L.Entry>, a: L.Entry, b: L.Entry, k: Key)
    requires KeyVanishes(trace, a, b, k)
    ensures !L.IsLinearization(trace, order)
  {
    if L.IsLinearization(trace, order) {
      var i := Placed(trace, order, a);
      var j := Placed(trace, order, b);
      assert L.LegalAt(order, j);
      L.PrecedesInOrder(trace, order, i, j);
      KeysStay(order, i, j, k);
    }
  }

  /** Operation `a` is called at `ca` and responds at `pa`, showing the key; get `b` is called
      later, at `cb`, and answers at `pb` that there is no such key. */
  lemma NotLinearizable(run: Run, ca: nat, pa: nat, cb: nat, pb: nat, a: L.Entry, b: TaskId, k: Key)
    requires IsRun(run) && ca < |run.steps| && pa < cb < |run.steps| && pb < |run.steps|
    requires Visible(run.steps[ca]) == L.Call(a.id, a.op) && Visible(run.steps[pa]) == L.Respond(a.id, a.response)
    requires ShowsKey(a, k)
    requires run.steps[cb] == CallGet(b, k) && run.steps[pb] == RetGet(b, None)
    ensures !L.Linearizable(Trace(run.steps))
  {
    var trace := Trace(run.steps);
    CalledOnce(run, ca, a.id);
    CalledOnce(run, cb, b);
    assert trace[pa] == L.Respond(a.id, a.response);
    assert L.IsRespond(trace[pa], a.id) && L.IsCall(trace[cb], b);
    assert trace[pb] == L.Respond(b, L.Answer(None));
    assert KeyVanishes(trace, a, L.Entry(b, L.Read(k), L.Answer(None)), k);
    forall order ensures !L.IsLinearization(trace, order) {
      VanishedKeyIsNotLegal(trace, order, a, L.Entry(b, L.Read(k), L.Answer(None)), k);
    }
  }

  /** What all five lemmas end with: an unlocked member that lacks the key answers a new get. */
  lemma MissingKeyIsSeen(run: Run, ca: nat, pa: nat, a: L.Entry, k: Key, b: TaskId, m: ServerId, x: Mishap)
    returns (bad: Run)
    requires OnlyMishap(run, x) && ca < |run.steps| && pa < |run.steps|
    requires Visible(run.steps[ca]) == L.Call(a.id, a.op) && Visible(run.steps[pa]) == L.Respond(a.id, a.response)
    requires ShowsKey(a, k)
    requires m in Last(run).members && b !in Last(run).tasks && Rep(Last(run), m) == Replica(map[], false)
    ensures OnlyMishap(bad, x) && !L.Linearizable(Trace(bad.steps))
  {
    var passed := GetPasses(run, b, k, m, x);
    bad := GetAnswers(passed, b, k, m, x);
    assert Shows(bad, |run.steps|, CallGet(b, k));
    assert Shows(bad, ca, run.steps[ca]) && Shows(bad, pa, run.steps[pa]);
    NotLinearizable(bad, ca, pa, |run.steps|, |bad.steps| - 1, a, b, k);
  }

  // ---------------------------------------------------------------- The five mishaps

  /** The last member is removed, a fresh server joins, and everything stored is gone. */
  lemma RemovingTheLastMemberBreaksIt() returns (bad: Run)
    ensures OnlyMishap(bad, LastMemberRemoved) && !L.Linearizable(Trace(bad.steps))
  {
    var x := LastMemberRemoved;
    var run := Begin(x);
    run := FirstServer(run, 1, 0, x);
    var start := |run.steps|;
    run := PutOnOne(run, 2, 5, 7, 0, x);
    var end := |run.steps| - 1;
    run := Do(run, Remove(0), x);
    run := FirstServer(run, 3, 1, x);
    assert Shows(run, start, CallPut(2, 5, 7)) && Shows(run, end, RetPut(2));
    bad := MissingKeyIsSeen(run, start, end, L.Entry(2, L.Write(5, 7), L.Ack), 5, 4, 1, x);
  }

  /** A put on zero servers reports success and stores nothing. */
  lemma PuttingWithoutMembersBreaksIt() returns (bad: Run)
    ensures OnlyMishap(bad, PutWithoutMembers) && !L.Linearizable(Trace(bad.steps))
  {
    var x := PutWithoutMembers;
    var run := Begin(x);
    run := DoQuietly(run, CallPut(2, 5, 7), x);
    run := Do(run, PutAcquire(2), x);
    run := DoQuietly(run, PutBeginWrite(2, 5, 7), x);
    assert Last(run) == State({}, map[], Some(2), map[2 := Task(Put(5, 7), Writing({}))]);
    run := EmptyPutReturns(run, x);
    run := FirstServer(run, 1, 0, x);
    assert Shows(run, 0, CallPut(2, 5, 7)) && Shows(run, 5, RetPut(2));
    bad := MissingKeyIsSeen(run, 0, 5, L.Entry(2, L.Write(5, 7), L.Ack), 5, 4, 0, x);
  }

  lemma EmptyPutReturns(run: Run, x: Mishap) returns (next: Run)
    requires OnlyMishap(run, x)
    requires Last(run) == State({}, map[], Some(2), map[2 := Task(Put(5, 7), Writing({}))])
    ensures OnlyMishap(next, x) && run.steps <= next.steps && Shows(next, |run.steps| + 2, RetPut(2))
    ensures Last(next) == State({}, map[], None, map[2 := Task(Put(5, 7), Finished)])
  {
    next := DoQuietly(run, PutBeginUnlock(2, 5), x);
    next := DoQuietly(next, PutRelease(2), x);
    next := DoQuietly(next, RetPut(2), x);
  }

  /** Two servers join at once, both find the cluster empty, and neither copies from the other. */
  lemma RacingJoinsBreakIt() returns (bad: Run)
    ensures OnlyMishap(bad, RacingJoin) && !L.Linearizable(Trace(bad.steps))
  {
    var x := RacingJoin;
    var run := Begin(x);
    run := FoundEmpty(run, 3, 1, x);
    run := FoundEmpty(run, 1, 0, x);
    run := Do(run, JoinFirst(1), x);
    var start := |run.steps|;
    run := PutOnOne(run, 2, 5, 7, 0, x);
    var end := |run.steps| - 1;
    run := Do(run, JoinFirst(3), x);
    assert Shows(run, start, CallPut(2, 5, 7)) && Shows(run, end, RetPut(2));
    bad := MissingKeyIsSeen(run, start, end, L.Entry(2, L.Write(5, 7), L.Ack), 5, 4, 1, x);
  }

  lemma FoundEmpty(run: Run, id: TaskId, m: ServerId, x: Mishap) returns (next: Run)
    requires OnlyMishap(run, x) && x == RacingJoin && Last(run).members == {} && id !in Last(run).tasks
    ensures OnlyMishap(next, x) && run.steps <= next.steps
    ensures Last(next) == With(Last(run), id, Task(Join(m), FoundNone))
  {
    next := JoinChecked(run, id, m, x);
    next := DoQuietly(next, JoinFindNone(id), x);
  }

  /** Two empty servers, nothing going on. */
  lemma TwoServers(x: Mishap) returns (run: Run)
    ensures OnlyMishap(run, x)
    ensures Last(run) == State({0, 1}, map[0 := Replica(map[], false)], None,
                               map[1 := Task(Join(0), Finished), 3 := Task(Join(1), Finished)])
  {
    run := Begin(x);
    run := FirstServer(run, 1, 0, x);
    run := SecondServer(run, 3, 0, 1, x);
  }

  /** A put takes the locks on both servers, except the second one if it is lost. */
  lemma PutLocksBoth(run: Run, lost: bool, x: Mishap) returns (next: Run)
    requires OnlyMishap(run, x) && Last(run).members == {0, 1} && Last(run).serversLock == None
    requires 2 !in Last(run).tasks && (lost ==> x == LockLost)
    requires Rep(Last(run), 0) == Rep(Last(run), 1) == Replica(map[], false)
    ensures OnlyMishap(next, x) && run.steps <= next.steps
    ensures next.steps[|run.steps|..] == [CallPut(2, 5, 7), PutAcquire(2), LockAttempt(2, 0, true)]
                                         + [if lost then LockGiveUp(2, 1) else LockAttempt(2, 1, true)]
    ensures Last(next).members == {0, 1} && Last(next).serversLock == Some(2)
    ensures Last(next).tasks == Last(run).tasks[2 := Task(Put(5, 7), Locking({}))]
    ensures Rep(Last(next), 0) == Replica(map[], true) && Rep(Last(next), 1) == Replica(map[], !lost)
  {
    next := PutLocksFirst(run, x);
    assert Remaining({1}, 1, true) == {};
    if lost {
      next := Do(next, LockGiveUp(2, 1), x);
    } else {
      next := DoQuietly(next, LockAttempt(2, 1, true), x);
    }
  }

  lemma PutLocksFirst(run: Run, x: Mishap) returns (next: Run)
    requires OnlyMishap(run, x) && Last(run).members == {0, 1} && Last(run).serversLock == None
    requires 2 !in Last(run).tasks && Rep(Last(run), 0) == Replica(map[], false)
    ensures OnlyMishap(next, x) && run.steps <= next.steps
    ensures next.steps[|run.steps|..] == [CallPut(2, 5, 7), PutAcquire(2), LockAttempt(2, 0, true)]
    ensures Last(next).members == {0, 1} && Last(next).serversLock == Some(2)
    ensures Last(next).tasks == Last(run).tasks[2 := Task(Put(5, 7), Locking({1}))]
    ensures Rep(Last(next), 0) == Replica(map[], true) && Rep(Last(next), 1) == Rep(Last(run), 1)
  {
    next := DoQuietly(run, CallPut(2, 5, 7), x);
    next := Do(next, PutAcquire(2), x);
    next := DoQuietly(next, LockAttempt(2, 0, true), x);
    assert Remaining({0, 1}, 0, true) == {1};
  }

  /** The put has reached server 0 and not server 1. */
  lemma PutReachesOne(run: Run, x: Mishap) returns (next: Run)
    requires OnlyMishap(run, x) && Last(run).members == {0, 1} && 2 in Last(run).tasks
    requires Last(run).tasks[2] == Task(Put(5, 7), Locking({}))
    ensures OnlyMishap(next, x) && run.steps <= next.steps
    ensures next.steps[|run.steps|..] == [PutBeginWrite(2, 5, 7), WriteAttempt(2, 0, true)]
    ensures var r := Rep(Last(run), 0);
            Last(next) == With(Last(run).(replicas := Last(run).replicas[0 := r.(data := r.data[5 := 7])]),
                               2, Task(Put(5, 7), Writing({1})))
  {
    assert Remaining({0, 1}, 0, true) == {1};
    next := DoQuietly(run, PutBeginWrite(2, 5, 7), x);
    next := DoQuietly(next, WriteAttempt(2, 0, true), x);
  }

  /** A get that passed its check early reads the new value on server 0; a later get is let in by
      server 1, which was never locked, and finds nothing. */
  lemma LosingALockBreaksIt() returns (bad: Run)
    ensures OnlyMishap(bad, LockLost) && !L.Linearizable(Trace(bad.steps))
  {
    var x := LockLost;
    var run := TwoServers(x);
    var start := |run.steps|;
    run := GetPasses(run, 5, 5, 0, x);
    run := PutLocksBoth(run, true, x);
    run := PutReachesOne(run, x);
    run := GetAnswers(run, 5, 5, 0, x);
    var end := |run.steps| - 1;
    assert Shows(run, start, CallGet(5, 5)) && Shows(run, end, RetGet(5, Some(7)));
    bad := MissingKeyIsSeen(run, start, end, L.Entry(5, L.Read(5), L.Answer(Some(7))), 5, 4, 1, x);
  }

  /** A join copies the data of server 1, which has none, and unlocks both servers. */
  lemma JoinUnlocksBoth(run: Run, x: Mishap) returns (next: Run)
    requires OnlyMishap(run, x) && Last(run).members == {0, 1} && Last(run).serversLock == None
    requires 6 !in Last(run).tasks
    requires Rep(Last(run), 1).data == map[]
    ensures OnlyMishap(next, x) && run.steps <= next.steps
    ensures Last(next).members == {0, 1}
    ensures Last(next).tasks == Last(run).tasks[6 := Task(Join(2), Unlocking({}))]
    ensures Rep(Last(next), 0) == Rep(Last(run), 0).(isLocked := false)
    ensures Rep(Last(next), 1) == Replica(map[], false)
  {
    next := JoinAcquires(run, 6, 2, 1, x);
    next := JoinLocksBoth(next, x);
    assert Remaining({0, 1}, 0, true) == {1} && Remaining({1}, 1, true) == {};
    next := DoQuietly(next, UnlockAttempt(6, 0, true), x);
    next := DoQuietly(next, UnlockAttempt(6, 1, true), x);
  }

  lemma JoinLocksBoth(run: Run, x: Mishap) returns (next: Run)
    requires OnlyMishap(run, x) && Last(run).members == {0, 1} && 6 in Last(run).tasks
    requires Last(run).tasks[6] == Task(Join(2), JoinLocking(1, {0, 1})) && Rep(Last(run), 1).data == map[]
    ensures OnlyMishap(next, x) && run.steps <= next.steps
    ensures Last(next).members == {0, 1}
    ensures Last(next).tasks == Last(run).tasks[6 := Task(Join(2), Unlocking({0, 1}))]
    ensures Rep(Last(next), 0) == Rep(Last(run), 0).(isLocked := true)
    ensures Rep(Last(next), 1) == Replica(map[], true)
  {
    assert Remaining({0, 1}, 0, true) == {1} && Remaining({1}, 1, true) == {};
    next := DoQuietly(run, LockAttempt(6, 0, true), x);
    next := DoQuietly(next, LockAttempt(6, 1, true), x);
    next := JoinSendsNothing(next, 6, 2, 1, x);
  }

  /** The sender has no data, so the transfer is over at once. */
  lemma JoinSendsNothing(run: Run, id: TaskId, m: ServerId, sender: ServerId, x: Mishap) returns (next: Run)
    requires OnlyMishap(run, x) && id in Last(run).tasks && sender in Last(run).members
    requires Last(run).tasks[id] == Task(Join(m), JoinLocking(sender, {})) && Rep(Last(run), sender).data == map[]
    ensures OnlyMishap(next, x) && run.steps <= next.steps
    ensures Last(next) == With(Last(run), id, Task(Join(m), Unlocking(Last(run).members)))
  {
    next := DoQuietly(run, JoinBeginSend(id), x);
    next := DoQuietly(next, JoinBeginUnlock(id), x);
  }

  /** A put gives up after reaching one of two servers; once they are unlocked again, two gets in
      a row read the new value and then nothing. */
  lemma LosingAWriteBreaksIt() returns (bad: Run)
    ensures OnlyMishap(bad, WriteLost) && !L.Linearizable(Trace(bad.steps))
  {
    var x := WriteLost;
    var run := TwoServers(x);
    run := PutLocksBoth(run, false, x);
    run := PutReachesOne(run, x);
    run := Do(run, WriteGiveUp(2, 5), x);
    run := JoinUnlocksBoth(run, x);
    var start := |run.steps|;
    run := GetPasses(run, 5, 5, 0, x);
    run := GetAnswers(run, 5, 5, 0, x);
    var end := |run.steps| - 1;
    assert Shows(run, start, CallGet(5, 5)) && Shows(run, end, RetGet(5, Some(7)));
    bad := MissingKeyIsSeen(run, start, end, L.Entry(5, L.Read(5), L.Answer(Some(7))), 5, 4, 1, x);
  }
}
