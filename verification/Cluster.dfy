/**
 The replicated store as a step machine: one frontend, many server processes.

 Every step is one remote call taking effect, one local check, or one hand-over of the
 frontend's serversLock. Steps of different requests interleave freely. An RPC attempt that
 throws may still have taken effect, so every effect comes in two forms: acknowledged
 (`done`, the loop moves on) and not acknowledged (the loop will try again).
 */
module Cluster {
  import opened Options

  type ServerId = int
  type Key = int
  type Value = int
  type TaskId = int
  type Data = map<Key, Value>

  /** One server process: its key-value map and its read lock. */
  datatype Replica = Replica(data: Data, isLocked: bool)

  /** A request accepted by the frontend. */
  datatype Request = Put(key: Key, value: Value) | Get(key: Key) | Join(server: ServerId)

  /** How far a request has come. */
  datatype Pc =
    | Called
    // put; Unlocking is shared with addServer
    | Locking(todo: set<ServerId>)
    | Writing(todo: set<ServerId>)
    | Unlocking(todo: set<ServerId>)
    | Released
    // get
    | LookedUp(from: ServerId)
    | Checked(from: ServerId)
    | HasRead(result: Option<Value>)
    // addServer
    | NotPresent
    | FoundNone
    | FoundSender(sender: ServerId)
    | JoinLocking(sender: ServerId, todo: set<ServerId>)
    | Sending(sender: ServerId, keys: set<Key>)
    // all
    | Finished
    | Failed

  datatype Task = Task(req: Request, pc: Pc)

  /** `members` is the key set of the frontend's server map. A process that is missing from
      `replicas` has been started and not contacted yet. */
  datatype State = State(
    members: set<ServerId>,
    replicas: map<ServerId, Replica>,
    serversLock: Option<TaskId>,
    tasks: map<TaskId, Task>)

  datatype Step =
    // put
    | CallPut(id: TaskId, key: Key, value: Value)
    | PutAcquire(id: TaskId)
    | PutBeginWrite(id: TaskId, key: Key, value: Value)
    | WriteAttempt(id: TaskId, server: ServerId, done: bool)
    | WriteGiveUp(id: TaskId, key: Key)
    | PutBeginUnlock(id: TaskId, key: Key)
    | PutRelease(id: TaskId)
    | RetPut(id: TaskId)
    // locking and unlocking loops, shared by put and addServer
    | LockAttempt(id: TaskId, server: ServerId, done: bool)
    | LockGiveUp(id: TaskId, server: ServerId)
    | UnlockAttempt(id: TaskId, server: ServerId, done: bool)
    | UnlockGiveUp(id: TaskId)
    // get
    | CallGet(id: TaskId, key: Key)
    | GetLookup(id: TaskId, server: ServerId)
    | GetCheck(id: TaskId)
    | GetRead(id: TaskId)
    | GetFail(id: TaskId)
    | RetGet(id: TaskId, result: Option<Value>)
    // addServer
    | CallJoin(id: TaskId, server: ServerId)
    | JoinCheck(id: TaskId)
    | JoinRefuse(id: TaskId)
    | JoinFindNone(id: TaskId)
    | JoinFindSender(id: TaskId, server: ServerId)
    | JoinFirst(id: TaskId)
    | JoinAcquire(id: TaskId)
    | JoinBeginSend(id: TaskId)
    | SendAttempt(id: TaskId, key: Key, done: bool)
    | SendRestart(id: TaskId)
    | JoinBeginUnlock(id: TaskId)
    | JoinInsert(id: TaskId)
    | JoinGiveUp(id: TaskId)
    // shutdownServer, and removal by the heartbeat
    | Remove(server: ServerId)

  function Init(): State {
    State({}, map[], None, map[])
  }

  /** The replica behind an id; a process nobody has written to is empty and unlocked. */
  function Rep(s: State, server: ServerId): Replica {
    if server in s.replicas then s.replicas[server] else Replica(map[], false)
  }

  function SetLock(s: State, server: ServerId, locked: bool): State {
    s.(replicas := s.replicas[server := Rep(s, server).(isLocked := locked)])
  }

  function Store(s: State, server: ServerId, key: Key, value: Value): State {
    var r := Rep(s, server);
    s.(replicas := s.replicas[server := r.(data := r.data[key := value])])
  }

  function Goto(s: State, id: TaskId, pc: Pc): State
    requires id in s.tasks
  {
    s.(tasks := s.tasks[id := s.tasks[id].(pc := pc)])
  }

  function Start(s: State, id: TaskId, req: Request): State {
    s.(tasks := s.tasks[id := Task(req, Called)])
  }

  predicate At(s: State, id: TaskId, pc: Pc) {
    id in s.tasks && s.tasks[id].pc == pc
  }

  predicate IsPut(s: State, id: TaskId) { id in s.tasks && s.tasks[id].req.Put? }

  predicate IsGet(s: State, id: TaskId) { id in s.tasks && s.tasks[id].req.Get? }

  predicate IsJoin(s: State, id: TaskId) { id in s.tasks && s.tasks[id].req.Join? }

  /** What is left of a loop over servers after one attempt. */
  function Remaining(todo: set<ServerId>, server: ServerId, done: bool): set<ServerId> {
    if done then todo - {server} else todo
  }

  predicate Enabled(s: State, step: Step) {
    match step
    case CallPut(id, _, _) => id !in s.tasks
    case PutAcquire(id) => IsPut(s, id) && At(s, id, Called) && s.serversLock == None
    case PutBeginWrite(id, k, v) => IsPut(s, id) && At(s, id, Locking({})) && s.tasks[id].req == Put(k, v)
    case WriteAttempt(id, m, _) => IsPut(s, id) && s.tasks[id].pc.Writing? && m in s.tasks[id].pc.todo
    case WriteGiveUp(id, k) =>
      IsPut(s, id) && s.tasks[id].req.key == k && s.tasks[id].pc.Writing? && s.tasks[id].pc.todo != {}
    case PutBeginUnlock(id, k) => IsPut(s, id) && s.tasks[id].req.key == k && At(s, id, Writing({}))
    case PutRelease(id) => IsPut(s, id) && At(s, id, Unlocking({}))
    case RetPut(id) => IsPut(s, id) && At(s, id, Released)
    case LockAttempt(id, m, _) => CanLock(s, id, m)
    case LockGiveUp(id, m) => CanLock(s, id, m)
    case UnlockAttempt(id, m, _) => id in s.tasks && s.tasks[id].pc.Unlocking? && m in s.tasks[id].pc.todo
    case UnlockGiveUp(id) => id in s.tasks && s.tasks[id].pc.Unlocking? && s.tasks[id].pc.todo != {}
    case CallGet(id, _) => id !in s.tasks
    case GetLookup(id, m) => IsGet(s, id) && At(s, id, Called) && m in s.members
    case GetCheck(id) => IsGet(s, id) && s.tasks[id].pc.LookedUp? && !Rep(s, s.tasks[id].pc.from).isLocked
    case GetRead(id) => IsGet(s, id) && s.tasks[id].pc.Checked?
    case GetFail(id) =>
      IsGet(s, id) && (s.tasks[id].pc.Called? || s.tasks[id].pc.LookedUp? || s.tasks[id].pc.Checked?)
    case RetGet(id, r) => IsGet(s, id) && At(s, id, HasRead(r))
    case CallJoin(id, _) => id !in s.tasks
    case JoinCheck(id) => IsJoin(s, id) && At(s, id, Called)
    case JoinRefuse(id) => IsJoin(s, id) && At(s, id, NotPresent)
    case JoinFindNone(id) => IsJoin(s, id) && At(s, id, NotPresent) && s.members == {}
    case JoinFindSender(id, m) => IsJoin(s, id) && At(s, id, NotPresent) && m in s.members
    case JoinFirst(id) => IsJoin(s, id) && At(s, id, FoundNone) && s.serversLock == None
    case JoinAcquire(id) => IsJoin(s, id) && s.tasks[id].pc.FoundSender? && s.serversLock == None
    case JoinBeginSend(id) =>
      IsJoin(s, id) && s.tasks[id].pc.JoinLocking? && s.tasks[id].pc.todo == {} && s.tasks[id].pc.sender in s.members
    case SendAttempt(id, k, _) =>
      IsJoin(s, id) && s.tasks[id].pc.Sending? && k in s.tasks[id].pc.keys
      && k in Rep(s, s.tasks[id].pc.sender).data
    case SendRestart(id) => IsJoin(s, id) && s.tasks[id].pc.Sending?
    case JoinBeginUnlock(id) => IsJoin(s, id) && s.tasks[id].pc.Sending? && s.tasks[id].pc.keys == {}
    case JoinInsert(id) => IsJoin(s, id) && At(s, id, Unlocking({}))
    case JoinGiveUp(id) =>
      IsJoin(s, id) && (s.tasks[id].pc.Sending? || (s.tasks[id].pc.JoinLocking? && s.tasks[id].pc.todo == {}))
    case Remove(m) => s.serversLock == None && m in s.members
  }

  predicate CanLock(s: State, id: TaskId, m: ServerId) {
    id in s.tasks && (s.tasks[id].pc.Locking? || s.tasks[id].pc.JoinLocking?) && m in s.tasks[id].pc.todo
  }

  function Apply(s: State, step: Step): State
    requires Enabled(s, step)
  {
    match step
    case CallPut(id, k, v) => Start(s, id, Put(k, v))
    case PutAcquire(id) => Goto(s, id, Locking(s.members)).(serversLock := Some(id))
    case PutBeginWrite(id, _, _) => Goto(s, id, Writing(s.members))
    case WriteAttempt(id, m, done) =>
      var t := s.tasks[id];
      Store(Goto(s, id, Writing(Remaining(t.pc.todo, m, done))), m, t.req.key, t.req.value)
    case WriteGiveUp(id, _) => Goto(s, id, Failed).(serversLock := None)
    case PutBeginUnlock(id, _) => Goto(s, id, Unlocking(s.members))
    case PutRelease(id) => Goto(s, id, Released).(serversLock := None)
    case RetPut(id) => Goto(s, id, Finished)
    case LockAttempt(id, m, done) => SetLock(SkipLock(s, id, m, done), m, true)
    case LockGiveUp(id, m) => SkipLock(s, id, m, true)
    case UnlockAttempt(id, m, done) =>
      SetLock(Goto(s, id, Unlocking(Remaining(s.tasks[id].pc.todo, m, done))), m, false)
    case UnlockGiveUp(id) => Goto(s, id, Failed).(serversLock := None)
    case CallGet(id, k) => Start(s, id, Get(k))
    case GetLookup(id, m) => Goto(s, id, LookedUp(m))
    case GetCheck(id) => Goto(s, id, Checked(s.tasks[id].pc.from))
    case GetRead(id) => Goto(s, id, HasRead(Lookup(Rep(s, s.tasks[id].pc.from).data, s.tasks[id].req.key)))
    case GetFail(id) => Goto(s, id, Failed)
    case RetGet(id, _) => Goto(s, id, Finished)
    case CallJoin(id, m) => Start(s, id, Join(m))
    case JoinCheck(id) => Goto(s, id, if s.tasks[id].req.server in s.members then Finished else NotPresent)
    case JoinRefuse(id) => Goto(s, id, Finished)
    case JoinFindNone(id) => Goto(s, id, FoundNone)
    case JoinFindSender(id, m) => Goto(s, id, FoundSender(m))
    case JoinFirst(id) => Goto(s, id, Finished).(members := s.members + {s.tasks[id].req.server})
    case JoinAcquire(id) =>
      Goto(s, id, JoinLocking(s.tasks[id].pc.sender, s.members)).(serversLock := Some(id))
    case JoinBeginSend(id) => StartSending(s, id, s.tasks[id].pc.sender)
    case SendAttempt(id, k, done) =>
      var t := s.tasks[id];
      var rest := if done then t.pc.keys - {k} else t.pc.keys;
      Store(Goto(s, id, Sending(t.pc.sender, rest)), t.req.server, k, Rep(s, t.pc.sender).data[k])
    case SendRestart(id) => StartSending(s, id, s.tasks[id].pc.sender)
    case JoinBeginUnlock(id) => Goto(s, id, Unlocking(s.members))
    case JoinInsert(id) =>
      Goto(s, id, Finished).(members := s.members + {s.tasks[id].req.server}, serversLock := None)
    case JoinGiveUp(id) => Goto(s, id, Failed).(serversLock := None)
    case Remove(m) => s.(members := s.members - {m})
  }

  function SkipLock(s: State, id: TaskId, m: ServerId, done: bool): State
    requires CanLock(s, id, m)
  {
    var pc := s.tasks[id].pc;
    Goto(s, id, if pc.Locking? then Locking(Remaining(pc.todo, m, done))
                else JoinLocking(pc.sender, Remaining(pc.todo, m, done)))
  }

  function StartSending(s: State, id: TaskId, sender: ServerId): State
    requires id in s.tasks
  {
    Goto(s, id, Sending(sender, Rep(s, sender).data.Keys))
  }

  /** A finite run: `states[t]` is the state before step number `t`. */
  datatype Run = Run(states: seq<State>, steps: seq<Step>)

  ghost predicate IsRun(run: Run) {
    && |run.states| == |run.steps| + 1
    && run.states[0] == Init()
    && forall t | 0 <= t < |run.steps| :: StepAt(run, t)
  }

  ghost predicate StepAt(run: Run, t: nat)
    requires t < |run.steps| && t + 1 < |run.states|
  {
    Enabled(run.states[t], run.steps[t]) && run.states[t + 1] == Apply(run.states[t], run.steps[t])
  }

  // ---------------------------------------------------------------- What may go wrong

  /** The five events that can break the single map. */
  datatype Mishap = RacingJoin | LastMemberRemoved | PutWithoutMembers | LockLost | WriteLost

  ghost predicate Happens(s: State, step: Step, x: Mishap) {
    match x
    // an addServer that found no member inserts its server, without data, among others
    case RacingJoin =>
      step.JoinFirst? && IsJoin(s, step.id) && s.members != {} && s.tasks[step.id].req.server !in s.members
    // the last member goes, and with it what it holds
    case LastMemberRemoved => step.Remove? && s.members == {step.server} && Rep(s, step.server).data != map[]
    // a put succeeds on zero servers, and stores nothing
    case PutWithoutMembers => step.PutAcquire? && s.members == {}
    // a put goes on although no attempt to lock a server took effect
    case LockLost => step.LockGiveUp? && !IsJoin(s, step.id) && !Rep(s, step.server).isLocked
    // a put stops in the middle of its writes
    case WriteLost => step.WriteGiveUp?
  }

  /** Steps that are no mishap in any state. */
  predicate Quiet(step: Step) {
    !step.JoinFirst? && !step.Remove? && !step.PutAcquire? && !step.LockGiveUp? && !step.WriteGiveUp?
  }

  ghost predicate Orderly(s: State, step: Step) {
    !Happens(s, step, RacingJoin) && !Happens(s, step, LastMemberRemoved) && !Happens(s, step, PutWithoutMembers)
  }

  ghost predicate KeepsLocks(s: State, step: Step) {
    !Happens(s, step, LockLost)
  }

  ghost predicate KeepsWrites(s: State, step: Step) {
    !Happens(s, step, WriteLost)
  }

  /** Not a single remote call runs out of retries. */
  predicate NoGiveUp(step: Step) {
    !step.LockGiveUp? && !step.WriteGiveUp? && !step.UnlockGiveUp? && !step.JoinGiveUp?
  }

  ghost predicate OrderlyRun(run: Run) {
    IsRun(run) && forall t | 0 <= t < |run.steps| :: Orderly(run.states[t], run.steps[t])
  }

  /** No put goes on with a server unlocked. Writes may be lost. */
  ghost predicate LockedRun(run: Run) {
    OrderlyRun(run) && forall t | 0 <= t < |run.steps| :: KeepsLocks(run.states[t], run.steps[t])
  }

  /** No put stops in the middle of its writes. Locks may be lost. */
  ghost predicate WrittenRun(run: Run) {
    OrderlyRun(run) && forall t | 0 <= t < |run.steps| :: KeepsWrites(run.states[t], run.steps[t])
  }

  /** Both. A lock call that takes effect and is never acknowledged, a join that gives up, and an
      unlock call that runs out of retries are allowed. */
  ghost predicate SafeRun(run: Run) {
    LockedRun(run) && WrittenRun(run)
  }

  ghost predicate FaultFreeRun(run: Run) {
    OrderlyRun(run) && forall t | 0 <= t < |run.steps| :: NoGiveUp(run.steps[t])
  }

  // ---------------------------------------------------------------- The single map

  /** The one map that clients should see: all puts whose write phase began before instant `t`,
      in the order in which they held the lock. */
  function MapAt(steps: seq<Step>, t: nat): Data
    requires t <= |steps|
  {
    if t == 0 then map[]
    else if steps[t - 1].PutBeginWrite? then MapAt(steps, t - 1)[steps[t - 1].key := steps[t - 1].value]
    else MapAt(steps, t - 1)
  }

  /** The single map just before the latest write phase began. */
  function PrevAt(steps: seq<Step>, t: nat): Data
    requires t <= |steps|
  {
    if t == 0 then map[]
    else if steps[t - 1].PutBeginWrite? then MapAt(steps, t - 1)
    else PrevAt(steps, t - 1)
  }

  /** Keys whose latest put gave up in the middle of its writes. */
  function DirtyAt(steps: seq<Step>, t: nat): set<Key>
    requires t <= |steps|
  {
    if t == 0 then {}
    else match steps[t - 1]
      case WriteGiveUp(_, k) => DirtyAt(steps, t - 1) + {k}
      case PutBeginUnlock(_, k) => DirtyAt(steps, t - 1) - {k}
      case _ => DirtyAt(steps, t - 1)
  }
}
