/**
 What any sequence of calls of a frontend should do, said without the frontend: who is a member, what is
 stored, what is answered, and which mishaps the fates of the remote calls bring about.
 */
module SessionSpec {
  import opened Options
  import opened Fates
  import opened Frontends
  import C = Cluster
  import Retry
  import Selector
  import Text

  /** A call, and what becomes of its remote calls. */
  datatype Call =
    | Put(key: int, value: int, lockLuck: int -> Retry.Luck, writeLuck: int -> Retry.Luck,
          unlockLuck: int -> Retry.Luck)
    | Get(key: int)
    | AddServer(server: int, lockLuck: int -> Retry.Luck, outer: Retry.Luck, inner: nat -> int -> Retry.Luck,
                unlockLuck: int -> Retry.Luck)
    | ShutdownServer(server: int, answers: bool)
    | Sweep(aliveLuck: int -> Retry.Luck)

  datatype Reply =
    | ToPut(text: Option<string>)
    | ToGet(get: GetReply)
    | ToAddServer(join: JoinReply)
    | ToShutdown(text: Option<string>)
    | ToSweep

  const ALL_MISHAPS: set<C.Mishap> :=
    {C.RacingJoin, C.LastMemberRemoved, C.PutWithoutMembers, C.LockLost, C.WriteLost}

  lemma AllMishaps(some: set<C.Mishap>)
    ensures some <= ALL_MISHAPS
  {
    forall x: C.Mishap | x in some ensures x in ALL_MISHAPS {
      match x
      case RacingJoin =>
      case LastMemberRemoved =>
      case PutWithoutMembers =>
      case LockLost =>
      case WriteLost =>
    }
  }

  function Stored(data: C.Data, call: Call): C.Data {
    if call.Put? then data[call.key := call.value] else data
  }

  /** What the put calls store, one after the other. */
  function StoredBy(calls: seq<Call>, n: nat): C.Data
    requires n <= |calls|
  {
    if n == 0 then map[] else Stored(StoredBy(calls, n - 1), calls[n - 1])
  }

  /** An addServer call inserts its server. `ids` are the processes that can be reached. */
  ghost predicate Inserts(ids: set<int>, members: set<int>, stored: C.Data, call: Call)
    requires call.AddServer?
  {
    && call.server !in members && call.server in ids
    && (members == {} || JoinSucceeds(stored.Keys, call.outer, call.inner, members, call.unlockLuck))
  }

  ghost function MembersAfter(ids: set<int>, members: set<int>, stored: C.Data, call: Call): set<int> {
    match call
    case AddServer(server, _, _, _, _) => if Inserts(ids, members, stored, call) then members + {server} else members
    case ShutdownServer(server, answers) => if answers then members - {server} else members
    case Sweep(luck) => set i | i in members && Retry.Succeeds(luck(i))
    case _ => members
  }

  /** The members after the first `n` calls, as long as nothing goes wrong. */
  ghost function Membership(ids: set<int>, calls: seq<Call>, n: nat): set<int>
    requires n <= |calls|
  {
    if n == 0 then {}
    else MembersAfter(ids, Membership(ids, calls, n - 1), StoredBy(calls, n - 1), calls[n - 1])
  }

  /** What goes wrong in a call. */
  ghost function CallMishaps(ids: set<int>, members: set<int>, stored: C.Data, call: Call): set<C.Mishap> {
    match call
    case Put(_, _, lockLuck, writeLuck, _) => PutMishaps(members, lockLuck, writeLuck)
    case Get(_) => {}
    case AddServer(_, _, _, _, _) => {}
    case _ =>
      if members != {} && stored != map[] && MembersAfter(ids, members, stored, call) == {}
      then {C.LastMemberRemoved} else {}
  }

  ghost function MishapsBy(ids: set<int>, calls: seq<Call>, n: nat): set<C.Mishap>
    requires n <= |calls|
  {
    if n == 0 then {}
    else MishapsBy(ids, calls, n - 1)
         + CallMishaps(ids, Membership(ids, calls, n - 1), StoredBy(calls, n - 1), calls[n - 1])
  }

  /** No put finds no members or gives up in its writes, and no removal is the last one while something is
      stored. Locks may be lost. */
  ghost predicate IsFine(ids: set<int>, calls: seq<Call>, n: nat)
    requires n <= |calls|
  {
    MishapsBy(ids, calls, n) <= {C.LockLost}
  }

  ghost function MayHappen(ids: set<int>, calls: seq<Call>, n: nat): set<C.Mishap>
    requires n <= |calls|
  {
    if IsFine(ids, calls, n) then MishapsBy(ids, calls, n) else ALL_MISHAPS
  }

  lemma MoreMayHappen(ids: set<int>, calls: seq<Call>, n: nat)
    requires n < |calls|
    ensures IsFine(ids, calls, n + 1) ==> IsFine(ids, calls, n)
    ensures MayHappen(ids, calls, n) <= MayHappen(ids, calls, n + 1) <= ALL_MISHAPS
    ensures IsFine(ids, calls, n + 1) ==>
              CallMishaps(ids, Membership(ids, calls, n), StoredBy(calls, n), calls[n]) <= MayHappen(ids, calls, n + 1)
  {
    AllMishaps(MishapsBy(ids, calls, n));
  }

  // ---------------------------------------------------------------- Replies and locks

  /** The reply to a call: that of one single map, of the membership, and of the read locks. */
  ghost predicate IsReply(ids: set<int>, members: set<int>, stored: C.Data, locked: set<int>, call: Call,
                          reply: Reply) {
    match (call, reply)
    case (Put(key, value, _, writeLuck, unlockLuck), ToPut(text)) =>
      text == if AllSucceed(members, writeLuck) && AllSucceed(members, unlockLuck)
              then Some("Success " + Text.IntText(key) + "=" + Text.IntText(value)) else None
    case (Get(key), ToGet(get)) =>
      get == (match Selector.Select(key, members)
              case None => GetThrew
              case Some(m) => if m in locked then Blocked else Replied(Text.ReplyText(key, Lookup(stored, key))))
    case (AddServer(server, _, _, _, _), ToAddServer(join)) =>
      && (join.AlreadyExists? <==> server in members)
      && (join.NotReachable? <==> server !in members && server !in ids)
      && (join.Added? <==> Inserts(ids, members, stored, call))
    case (ShutdownServer(server, answers), ToShutdown(text)) =>
      text == if server !in members then Some("ERR_NOEXIST") else if answers then Some("Success") else None
    case (Sweep(_), ToSweep) => true
    case _ => false
  }

  /** The locked servers before and after a call. */
  ghost predicate LocksAfter(ids: set<int>, members: set<int>, stored: C.Data, call: Call,
                             before: set<int>, after: set<int>) {
    match call
    case Put(_, _, lockLuck, writeLuck, unlockLuck) =>
      PutLocks(members, lockLuck, writeLuck, unlockLuck, before, after)
    case AddServer(server, lockLuck, outer, inner, unlockLuck) =>
      if server in members || server !in ids || members == {} then after == before
      else JoinLocks(members, stored.Keys, lockLuck, outer, inner, unlockLuck, before, after)
    case _ => after == before
  }

  /** One call, from `members` to `after`, and from the locks `locked` to `lockedAfter`. */
  ghost predicate Behaves(ids: set<int>, members: set<int>, stored: C.Data, locked: set<int>, call: Call, reply: Reply,
                          after: set<int>, lockedAfter: set<int>) {
    && IsReply(ids, members, stored, locked, call, reply)
    && after == MembersAfter(ids, members, stored, call)
    && LocksAfter(ids, members, stored, call, locked, lockedAfter)
  }

  /** Call number `i` behaves, unless something went wrong earlier. */
  ghost predicate IsServed(ids: set<int>, calls: seq<Call>, i: nat, reply: Reply, locked: set<int>,
                           lockedAfter: set<int>)
    requires i < |calls|
  {
    IsFine(ids, calls, i) ==>
      Behaves(ids, Membership(ids, calls, i), StoredBy(calls, i), locked, calls[i], reply,
              Membership(ids, calls, i + 1), lockedAfter)
  }

  /** The first `n` calls behave; `locks[i]` are the servers that are locked before call `i`. */
  ghost predicate AllBehave(ids: set<int>, calls: seq<Call>, n: nat, replies: seq<Reply>, locks: seq<set<int>>,
                            members: set<int>) {
    && |replies| == n <= |calls| && |locks| == n + 1 && locks[0] == {}
    && (IsFine(ids, calls, n) ==> members == Membership(ids, calls, n))
    && forall i | 0 <= i < n :: IsServed(ids, calls, i, replies[i], locks[i], locks[i + 1])
  }

  lemma OneMoreBehaves(ids: set<int>, calls: seq<Call>, n: nat, replies: seq<Reply>, locks: seq<set<int>>,
                       members: set<int>, reply: Reply, after: set<int>, lockedAfter: set<int>)
    requires AllBehave(ids, calls, n, replies, locks, members) && n < |calls|
    requires IsFine(ids, calls, n) ==>
               Behaves(ids, members, StoredBy(calls, n), locks[n], calls[n], reply, after, lockedAfter)
    ensures AllBehave(ids, calls, n + 1, replies + [reply], locks + [lockedAfter], after)
  {
    hide IsReply, MembersAfter, LocksAfter;
    MoreMayHappen(ids, calls, n);
    var replies', locks' := replies + [reply], locks + [lockedAfter];
    forall i | 0 <= i < n + 1 ensures IsServed(ids, calls, i, replies'[i], locks'[i], locks'[i + 1]) {
      if i < n {
        assert IsServed(ids, calls, i, replies[i], locks[i], locks[i + 1]);
      }
    }
  }

  // ---------------------------------------------------------------- When gets wait

  /** The call releases every lock it takes. */
  ghost predicate LeavesNoLock(ids: set<int>, members: set<int>, stored: C.Data, call: Call) {
    match call
    case Put(_, _, _, writeLuck, unlockLuck) => AllSucceed(members, writeLuck) && AllSucceed(members, unlockLuck)
    case AddServer(server, _, _, _, _) => server in members || server !in ids || Inserts(ids, members, stored, call)
    case _ => true
  }

  /** So do the first `n` calls. */
  ghost predicate IsCalm(ids: set<int>, calls: seq<Call>, n: nat)
    requires n <= |calls|
  {
    forall i | 0 <= i < n :: LeavesNoLock(ids, Membership(ids, calls, i), StoredBy(calls, i), calls[i])
  }

  lemma UnlocksAll(members: set<int>, luck: int -> Retry.Luck, before: set<int>, after: set<int>)
    requires Unlocks(members, luck, before, after) && AllSucceed(members, luck) && before <= members
    ensures after == {}
  {
  }

  lemma StaysUnlocked(ids: set<int>, members: set<int>, stored: C.Data, call: Call, after: set<int>)
    requires LocksAfter(ids, members, stored, call, {}, after) && LeavesNoLock(ids, members, stored, call)
    ensures after == {}
  {
    match call
    case Put(_, _, lockLuck, _, unlockLuck) =>
      assert {} + Landed(members, lockLuck) <= members;
      UnlocksAll(members, unlockLuck, {} + Landed(members, lockLuck), after);
    case AddServer(server, lockLuck, _, _, unlockLuck) =>
      if server !in members && server in ids && members != {} {
        assert {} + Landed(members, lockLuck) <= members;
        UnlocksAll(members, unlockLuck, {} + Landed(members, lockLuck), after);
      }
    case _ =>
  }

  lemma CalmBefore(ids: set<int>, calls: seq<Call>, i: nat, k: nat)
    requires i <= k <= |calls| && IsCalm(ids, calls, k)
    ensures IsCalm(ids, calls, i)
  {
    hide LeavesNoLock;
  }

  lemma ServedAt(ids: set<int>, calls: seq<Call>, n: nat, replies: seq<Reply>, locks: seq<set<int>>, members: set<int>,
                 k: nat)
    requires AllBehave(ids, calls, n, replies, locks, members) && k < n && IsFine(ids, calls, k)
    ensures Behaves(ids, Membership(ids, calls, k), StoredBy(calls, k), locks[k], calls[k], replies[k],
                    Membership(ids, calls, k + 1), locks[k + 1])
  {
    hide Behaves;
    assert IsServed(ids, calls, k, replies[k], locks[k], locks[k + 1]);
  }

  lemma {:induction false} FineBefore(ids: set<int>, calls: seq<Call>, i: nat, k: nat)
    requires i <= k <= |calls| && IsFine(ids, calls, k)
    ensures IsFine(ids, calls, i)
  {
    hide CallMishaps;
    if i < k {
      FineBefore(ids, calls, i, k - 1);
    }
  }

  lemma {:induction false} StayEmpty(locks: seq<set<int>>, k: nat)
    requires k < |locks| && locks[0] == {} && forall i | 0 <= i < k :: locks[i] == {} ==> locks[i + 1] == {}
    ensures locks[k] == {}
  {
    if k > 0 {
      StayEmpty(locks, k - 1);
    }
  }

  lemma StepStaysUnlocked(ids: set<int>, calls: seq<Call>, n: nat, replies: seq<Reply>, locks: seq<set<int>>,
                          members: set<int>, k: nat)
    requires AllBehave(ids, calls, n, replies, locks, members) && k < n
    requires IsFine(ids, calls, k) && IsCalm(ids, calls, k + 1) && locks[k] == {}
    ensures locks[k + 1] == {}
  {
    hide IsReply, MembersAfter, LocksAfter, LeavesNoLock, IsFine, IsServed;
    ServedAt(ids, calls, n, replies, locks, members, k);
    assert LeavesNoLock(ids, Membership(ids, calls, k), StoredBy(calls, k), calls[k]);
    StaysUnlocked(ids, Membership(ids, calls, k), StoredBy(calls, k), calls[k], locks[k + 1]);
  }

  lemma CalmLocksNothing(ids: set<int>, calls: seq<Call>, n: nat, replies: seq<Reply>, locks: seq<set<int>>,
                         members: set<int>, k: nat)
    requires AllBehave(ids, calls, n, replies, locks, members) && k <= n
    requires IsFine(ids, calls, k) && IsCalm(ids, calls, k)
    ensures locks[k] == {}
  {
    forall i | 0 <= i < k && locks[i] == {} ensures locks[i + 1] == {} {
      FineBefore(ids, calls, i, k);
      CalmBefore(ids, calls, i + 1, k);
      StepStaysUnlocked(ids, calls, n, replies, locks, members, i);
    }
    StayEmpty(locks, k);
  }

  /** A get never waits unless an earlier call has left a lock behind. */
  lemma CalmGetsAnswer(ids: set<int>, calls: seq<Call>, n: nat, replies: seq<Reply>, locks: seq<set<int>>,
                       members: set<int>, k: nat)
    requires AllBehave(ids, calls, n, replies, locks, members) && k < n && calls[k].Get?
    requires IsFine(ids, calls, k) && IsCalm(ids, calls, k) && Membership(ids, calls, k) != {} && calls[k].key >= 0
    ensures replies[k] == ToGet(Replied(Text.ReplyText(calls[k].key, Lookup(StoredBy(calls, k), calls[k].key))))
  {
    CalmLocksNothing(ids, calls, n, replies, locks, members, k);
    ServedAt(ids, calls, n, replies, locks, members, k);
    Selector.SelectsUnlessNegative(calls[k].key, Membership(ids, calls, k));
  }
}
