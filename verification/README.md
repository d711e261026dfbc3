# Verification of the replicated store, and of two kubespray helpers

This project models, in Dafny, the behaviour of the repository's own key-value store and of two
programs in its vendored kubespray tree, and proves properties of the models.

**The store.** One frontend keeps a map of server processes. A put takes `serversLock`, locks every
member against reads, writes every member one after the other, and unlocks every member. A get takes
no lock: it picks a member, and that member first checks its read lock and then, as a separate step,
reads its data. A server that joins is filled by one member, with all members locked; members leave
by shutdown, or when the heartbeat suspects them, rightly or not. Every remote call is retried, and an
attempt that throws may still have taken effect.

- `Cluster.dfy` is the step machine: one step per remote effect, local check or hand-over of
  `serversLock`; steps of different requests interleave freely, and a get may pick any member, so no
  theorem rests on key affinity. `MapAt` is the single map clients should see; `DirtyAt` is the set of
  keys whose latest put gave up half-way; `Mishap` lists the five events that can break the single map.
- `Agreement.dfy`, `Lifecycle.dfy`, `LockDiscipline.dfy` and `Hindsight.dfy` hold what every step keeps;
  `AgreementTheorems.dfy`, `HindsightTheorems.dfy`, `Durability.dfy`, `Recency.dfy` and
  `ClusterLinearizable.dfy` hold what follows for whole runs. `Progress.dfy` says exactly what can hold a request
  up, and from where it can still be completed.
- `Linearizability.dfy` defines linearizability on traces of calls and responses alone, knowing nothing
  of the cluster. `Mishaps.dfy` shows that each of the five events alone is enough to break it.
- `Servers.dfy`, `Retry.dfy` and `Frontends.dfy` are the Java classes as classes with loops. Each method
  of `Frontend` is proved to perform a path of steps of the machine, from the state before the call to
  the state after it, whatever becomes of its remote calls, and its contract gives the exact locks and contents
  of all servers afterwards in terms of the fates of these calls (`Fates.dfy`). `Paths.dfy` and `LoopPaths.dfy`
  support that.
  A path names the mishaps that happen on it. `PathRuns.dfy` and `PathEffects.dfy` tie paths back to runs, and
  `Sessions.dfy` draws the conclusion for any sequence of calls, against the specification in `SessionSpec.dfy`.
- `Selector.dfy` is the routing of keys, `Text.dfy` the text of replies, `Workload.dfy` the consistency
  workload of `run_cluster.py`.

**Kubespray helpers.** `Terraform.dfy`, `TerraformParse.dfy`, `TerraformRoundTrip.dfy`,
`TerraformAttrLists.dfy`, `TerraformLeaves.dfy` and `TerraformLookups.dfy` are the flattener of Terraform state
attributes and the parsers that read flat attributes back. `Hostnames.dfy`, `HostnameLaws.dfy`,
`ArgumentLaws.dfy`, `Survivors.dfy`, `Inventory.dfy`, `InventoryLaws.dfy` and `InventoryRuns.dfy` are the
inventory builder. `OrderedDict.dfy` and `Options.dfy` are shared.

## Assumptions

- Steps are atomic and sequentially consistent; `isLocked` is modelled as if it were volatile.
- No duplicate of a remote call takes effect after `Retry.run` has returned.
- A server process keeps its memory while it is a member or can still be reached by an old handle.
- Every theorem about runs names the events it excludes. `OrderlyRun` excludes an `addServer` that found no
  member and inserts its server when there is another one by then, removal of a last member that holds data,
  and a put on zero members; any number of joins may be under way, and retries may run out anywhere.
  Durability, recency of reads, agreement outside dirty keys, linearizability of all puts and undisturbed gets,
  and the checks of the workload need no more. A get is disturbed if, between lookup and read, its key carries
  a lost write that no put is writing anew, or its server, still unlocked, awaits a write of that key.
  `LockedRun` also excludes a put that goes on with a server that is not locked; then only lost writes of its
  own key disturb a get. `WrittenRun` excludes instead a put that gives up in the middle of its writes; then
  replicas agree whenever `serversLock` is free. `SafeRun` excludes both; then the whole history is
  linearizable. `FaultFreeRun` excludes every call that runs out of retries. A get may fail at any point before
  it has read.
- Keys are non-negative where routing matters; Java's remainder is modelled with its sign.
- Java's `int` and Python's numbers are unbounded here. No arithmetic of the modelled code can overflow:
  keys and values are only stored, compared and printed, and the one remainder shrinks its operand.
- Text is taken as ASCII: digits and letters are the ASCII ones.

## Where the code and what is promised for it differ

- A put reports success when there is no member (`PuttingWithoutMembersBreaksIt`); a lock call that runs
  out of retries is logged and ignored (`LosingALockBreaksIt`); a write that runs out of retries leaves
  some members written, and every lock held until a later unlock (`LosingAWriteBreaksIt`).
- The duplicate check and the search for a sender in `addServer` are made without `serversLock`. That is
  harmless (`InsertedMeanwhile` says what it leads to) except where a server is inserted as the first one
  although there is another by then (`RacingJoinsBreakIt`).
- When the number of threads does not divide the number of keys, the last keys are in nobody's slice: they are
  neither loaded nor checked (`CoveredExactly`).
- `parse_attr_list` does not give back dictionaries that are empty or hold only empty lists, and `parse_dict`
  loses an entry called "#" and confuses one called "%" with the count: the round trips are stated with the
  exact condition.
- `inventory.py` tests a whole argument such as `first,10.0.0.1` against the existing host names, so an
  explicit name can replace an existing host, and a generated name an explicit one
  (`ExplicitNameIsOverwritten`). With a `HOST_PREFIX` that has a digit right before its first dot, generated
  names clash among themselves, and with no other prefix (`NextIsFreeExactly`, `UnsafePrefixOverwrites`); with any
  other dot in it, an inventory that has one generated host cannot be loaded (`DottedPrefixStops`). A host
  with the name of a group is never purged from `all` (`AllIsBuiltExactly`). Deleting one of three hosts
  leaves two etcd members (`EtcdKeepsTwo`, with the exact condition in `EtcdIsNewExactly`).

## Model

| member | source | states |
|---|---|---|
| `ClusterLinearizable.SafeRunIsLinearizable` | project1/java/frontend/src/main/java/io/digit/FrontendRPCImpl.java:12-42 | Main theorem: in every safe run, under any interleaving of puts, gets, joins (several at once, even of one server) and removals, whichever member each get picks, some order of all operations respects real time and is a legal history of one single map |
| `ClusterLinearizable.CleanTraceIsLinearizable` | project1/java/frontend/src/main/java/io/digit/server/ServerLockUtil.java:10-40 | In every orderly run, whatever locks and writes are lost: all puts, and all gets that were not disturbed between lookup and read, are a history of one single map |
| `ClusterLinearizable.EffectsLinearize` | project1/java/frontend/src/main/java/io/digit/FrontendRPCImpl.java:12-42 | That order is explicit: a put counts from the start of its write phase, a get from an instant at which its answer was right |
| `ClusterLinearizable.EffectsLegal` | project1/java/frontend/src/main/java/io/digit/server/ServerLockUtil.java:10-18 | Replaying, one at a time, everything that takes effect before an instant gives the single map of that instant, every response being the sequential one |
| `ClusterLinearizable.AnswerIsRight` | project1/java/server/src/main/java/io/digit/ServerRPCImpl.java:28-52 | Every answer to an undisturbed get has an instant after the call and no later than the answer at which the single map held it |
| `ClusterLinearizable.PutInInterval` | project1/java/frontend/src/main/java/io/digit/FrontendRPCImpl.java:12-22 | A put takes effect after it is called and before it responds |
| `ClusterLinearizable.SourceOnce` | project1/java/frontend/src/main/java/io/digit/FrontendRPCImpl.java:12-42 | No request takes effect twice |
| `ClusterLinearizable.HasWritten` | project1/java/frontend/src/main/java/io/digit/server/ServerLockUtil.java:10-18 | A put that is past its write phase did begin one |
| `ClusterLinearizable.HasLookedUp` | project1/java/frontend/src/main/java/io/digit/FrontendRPCImpl.java:25-36 | A get that has an answer did look up a server |
| `HindsightTheorems.HindsightRead` | project1/java/server/src/main/java/io/digit/ServerRPCImpl.java:28-52 | In every orderly run: the answer of a get is what the single map held at an instant after the lookup and no later than the answer, even if the server was locked, written or removed meanwhile, unless the get was disturbed: from lookup to read its key carried a lost write, or its server awaited a write of that key unlocked |
| `HindsightTheorems.NoValueFromBeforeTheLocks` | project1/java/frontend/src/main/java/io/digit/server/ServerLockUtil.java:10-31 | From the instant at which a put is past its locks, before its first write: a get of its key that looks up a locked server from then on answers with the value of that put or of a later one, even if the key still carried a lost write |
| `HindsightTheorems.NoOldValue` | project1/java/frontend/src/main/java/io/digit/server/ServerLockUtil.java:10-40 | The other case, an undisturbed get that looks up its server after the put has begun to write: it answers with that put's value or a later one |
| `Hindsight.ChangesFollowTheMap` | project1/java/server/src/main/java/io/digit/ServerRPCImpl.java:20-25 | Under a key that is clean, or being rewritten, a server process, member or not, only ever changes to what the single map holds at that very instant |
| `HindsightTheorems.AwaitingIsLocked` | project1/java/frontend/src/main/java/io/digit/server/ServerLockUtil.java:20-31 | As long as no lock is lost, a member that has not received the write under way is locked against reads |
| `HindsightTheorems.LockedRunDisturbsNobody` | project1/java/frontend/src/main/java/io/digit/server/ServerLockUtil.java:10-31 | So then a get is disturbed by nothing but a lost write of its own key |
| `Hindsight.GetOkAlways` | project1/java/server/src/main/java/io/digit/ServerRPCImpl.java:31-43 | At every instant of every orderly run, a get that has been undisturbed since its lookup is at a server that still awaits a write of its key, or whose value was in the single map since the lookup |
| `AgreementTheorems.AgreementOutsideDirtyKeys` | project1/java/frontend/src/main/java/io/digit/server/ServerLockUtil.java:12-17 | With retries running out at will: any two members agree, with each other and with the single map, on every key that is not dirty and not being written |
| `AgreementTheorems.DirtyExactly` | project1/java/frontend/src/main/java/io/digit/server/ServerLockUtil.java:12-17 | A key is dirty if and only if some put to it gave up in its write phase and no later put to it completed its writes; joins and removals do not matter |
| `AgreementTheorems.WrittenRunIsClean` | project1/java/frontend/src/main/java/io/digit/server/ServerLockUtil.java:12-17 | Without lost writes no key is ever dirty |
| `AgreementTheorems.ReplicaAgreement` | project1/java/frontend/src/main/java/io/digit/FrontendRPCImpl.java:88-104 | As long as no write is lost, and whatever happens to lock calls: whenever serversLock is free, every member holds exactly the fold of all puts in lock order, through joins, shutdowns and heartbeat removals |
| `AgreementTheorems.MemberHoldsCleanKey` | project1/java/frontend/src/main/java/io/digit/server/ServerLockUtil.java:12-17 | A member that does not await a write of a clean key holds under it what the single map holds |
| `Durability.ReturnedPutIsDurable` | project1/java/frontend/src/main/java/io/digit/FrontendRPCImpl.java:12-22 | Once a put has returned, every member at any later time holds its value or that of a put to the same key that began to write later: through joins and removals, and even when locks, writes and unlocks run out of retries |
| `Durability.DurableAlways` | project1/java/frontend/src/main/java/io/digit/server/ServerLockUtil.java:10-18 | At every instant of every orderly run no member, and no server about to become one, holds a value older than the last completed put |
| `Durability.TransferIsDurable` | project1/java/server/src/main/java/io/digit/ServerRPCImpl.java:112-131 | A complete transfer leaves the joining server with no value older than the last completed put |
| `Recency.ReadsAreRecent` | project1/java/frontend/src/main/java/io/digit/FrontendRPCImpl.java:25-42 | A get that looks up its server after a put to its key has returned never answers with an older value or with none, in any orderly run, from any server, removed or not, with locks and writes lost or not |
| `Recency.ProcessStaysRecent` | project1/java/server/src/main/java/io/digit/ServerRPCImpl.java:20-25 | No server process, member or not, ever goes back behind what was complete at an earlier instant |
| `AgreementTheorems.MemberHoldsTheMap` | project1/java/frontend/src/main/java/io/digit/server/ServerLockUtil.java:13-16 | As long as no write is lost, a member that is not waiting for the write under way holds exactly the single map |
| `Agreement.InvAlways` | project1/java/frontend/src/main/java/io/digit/FrontendRPCImpl.java:12-146 | The whole invariant (who holds serversLock, agreement outside dirty keys, state transfer) holds at every instant of every orderly run, however many joins are under way |
| `Agreement.KeepsInv` | project1/java/frontend/src/main/java/io/digit/FrontendRPCImpl.java:12-146 | Each of the steps keeps the invariant |
| `Agreement.KeepsLockHeld` | project1/java/frontend/src/main/java/io/digit/server/ServersList.java:10-11 | serversLock is held by exactly the request inside a guarded section, and its loops run over current members |
| `Lifecycle.InsertedMeanwhile` | project1/java/frontend/src/main/java/io/digit/FrontendRPCImpl.java:59-104 | A server is a member while its own join, past the duplicate check, is under way only because another join of that server inserted it after that check |
| `Agreement.KeepsAgreed` | project1/java/frontend/src/main/java/io/digit/server/ServerLockUtil.java:10-18 | No step makes a member differ from the single map except on dirty keys and the key being written |
| `Agreement.KeepsNothingHeld` | project1/java/frontend/src/main/java/io/digit/FrontendRPCImpl.java:127-146 | While nobody is a member the single map has nothing but dirty keys, since the last member may go only without data |
| `Agreement.NewMember` | project1/java/frontend/src/main/java/io/digit/FrontendRPCImpl.java:76-104 | A server enters the membership with the data of the single map, outside dirty keys |
| `Agreement.TransferComplete` | project1/java/server/src/main/java/io/digit/ServerRPCImpl.java:112-131 | When everything has been sent, the joining server holds the single map outside dirty keys, also if it joins again with stale data |
| `Agreement.DataAfter` | project1/java/server/src/main/java/io/digit/ServerRPCImpl.java:20-25 | Only a write to a member and a transfer to a joining server change any data, each in one entry |
| `Agreement.KeepsKeysKnown` | project1/java/server/src/main/java/io/digit/ServerRPCImpl.java:20-25 | No process ever holds a key that no put has used, so key sets never shrink below those of a server that comes back |
| `Lifecycle.Forward` | project1/java/frontend/src/main/java/io/digit/FrontendRPCImpl.java:12-109 | A request keeps its arguments and only moves forward through its phases |
| `Lifecycle.CalledBefore` | project1/java/frontend/src/main/java/io/digit/FrontendRPCImpl.java:12-109 | A request is called once, before anything else happens to it |
| `Lifecycle.MapHoldsLastBegun` | project1/java/frontend/src/main/java/io/digit/server/ServerLockUtil.java:13-16 | Under every key the single map holds the value of the latest put that began to write |
| `Progress.HeldUpExactly` | project1/java/frontend/src/main/java/io/digit/FrontendRPCImpl.java:12-109 | At every instant of every orderly run, whatever all others are doing: a request that is not over can make its next step at once if and only if it does not wait for serversLock, at a locked server, for a first member, or for a sender that has been removed |
| `Progress.UnlockedSoFarAlways` | project1/java/frontend/src/main/java/io/digit/server/ServerLockUtil.java:33-40 | Nobody locks a server again that an unlock loop is through with |
| `Progress.HolderFinishes` | project1/java/frontend/src/main/java/io/digit/server/ServerLockUtil.java:10-18 | Whoever holds serversLock can hand it back by its own steps alone, without any mishap: a put has then completed and left no member locked, a join has completed unless its sender is gone |
| `Progress.PutCanReturn` | project1/java/frontend/src/main/java/io/digit/FrontendRPCImpl.java:12-22 | From every instant of every orderly run a put that has not given up can still return, without any mishap, if there is a member |
| `Progress.GetCanBeAnswered` | project1/java/server/src/main/java/io/digit/ServerRPCImpl.java:28-52 | And a get that has not failed can still be answered, without any mishap, unless there is no member to ask or the locked server that it is at has been removed |
| `LockDiscipline.DataChangesOnlyUnderLocks` | project1/java/frontend/src/main/java/io/digit/server/ServerLockUtil.java:10-40 | As long as no lock is lost, a member's data changes only by a put's write, and only while every member is locked, or because that very member joins a second time |
| `LockDiscipline.PutLocksAlways` | project1/java/frontend/src/main/java/io/digit/server/ServerLockUtil.java:12-16 | As long as no lock is lost, every member is locked throughout a put's write phase |
| `LockDiscipline.AllUnlockedWhenFree` | project1/java/frontend/src/main/java/io/digit/server/ServerLockUtil.java:33-40 | In runs without exhausted retries no process is locked while nobody holds serversLock |
| `LockDiscipline.GuardedLocksAlways` | project1/java/frontend/src/main/java/io/digit/server/ServerLockUtil.java:20-40 | In such runs only members are locked, only inside a guarded section, and not once its unlock call is acknowledged |
| `Mishaps.RemovingTheLastMemberBreaksIt` | project1/java/frontend/src/main/java/io/digit/FrontendRPCImpl.java:127-146 | A run in which nothing goes wrong but the removal of a last member that holds data, and which is not linearizable |
| `Mishaps.PuttingWithoutMembersBreaksIt` | project1/java/frontend/src/main/java/io/digit/server/ServerLockUtil.java:13-16 | The same for a put on zero members |
| `Mishaps.RacingJoinsBreakIt` | project1/java/frontend/src/main/java/io/digit/FrontendRPCImpl.java:76-86 | The same for a join that found no member and inserts its server, without data, when there is another one by then |
| `Mishaps.LosingALockBreaksIt` | project1/java/frontend/src/main/java/io/digit/server/ServerLockUtil.java:23-29 | The same for one lock call of which no attempt takes effect |
| `Mishaps.LosingAWriteBreaksIt` | project1/java/frontend/src/main/java/io/digit/server/ServerLockUtil.java:12-17 | The same for one write call that runs out of retries |
| `Linearizability.PointsRespectRealTime` | project1/java/frontend/src/main/java/io/digit/FrontendRPCImpl.java:12-42 | Operations placed at instants inside their intervals never contradict real time |
| `Linearizability.ReadsKeepLegal` | project1/java/frontend/src/main/java/io/digit/FrontendRPCImpl.java:25-42 | Any reads that answer from the current map extend a legal history |
| `Retry.Run` | project1/java/shared/src/main/java/io/digit/server/Retry.java:12-38 | The attempt loop, for every bound n on the retries: at most n + 1 attempts, the state after exactly those that took effect, an answer if and only if an attempt answers before the loop stops, and the seconds slept, k(k + 1)/2 for k sleeps that were not interrupted |
| `Retry.AttemptedExactly` | project1/java/shared/src/main/java/io/digit/server/Retry.java:20-33 | Which attempts are made at all: those among the first n + 1 with no answer and no interrupted sleep before them |
| `Retry.SucceedsExactly` | project1/java/shared/src/main/java/io/digit/server/Retry.java:12-38 | The call gets an answer exactly if one of the n + 1 attempts would be answered, with no sleep before it interrupted |
| `Retry.LandsExactly` | project1/java/shared/src/main/java/io/digit/server/Retry.java:12-38 | It takes effect exactly if one of the n + 1 attempts would, with no sleep before it interrupted |
| `Retry.RetryIsOnce` | project1/java/shared/src/main/java/io/digit/server/Retry.java:12-38 | For every bound: retrying an idempotent action, with attempts that throw before or after taking effect, equals executing it once or not at all, and once with the same answer if it answers |
| `Retry.AfterIsOnce` | project1/java/shared/src/main/java/io/digit/server/Retry.java:20-33 | Any number of attempts of an idempotent action is one execution, or none if none landed |
| `Retry.ThrowsWhenAllFail` | project1/java/shared/src/main/java/io/digit/server/Retry.java:20-36 | Without interruption the call throws exactly when all n + 1 attempts fail |
| `Servers.PutIsIdempotent` | project1/java/server/src/main/java/io/digit/ServerRPCImpl.java:20-25 | A remote put is idempotent, so it may be retried |
| `Servers.Server.Read` | project1/java/server/src/main/java/io/digit/ServerRPCImpl.java:43-51 | The reply to a get parses back to the key and the stored value, and does not parse if there is none |
| `Servers.Server.PutWithRetry` | project1/java/frontend/src/main/java/io/digit/server/ServerLockUtil.java:15-15 | A retried put leaves the data of one put or of none, and of one if it is acknowledged |
| `Servers.Server.SetLockWithRetry` | project1/java/frontend/src/main/java/io/digit/server/ServerLockUtil.java:25-36 | A retried lock or unlock sets the flag or leaves it, and sets it if acknowledged |
| `Servers.Server.SendValuesToServer` | project1/java/server/src/main/java/io/digit/ServerRPCImpl.java:112-131 | In any order of entries and under any retries: the receiver holds its own map overridden by exactly the entries whose put took effect, which are all if every put is acknowledged, and otherwise those until one fails for good |
| `Servers.TransferCopies` | project1/java/server/src/main/java/io/digit/ServerRPCImpl.java:112-131 | The receiver then equals the sender if and only if it had no key that the sender lacks |
| `Frontends.Frontend.LockAll` | project1/java/frontend/src/main/java/io/digit/server/ServerLockUtil.java:20-31 | Exactly the members whose call takes effect are locked in addition, the others are skipped, and no data changes; performs a path of the step machine |
| `Frontends.Frontend.UnlockAll` | project1/java/frontend/src/main/java/io/digit/server/ServerLockUtil.java:33-40 | Frees exactly the members whose call takes effect until one fails for good; succeeds exactly when every call is acknowledged, and then no member is locked; no data changes; performs a path of the step machine |
| `Frontends.Frontend.WriteAll` | project1/java/frontend/src/main/java/io/digit/server/ServerLockUtil.java:13-16 | Stores the entry at exactly the members whose write takes effect until one fails for good, and changes no lock; succeeds exactly when every write is acknowledged; performs a path of the step machine |
| `Frontends.Frontend.RunWithLock` | project1/java/frontend/src/main/java/io/digit/server/ServerLockUtil.java:10-18 | Lock, write, unlock, with the exact locks and contents afterwards: a lost write ends it at once and leaves every lock that was taken, and an unlock call that fails for good leaves those behind it; performs a path of the step machine |
| `Frontends.Frontend.WriteAndUnlock` | project1/java/frontend/src/main/java/io/digit/server/ServerLockUtil.java:13-17 | What follows the locking: it succeeds exactly when every write and every unlock call is acknowledged, with the exact locks and contents afterwards; performs a path of the step machine |
| `Frontends.Frontend.Put` | project1/java/frontend/src/main/java/io/digit/FrontendRPCImpl.java:12-22 | A put from call to reply: the reply text, exactly when it throws, who is locked and who holds the entry afterwards, and the path of steps it performs, on which just those mishaps happen that the fates of its calls bring about |
| `Frontends.Frontend.Get` | project1/java/frontend/src/main/java/io/digit/FrontendRPCImpl.java:25-42 | A get answers what its server holds, waits if that is locked, and throws exactly when no server can be selected; performs the get's steps of the machine without any mishap |
| `Frontends.Frontend.Transfer` | project1/java/frontend/src/main/java/io/digit/FrontendRPCImpl.java:95-95 | The retried transfer succeeds exactly when an attempt is answered in time within which every put was answered; what it has copied is what its attempts have sent, all entries if it succeeds |
| `Frontends.Frontend.SendOnce` | project1/java/frontend/src/main/java/io/digit/FrontendRPCImpl.java:95-95 | One attempt sends nothing if it throws before taking effect, and otherwise the entries whose put takes effect until one fails for good; its own answer may be lost |
| `Frontends.Frontend.LockAndSend` | project1/java/frontend/src/main/java/io/digit/FrontendRPCImpl.java:88-95 | Locking and the transfer: exactly the members whose lock call takes effect are locked in addition, before anything is sent; success exactly when the transfer succeeds; no data changes but that of the new server, which gets what was sent; performs a path of the step machine |
| `Frontends.Frontend.CopyFrom` | project1/java/frontend/src/main/java/io/digit/FrontendRPCImpl.java:88-100 | The guarded section of addServer succeeds exactly when the transfer and every unlock call do; a transfer that fails leaves every lock that was taken; no data changes but that of the new server, which gets what was sent; performs a path of the step machine |
| `Frontends.Frontend.AddServer` | project1/java/frontend/src/main/java/io/digit/FrontendRPCImpl.java:59-109 | Each reply of addServer with its exact condition (known, not reachable, first server, or the transfer and every unlock call succeed), the membership, the data and the locks afterwards, in particular those that a failed transfer leaves behind, and the path of steps, which has no mishap |
| `Frontends.Frontend.AddBehind` | project1/java/frontend/src/main/java/io/digit/FrontendRPCImpl.java:88-104 | The part of addServer under serversLock: the membership grows exactly when the transfer and every unlock call succeed; the exact locks and contents afterwards; performs a path of the step machine |
| `Frontends.Frontend.ShutdownServer` | project1/java/frontend/src/main/java/io/digit/FrontendRPCImpl.java:127-146 | A server that answers is removed, one that throws stays, an unknown one is reported; performs a path of the step machine, with a mishap only if the last member goes and holds data |
| `Frontends.Frontend.Sweep` | project1/java/frontend/src/main/java/io/digit/HeartBeat.java:17-33 | One sweep keeps exactly the members that answer in time; performs a path of the step machine, with a mishap only if nobody is left and somebody held data |
| `Frontends.Frontend.Beat` | project1/java/frontend/src/main/java/io/digit/HeartBeat.java:22-32 | One member is removed exactly if none of the attempts is answered |
| `PathRuns.PathIsRun` | project1/java/frontend/src/main/java/io/digit/FrontendRPCImpl.java:12-146 | Any path of steps from new processes is a run of the step machine with the same steps and the same mishaps, so what holds of runs holds of the class |
| `PathRuns.RunWithout` | project1/java/frontend/src/main/java/io/digit/FrontendRPCImpl.java:12-146 | Which of the theorems about runs apply to it follows from these mishaps alone |
| `PathRuns.PathEndsInAgreement` | project1/java/frontend/src/main/java/io/digit/FrontendRPCImpl.java:88-104 | When nothing but lost locks goes wrong on a path and serversLock is free at its end, every member holds the single map |
| `PathEffects.OneRequestStores` | project1/java/frontend/src/main/java/io/digit/FrontendRPCImpl.java:12-22 | On a path on which one request moves, the single map changes exactly if that request is a put, and then by its entry alone |
| `Sessions.ServeAll` | project1/java/frontend/src/main/java/io/digit/FrontendRPCImpl.java:12-146 | Any sequence of calls of put, get, addServer, shutdownServer and heartbeat sweeps, under any fates of the remote calls: as long as no put finds no members or gives up in its writes and no removal is the last one while something is stored, which the calls, their fates and the membership decide beforehand, every reply is that of one single map, of the membership and of the read locks; a get waits if and only if its server is locked, the locks before and after each call are those that its fates leave, and afterwards every member holds exactly what the puts have stored; the path performed has just the mishaps so foretold |
| `Sessions.FineMembersHold` | project1/java/frontend/src/main/java/io/digit/FrontendRPCImpl.java:12-146 | The step from the theorems about runs to the data of the members of the class |
| `SessionSpec.OneMoreBehaves` | project1/java/frontend/src/main/java/io/digit/FrontendRPCImpl.java:12-146 | One more call keeps the specification of membership, replies and locks |
| `SessionSpec.CalmGetsAnswer` | project1/java/frontend/src/main/java/io/digit/FrontendRPCImpl.java:25-42 | If every earlier put and addServer released what it had locked, a get of a key that is not negative never waits and answers what the puts have stored |
| `Selector.SelectsUnlessNegative` | project1/java/frontend/src/main/java/io/digit/server/ServerSelector.java:14-18 | Selection fails exactly on an empty set and on negative keys that are no multiple of its size; other negative keys go to the first member |
| `Selector.ServesItsResidue` | project1/java/frontend/src/main/java/io/digit/server/ServerSelector.java:14-18 | The member at position i of the sorted list serves exactly the keys congruent to i |
| `Selector.OnceAround` | project1/java/frontend/src/main/java/io/digit/server/ServerSelector.java:14-18 | Any n consecutive keys visit each of the n members exactly once |
| `Selector.SharesAreBalanced` | project1/java/frontend/src/main/java/io/digit/server/ServerSelector.java:14-18 | Over any run of consecutive keys the numbers of keys of two members differ by at most one |
| `Text.ReplyRoundTrip` | project1/java/server/src/main/java/io/digit/ServerRPCImpl.java:43-49 | The reply text of a stored pair, negative numbers included, splits and parses to exactly that pair; the reply for a missing key does not parse |
| `Text.ParseIntText` | project1/run_cluster.py:113-115 | A printed integer parses back to itself |
| `Text.ParsesExactly` | project1/run_cluster.py:113-115 | Parsing succeeds exactly on digits after an optional minus sign, with the number that they denote |
| `Text.SplitAtFirst` | project1/kubespray/contrib/terraform/terraform.py:157-157 | Splitting once splits at the first separator |
| `Text.SplitIsExact` | project1/kubespray/contrib/terraform/terraform.py:157-157 | Splitting finds all separators: the parts have none, and joined they give the text back |
| `Text.LongerIsLarger` | project1/kubespray/contrib/inventory_builder/inventory.py:169-170 | More digits in front never make the number at the end of a name smaller |
| `Text.NumeralIsCanonical` | project1/kubespray/contrib/inventory_builder/inventory.py:235-235 | The digits of a number are the one text without leading zeros that denotes it |
| `Workload.SlicesAreDisjoint` | project1/run_cluster.py:98-99 | Thread slices lie inside the key list and do not overlap |
| `Workload.SlicesExactly` | project1/run_cluster.py:88-89 | The slice of a thread begins at the number of keys times the thread number over the number of threads, rounded down, and has as many keys as the whole quotient of keys and threads |
| `Workload.CoveredExactly` | project1/run_cluster.py:88-99 | Every key is in the slice of some thread if and only if the number of threads divides the number of keys |
| `Workload.OneOwner` | project1/run_cluster.py:98-103 | With distinct keys, a key lies in the slice of one thread |
| `Workload.NobodyElseWrites` | project1/run_cluster.py:98-113 | From the start of a thread's write to the answer of its read-back no other write to the key begins |
| `Workload.ReadsBackItsWrite` | project1/run_cluster.py:112-118 | In every orderly run, whatever calls run out of retries, a thread whose put of a key of its slice has returned reads back what it put |
| `Workload.ReadBackCheckPasses` | project1/run_cluster.py:113-118 | So the driver's comparison of the split and parsed reply succeeds |
| `Workload.AnswerOfWrite` | project1/run_cluster.py:128-138 | A get called after a put to its key has returned answers with the value of a write no older than that put's |
| `Workload.LoadedValueIsRead` | project1/run_cluster.py:128-143 | The other mode of the workload: a get of an index that is only ever read, made after its load has returned, answers with the loaded value, and the comparison of the split and parsed reply succeeds |
| `Terraform.Convert` | project1/kubespray/contrib/terraform/terraform.py:41-60 | The recursive loops compute the flat dictionary that the sequence of all assignments defines, and fail exactly on an element that is neither string nor dictionary |
| `Terraform.ConvertItems` | project1/kubespray/contrib/terraform/terraform.py:50-53 | The loop over a list: the count first, if the list is not empty, then every element under its index |
| `Terraform.CopyFields` | project1/kubespray/contrib/terraform/terraform.py:56-57 | The loop over a dictionary's entries |
| `Terraform.FieldFailureStays` | project1/kubespray/contrib/terraform/terraform.py:48-60 | A failure half-way is a failure of the whole conversion |
| `TerraformParse.ParseAttrList` | project1/kubespray/contrib/terraform/terraform.py:167-173 | The grouping loop computes the groups in order of first appearance, and fails exactly on a key without a second part |
| `TerraformParse.ParseAssign` | project1/kubespray/contrib/terraform/terraform.py:154-164 | Parsing a prefix commutes with assignment: what is yielded for a dictionary built by assignments is built by the assignments yielded |
| `TerraformRoundTrip.ListRoundTrip` | project1/kubespray/contrib/terraform/terraform.py:180-181 | parse_list of the flattened attributes returns a list of strings, in order |
| `TerraformRoundTrip.DictRoundTrip` | project1/kubespray/contrib/terraform/terraform.py:176-177 | parse_dict shows every entry of a dictionary as it was, nothing under "#", and the count under "%" unless the dictionary has an entry of that name |
| `TerraformRoundTrip.DictRoundTripExact` | project1/kubespray/contrib/terraform/terraform.py:176-177 | It returns the dictionary plus only the count if and only if there is no entry "#" and none "%" that contradicts the count |
| `TerraformAttrLists.AttrListRoundTrip` | project1/kubespray/contrib/terraform/terraform.py:167-173 | parse_attr_list returns the flattened forms of the elements of any list, strings and dictionaries nested to any depth, in order, without the empty ones |
| `TerraformAttrLists.AttrListRoundTripExact` | project1/kubespray/contrib/terraform/terraform.py:167-173 | It returns the form of every element if and only if none of them is a dictionary of empty lists only |
| `TerraformAttrLists.FlatListRoundTripExact` | project1/kubespray/contrib/terraform/terraform.py:167-173 | A list of flat dictionaries comes back as it was if and only if none of them is empty |
| `TerraformAttrLists.WritesUnder` | project1/kubespray/contrib/terraform/terraform.py:41-60 | Below any path a value is flattened as on its own, with the path in front of every key and the random numbers drawn below it |
| `TerraformAttrLists.ItemsAssign` | project1/kubespray/contrib/terraform/terraform.py:52-53 | The assignments for different elements of a list do not meet, so each keeps its own form |
| `TerraformRoundTrip.OnlyOwnEntry` | project1/kubespray/contrib/terraform/terraform.py:154-164 | Of all assignments for a resource, a parser for one dot-free attribute sees exactly those made for that attribute |
| `TerraformLeaves.NothingIsOverwritten` | project1/kubespray/contrib/terraform/terraform.py:41-60 | For attributes nested to any depth: the conversion succeeds, and no leaf or count overwrites another if and only if no dictionary that is copied as it is has an entry "%" |
| `TerraformLeaves.FieldsSeparate` | project1/kubespray/contrib/terraform/terraform.py:48-60 | At every level, the assignments made for a dictionary go to different keys if and only if all its counts show, and each lies under its own field |
| `TerraformLeaves.ItemsSeparate` | project1/kubespray/contrib/terraform/terraform.py:52-53 | The assignments made for the elements of a list go to different keys if and only if all counts inside them show |
| `TerraformLookups.SucceedsExactly` | project1/kubespray/contrib/terraform/terraform.py:41-60 | The flattener raises its exception exactly on a list element, at any depth it descends to, that is neither a string nor a dictionary |
| `TerraformLookups.OwnLookup` | project1/kubespray/contrib/terraform/terraform.py:48-60 | What is found under a key of one attribute depends on that attribute alone |
| `TerraformLookups.ScalarIsFound` | project1/kubespray/contrib/terraform/terraform.py:58-59 | An attribute that is neither list nor dictionary is found under its name, and nothing below it |
| `TerraformLookups.CountIsFound` | project1/kubespray/contrib/terraform/terraform.py:50-51 | The length of a list is found under its count, and nothing if the list is empty |
| `TerraformLookups.ElementIsFound` | project1/kubespray/contrib/terraform/terraform.py:52-53 | Below the index of a list element one finds its flattened form, and nothing below any other number |
| `TerraformLookups.EntryIsFound` | project1/kubespray/contrib/terraform/terraform.py:54-57 | Below the name of a dictionary one finds its entries, and its size unless an entry hides it |
| `TerraformLookups.ForeignLookup` | project1/kubespray/contrib/terraform/terraform.py:48-60 | Under a key that belongs to no attribute nothing is found |
| `TerraformLookups.AttrListFailsExactly` | project1/kubespray/contrib/terraform/terraform.py:167-173 | parse_attr_list raises its exception exactly on a key below the prefix without a second part |
| `Hostnames.BuildHostnames` | project1/kubespray/contrib/inventory_builder/inventory.py:176-259 | The loops over earlier hosts and arguments, with local variables that keep values between arguments, compute the fold over the arguments, and stop exactly where an exception ends them |
| `Hostnames.HighestHostId` | project1/kubespray/contrib/inventory_builder/inventory.py:178-191 | The first loop computes the highest number among prefixed hosts, and fails exactly when one has no number |
| `Hostnames.DeleteHostByIp` | project1/kubespray/contrib/inventory_builder/inventory.py:296-301 | The loop deletes the first host with the address, and fails if there is none |
| `HostnameLaws.IpsStayDistinct` | project1/kubespray/contrib/inventory_builder/inventory.py:176-259 | Whatever the arguments, names and addresses that were pairwise distinct stay so |
| `HostnameLaws.DeletedIsGone` | project1/kubespray/contrib/inventory_builder/inventory.py:205-212 | Deletion by name, and by address when no host has the name: it succeeds, removes the host of that name or, if there is none, the host of that address, and changes no other |
| `HostnameLaws.DeletionSucceeds` | project1/kubespray/contrib/inventory_builder/inventory.py:205-212 | A deletion fails exactly if no host has the name and a host without an address is met before one with the address |
| `HostnameLaws.ExistsIpExactly` | project1/kubespray/contrib/inventory_builder/inventory.py:290-294 | An address is found exactly if a host has it before any host without an address, and the search fails exactly if it meets one first |
| `ArgumentLaws.AddressIsAdded` | project1/kubespray/contrib/inventory_builder/inventory.py:215-241 | "ip,access_ip" stores a host with exactly these addresses under the next generated name and touches no other host, or nothing if the address is taken |
| `ArgumentLaws.AddressOfExactly` | project1/kubespray/contrib/inventory_builder/inventory.py:216-220 | An address argument is an address, or an address and an access address, and fails exactly with more parts |
| `ArgumentLaws.AddressHandled` | project1/kubespray/contrib/inventory_builder/inventory.py:215-241 | Every argument that begins with a digit: when it fails, when its host is stored and under which name, and that the number goes up only then |
| `ArgumentLaws.NamedIsAdded` | project1/kubespray/contrib/inventory_builder/inventory.py:243-258 | "hostname,ip,access_ip" stores a host with exactly these addresses under that name and touches no other host, or nothing if the address is taken |
| `ArgumentLaws.NamedOfExactly` | project1/kubespray/contrib/inventory_builder/inventory.py:244-249 | A named argument splits into two or three parts, and fails exactly with any other number |
| `ArgumentLaws.NamedHandled` | project1/kubespray/contrib/inventory_builder/inventory.py:243-258 | Every argument that begins with a letter, with or without parts: when it fails, what name and address it means, also if an earlier argument has left them, and when the host is stored |
| `ArgumentLaws.OthersHandled` | project1/kubespray/contrib/inventory_builder/inventory.py:205-243 | An empty argument fails; one that begins with neither a minus sign, a digit nor a letter is passed over |
| `HostnameLaws.IdOfGenerated` | project1/kubespray/contrib/inventory_builder/inventory.py:166-172 | The number read from a generated name is the one it was made from, if the prefix does not end in a digit; with digits at its end, they are read as well and never make it smaller |
| `HostnameLaws.HostIdExactly` | project1/kubespray/contrib/inventory_builder/inventory.py:166-172 | The number of a host is what the digits right before its first dot, or at its end, denote; without any it has none |
| `HostnameLaws.HighestIsAttained` | project1/kubespray/contrib/inventory_builder/inventory.py:186-191 | The highest number is zero or that of a host with the prefix |
| `HostnameLaws.StartsAbove` | project1/kubespray/contrib/inventory_builder/inventory.py:178-199 | The first number to be used is above that of every host with the prefix, and it is 1 or the next after one of them |
| `HostnameLaws.HighestFailsExactly` | project1/kubespray/contrib/inventory_builder/inventory.py:182-196 | Loading fails exactly if some host has the prefix and no number |
| `HostnameLaws.UnusedNumber` | project1/kubespray/contrib/inventory_builder/inventory.py:188-199 | With a safe prefix (no dot in it, or no digit right before its first dot) no earlier host has a name that a number above the highest would generate |
| `HostnameLaws.NextIsFreeExactly` | project1/kubespray/contrib/inventory_builder/inventory.py:188-199 | The next generated name is free, whatever hosts were there, if and only if the prefix is safe |
| `HostnameLaws.DottedPrefixStops` | project1/kubespray/contrib/inventory_builder/inventory.py:166-197 | With a safe prefix that has a dot, loading earlier hosts succeeds if and only if none of them has the prefix |
| `HostnameLaws.Provenance` | project1/kubespray/contrib/inventory_builder/inventory.py:202-259 | Every host comes from the earlier table, from an explicit name, or from a number used in this call |
| `HostnameLaws.GeneratedIsNewExactly` | project1/kubespray/contrib/inventory_builder/inventory.py:233-241 | With a safe prefix, the next generated name was in use at some earlier point of the call, deleted or not, if and only if an earlier argument stored a host under it explicitly |
| `HostnameLaws.GeneratedIsNew` | project1/kubespray/contrib/inventory_builder/inventory.py:233-241 | So it is new whenever no explicit name starts with the prefix |
| `Survivors.SurvivorsStay` | project1/kubespray/contrib/inventory_builder/inventory.py:202-241 | With a safe prefix, after addresses and deletions only, the table is the surviving hosts, in order and unchanged, followed by generated names |
| `Survivors.ExplicitNameIsOverwritten` | project1/kubespray/contrib/inventory_builder/inventory.py:233-258 | For every prefix and any two addresses: an explicit name can be overwritten by a generated one, losing a host |
| `Survivors.UnsafePrefixOverwrites` | project1/kubespray/contrib/inventory_builder/inventory.py:166-172 | With any prefix that is not safe, and any options and new address, a new address overwrites a host that was generated |
| `Inventory.Inventory.EnsureRequiredGroups` | project1/kubespray/contrib/inventory_builder/inventory.py:153-164 | Missing groups are added empty, existing ones stay |
| `Inventory.Inventory.PurgeInvalidHosts` | project1/kubespray/contrib/inventory_builder/inventory.py:303-318 | From all.hosts, in order, and from every group but k8s_cluster, exactly the hosts that are neither built nor protected go |
| `Inventory.Inventory.AddHostToGroup` | project1/kubespray/contrib/inventory_builder/inventory.py:320-331 | One host is added to all, with options, or to one group, and nothing else changes |
| `Inventory.Inventory.SetAll` | project1/kubespray/contrib/inventory_builder/inventory.py:337-339 | Every built host is stored in all.hosts, in place or at the end |
| `Inventory.Inventory.AddAll` | project1/kubespray/contrib/inventory_builder/inventory.py:333-377 | etcd and the control plane gain exactly the given hosts |
| `Inventory.Inventory.SetKubeNode` | project1/kubespray/contrib/inventory_builder/inventory.py:359-373 | kube_node gains exactly the hosts that the two thresholds do not exclude |
| `Inventory.Inventory.SetCalicoRr` | project1/kubespray/contrib/inventory_builder/inventory.py:346-357 | calico_rr gains the given hosts |
| `Inventory.Inventory.AssignRoles` | project1/kubespray/contrib/inventory_builder/inventory.py:114-127 | The sequence of purges and additions reaches exactly the inventory defined by who is built and who was there |
| `Inventory.RunBuilder` | project1/kubespray/contrib/inventory_builder/inventory.py:82-132 | One invocation writes that inventory, or nothing when it fails or only shows help |
| `InventoryLaws.AfterIsIntegral` | project1/kubespray/contrib/inventory_builder/inventory.py:303-318 | Purge and assignment keep: groups hold only hosts of the inventory, and every host is in kube_node, etcd or kube_control_plane |
| `InventoryLaws.OptionsAfter` | project1/kubespray/contrib/inventory_builder/inventory.py:303-339 | Every built host ends with the options it was built with; other hosts are gone unless protected |
| `InventoryLaws.AllIsBuiltExactly` | project1/kubespray/contrib/inventory_builder/inventory.py:312-318 | all.hosts equals the built hosts if and only if no earlier host that is not built again has a protected name |
| `InventoryLaws.MembersAfter` | project1/kubespray/contrib/inventory_builder/inventory.py:303-377 | The members of each group afterwards: those kept and those added, group by group |
| `InventoryLaws.RoleSeparation` | project1/kubespray/contrib/inventory_builder/inventory.py:110-127 | In a new inventory: the sizes of etcd and of the control plane, disjointness from the first threshold on, and a partition of the hosts from the second on |
| `InventoryLaws.EtcdMembersAt` | project1/kubespray/contrib/inventory_builder/inventory.py:117-118 | Host number i of a new inventory is an etcd member exactly if it is among the first three, or the first of fewer than three |
| `InventoryLaws.ControlMembersAt` | project1/kubespray/contrib/inventory_builder/inventory.py:119-124 | Host number i of a new inventory is a control plane host exactly if it is among the first ones, from the first threshold on among those right after the etcd members |
| `InventoryLaws.WorkersAt` | project1/kubespray/contrib/inventory_builder/inventory.py:359-373 | Host number i of a new inventory is a worker unless it is an etcd member from the first threshold on, or a control plane host from the second on |
| `InventoryLaws.RouteReflectorsAt` | project1/kubespray/contrib/inventory_builder/inventory.py:346-357 | Host number i of a new inventory is a route reflector exactly if it is an etcd member, the first threshold is reached, and it is not called like the key of a group |
| `InventoryLaws.EtcdIsNewExactly` | project1/kubespray/contrib/inventory_builder/inventory.py:117-118 | After an invocation etcd is what a new inventory of the same hosts would have if and only if every earlier member that stays is among the first hosts again |
| `InventoryLaws.EtcdIsApartExactly` | project1/kubespray/contrib/inventory_builder/inventory.py:333-373 | With earlier hosts kept, exactly when etcd shares no host with the workers, and exactly when it shares none with the control plane |
| `InventoryRuns.RunsStayIntegral` | project1/kubespray/contrib/inventory_builder/inventory.py:82-132 | Referential integrity and role coverage hold after any sequence of invocations |
| `InventoryRuns.RunsStayClean` | project1/kubespray/contrib/inventory_builder/inventory.py:82-132 | Names and addresses stay distinct over any sequence of invocations that names no host like a group |
| `InventoryRuns.UpdateWritesWhatIsBuilt` | project1/kubespray/contrib/inventory_builder/inventory.py:110-132 | Without protected names, an invocation writes exactly the hosts it has built, with their options |
| `InventoryRuns.WrittenGroups` | project1/kubespray/contrib/inventory_builder/inventory.py:153-164 | The groups of the file written: the required ones and those of the file it started from, each without what was neither built nor protected, and the fixed group of groups |
| `InventoryRuns.CreateIsNumbered` | project1/kubespray/contrib/inventory_builder/inventory.py:233-241 | An invocation with any positive number of addresses, whatever file was there, writes a new inventory of hosts named by the numbers from 1 on, in order |
| `InventoryRuns.NextIsNumbered` | project1/kubespray/contrib/inventory_builder/inventory.py:233-241 | The table of hosts 1 to n and a free address make the table of hosts 1 to n + 1 |
| `InventoryRuns.AddIsNumbered` | project1/kubespray/contrib/inventory_builder/inventory.py:82-132 | Adding a free address to a new inventory of hosts 1 to n writes hosts 1 to n + 1, for every prefix that ends in no digit, has no dot and begins with a letter |
| `InventoryRuns.EtcdKeepsTwo` | project1/kubespray/contrib/inventory_builder/inventory.py:117-118 | Two invocations, one with three addresses and one that deletes the first host, leave two etcd members, although a new inventory of these two hosts has one |
| `OrderedDict.UpdateIsAssign` | project1/kubespray/contrib/terraform/terraform.py:53-53 | Updating a dictionary with one that was built by assignments performs those assignments |
| `OrderedDict.DeleteAt` | project1/kubespray/contrib/inventory_builder/inventory.py:209-209 | Deleting a key removes that entry and no other |

## Left out

- Liveness: `Progress.dfy` proves that puts and gets can still be completed, not that they will be: that a blocked get is ever woken (the check of `isLocked` and the wait can miss a notification), and that loops over members end under ever new failures.
- Wall-clock time: the heartbeat's period and real sleeping. The heartbeat is a removal that may happen whenever `serversLock` is free; seconds slept are a number.
- Interleaving inside the methods of class `Frontend`: they are sequential, and the steps of the machine they perform are what interleaves. In particular the late failure of a join whose sender has been removed exists only in the machine. `Sessions.dfy` therefore speaks of calls one after the other.
- A process that restarts empty while it is a member.
- `printKVPairs`, the text of `listServer`, `App.java`, the XML-RPC plumbing, `ServerRPCClient`, logging, and the Python skeletons `frontend.py`, `server.py` and `client.py`.
- The loops of `loadDataset` and `runWorkload`, their random choices, and the comma split in `testKVS`; threads are any runs that satisfy `ThreadsBehave` or `LoadsThenRuns`. Slice bounds are in exact arithmetic, without floating-point rounding.
- Python's `int()` on anything but an optional minus sign and digits.
- `get` returning "ERR_NOEXIST" or throwing because its member vanished between two lookups is a failed get without an answer; `Frontends.Frontend.Get` runs alone and never meets that race.
- In `terraform.py`: reading files, the mapping of provider fields, `parse_bool`. A random number is drawn once per path.
- In `inventory.py`: the SSH lookup of real host names, reading and writing YAML (also hand-written files with null entries or groups without hosts), `range2ips` (arguments come with ranges expanded), the `load` and print commands, help and debug output, negative values of `KUBE_CONTROL_HOSTS`, other keys next to `hosts` inside a group.
- `Inventory.Inventory.SetCalicoRr`: the original compares a host with the keys of two group dictionaries; the model does the same, and no theorem rests on which hosts that skips.
- The rest of kubespray: playbooks, shell scripts, cloud inventory scripts, documentation.
