/** What follows from the fates of many remote calls: which take effect, and what goes wrong. */
module Fates {
  import C = Cluster
  import Retry

  // ---------------------------------------------------------------- Loops of calls

  ghost predicate AllSucceed(keys: set<int>, luck: int -> Retry.Luck) {
    forall k | k in keys :: Retry.Succeeds(luck(k))
  }

  /** A loop that makes one call for each key, in any order, and ends with the first call that fails for
      good: `landed` are the keys whose call took effect. */
  ghost predicate StopsAtFirst(keys: set<int>, luck: int -> Retry.Luck, landed: set<int>) {
    if AllSucceed(keys, luck) then landed == keys
    else exists x | x in keys && !Retry.Succeeds(luck(x)) :: FailsAt(keys, luck, landed, x)
  }

  /** It ends at `x`. */
  ghost predicate FailsAt(keys: set<int>, luck: int -> Retry.Luck, landed: set<int>, x: int) {
    && (x in landed <==> Retry.Lands(luck(x)))
    && forall k | k in landed && k != x :: k in keys && Retry.Succeeds(luck(k))
  }

  /** A loop that goes on when a call fails. */
  ghost function Landed(keys: set<int>, luck: int -> Retry.Luck): set<int> {
    set k | k in keys && Retry.Lands(luck(k))
  }

  lemma LandedOneMore(keys: set<int>, todo: set<int>, luck: int -> Retry.Luck, i: int)
    requires i in todo && todo <= keys
    ensures Landed(keys - (todo - {i}), luck)
         == Landed(keys - todo, luck) + if Retry.Lands(luck(i)) then {i} else {}
  {
    assert keys - (todo - {i}) == (keys - todo) + {i};
  }

  lemma LandedAtEnds(keys: set<int>, luck: int -> Retry.Luck)
    ensures Landed(keys - keys, luck) == {} && Landed(keys - {}, luck) == Landed(keys, luck)
  {
    assert keys - {} == keys;
  }

  // ---------------------------------------------------------------- Transfers

  /** The attempts at a transfer of the entries under `keys`, put by put, seen as attempts at one call. */
  ghost function TransferLuck(keys: set<int>, outer: Retry.Luck, inner: nat -> int -> Retry.Luck): Retry.Luck {
    Retry.Luck((i: nat) => if outer.fate(i).Answers? && AllSucceed(keys, inner(i)) then Retry.Answers
                    else if outer.fate(i).ThrowsBefore? then Retry.ThrowsBefore else Retry.ThrowsAfterEffect,
               outer.interrupted)
  }

  /** A join succeeds exactly when its transfer does, and then every unlock call. */
  ghost predicate JoinSucceeds(keys: set<int>, outer: Retry.Luck, inner: nat -> int -> Retry.Luck,
                               members: set<int>, unlockLuck: int -> Retry.Luck) {
    Retry.Succeeds(TransferLuck(keys, outer, inner)) && AllSucceed(members, unlockLuck)
  }

  /** What the first `n` attempts at a transfer may have sent. */
  ghost predicate SentBy(keys: set<int>, outer: Retry.Luck, inner: nat -> int -> Retry.Luck, n: nat, sent: set<int>) {
    if n == 0 then sent == {}
    else exists before, now | SentBy(keys, outer, inner, n - 1, before) && SentIn(keys, outer, inner, n - 1, now) ::
           sent == before + now
  }

  ghost predicate SentIn(keys: set<int>, outer: Retry.Luck, inner: nat -> int -> Retry.Luck, i: nat, now: set<int>) {
    if outer.fate(i).ThrowsBefore? then now == {} else StopsAtFirst(keys, inner(i), now)
  }

  lemma NothingSent(keys: set<int>, outer: Retry.Luck, inner: nat -> int -> Retry.Luck)
    ensures SentBy(keys, outer, inner, 0, {})
  {
  }

  lemma OneMoreAttempt(keys: set<int>, outer: Retry.Luck, inner: nat -> int -> Retry.Luck, n: nat,
                       before: set<int>, now: set<int>)
    requires SentBy(keys, outer, inner, n, before)
    requires if outer.fate(n).ThrowsBefore? then now == {} else StopsAtFirst(keys, inner(n), now)
    ensures SentBy(keys, outer, inner, n + 1, before + now)
  {
    assert SentIn(keys, outer, inner, n, now);
  }

  lemma StopsHere(keys: set<int>, luck: int -> Retry.Luck, todo: set<int>, x: int) returns (landed: set<int>)
    requires x in todo && todo <= keys && !Retry.Succeeds(luck(x)) && AllSucceed(keys - todo, luck)
    ensures StopsAtFirst(keys, luck, landed)
    ensures landed == (keys - todo) + if Retry.Lands(luck(x)) then {x} else {}
  {
    landed := (keys - todo) + if Retry.Lands(luck(x)) then {x} else {};
    assert FailsAt(keys, luck, landed, x);
  }

  lemma StopsInside(keys: set<int>, luck: int -> Retry.Luck, landed: set<int>)
    requires StopsAtFirst(keys, luck, landed)
    ensures landed <= keys && (AllSucceed(keys, luck) ==> landed == keys)
  {
    if !AllSucceed(keys, luck) {
      var x :| x in keys && !Retry.Succeeds(luck(x)) && FailsAt(keys, luck, landed, x);
      forall k | k in landed ensures k in keys {
        assert k == x || Retry.Succeeds(luck(k));
      }
    }
  }

  /** What a transfer with all its attempts has sent; everything, if it succeeds. */
  ghost predicate Sent(keys: set<int>, outer: Retry.Luck, inner: nat -> int -> Retry.Luck, sent: set<int>) {
    && SentBy(keys, outer, inner, Retry.FirstStop(TransferLuck(keys, outer, inner), 0) + 1, sent)
    && sent <= keys
    && (Retry.Succeeds(TransferLuck(keys, outer, inner)) ==> sent == keys)
  }

  // ---------------------------------------------------------------- Locks

  /** An unlock loop takes the locks from `before` to `after`. */
  ghost predicate Unlocks(members: set<int>, luck: int -> Retry.Luck, before: set<int>, after: set<int>) {
    exists freed | StopsAtFirst(members, luck, freed) :: after == before - freed
  }

  /** The locked servers before and after a put. A lost write leaves every lock as it is. */
  ghost predicate PutLocks(members: set<int>, lockLuck: int -> Retry.Luck, writeLuck: int -> Retry.Luck,
                           unlockLuck: int -> Retry.Luck, before: set<int>, after: set<int>) {
    var taken := before + Landed(members, lockLuck);
    if AllSucceed(members, writeLuck) then Unlocks(members, unlockLuck, taken, after) else after == taken
  }

  /** The locked servers before and after a join that copies entries under `keys`. A transfer that fails
      leaves every lock as it is. */
  ghost predicate JoinLocks(members: set<int>, keys: set<int>, lockLuck: int -> Retry.Luck, outer: Retry.Luck,
                            inner: nat -> int -> Retry.Luck, unlockLuck: int -> Retry.Luck,
                            before: set<int>, after: set<int>) {
    var taken := before + Landed(members, lockLuck);
    if Retry.Succeeds(TransferLuck(keys, outer, inner)) then Unlocks(members, unlockLuck, taken, after)
    else after == taken
  }

  // ---------------------------------------------------------------- Mishaps

  /** The mishaps that come with a put whose remote calls have these fates. */
  ghost function PutMishaps(members: set<int>, lockLuck: int -> Retry.Luck,
                            writeLuck: int -> Retry.Luck): set<C.Mishap> {
    (if members == {} then {C.PutWithoutMembers} else {})
    + (if forall i | i in members :: Retry.Lands(lockLuck(i)) then {} else {C.LockLost})
    + (if AllSucceed(members, writeLuck) then {} else {C.WriteLost})
  }
}
