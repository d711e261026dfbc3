/** The at-least-once attempt loop that wraps every remote call. */
module Retry {
  import opened Options

  const RETRIES: nat := 3

  /** What becomes of one attempt. An attempt that throws may still have taken effect. */
  datatype Fate = Answers | ThrowsAfterEffect | ThrowsBefore

  /** The environment of one call of `Run`: the fate of attempt 0, 1, ... and whether sleep
      number 0, 1, ... is interrupted. */
  datatype Luck = Luck(fate: nat -> Fate, interrupted: nat -> bool)

  /** The state after the first `n` attempts. */
  function AfterAttempts<S, V>(s: S, act: S -> (S, V), fate: nat -> Fate, n: nat): S {
    if n == 0 then s
    else if fate(n - 1).ThrowsBefore? then AfterAttempts(s, act, fate, n - 1)
    else act(AfterAttempts(s, act, fate, n - 1)).0
  }

  /** With `n` retries, attempt `i` is the last one: it answers, the retries are used up, or the sleep
      before the next one is interrupted. The first attempt is retried without sleeping. */
  predicate Stops(luck: Luck, i: nat, n: nat := RETRIES) {
    luck.fate(i).Answers? || i >= n || (i >= 1 && luck.interrupted(i - 1))
  }

  function FirstStop(luck: Luck, from: nat, n: nat := RETRIES): (i: nat)
    requires from <= n && forall j: nat | j < from :: !Stops(luck, j, n)
    ensures Stops(luck, i, n) && forall j: nat | j < i :: !Stops(luck, j, n)
    ensures i <= n
    decreases n - from
  {
    if Stops(luck, from, n) then from else FirstStop(luck, from + 1, n)
  }

  lemma FirstStopIs(luck: Luck, i: nat, n: nat)
    requires Stops(luck, i, n) && i <= n && forall j: nat | j < i :: !Stops(luck, j, n)
    ensures FirstStop(luck, 0, n) == i
  {
    var first := FirstStop(luck, 0, n);
    assert !(first < i) && !(i < first);
  }

  /** The call gets an answer. */
  predicate Succeeds(luck: Luck, n: nat := RETRIES) {
    luck.fate(FirstStop(luck, 0, n)).Answers?
  }

  /** Some attempt takes effect. */
  predicate Lands(luck: Luck, n: nat := RETRIES) {
    exists i: nat | i <= FirstStop(luck, 0, n) :: !luck.fate(i).ThrowsBefore?
  }

  function SecondsSlept(naps: nat): nat {
    naps * (naps + 1) / 2
  }

  lemma OneNapMore(naps: nat)
    ensures SecondsSlept(naps + 1) == SecondsSlept(naps) + naps + 1
  {
    assert (naps + 1) * (naps + 2) == naps * (naps + 1) + 2 * (naps + 1);
  }

  /** Retry.run: one attempt, then up to `n` more with growing sleeps after each failure. */
  method Run<S, V>(s0: S, act: S -> (S, V), luck: Luck, n: nat := RETRIES)
    returns (s: S, answer: Option<V>, attempts: nat, slept: nat)
    ensures attempts == FirstStop(luck, 0, n) + 1 && attempts <= n + 1
    ensures s == AfterAttempts(s0, act, luck.fate, attempts)
    ensures answer.Some? <==> Succeeds(luck, n)
    ensures answer.Some? ==> answer.value == act(AfterAttempts(s0, act, luck.fate, attempts - 1)).1
    ensures attempts == 1 ==> slept == 0
    ensures attempts >= 2 && (answer.Some? || luck.interrupted(attempts - 2)) ==> slept == SecondsSlept(attempts - 2)
    ensures attempts >= 2 && answer.None? && !luck.interrupted(attempts - 2) ==> slept == SecondsSlept(attempts - 1)
  {
    s, slept := s0, 0;
    if luck.fate(0).Answers? {
      var outcome := act(s);
      return outcome.0, Some(outcome.1), 1, 0;
    }
    if luck.fate(0).ThrowsAfterEffect? {
      s := act(s).0;
    }
    var attempt := 0;
    while attempt < n
      invariant attempt <= n
      invariant forall j: nat | j < attempt + 1 && j < n :: !Stops(luck, j, n)
      invariant attempt == n ==> !luck.fate(n).Answers?
      invariant attempt > 0 ==> !luck.interrupted(attempt - 1)
      invariant s == AfterAttempts(s0, act, luck.fate, attempt + 1)
      invariant slept == SecondsSlept(attempt)
    {
      if luck.fate(attempt + 1).Answers? {
        FirstStopIs(luck, attempt + 1, n);
        var outcome := act(s);
        return outcome.0, Some(outcome.1), attempt + 2, slept;
      }
      if luck.fate(attempt + 1).ThrowsAfterEffect? {
        s := act(s).0;
      }
      if luck.interrupted(attempt) {
        FirstStopIs(luck, attempt + 1, n);
        return s, None, attempt + 2, slept;
      }
      OneNapMore(attempt);
      slept := slept + attempt + 1;
      attempt := attempt + 1;
    }
    FirstStopIs(luck, n, n);
    return s, None, n + 1, slept;
  }

  /** Attempt number `i` is made if and only if it is one of the n + 1, none before it has answered, and no sleep
      before it was interrupted. */
  lemma AttemptedExactly(luck: Luck, i: nat, n: nat := RETRIES)
    ensures i <= FirstStop(luck, 0, n) <==>
              && i <= n && (forall j: nat | j < i :: !luck.fate(j).Answers?)
              && (forall j: nat | j + 1 < i :: !luck.interrupted(j))
  {
    var last := FirstStop(luck, 0, n);
    if i <= last {
      forall j: nat | j < i ensures !luck.fate(j).Answers? && (j + 1 < i ==> !luck.interrupted(j)) {
        assert !Stops(luck, j, n);
        assert j + 1 < i ==> !Stops(luck, j + 1, n);
      }
    } else {
      assert luck.fate(last).Answers? || last >= n || luck.interrupted(last - 1);
    }
  }

  /** The call gets an answer if and only if one of the n + 1 attempts would, with no sleep before it interrupted. */
  lemma SucceedsExactly(luck: Luck, n: nat := RETRIES)
    ensures Succeeds(luck, n) <==>
              exists i: nat | i <= n && luck.fate(i).Answers? :: forall j: nat | j + 1 < i :: !luck.interrupted(j)
  {
    var last := FirstStop(luck, 0, n);
    AttemptedExactly(luck, last, n);
    forall i: nat | i <= n && luck.fate(i).Answers? && forall j: nat | j + 1 < i :: !luck.interrupted(j)
      ensures Succeeds(luck, n)
    {
      var first := FirstAnswer(luck, i);
      AttemptedExactly(luck, first, n);
      assert Stops(luck, first, n);
      assert !(first < last);
    }
  }

  lemma {:induction false} FirstAnswer(luck: Luck, i: nat) returns (first: nat)
    requires luck.fate(i).Answers?
    ensures first <= i && luck.fate(first).Answers? && forall j: nat | j < first :: !luck.fate(j).Answers?
  {
    if j: nat :| j < i && luck.fate(j).Answers? {
      first := FirstAnswer(luck, j);
    } else {
      first := i;
    }
  }

  /** It takes effect if and only if one of the n + 1 attempts would, with no sleep before it interrupted: an
      attempt that is made only without an earlier answer would not change that. */
  lemma LandsExactly(luck: Luck, n: nat := RETRIES)
    ensures Lands(luck, n) <==>
              exists i: nat | i <= n && !luck.fate(i).ThrowsBefore? :: forall j: nat | j + 1 < i :: !luck.interrupted(j)
  {
    var last := FirstStop(luck, 0, n);
    if i: nat :| i <= last && !luck.fate(i).ThrowsBefore? {
      AttemptedExactly(luck, i, n);
    }
    forall i: nat | i <= n && !luck.fate(i).ThrowsBefore? && forall j: nat | j + 1 < i :: !luck.interrupted(j)
      ensures Lands(luck, n)
    {
      AttemptedExactly(luck, i, n);
      if i > last {
        var j: nat :| j < i && luck.fate(j).Answers?;
        var first := FirstAnswer(luck, j);
        AttemptedExactly(luck, first, n);
        assert first <= last && !luck.fate(first).ThrowsBefore?;
      }
    }
  }

  // ---------------------------------------------------------------- Refinement of a single execution

  ghost predicate Idempotent<S(!new), V(!new)>(act: S -> (S, V)) {
    forall s :: act(act(s).0) == act(s)
  }

  ghost predicate LandedBefore(fate: nat -> Fate, n: nat) {
    exists i: nat | i < n :: !fate(i).ThrowsBefore?
  }

  lemma {:induction false} AfterIsOnce<S(!new), V(!new)>(s0: S, act: S -> (S, V), fate: nat -> Fate, n: nat)
    requires Idempotent(act)
    ensures AfterAttempts(s0, act, fate, n) == if LandedBefore(fate, n) then act(s0).0 else s0
  {
    if n > 0 {
      AfterIsOnce(s0, act, fate, n - 1);
      assert act(act(s0).0) == act(s0);
      assert LandedBefore(fate, n) <==> LandedBefore(fate, n - 1) || !fate(n - 1).ThrowsBefore?;
    }
  }

  /** Retrying an idempotent action is executing it once, or not at all; once if it answers. */
  lemma RetryIsOnce<S(!new), V(!new)>(s0: S, act: S -> (S, V), luck: Luck, n: nat := RETRIES)
    requires Idempotent(act)
    ensures AfterAttempts(s0, act, luck.fate, FirstStop(luck, 0, n) + 1) == if Lands(luck, n) then act(s0).0 else s0
    ensures Succeeds(luck, n) ==>
              Lands(luck, n) && act(AfterAttempts(s0, act, luck.fate, FirstStop(luck, 0, n))).1 == act(s0).1
  {
    var last := FirstStop(luck, 0, n);
    AfterIsOnce(s0, act, luck.fate, last + 1);
    AfterIsOnce(s0, act, luck.fate, last);
    assert act(act(s0).0) == act(s0);
    assert Lands(luck, n) <==> LandedBefore(luck.fate, last + 1);
  }

  /** Without an interruption, Run throws exactly when all n + 1 attempts fail. */
  lemma ThrowsWhenAllFail(luck: Luck, n: nat := RETRIES)
    requires forall j: nat | j < n :: !luck.interrupted(j)
    ensures !Succeeds(luck, n) <==> forall i: nat | i <= n :: !luck.fate(i).Answers?
  {
    var last := FirstStop(luck, 0, n);
    if !Succeeds(luck, n) {
      forall i: nat | i <= n ensures !luck.fate(i).Answers? {
        assert i < last ==> !Stops(luck, i, n);
      }
    }
  }
}
