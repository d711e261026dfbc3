/** What a get answers: the theorems about whole runs. */
module HindsightTheorems {
  import opened Options
  import opened Cluster
  import opened Agreement
  import opened Lifecycle
  import opened AgreementTheorems
  import opened LockDiscipline
  import opened Hindsight

  /** The key of a get, at any time after its call. */
  lemma KeyOf(run: Run, c: nat, t: nat)
    requires IsRun(run) && c < |run.steps| && t <= |run.steps| && run.steps[c].CallGet?
    requires run.steps[c].id in run.states[t].tasks
    ensures c < t && run.states[t].tasks[run.steps[c].id].req == Get(run.steps[c].key)
  {
    CalledBefore(run, c, t, run.steps[c].id);
    assert StepAt(run, c);
    Forward(run, c + 1, t, run.steps[c].id);
  }

  /** Step `p` is the answer to a get that was undisturbed. */
  ghost predicate CleanAnswer(run: Run, p: nat)
    requires |run.steps| < |run.states|
  {
    p < |run.steps| && run.steps[p].RetGet? && UndisturbedIn(run, 0, p, run.steps[p].id)
  }

  /** Hindsight: what a get for `k` answers was in the single map at an instant `w` after the
      server was looked up and no later than the answer. */
  lemma HindsightRead(run: Run, c: nat, l: nat, p: nat) returns (w: nat)
    requires OrderlyRun(run) && c < |run.steps| && l < |run.steps| && p < |run.steps|
    requires run.steps[c].CallGet? && run.steps[l].GetLookup? && run.steps[p].RetGet?
    requires run.steps[c].id == run.steps[l].id == run.steps[p].id
    requires CleanAnswer(run, p)
    ensures c < l < w <= p
    ensures Lookup(MapAt(run.steps, w), run.steps[c].key) == run.steps[p].result
  {
    var id, k := run.steps[p].id, run.steps[c].key;
    assert StepAt(run, l) && StepAt(run, p);
    if p <= l {
      Forward(run, p, l, id);
    }
    KeyOf(run, c, l);
    KeyOf(run, c, p);
    GetOkAlways(run, p, id);
    LookupTimeIsLatest(run.steps, l, p, id);
    var lo := LookupTime(run.steps, p, id);
    w :| lo <= w <= p && HeldAt(run.steps, w, k, run.steps[p].result);
  }

  /** Once a put holds all locks and starts to write, no get that picks its server afterwards
      answers with an older value. */
  lemma NoOldValue(run: Run, b: nat, c: nat, l: nat, p: nat) returns (j: nat)
    requires OrderlyRun(run) && c < |run.steps| && b < l < |run.steps| && p < |run.steps|
    requires run.steps[b].PutBeginWrite? && run.steps[c].CallGet? && run.steps[c].key == run.steps[b].key
    requires run.steps[l].GetLookup? && run.steps[p].RetGet?
    requires run.steps[c].id == run.steps[l].id == run.steps[p].id
    requires CleanAnswer(run, p)
    ensures b <= j < p && run.steps[j].PutBeginWrite? && run.steps[j].key == run.steps[b].key
    ensures run.steps[p].result == Some(run.steps[j].value)
  {
    var w := HindsightRead(run, c, l, p);
    BegunGrows(run.steps, b, w);
    MapHoldsLastBegun(run.steps, w, run.steps[b].key);
    j := LastBegun(run.steps, w, run.steps[b].key).value;
  }

  // ---------------------------------------------------------------- From the lock point on

  /** Put `w` to the key of get `id` is past its locks and has not begun to write, and the get has picked
      a locked member. */
  ghost predicate IsShutOut(s: State, w: TaskId, id: TaskId) {
    && IsPut(s, w) && At(s, w, Locking({}))
    && IsGet(s, id) && s.tasks[id].req.key == s.tasks[w].req.key
    && s.tasks[id].pc.LookedUp? && s.tasks[id].pc.from in s.members && Locked(s, s.tasks[id].pc.from)
  }

  /** Until the put begins to write, the get stays outside, or fails. */
  lemma StaysShutOut(run: Run, t: nat, w: TaskId, id: TaskId)
    requires OrderlyRun(run) && t < |run.steps| && IsShutOut(run.states[t], w, id)
    requires !(run.steps[t].PutBeginWrite? && run.steps[t].id == w) && run.steps[t] != GetFail(id)
    ensures IsShutOut(run.states[t + 1], w, id)
  {
    var s, step := run.states[t], run.steps[t];
    assert StepAt(run, t);
    InvAlways(run, t);
    assert Holding(s.tasks[w].pc);
    if step.Remove? || step.id != w {
      OthersStay(s, step, w);
    }
    if step.Remove? || step.id != id {
      OthersStay(s, step, id);
    }
  }

  lemma {:induction false} ShutOutUntilWrite(run: Run, t: nat, p: nat, w: TaskId, id: TaskId) returns (b: nat)
    requires OrderlyRun(run) && t <= p < |run.steps| && IsShutOut(run.states[t], w, id)
    requires run.steps[p].RetGet? && run.steps[p].id == id
    ensures t <= b < p && run.steps[b].PutBeginWrite? && run.steps[b].id == w && IsShutOut(run.states[b], w, id)
    decreases p - t
  {
    assert StepAt(run, p) && StepAt(run, t);
    if run.steps[t].PutBeginWrite? && run.steps[t].id == w {
      b := t;
    } else {
      if run.steps[t] == GetFail(id) {
        Forward(run, t + 1, p, id);
      }
      StaysShutOut(run, t, w, id);
      b := ShutOutUntilWrite(run, t + 1, p, w, id);
    }
  }

  /** Between `l` and `p` get `id` is undisturbed once put `w` has begun to write. */
  ghost predicate UndisturbedOnceWritten(run: Run, w: TaskId, l: nat, p: nat, id: TaskId)
    requires |run.steps| < |run.states|
  {
    forall t: nat | l < t <= p && t <= |run.steps| && !At(run.states[t], w, Locking({})) :: Undisturbed(run, t, id)
  }

  /** From the instant at which a put is past its locks, even before it begins to write: a get that
      looks up a locked server then answers with the value of that put or of a later one. Older lost
      writes to the key do not matter, since this put repairs them. */
  lemma NoValueFromBeforeTheLocks(run: Run, w: TaskId, c: nat, l: nat, p: nat) returns (j: nat)
    requires OrderlyRun(run) && c < |run.steps| && l < |run.steps| && p < |run.steps|
    requires IsPut(run.states[l], w) && At(run.states[l], w, Locking({}))
    requires run.steps[c].CallGet? && run.steps[c].key == run.states[l].tasks[w].req.key
    requires run.steps[l].GetLookup? && run.steps[p].RetGet?
    requires run.steps[c].id == run.steps[l].id == run.steps[p].id
    requires Locked(run.states[l], run.steps[l].server)
    requires UndisturbedOnceWritten(run, w, l, p, run.steps[p].id)
    ensures l < j < p && run.steps[j].PutBeginWrite? && run.steps[j].key == run.steps[c].key
    ensures run.steps[p].result == Some(run.steps[j].value)
  {
    var id, k := run.steps[p].id, run.steps[c].key;
    assert StepAt(run, l) && StepAt(run, p);
    if p <= l {
      Forward(run, p, l, id);
    }
    KeyOf(run, c, l);
    KeyOf(run, c, p);
    OthersStay(run.states[l], run.steps[l], w);
    var b := ShutOutUntilWrite(run, l + 1, p, w, id);
    Forward(run, l, b, w);
    var i := WrittenAnswer(run, w, b, p);
    BegunGrows(run.steps, b, i);
    MapHoldsLastBegun(run.steps, i, k);
    j := LastBegun(run.steps, i, k).value;
  }

  lemma UndisturbedAfterWrite(run: Run, w: TaskId, b: nat, p: nat, id: TaskId)
    requires IsRun(run) && b < p < |run.steps| && UndisturbedOnceWritten(run, w, b, p, id)
    requires run.steps[b].PutBeginWrite? && run.steps[b].id == w
    ensures UndisturbedIn(run, b + 1, p, id)
  {
    assert StepAt(run, b);
    forall t: nat | b < t <= p ensures Undisturbed(run, t, id) {
      Forward(run, b + 1, t, w);
    }
  }

  lemma NoSecondLookup(run: Run, t: nat, p: nat, id: TaskId)
    requires IsRun(run) && t <= p <= |run.steps| && id in run.states[t].tasks && run.states[t].tasks[id].pc.LookedUp?
    ensures forall q | t <= q < p :: !LooksUp(run.steps[q], id)
  {
    forall q | t <= q < p ensures !LooksUp(run.steps[q], id) {
      assert StepAt(run, q);
      Forward(run, t, q, id);
    }
  }

  /** A get that is shut out when the write begins answers from the map of an instant after that. */
  lemma WrittenAnswer(run: Run, w: TaskId, b: nat, p: nat) returns (i: nat)
    requires OrderlyRun(run) && b < p < |run.steps| && run.steps[p].RetGet?
    requires IsShutOut(run.states[b], w, run.steps[p].id)
    requires run.steps[b].PutBeginWrite? && run.steps[b].id == w
    requires UndisturbedOnceWritten(run, w, b, p, run.steps[p].id)
    ensures b < i <= p && run.steps[b].key == run.states[b].tasks[w].req.key
    ensures Lookup(MapAt(run.steps, i), run.steps[b].key) == run.steps[p].result
  {
    var id, k := run.steps[p].id, run.states[b].tasks[w].req.key;
    assert StepAt(run, b) && StepAt(run, p);
    OthersStay(run.states[b], run.steps[b], id);
    Forward(run, b + 1, p, id);
    NoSecondLookup(run, b + 1, p, id);
    assert AwaitsWriteOf(run.states[b + 1], run.states[b].tasks[id].pc.from, k) by {
      InvAlways(run, b);
      assert Holding(run.states[b].tasks[w].pc);
    }
    StaysOkUntil(run, b + 1, p, id);
    UndisturbedAfterWrite(run, w, b, p, id);
    i :| b + 1 <= i <= p && HeldAt(run.steps, i, k, run.steps[p].result);
  }

  // ---------------------------------------------------------------- What disturbs no get

  /** A server that awaits a write keeps new gets out. */
  lemma AwaitingIsLocked(run: Run, t: nat, m: ServerId)
    requires LockedRun(run) && t <= |run.steps| && Awaits(run.states[t], m)
    ensures Rep(run.states[t], m).isLocked
  {
    InvAlways(run, t);
    PutLocksAlways(run, t);
    var s := run.states[t];
    var id := s.serversLock.value;
    assert LockHeld(s) && id in s.tasks && Todo(s.tasks[id].pc) <= s.members;
    assert s.tasks[id].req.Put?;
  }

  /** As long as no lock is lost, clean keys are all a get needs. */
  lemma LockedRunDisturbsNobody(run: Run, t: nat, id: TaskId)
    requires LockedRun(run) && t <= |run.steps| && IsGet(run.states[t], id)
    requires IsClean(run, t, run.states[t].tasks[id].req.key)
    ensures Undisturbed(run, t, id)
  {
    var s := run.states[t];
    if s.tasks[id].pc.LookedUp? && Awaits(s, s.tasks[id].pc.from) {
      AwaitingIsLocked(run, t, s.tasks[id].pc.from);
    }
  }

  /** In a safe run every answer is clean. */
  lemma SafeAnswersAreClean(run: Run, p: nat)
    requires SafeRun(run) && p < |run.steps| && run.steps[p].RetGet?
    ensures CleanAnswer(run, p)
  {
    forall t: nat | t <= p ensures Undisturbed(run, t, run.steps[p].id) {
      WrittenRunIsClean(run, t);
      if IsGet(run.states[t], run.steps[p].id) {
        LockedRunDisturbsNobody(run, t, run.steps[p].id);
      }
    }
  }
}
