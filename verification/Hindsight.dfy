/**
 Reads in hindsight. A get checks the read lock and reads the data in two separate steps, on a
 server that may have been removed, written or refilled in between. Its answer is nevertheless
 what the single map held at some instant after the frontend looked the server up, unless, before
 the get has read, a put to its key is lost half-way and not repaired, or is under way without having
 locked the server.
 */
module Hindsight {
  import opened Options
  import opened Cluster
  import opened Agreement
  import opened AgreementTheorems

  /** The instant just after get `id` picked its server, as far as is known before `t`. */
  function LookupTime(steps: seq<Step>, t: nat, id: TaskId): (r: nat)
    requires t <= |steps|
    ensures r <= t
  {
    if t == 0 then 0
    else if steps[t - 1].GetLookup? && steps[t - 1].id == id then t
    else LookupTime(steps, t - 1, id)
  }

  lemma {:induction false} LookupTimeIsLatest(steps: seq<Step>, l: nat, t: nat, id: TaskId)
    requires l < t <= |steps| && steps[l].GetLookup? && steps[l].id == id
    ensures l < LookupTime(steps, t, id)
  {
    if l < t - 1 {
      LookupTimeIsLatest(steps, l, t - 1, id);
    }
  }

  ghost predicate HeldAt(steps: seq<Step>, w: int, k: Key, r: Option<Value>) {
    0 <= w <= |steps| && Lookup(MapAt(steps, w), k) == r
  }

  /** At some instant between `lo` and `hi` the single map answered `r` for `k`. */
  ghost predicate HeldBetween(steps: seq<Step>, lo: nat, hi: nat, k: Key, r: Option<Value>) {
    exists w | lo <= w <= hi :: HeldAt(steps, w, k, r)
  }

  /** Nothing spoils the answer of a get at instant `t`: from lookup to read its key is clean, and until it
      is let in its server is locked whenever it awaits a write of that key. */
  ghost predicate Undisturbed(run: Run, t: nat, id: TaskId)
    requires t <= |run.steps| < |run.states|
  {
    var s := run.states[t];
    IsGet(s, id) ==>
      var k := s.tasks[id].req.key;
      match s.tasks[id].pc
      case LookedUp(m) => IsClean(run, t, k) && (AwaitsWriteOf(s, m, k) ==> Rep(s, m).isLocked)
      case Checked(_) => IsClean(run, t, k)
      case _ => true
  }

  ghost predicate UndisturbedIn(run: Run, lo: nat, hi: nat, id: TaskId)
    requires |run.steps| < |run.states|
  {
    forall t: nat | lo <= t <= hi && t <= |run.steps| :: Undisturbed(run, t, id)
  }

  /** What is known at `t` about the server behind a get that has been undisturbed since `lo`. */
  ghost predicate GetOk(run: Run, lo: nat, t: nat, id: TaskId)
    requires lo <= t <= |run.steps| < |run.states|
  {
    var s := run.states[t];
    IsGet(s, id) && UndisturbedIn(run, lo, t, id) ==>
      var k := s.tasks[id].req.key;
      match s.tasks[id].pc
      case LookedUp(m) =>
        (m in s.members && AwaitsWriteOf(s, m, k)) || HeldBetween(run.steps, lo, t, k, Lookup(Rep(s, m).data, k))
      case Checked(m) => HeldBetween(run.steps, lo, t, k, Lookup(Rep(s, m).data, k))
      case HasRead(r) => HeldBetween(run.steps, lo, t, k, r)
      case _ => true
  }

  /** A process only ever changes towards the single map of that very instant. */
  lemma ChangesFollowTheMap(run: Run, t: nat, m: ServerId, k: Key)
    requires OrderlyRun(run) && t < |run.steps| && IsClean(run, t, k)
    ensures
      var before, after := Lookup(Rep(run.states[t], m).data, k), Lookup(Rep(run.states[t + 1], m).data, k);
      after == before || HeldAt(run.steps, t + 1, k, after)
  {
    assert StepAt(run, t);
    InvAlways(run, t);
    var s, step := run.states[t], run.steps[t];
    if step.WriteAttempt? {
      assert WriterIs(s, step.id);
    } else if step.SendAttempt? {
      assert Holding(s.tasks[step.id].pc);
      MemberHoldsCleanKey(run, t, s.tasks[step.id].pc.sender, k);
    }
  }

  lemma StillHeld(run: Run, lo: nat, t: nat, k: Key, before: Option<Value>, after: Option<Value>)
    requires t < |run.steps| && HeldBetween(run.steps, lo, t, k, before) && lo <= t
    requires after == before || HeldAt(run.steps, t + 1, k, after)
    ensures HeldBetween(run.steps, lo, t + 1, k, after)
  {
    if after == before {
      var w :| lo <= w <= t && HeldAt(run.steps, w, k, before);
      assert HeldAt(run.steps, w, k, after);
    }
  }

  /** A member that is not awaiting a write is up to date. */
  lemma UpToDate(run: Run, lo: nat, t: nat, m: ServerId, k: Key)
    requires OrderlyRun(run) && lo <= t <= |run.steps| && m in run.states[t].members
    requires !AwaitsWriteOf(run.states[t], m, k) && IsClean(run, t, k)
    ensures HeldBetween(run.steps, lo, t, k, Lookup(Rep(run.states[t], m).data, k))
  {
    MemberHoldsCleanKey(run, t, m, k);
    assert HeldAt(run.steps, t, k, Lookup(Rep(run.states[t], m).data, k));
  }

  /** A member stops awaiting a write only by receiving it. */
  lemma StopsAwaiting(run: Run, t: nat, m: ServerId)
    requires OrderlyRun(run) && t < |run.steps| && m in run.states[t].members && Awaits(run.states[t], m)
    ensures m in run.states[t + 1].members
  {
    assert StepAt(run, t);
    InvAlways(run, t);
  }

  /** Another request moves: the get stays where it is. */
  lemma GetWaits(run: Run, lo: nat, t: nat, id: TaskId)
    requires OrderlyRun(run) && lo <= t < |run.steps| && GetOk(run, lo, t, id) && IsGet(run.states[t], id)
    requires run.steps[t].Remove? || run.steps[t].id != id
    ensures GetOk(run, lo, t + 1, id)
  {
    assert StepAt(run, t);
    OthersStay(run.states[t], run.steps[t], id);
    var task := run.states[t].tasks[id];
    var k, pc := task.req.key, task.pc;
    if UndisturbedIn(run, lo, t + 1, id) {
      assert UndisturbedIn(run, lo, t, id) && Undisturbed(run, t, id) && Undisturbed(run, t + 1, id);
      if pc.LookedUp? || pc.Checked? {
        ServerMoves(run, lo, t, pc.from, k);
      } else if pc.HasRead? {
        StillHeld(run, lo, t, k, pc.result, pc.result);
      }
    }
  }

  /** What the server of a waiting get holds was right before, or will be once the write arrives. */
  lemma ServerMoves(run: Run, lo: nat, t: nat, m: ServerId, k: Key)
    requires OrderlyRun(run) && lo <= t < |run.steps|
    requires IsClean(run, t, k) && IsClean(run, t + 1, k)
    requires (m in run.states[t].members && AwaitsWriteOf(run.states[t], m, k))
          || HeldBetween(run.steps, lo, t, k, Lookup(Rep(run.states[t], m).data, k))
    ensures (m in run.states[t + 1].members && AwaitsWriteOf(run.states[t + 1], m, k))
         || HeldBetween(run.steps, lo, t + 1, k, Lookup(Rep(run.states[t + 1], m).data, k))
    ensures HeldBetween(run.steps, lo, t, k, Lookup(Rep(run.states[t], m).data, k)) ==>
              HeldBetween(run.steps, lo, t + 1, k, Lookup(Rep(run.states[t + 1], m).data, k))
  {
    ChangesFollowTheMap(run, t, m, k);
    var before, after := Lookup(Rep(run.states[t], m).data, k), Lookup(Rep(run.states[t + 1], m).data, k);
    if HeldBetween(run.steps, lo, t, k, before) {
      StillHeld(run, lo, t, k, before, after);
    } else {
      StopsAwaiting(run, t, m);
      if !AwaitsWriteOf(run.states[t + 1], m, k) {
        UpToDate(run, lo, t + 1, m, k);
      }
    }
  }

  /** The get itself moves, but not to another server. */
  lemma GetMoves(run: Run, lo: nat, t: nat, id: TaskId)
    requires OrderlyRun(run) && lo <= t < |run.steps| && GetOk(run, lo, t, id)
    requires !run.steps[t].Remove? && run.steps[t].id == id && !run.steps[t].GetLookup?
    ensures GetOk(run, lo, t + 1, id)
  {
    assert StepAt(run, t);
    var s, next, step := run.states[t], run.states[t + 1], run.steps[t];
    if IsGet(next, id) && UndisturbedIn(run, lo, t + 1, id) {
      var k := next.tasks[id].req.key;
      if step.GetCheck? || step.GetRead? {
        var m := s.tasks[id].pc.from;
        assert UndisturbedIn(run, lo, t, id) && Undisturbed(run, t, id);
        StillHeld(run, lo, t, k, Lookup(Rep(s, m).data, k), Lookup(Rep(s, m).data, k));
      } else {
        InvAlways(run, t);
        assert id in s.tasks ==> Typed(s.tasks[id]);
        assert next.tasks[id].pc.Called? || next.tasks[id].pc.Failed? || next.tasks[id].pc.Finished?;
      }
    }
  }

  /** At its lookup a get finds a member that is up to date or awaits the write under way. */
  lemma GetStarts(run: Run, t: nat, id: TaskId)
    requires OrderlyRun(run) && t < |run.steps| && run.steps[t].GetLookup? && run.steps[t].id == id
    ensures GetOk(run, t + 1, t + 1, id)
  {
    assert StepAt(run, t);
    var next, m := run.states[t + 1], run.steps[t].server;
    var k := next.tasks[id].req.key;
    if UndisturbedIn(run, t + 1, t + 1, id) && !AwaitsWriteOf(next, m, k) {
      assert Undisturbed(run, t + 1, id);
      UpToDate(run, t + 1, t + 1, m, k);
    }
  }

  ghost predicate LooksUp(step: Step, id: TaskId) {
    step.GetLookup? && step.id == id
  }

  lemma StaysOk(run: Run, lo: nat, t: nat, id: TaskId)
    requires OrderlyRun(run) && lo <= t < |run.steps| && GetOk(run, lo, t, id) && !LooksUp(run.steps[t], id)
    ensures GetOk(run, lo, t + 1, id)
  {
    assert StepAt(run, t);
    var step := run.steps[t];
    if !step.Remove? && step.id == id {
      GetMoves(run, lo, t, id);
    } else if IsGet(run.states[t + 1], id) {
      GetWaits(run, lo, t, id);
    }
  }

  /** From any instant at which it is known, until the next lookup. */
  lemma {:induction false} StaysOkUntil(run: Run, lo: nat, t: nat, id: TaskId)
    requires OrderlyRun(run) && lo <= t <= |run.steps| && GetOk(run, lo, lo, id)
    requires forall q | lo <= q < t :: !LooksUp(run.steps[q], id)
    ensures GetOk(run, lo, t, id)
  {
    if lo < t {
      StaysOkUntil(run, lo, t - 1, id);
      StaysOk(run, lo, t - 1, id);
    }
  }

  lemma {:induction false} GetOkAlways(run: Run, t: nat, id: TaskId)
    requires OrderlyRun(run) && t <= |run.steps|
    ensures GetOk(run, LookupTime(run.steps, t, id), t, id)
  {
    if t > 0 {
      if LooksUp(run.steps[t - 1], id) {
        GetStarts(run, t - 1, id);
      } else {
        GetOkAlways(run, t - 1, id);
        StaysOk(run, LookupTime(run.steps, t - 1, id), t - 1, id);
      }
    }
  }
}
