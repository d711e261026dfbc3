/**
 The main theorem: what clients see of the cluster is linearizable, as far as gets are undisturbed;
 in safe runs that is everything. A put takes effect when its write phase begins, a get at an instant
 found in hindsight.
 */
module ClusterLinearizable {
  import opened Options
  import opened Cluster
  import opened Agreement
  import opened Lifecycle
  import opened HindsightTheorems
  import L = Linearizability

  /** What clients can see of a step: puts and gets, when they are called and when they return. */
  function Visible(step: Step): L.Event {
    match step
    case CallPut(id, k, v) => L.Call(id, L.Write(k, v))
    case RetPut(id) => L.Respond(id, L.Ack)
    case CallGet(id, k) => L.Call(id, L.Read(k))
    case RetGet(id, r) => L.Respond(id, L.Answer(r))
    case _ => L.Silent
  }

  function Trace(steps: seq<Step>): (r: seq<L.Event>)
    ensures |r| == |steps| && forall t | 0 <= t < |steps| :: r[t] == Visible(steps[t])
  {
    seq(|steps|, t requires 0 <= t < |steps| => Visible(steps[t]))
  }

  /** Without the answers of gets that were disturbed. Such a get is left as one that never responds;
      every put stays, lost or not. */
  ghost function CleanTrace(run: Run): (r: seq<L.Event>)
    requires |run.steps| < |run.states|
    ensures |r| == |run.steps| && forall t | 0 <= t < |run.steps| :: r[t] == Heard(run, t)
  {
    seq(|run.steps|, t requires 0 <= t < |run.steps| => Heard(run, t))
  }

  ghost function Heard(run: Run, t: nat): L.Event
    requires t < |run.steps| < |run.states|
  {
    if run.steps[t].RetGet? && !CleanAnswer(run, t) then L.Silent else Visible(run.steps[t])
  }

  // ---------------------------------------------------------------- When requests are called

  /** Every request that exists was called, with the arguments it still has. */
  lemma {:induction false} WasCalled(run: Run, t: nat, id: TaskId) returns (c: nat)
    requires IsRun(run) && t <= |run.steps| && id in run.states[t].tasks
    ensures c < t && match run.states[t].tasks[id].req
                     case Put(k, v) => run.steps[c] == CallPut(id, k, v)
                     case Get(k) => run.steps[c] == CallGet(id, k)
                     case Join(m) => run.steps[c] == CallJoin(id, m)
  {
    assert t > 0 && StepAt(run, t - 1);
    if id in run.states[t - 1].tasks {
      StepForward(run.states[t - 1], run.steps[t - 1], id);
      c := WasCalled(run, t - 1, id);
    } else {
      c := t - 1;
    }
  }

  /** An id is used for one call. */
  lemma CalledOnce(run: Run, c: nat, id: TaskId)
    requires IsRun(run) && c < |run.steps| && L.IsCall(Visible(run.steps[c]), id)
    ensures L.CallsOnly(Trace(run.steps), id, Visible(run.steps[c]).op)
  {
    forall q | 0 <= q < |run.steps| && L.IsCall(Visible(run.steps[q]), id)
      ensures q == c
    {
      assert StepAt(run, q) && StepAt(run, c);
      CalledBefore(run, q, c + 1, id);
      CalledBefore(run, c, q + 1, id);
    }
  }

  /** A get that has answered has looked up a server. */
  lemma {:induction false} HasLookedUp(run: Run, t: nat, id: TaskId) returns (l: nat)
    requires OrderlyRun(run) && t <= |run.steps| && id in run.states[t].tasks
    requires PastLookup(run.states[t].tasks[id])
    ensures l < t && run.steps[l].GetLookup? && run.steps[l].id == id
  {
    assert t > 0 && StepAt(run, t - 1);
    InvAlways(run, t - 1);
    var step := run.steps[t - 1];
    if step.GetLookup? && step.id == id {
      l := t - 1;
    } else {
      BeforeLookup(run.states[t - 1], step, id);
      l := HasLookedUp(run, t - 1, id);
    }
  }

  predicate PastLookup(t: Task) {
    t.req.Get? && (t.pc.LookedUp? || t.pc.Checked? || t.pc.HasRead?)
  }

  lemma BeforeLookup(s: State, step: Step, id: TaskId)
    requires LockHeld(s) && Enabled(s, step) && id in Apply(s, step).tasks
    requires PastLookup(Apply(s, step).tasks[id]) && !(step.GetLookup? && step.id == id)
    ensures id in s.tasks && PastLookup(s.tasks[id])
  {
    if id in s.tasks && (step.Remove? || step.id != id) {
      OthersStay(s, step, id);
    }
  }

  /** A put that is past its writes began them. */
  lemma {:induction false} HasWritten(run: Run, t: nat, id: TaskId) returns (b: nat)
    requires OrderlyRun(run) && t <= |run.steps| && id in run.states[t].tasks
    requires PastWrite(run.states[t].tasks[id])
    ensures b < t && run.steps[b].PutBeginWrite? && run.steps[b].id == id
  {
    assert t > 0 && StepAt(run, t - 1);
    InvAlways(run, t - 1);
    var step := run.steps[t - 1];
    if step.PutBeginWrite? && step.id == id {
      b := t - 1;
    } else {
      BeforeWrite(run.states[t - 1], step, id);
      b := HasWritten(run, t - 1, id);
    }
  }

  predicate PastWrite(t: Task) {
    t.req.Put? && (t.pc.Writing? || t.pc.Unlocking? || t.pc.Released?)
  }

  lemma BeforeWrite(s: State, step: Step, id: TaskId)
    requires LockHeld(s) && Enabled(s, step) && id in Apply(s, step).tasks
    requires PastWrite(Apply(s, step).tasks[id]) && !(step.PutBeginWrite? && step.id == id)
    ensures id in s.tasks && PastWrite(s.tasks[id])
  {
    if id in s.tasks && (step.Remove? || step.id != id) {
      OthersStay(s, step, id);
    }
  }

  // ---------------------------------------------------------------- Operations in order of effect

  /** What takes effect at instant `at`: the put whose write phase begins there, or the get that
      answers at step `p`. */
  datatype Source = PutFrom(at: nat) | GetFrom(at: nat, p: nat)

  function KeyRead(run: Run, p: nat): Key
    requires p < |run.steps| && p < |run.states| && run.steps[p].RetGet?
  {
    if IsGet(run.states[p], run.steps[p].id) then run.states[p].tasks[run.steps[p].id].req.key else 0
  }

  /** Step `p` is a get's answer, and it was right at `w`, after the get was called. */
  ghost predicate RightAt(run: Run, p: nat, w: nat)
    requires p < |run.steps| && |run.steps| < |run.states|
  {
    && run.steps[p].RetGet? && w <= p
    && Lookup(MapAt(run.steps, w), KeyRead(run, p)) == run.steps[p].result
    && forall q | 0 <= q < |run.steps| && L.IsCall(Visible(run.steps[q]), run.steps[p].id) :: q < w
  }

  /** `when[p]` is an instant at which the clean answer of step `p` was right. */
  ghost predicate Instants(run: Run, when: seq<nat>) {
    && IsRun(run) && |when| == |run.steps|
    && forall p | 0 <= p < |run.steps| && CleanAnswer(run, p) :: RightAt(run, p, when[p])
  }

  lemma AnswerIsRight(run: Run, p: nat) returns (w: nat)
    requires OrderlyRun(run) && p < |run.steps| && CleanAnswer(run, p)
    ensures RightAt(run, p, w)
  {
    assert StepAt(run, p);
    var id := run.steps[p].id;
    var c := WasCalled(run, p, id);
    var l := HasLookedUp(run, p, id);
    w := HindsightRead(run, c, l, p);
    forall q | 0 <= q < |run.steps| && L.IsCall(Visible(run.steps[q]), id)
      ensures q < w
    {
      assert StepAt(run, l);
      CalledBefore(run, q, l, id);
    }
  }

  lemma {:induction false} InstantsExist(run: Run, n: nat) returns (when: seq<nat>)
    requires OrderlyRun(run) && n <= |run.steps|
    ensures |when| == n && forall p | 0 <= p < n && CleanAnswer(run, p) :: RightAt(run, p, when[p])
  {
    if n == 0 {
      when := [];
    } else {
      when := InstantsExist(run, n - 1);
      var w: nat := 0;
      if CleanAnswer(run, n - 1) {
        w := AnswerIsRight(run, n - 1);
      }
      when := when + [w];
    }
  }

  ghost predicate IsSource(run: Run, when: seq<nat>, x: Source)
    requires |run.steps| < |run.states|
  {
    match x
    case PutFrom(at) => at < |run.steps| && run.steps[at].PutBeginWrite?
    case GetFrom(at, p) => p < |run.steps| && p < |when| && CleanAnswer(run, p) && when[p] == at
  }

  /** The clean gets among the first `n` steps that take effect at instant `t`. */
  ghost function GetsAt(run: Run, when: seq<nat>, t: nat, n: nat): seq<Source>
    requires n <= |run.steps| < |run.states| && n <= |when|
  {
    if n == 0 then []
    else if CleanAnswer(run, n - 1) && when[n - 1] == t then GetsAt(run, when, t, n - 1) + [GetFrom(t, n - 1)]
    else GetsAt(run, when, t, n - 1)
  }

  /** Everything that takes effect before instant `t`, in order. */
  ghost function Effects(run: Run, when: seq<nat>, t: nat): seq<Source>
    requires t <= |run.steps| == |when| && |run.steps| < |run.states|
  {
    if t == 0 then []
    else Effects(run, when, t - 1) + GetsAt(run, when, t - 1, |run.steps|) + PutsAt(run, t - 1)
  }

  function PutsAt(run: Run, t: nat): seq<Source>
    requires t < |run.steps|
  {
    if run.steps[t].PutBeginWrite? then [PutFrom(t)] else []
  }

  /** Strictly earlier effect; at the same instant gets come first, in the order of their answers. */
  predicate Earlier(a: Source, b: Source) {
    a.at < b.at || (a.at == b.at && a.GetFrom? && (b.PutFrom? || a.p < b.p))
  }

  ghost predicate StrictlyOrdered(xs: seq<Source>) {
    forall i, j | 0 <= i < j < |xs| :: Earlier(xs[i], xs[j])
  }

  lemma {:induction false} GetsAtOrdered(run: Run, when: seq<nat>, t: nat, n: nat)
    requires n <= |run.steps| < |run.states| && n <= |when|
    ensures StrictlyOrdered(GetsAt(run, when, t, n))
    ensures forall x | x in GetsAt(run, when, t, n) :: x.GetFrom? && x.at == t && x.p < n && IsSource(run, when, x)
    ensures forall p | 0 <= p < n && CleanAnswer(run, p) && when[p] == t :: GetFrom(t, p) in GetsAt(run, when, t, n)
  {
    if n > 0 {
      GetsAtOrdered(run, when, t, n - 1);
    }
  }

  lemma OrderedAppend(xs: seq<Source>, ys: seq<Source>)
    requires StrictlyOrdered(xs) && StrictlyOrdered(ys)
    requires forall x, y | x in xs && y in ys :: Earlier(x, y)
    ensures StrictlyOrdered(xs + ys)
  {
    forall i, j | 0 <= i < j < |xs + ys| ensures Earlier((xs + ys)[i], (xs + ys)[j]) {
      if i < |xs| <= j {
        assert xs[i] in xs && ys[j - |xs|] in ys;
      }
    }
  }

  lemma {:induction false} EffectsOrdered(run: Run, when: seq<nat>, t: nat)
    requires t <= |run.steps| == |when| && |run.steps| < |run.states|
    ensures StrictlyOrdered(Effects(run, when, t))
    ensures forall x | x in Effects(run, when, t) :: x.at < t && IsSource(run, when, x)
  {
    if t > 0 {
      EffectsOrdered(run, when, t - 1);
      GetsAtOrdered(run, when, t - 1, |run.steps|);
      var before, gets, puts := Effects(run, when, t - 1), GetsAt(run, when, t - 1, |run.steps|), PutsAt(run, t - 1);
      OrderedAppend(before, gets);
      OrderedAppend(before + gets, puts);
    }
  }

  lemma {:induction false} EffectsComplete(run: Run, when: seq<nat>, t: nat, x: Source)
    requires t <= |run.steps| == |when| && |run.steps| < |run.states| && IsSource(run, when, x) && x.at < t
    ensures x in Effects(run, when, t)
  {
    if x.at < t - 1 {
      EffectsComplete(run, when, t - 1, x);
    } else {
      GetsAtOrdered(run, when, t - 1, |run.steps|);
    }
  }

  // ---------------------------------------------------------------- The order is legal

  function EntryOf(run: Run, x: Source): L.Entry
    requires |run.steps| < |run.states|
  {
    match x
    case PutFrom(at) =>
      if at < |run.steps| && run.steps[at].PutBeginWrite?
      then L.Entry(run.steps[at].id, L.Write(run.steps[at].key, run.steps[at].value), L.Ack)
      else L.Entry(0, L.Read(0), L.Ack)
    case GetFrom(_, p) =>
      if p < |run.steps| && run.steps[p].RetGet?
      then L.Entry(run.steps[p].id, L.Read(KeyRead(run, p)), L.Answer(run.steps[p].result))
      else L.Entry(0, L.Read(0), L.Ack)
  }

  function Order(run: Run, xs: seq<Source>): (r: seq<L.Entry>)
    requires |run.steps| < |run.states|
    ensures |r| == |xs| && forall i | 0 <= i < |xs| :: r[i] == EntryOf(run, xs[i])
  {
    seq(|xs|, i requires 0 <= i < |xs| => EntryOf(run, xs[i]))
  }

  lemma GetsAnswerFromTheMap(run: Run, when: seq<nat>, t: nat, i: nat)
    requires Instants(run, when) && t < |run.steps| && i < |GetsAt(run, when, t, |run.steps|)|
    ensures var e := EntryOf(run, GetsAt(run, when, t, |run.steps|)[i]);
            e.op.Read? && e.response == L.Reply(MapAt(run.steps, t), e.op)
  {
    var gets := GetsAt(run, when, t, |run.steps|);
    GetsAtOrdered(run, when, t, |run.steps|);
    assert gets[i] in gets;
    assert RightAt(run, gets[i].p, when[gets[i].p]);
  }

  lemma OrderAppends(run: Run, a: seq<Source>, b: seq<Source>)
    requires |run.steps| < |run.states|
    ensures Order(run, a + b) == Order(run, a) + Order(run, b)
  {
  }

  /** The gets of one instant fit onto an order that has built up the map of that instant. */
  lemma GetsLegal(run: Run, when: seq<nat>, t: nat, before: seq<L.Entry>)
    requires Instants(run, when) && t < |run.steps|
    requires L.Legal(before) && L.Replay(before) == MapAt(run.steps, t)
    ensures var all := before + Order(run, GetsAt(run, when, t, |run.steps|));
            L.Legal(all) && L.Replay(all) == MapAt(run.steps, t)
  {
    var gets := GetsAt(run, when, t, |run.steps|);
    forall i | 0 <= i < |gets|
      ensures Order(run, gets)[i].op.Read?
      ensures Order(run, gets)[i].response == L.Reply(MapAt(run.steps, t), Order(run, gets)[i].op)
    {
      GetsAnswerFromTheMap(run, when, t, i);
    }
    L.ReadsKeepLegal(before, Order(run, gets));
  }

  /** So does the put of that instant. */
  lemma PutLegal(run: Run, t: nat, before: seq<L.Entry>)
    requires |run.steps| < |run.states| && t < |run.steps|
    requires L.Legal(before) && L.Replay(before) == MapAt(run.steps, t)
    ensures var all := before + Order(run, PutsAt(run, t));
            L.Legal(all) && L.Replay(all) == MapAt(run.steps, t + 1)
  {
    if run.steps[t].PutBeginWrite? {
      L.LegalExtends(before, EntryOf(run, PutFrom(t)));
      assert Order(run, PutsAt(run, t)) == [EntryOf(run, PutFrom(t))];
    } else {
      assert before + Order(run, PutsAt(run, t)) == before;
    }
  }

  /** What the effects of one instant add to a legal order. */
  lemma InstantLegal(run: Run, when: seq<nat>, t: nat, before: seq<Source>)
    requires Instants(run, when) && t < |run.steps|
    requires L.Legal(Order(run, before)) && L.Replay(Order(run, before)) == MapAt(run.steps, t)
    ensures var after := before + GetsAt(run, when, t, |run.steps|) + PutsAt(run, t);
            L.Legal(Order(run, after)) && L.Replay(Order(run, after)) == MapAt(run.steps, t + 1)
  {
    var gets, puts := GetsAt(run, when, t, |run.steps|), PutsAt(run, t);
    hide *;
    GetsLegal(run, when, t, Order(run, before));
    PutLegal(run, t, Order(run, before) + Order(run, gets));
    OrderAppends(run, before, gets);
    OrderAppends(run, before + gets, puts);
  }

  /** Replaying what has taken effect before `t` gives the single map at `t`, legally. */
  lemma {:induction false} EffectsLegal(run: Run, when: seq<nat>, t: nat)
    requires Instants(run, when) && t <= |run.steps|
    ensures L.Legal(Order(run, Effects(run, when, t)))
    ensures L.Replay(Order(run, Effects(run, when, t))) == MapAt(run.steps, t)
  {
    if t > 0 {
      hide L.Legal, L.Replay, MapAt, GetsAt, PutsAt, EntryOf;
      EffectsLegal(run, when, t - 1);
      InstantLegal(run, when, t - 1, Effects(run, when, t - 1));
    }
  }

  // ---------------------------------------------------------------- Each operation, once, in its interval

  lemma PutInInterval(run: Run, b: nat)
    requires OrderlyRun(run) && b < |run.steps| && run.steps[b].PutBeginWrite?
    ensures L.WithinInterval(CleanTrace(run), L.Point(b, EntryOf(run, PutFrom(b))))
    ensures L.Call(run.steps[b].id, L.Write(run.steps[b].key, run.steps[b].value)) in CleanTrace(run)
  {
    var id := run.steps[b].id;
    assert StepAt(run, b);
    forall q | 0 <= q < |run.steps| && L.IsCall(Visible(run.steps[q]), id)
      ensures q <= b
    {
      CalledBefore(run, q, b, id);
    }
    forall q | 0 <= q < |run.steps| && L.IsRespond(Visible(run.steps[q]), id)
      ensures b <= q
    {
      assert StepAt(run, q);
      if q < b {
        Forward(run, q + 1, b, id);
      }
    }
    var c := WasCalled(run, b, id);
    assert CleanTrace(run)[c] == L.Call(id, L.Write(run.steps[b].key, run.steps[b].value));
  }

  lemma GetInInterval(run: Run, p: nat, w: nat)
    requires IsRun(run) && p < |run.steps| && RightAt(run, p, w)
    ensures L.WithinInterval(CleanTrace(run), L.Point(w, EntryOf(run, GetFrom(w, p))))
    ensures L.Call(run.steps[p].id, L.Read(KeyRead(run, p))) in CleanTrace(run)
  {
    var id := run.steps[p].id;
    assert StepAt(run, p);
    forall q | 0 <= q < |run.steps| && L.IsRespond(Visible(run.steps[q]), id)
      ensures w <= q
    {
      assert StepAt(run, q);
      if q < p {
        Forward(run, q + 1, p, id);
      }
    }
    var c := WasCalled(run, p, id);
    assert CleanTrace(run)[c] == L.Call(id, L.Read(KeyRead(run, p)));
  }

  lemma SourceInInterval(run: Run, when: seq<nat>, x: Source)
    requires OrderlyRun(run) && Instants(run, when) && IsSource(run, when, x)
    ensures L.WithinInterval(CleanTrace(run), L.Point(x.at, EntryOf(run, x)))
    ensures L.Call(EntryOf(run, x).id, EntryOf(run, x).op) in CleanTrace(run)
  {
    match x
    case PutFrom(b) => PutInInterval(run, b);
    case GetFrom(w, p) =>
      assert RightAt(run, p, when[p]);
      GetInInterval(run, p, w);
  }

  /** A request takes effect once. */
  lemma SourceOnce(run: Run, when: seq<nat>, x: Source, y: Source)
    requires IsRun(run) && IsSource(run, when, x) && IsSource(run, when, y) && Earlier(x, y)
    ensures EntryOf(run, x).id != EntryOf(run, y).id
  {
    var a, b := StepOf(x), StepOf(y);
    assert StepAt(run, a) && StepAt(run, b);
    if EntryOf(run, x).id == EntryOf(run, y).id {
      if a < b {
        Forward(run, a + 1, b, EntryOf(run, x).id);
      } else if b < a {
        Forward(run, b + 1, a, EntryOf(run, x).id);
      }
    }
  }

  function StepOf(x: Source): nat {
    match x
    case PutFrom(at) => at
    case GetFrom(_, p) => p
  }

  // ---------------------------------------------------------------- Main theorem

  lemma ResponseIsPlaced(run: Run, when: seq<nat>, p: nat)
    requires OrderlyRun(run) && Instants(run, when) && p < |run.steps| && Heard(run, p).Respond?
    ensures L.IsPlaced(CleanTrace(run), Order(run, Effects(run, when, |run.steps|)), p)
  {
    assert StepAt(run, p);
    var n, x := |run.steps|, PutFrom(0);
    if run.steps[p].RetGet? {
      assert RightAt(run, p, when[p]);
      x := GetFrom(when[p], p);
    } else {
      var b := HasWritten(run, p, run.steps[p].id);
      x := PutFrom(b);
    }
    EffectsComplete(run, when, n, x);
    var i :| 0 <= i < |Effects(run, when, n)| && Effects(run, when, n)[i] == x;
    assert Order(run, Effects(run, when, n))[i] == EntryOf(run, x);
  }

  lemma EffectWasCalled(run: Run, when: seq<nat>, i: nat)
    requires OrderlyRun(run) && Instants(run, when) && i < |Effects(run, when, |run.steps|)|
    ensures L.WasCalled(CleanTrace(run), Order(run, Effects(run, when, |run.steps|)), i)
  {
    var xs := Effects(run, when, |run.steps|);
    EffectsOrdered(run, when, |run.steps|);
    assert xs[i] in xs;
    SourceInInterval(run, when, xs[i]);
    var q :| 0 <= q < |CleanTrace(run)| && CleanTrace(run)[q] == L.Call(EntryOf(run, xs[i]).id, EntryOf(run, xs[i]).op);
  }

  lemma EffectMayFollow(run: Run, when: seq<nat>, i: nat, j: nat)
    requires OrderlyRun(run) && Instants(run, when) && i < j < |Effects(run, when, |run.steps|)|
    ensures L.MayFollow(CleanTrace(run), Order(run, Effects(run, when, |run.steps|)), i, j)
  {
    var xs := Effects(run, when, |run.steps|);
    EffectsOrdered(run, when, |run.steps|);
    assert xs[i] in xs && xs[j] in xs;
    SourceInInterval(run, when, xs[i]);
    SourceInInterval(run, when, xs[j]);
    SourceOnce(run, when, xs[i], xs[j]);
    var x, y := L.Point(xs[i].at, EntryOf(run, xs[i])), L.Point(xs[j].at, EntryOf(run, xs[j]));
    L.PointsRespectRealTime(CleanTrace(run), x, y);
  }

  lemma EffectsLinearize(run: Run, when: seq<nat>)
    requires OrderlyRun(run) && Instants(run, when)
    ensures L.IsLinearization(CleanTrace(run), Order(run, Effects(run, when, |run.steps|)))
  {
    var n := |run.steps|;
    EffectsLegal(run, when, n);
    forall i | 0 <= i < |Effects(run, when, n)|
      ensures L.WasCalled(CleanTrace(run), Order(run, Effects(run, when, n)), i)
    {
      EffectWasCalled(run, when, i);
    }
    forall i, j | 0 <= i < j < |Effects(run, when, n)|
      ensures L.MayFollow(CleanTrace(run), Order(run, Effects(run, when, n)), i, j)
    {
      EffectMayFollow(run, when, i, j);
    }
    forall p | 0 <= p < n && CleanTrace(run)[p].Respond?
      ensures L.IsPlaced(CleanTrace(run), Order(run, Effects(run, when, n)), p)
    {
      ResponseIsPlaced(run, when, p);
    }
  }

  /** Every orderly run, under any interleaving and whichever member each get picks: all puts, and all
      gets that were not disturbed between lookup and read, are a history of one single map, whatever
      locks and writes are lost elsewhere. */
  lemma CleanTraceIsLinearizable(run: Run)
    requires OrderlyRun(run)
    ensures L.Linearizable(CleanTrace(run))
  {
    var when := InstantsExist(run, |run.steps|);
    EffectsLinearize(run, when);
  }

  /** Every safe run is, as a whole, a history of one single map. */
  lemma SafeRunIsLinearizable(run: Run)
    requires SafeRun(run)
    ensures L.Linearizable(Trace(run.steps))
  {
    CleanTraceIsLinearizable(run);
    forall p | 0 <= p < |run.steps| ensures Heard(run, p) == Visible(run.steps[p]) {
      if run.steps[p].RetGet? {
        SafeAnswersAreClean(run, p);
      }
    }
    assert CleanTrace(run) == Trace(run.steps);
  }
}
