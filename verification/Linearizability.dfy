/**
 Linearizability of a key-value map, stated on traces of calls and responses alone (Herlihy and
 Wing): some order of the operations is a legal history of one sequential map and never puts an
 operation before one that had already responded when it was called.
 */
module Linearizability {
  import opened Options

  datatype Operation = Write(key: int, value: int) | Read(key: int)

  datatype Response = Ack | Answer(value: Option<int>)

  /** One instant of a trace; `Silent` is a step no client can see. */
  datatype Event = Silent | Call(id: int, op: Operation) | Respond(id: int, response: Response)

  /** An operation together with its response. */
  datatype Entry = Entry(id: int, op: Operation, response: Response)

  function Effect(m: map<int, int>, op: Operation): map<int, int> {
    match op
    case Write(k, v) => m[k := v]
    case Read(_) => m
  }

  function Reply(m: map<int, int>, op: Operation): Response {
    match op
    case Write(_, _) => Ack
    case Read(k) => Answer(Lookup(m, k))
  }

  /** The map after a sequence of operations, one at a time. */
  function Replay(order: seq<Entry>): map<int, int> {
    if order == [] then map[] else Effect(Replay(order[..|order| - 1]), order[|order| - 1].op)
  }

  /** Every response is the one a single sequential map gives. */
  ghost predicate Legal(order: seq<Entry>) {
    forall i | 0 <= i < |order| :: LegalAt(order, i)
  }

  predicate LegalAt(order: seq<Entry>, i: int)
    requires 0 <= i < |order|
  {
    order[i].response == Reply(Replay(order[..i]), order[i].op)
  }

  predicate IsCall(event: Event, id: int) { event.Call? && event.id == id }

  predicate IsRespond(event: Event, id: int) { event.Respond? && event.id == id }

  /** Operation `a` has responded before operation `b` is called. */
  ghost predicate Precedes(trace: seq<Event>, a: int, b: int) {
    exists p, q | 0 <= p < q < |trace| :: IsRespond(trace[p], a) && IsCall(trace[q], b)
  }

  /** Operation `i` of the order was called. */
  ghost predicate WasCalled(trace: seq<Event>, order: seq<Entry>, i: int)
    requires 0 <= i < |order|
  {
    exists q | 0 <= q < |trace| :: trace[q] == Call(order[i].id, order[i].op)
  }

  /** What responds at instant `p` is in the order, with its response. */
  ghost predicate IsPlaced(trace: seq<Event>, order: seq<Entry>, p: int)
    requires 0 <= p < |trace| && trace[p].Respond?
  {
    exists i | 0 <= i < |order| :: order[i].id == trace[p].id && order[i].response == trace[p].response
  }

  /** Two operations are different, and the later one had not responded when the earlier was called. */
  ghost predicate MayFollow(trace: seq<Event>, order: seq<Entry>, i: int, j: int)
    requires 0 <= i < j < |order|
  {
    order[i].id != order[j].id && !Precedes(trace, order[j].id, order[i].id)
  }

  ghost predicate IsLinearization(trace: seq<Event>, order: seq<Entry>) {
    && (forall i | 0 <= i < |order| :: WasCalled(trace, order, i))
    && (forall p | 0 <= p < |trace| && trace[p].Respond? :: IsPlaced(trace, order, p))
    && (forall i, j | 0 <= i < j < |order| :: MayFollow(trace, order, i, j))
    && Legal(order)
  }

  ghost predicate Linearizable(trace: seq<Event>) {
    exists order :: IsLinearization(trace, order)
  }

  // ---------------------------------------------------------------- Building a linearization

  /** An operation pinned to the instant at which it takes effect. */
  datatype Point = Point(at: nat, entry: Entry)

  /** The instant lies between the call and the response. */
  ghost predicate WithinInterval(trace: seq<Event>, p: Point) {
    && (forall q | 0 <= q < |trace| && IsCall(trace[q], p.entry.id) :: q <= p.at)
    && (forall q | 0 <= q < |trace| && IsRespond(trace[q], p.entry.id) :: p.at <= q)
  }

  /** Operations in order of instants that lie inside their intervals never contradict real time. */
  lemma PointsRespectRealTime(trace: seq<Event>, x: Point, y: Point)
    requires x.at <= y.at && WithinInterval(trace, x) && WithinInterval(trace, y)
    ensures !Precedes(trace, y.entry.id, x.entry.id)
  {
  }

  /** Reads that answer from the current map may be added at the end of a legal order. */
  lemma {:induction false} ReadsKeepLegal(a: seq<Entry>, b: seq<Entry>)
    requires Legal(a)
    requires forall i | 0 <= i < |b| :: b[i].op.Read? && b[i].response == Reply(Replay(a), b[i].op)
    ensures Legal(a + b) && Replay(a + b) == Replay(a)
    decreases b
  {
    if b == [] {
      assert a + b == a;
    } else {
      LegalExtends(a, b[0]);
      ReadsKeepLegal(a + [b[0]], b[1..]);
      assert a + b == a + [b[0]] + b[1..];
    }
  }

  lemma LegalExtends(a: seq<Entry>, e: Entry)
    requires Legal(a) && e.response == Reply(Replay(a), e.op)
    ensures Legal(a + [e]) && Replay(a + [e]) == Effect(Replay(a), e.op)
  {
    var b := a + [e];
    assert b[..|b| - 1] == a;
    forall i | 0 <= i < |b|
      ensures LegalAt(b, i)
    {
      assert b[..i] == a[..i];
      assert i < |a| ==> LegalAt(a, i);
    }
  }

  // ---------------------------------------------------------------- Places in a linearization

  lemma PlaceOf(trace: seq<Event>, order: seq<Entry>, p: int) returns (i: int, q: int)
    requires IsLinearization(trace, order) && 0 <= p < |trace| && trace[p].Respond?
    ensures 0 <= i < |order| && order[i].id == trace[p].id && order[i].response == trace[p].response
    ensures 0 <= q < |trace| && trace[q] == Call(order[i].id, order[i].op)
  {
    assert IsPlaced(trace, order, p);
    i :| 0 <= i < |order| && order[i].id == trace[p].id && order[i].response == trace[p].response;
    assert WasCalled(trace, order, i);
    q :| 0 <= q < |trace| && trace[q] == Call(order[i].id, order[i].op);
  }

  /** Every call of `id` is a call of `op`. */
  ghost predicate CallsOnly(trace: seq<Event>, id: int, op: Operation) {
    forall q | 0 <= q < |trace| && IsCall(trace[q], id) :: trace[q].op == op
  }

  lemma PrecedesInOrder(trace: seq<Event>, order: seq<Entry>, i: int, j: int)
    requires IsLinearization(trace, order) && 0 <= i < |order| && 0 <= j < |order| && i != j
    requires Precedes(trace, order[i].id, order[j].id)
    ensures i < j
  {
    assert j < i ==> MayFollow(trace, order, j, i);
  }
}
