/** The protocol steps behind one remote call of the frontend's loops, and behind a data transfer. */
module LoopPaths {
  import opened Options
  import opened Cluster
  import opened Paths
  import Servers

  /** `s` with task `id` at `pc` and the replica of `m` set to `r`. */
  function Becomes(s: State, id: TaskId, pc: Pc, m: ServerId, r: Replica): State
    requires id in s.tasks
  {
    Goto(s, id, pc).(replicas := s.replicas[m := r])
  }

  lemma SameReplica(s: State, m: ServerId)
    requires m in s.replicas
    ensures s.replicas[m := s.replicas[m]] == s.replicas
  {
  }

  /** One lock call: the server is locked if the call took effect; the loop moves on either way. */
  lemma LockOne(start: State, path: seq<Step>, s: State, id: TaskId, m: ServerId, lands: bool, ok: bool,
                may: set<Mishap>)
    returns (longer: seq<Step>)
    requires Path(start, path, s, may) && CanLock(s, id, m) && m in s.replicas && (ok ==> lands)
    requires lands || IsJoin(s, id) || LockLost in may
    ensures var r := s.replicas[m];
            Path(start, longer,
                 Becomes(s, id, SkipLock(s, id, m, true).tasks[id].pc, m, Replica(r.data, r.isLocked || lands)), may)
  {
    SameReplica(s, m);
    if ok {
      longer := Then(start, path, s, LockAttempt(id, m, true), may);
    } else if lands {
      longer := Then(start, path, s, LockAttempt(id, m, false), may);
      var mid := Apply(s, LockAttempt(id, m, false));
      longer := Then(start, longer, mid, LockGiveUp(id, m), may);
      assert Apply(mid, LockGiveUp(id, m)).tasks == SkipLock(s, id, m, true).tasks;
    } else {
      longer := Then(start, path, s, LockGiveUp(id, m), may);
    }
  }

  /** One unlock call: an exception ends the request. */
  lemma UnlockOne(start: State, path: seq<Step>, s: State, id: TaskId, m: ServerId, lands: bool, ok: bool,
                  may: set<Mishap>)
    returns (longer: seq<Step>)
    requires Path(start, path, s, may) && id in s.tasks && s.tasks[id].pc.Unlocking? && m in s.tasks[id].pc.todo
    requires m in s.replicas && (ok ==> lands)
    ensures var r := Replica(s.replicas[m].data, s.replicas[m].isLocked && !lands);
            Path(start, longer,
                 if ok then Becomes(s, id, Unlocking(s.tasks[id].pc.todo - {m}), m, r)
                 else Becomes(s, id, Failed, m, r).(serversLock := None), may)
  {
    SameReplica(s, m);
    if ok {
      longer := Then(start, path, s, UnlockAttempt(id, m, true), may);
    } else if lands {
      longer := Then(start, path, s, UnlockAttempt(id, m, false), may);
      var mid := Apply(s, UnlockAttempt(id, m, false));
      longer := Then(start, longer, mid, UnlockGiveUp(id), may);
      assert Apply(mid, UnlockGiveUp(id)).tasks == Goto(s, id, Failed).tasks;
    } else {
      longer := Then(start, path, s, UnlockGiveUp(id), may);
    }
  }

  /** One write call: an exception ends the put, with the locks still held. */
  lemma WriteOne(start: State, path: seq<Step>, s: State, id: TaskId, m: ServerId, lands: bool, ok: bool,
                 may: set<Mishap>)
    returns (longer: seq<Step>)
    requires Path(start, path, s, may) && IsPut(s, id) && s.tasks[id].pc.Writing? && m in s.tasks[id].pc.todo
    requires m in s.replicas && (ok ==> lands) && (ok || WriteLost in may)
    ensures var r, req := s.replicas[m], s.tasks[id].req;
            var r' := if lands then r.(data := r.data[req.key := req.value]) else r;
            Path(start, longer,
                 if ok then Becomes(s, id, Writing(s.tasks[id].pc.todo - {m}), m, r')
                 else Becomes(s, id, Failed, m, r').(serversLock := None), may)
  {
    SameReplica(s, m);
    var k := s.tasks[id].req.key;
    if ok {
      longer := Then(start, path, s, WriteAttempt(id, m, true), may);
    } else if lands {
      longer := Then(start, path, s, WriteAttempt(id, m, false), may);
      var mid := Apply(s, WriteAttempt(id, m, false));
      longer := Then(start, longer, mid, WriteGiveUp(id, k), may);
      assert Apply(mid, WriteGiveUp(id, k)).tasks == Goto(s, id, Failed).tasks;
    } else {
      longer := Then(start, path, s, WriteGiveUp(id, k), may);
    }
  }

  predicate Transferring(s: State, id: TaskId, sent: set<Key>) {
    && IsJoin(s, id) && s.tasks[id].pc.Sending?
    && s.tasks[id].req.server in s.replicas && s.tasks[id].pc.sender in s.replicas
    && s.tasks[id].req.server != s.tasks[id].pc.sender
    && sent <= s.tasks[id].pc.keys && sent <= s.replicas[s.tasks[id].pc.sender].data.Keys
  }

  /** The entries under `sent` have arrived at the joining server. */
  function Arrived(s: State, id: TaskId, sent: set<Key>): State
    requires Transferring(s, id, sent)
  {
    var t := s.tasks[id];
    var r := s.replicas[t.req.server];
    Becomes(s, id, Sending(t.pc.sender, t.pc.keys - sent), t.req.server,
            r.(data := r.data + Servers.Restrict(s.replicas[t.pc.sender].data, sent)))
  }

  lemma NothingArrived(s: State, id: TaskId)
    requires Transferring(s, id, {})
    ensures Arrived(s, id, {}) == s
  {
    var t := s.tasks[id];
    var r, from := s.replicas[t.req.server], s.replicas[t.pc.sender].data;
    assert r.data + Servers.Restrict(from, {}) == r.data && t.pc.keys - {} == t.pc.keys;
    SameReplica(s, t.req.server);
    assert Goto(s, id, t.pc).tasks == s.tasks;
  }

  lemma ArriveOneMore(s: State, id: TaskId, sent: set<Key>, k: Key)
    requires Transferring(s, id, sent) && k in sent
    ensures Enabled(s, SendAttempt(id, k, true))
    ensures var mid := Apply(s, SendAttempt(id, k, true));
            Transferring(mid, id, sent - {k}) && Arrived(mid, id, sent - {k}) == Arrived(s, id, sent)
  {
    var t := s.tasks[id];
    var r, from := s.replicas[t.req.server], s.replicas[t.pc.sender].data;
    var mid := Apply(s, SendAttempt(id, k, true));
    assert mid.tasks[id] == t.(pc := Sending(t.pc.sender, t.pc.keys - {k}));
    assert mid.replicas[t.req.server] == r.(data := r.data[k := from[k]]);
    assert t.pc.keys - {k} - (sent - {k}) == t.pc.keys - sent;
    assert r.data[k := from[k]] + Servers.Restrict(from, sent - {k}) == r.data + Servers.Restrict(from, sent);
    assert Arrived(mid, id, sent - {k}).tasks == Arrived(s, id, sent).tasks;
    assert Arrived(mid, id, sent - {k}).replicas == Arrived(s, id, sent).replicas;
  }

  lemma {:induction false} SendAll(start: State, path: seq<Step>, s: State, id: TaskId, sent: set<Key>,
                                   may: set<Mishap>)
    returns (longer: seq<Step>)
    requires Path(start, path, s, may) && Transferring(s, id, sent)
    ensures Path(start, longer, Arrived(s, id, sent), may)
    decreases sent
  {
    if sent == {} {
      NothingArrived(s, id);
      longer := path;
    } else {
      assert (forall y :: y !in sent) ==> sent == {};
      var k :| k in sent;
      ArriveOneMore(s, id, sent, k);
      longer := Then(start, path, s, SendAttempt(id, k, true), may);
      longer := SendAll(start, longer, Apply(s, SendAttempt(id, k, true)), id, sent - {k}, may);
    }
  }
}
