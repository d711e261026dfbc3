/** A server process: its data map, its read lock, and the transfer of its data to another one. */
module Servers {
  import opened Options
  import opened Fates
  import Text
  import Retry

  /** What one remote put does to the data of the server that receives it. */
  function PutAction(key: int, value: int): map<int, int> -> (map<int, int>, ()) {
    (d: map<int, int>) => (d[key := value], ())
  }

  lemma PutIsIdempotent(key: int, value: int)
    ensures Retry.Idempotent(PutAction(key, value))
  {
    forall d: map<int, int> ensures PutAction(key, value)(PutAction(key, value)(d).0) == PutAction(key, value)(d) {
      assert d[key := value][key := value] == d[key := value];
    }
  }

  function LockAction(locked: bool): bool -> (bool, ()) {
    (b: bool) => (locked, ())
  }

  function Restrict(m: map<int, int>, keys: set<int>): map<int, int> {
    map k | k in keys && k in m :: m[k]
  }

  /** The next entry of a hash map, in no particular order. */
  method Pick(s: set<int>) returns (x: int)
    requires s != {}
    ensures x in s
  {
    assert (forall y :: y !in s) ==> s == {};
    x :| x in s;
  }

  class Server {
    var data: map<int, int>
    var isLocked: bool

    constructor ()
      ensures data == map[] && !isLocked
    {
      data := map[];
      isLocked := false;
    }

    /** The second half of get, after the wait for the read lock. */
    method Read(key: int) returns (reply: string)
      ensures Text.ParseReply(reply) == match Lookup(data, key) case Some(v) => Some((key, v)) case None => None
      ensures reply == Text.ReplyText(key, Lookup(data, key))
    {
      reply := Text.ReplyText(key, if key in data then Some(data[key]) else None);
      Text.ReplyRoundTrip(key, Lookup(data, key));
    }

    /** One remote put, retried: its effect is that of one put or of none, and of one if it is answered. */
    method PutWithRetry(key: int, value: int, luck: Retry.Luck) returns (ok: bool)
      modifies this`data
      ensures ok == Retry.Succeeds(luck) && (ok ==> Retry.Lands(luck))
      ensures data == if Retry.Lands(luck) then old(data)[key := value] else old(data)
    {
      var received, answer, attempts, slept := Retry.Run(data, PutAction(key, value), luck);
      PutIsIdempotent(key, value);
      Retry.RetryIsOnce(data, PutAction(key, value), luck);
      data := received;
      ok := answer.Some?;
    }

    /** One remote lock or unlock, retried. */
    method SetLockWithRetry(locked: bool, luck: Retry.Luck) returns (ok: bool)
      modifies this`isLocked
      ensures ok == Retry.Succeeds(luck) && (ok ==> Retry.Lands(luck))
      ensures isLocked == if Retry.Lands(luck) then locked else old(isLocked)
    {
      var b, answer, attempts, slept := Retry.Run(isLocked, LockAction(locked), luck);
      Retry.RetryIsOnce(isLocked, LockAction(locked), luck);
      isLocked := b;
      ok := answer.Some?;
    }

    /** Sends every entry to `other`, in any order, retrying each. If all calls are answered, the
        other server ends with its own map overridden by this one; otherwise by the entries up to the
        first call that failed. */
    method SendValuesToServer(other: Server, luck: int -> Retry.Luck) returns (ok: bool, ghost sent: set<int>)
      requires other != this
      modifies other`data
      ensures ok <==> AllSucceed(data.Keys, luck)
      ensures ok ==> other.data == old(other.data) + data
      ensures StopsAtFirst(data.Keys, luck, sent) && other.data == old(other.data) + Restrict(data, sent)
    {
      ghost var base := other.data;
      var todo := data.Keys;
      sent := {};
      while todo != {}
        invariant todo <= data.Keys && sent == data.Keys - todo
        invariant other.data == base + Restrict(data, sent)
        invariant AllSucceed(sent, luck)
        decreases todo
      {
        var k := Pick(todo);
        var answered := other.PutWithRetry(k, data[k], luck(k));
        RestrictExtends(base, data, sent, k);
        if Retry.Lands(luck(k)) {
          sent := sent + {k};
        }
        if !answered {
          assert FailsAt(data.Keys, luck, sent, k);
          return false, sent;
        }
        todo := todo - {k};
      }
      assert Restrict(data, sent) == data;
      ok := true;
    }
  }

  lemma RestrictExtends(base: map<int, int>, m: map<int, int>, sent: set<int>, k: int)
    requires k in m
    ensures (base + Restrict(m, sent))[k := m[k]] == base + Restrict(m, sent + {k})
  {
  }

  /** A fresh joiner ends with exactly the sender's map, and so does a server that joins again with
      stale data, as long as it has no key the sender lacks. */
  lemma TransferCopies(joiner: map<int, int>, sender: map<int, int>)
    ensures joiner + sender == sender <==> joiner.Keys <= sender.Keys
  {
    if joiner + sender == sender {
      assert (joiner + sender).Keys == joiner.Keys + sender.Keys;
    }
  }
}
