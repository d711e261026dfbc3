/** Dictionaries that keep the order in which their keys were first inserted, as Python's do. */
module OrderedDict {
  import opened Options

  type Dict<V> = seq<(string, V)>

  predicate Has<V>(d: Dict<V>, k: string) {
    exists i | 0 <= i < |d| :: d[i].0 == k
  }

  function Keys<V>(d: Dict<V>): set<string> {
    set i | 0 <= i < |d| :: d[i].0
  }

  predicate Unique<V>(d: Dict<V>) {
    forall i, j | 0 <= i < j < |d| :: d[i].0 != d[j].0
  }

  function Find<V>(d: Dict<V>, k: string): (r: Option<V>)
    ensures r.Some? <==> Has(d, k)
  {
    if d == [] then None
    else if d[0].0 == k then Some(d[0].1)
    else
      assert Has(d, k) <==> Has(d[1..], k);
      Find(d[1..], k)
  }

  /** d[k] = v: in place if the key is there, at the end if not. */
  function Put<V>(d: Dict<V>, k: string, v: V): (r: Dict<V>)
    ensures r != []
  {
    if d == [] then [(k, v)]
    else if d[0].0 == k then [(k, v)] + d[1..]
    else [d[0]] + Put(d[1..], k, v)
  }

  /** del d[k]; nothing happens if the key is missing. */
  function Delete<V>(d: Dict<V>, k: string): Dict<V> {
    if d == [] then []
    else if d[0].0 == k then d[1..]
    else [d[0]] + Delete(d[1..], k)
  }

  /** All assignments of `pairs`, in order. */
  function Assign<V>(d: Dict<V>, pairs: seq<(string, V)>): Dict<V> {
    if pairs == [] then d
    else
      var last := pairs[|pairs| - 1];
      Put(Assign(d, pairs[..|pairs| - 1]), last.0, last.1)
  }

  lemma HasTail<V>(d: Dict<V>, k: string)
    requires d != []
    ensures Has(d, k) <==> d[0].0 == k || Has(d[1..], k)
  {
    if Has(d, k) && d[0].0 != k {
      var i :| 0 <= i < |d| && d[i].0 == k;
      assert d[1..][i - 1].0 == k;
    }
    if Has(d[1..], k) {
      var i :| 0 <= i < |d[1..]| && d[1..][i].0 == k;
      assert d[i + 1].0 == k;
    }
  }

  lemma {:induction false} PutAt<V>(d: Dict<V>, k: string, v: V)
    ensures !Has(d, k) ==> Put(d, k, v) == d + [(k, v)]
    ensures Has(d, k) ==> |Put(d, k, v)| == |d|
    ensures forall i | 0 <= i < |d| :: Put(d, k, v)[i].0 == d[i].0
    ensures forall i | 0 <= i < |d| && d[i].0 != k :: Put(d, k, v)[i] == d[i]
    ensures Unique(d) ==> Unique(Put(d, k, v))
    ensures Unique(d) ==> forall i | 0 <= i < |d| && d[i].0 == k :: Put(d, k, v)[i] == (k, v)
  {
    if d != [] {
      HasTail(d, k);
      PutAt(d[1..], k, v);
    }
  }

  lemma {:induction false} FindPut<V>(d: Dict<V>, k: string, v: V, x: string)
    ensures Find(Put(d, k, v), x) == if x == k then Some(v) else Find(d, x)
  {
    if d != [] {
      FindPut(d[1..], k, v, x);
    }
  }

  lemma {:induction false} DeleteAt<V>(d: Dict<V>, k: string)
    requires Unique(d)
    ensures Unique(Delete(d, k)) && !Has(Delete(d, k), k)
    ensures forall x | x != k :: Find(Delete(d, k), x) == Find(d, x)
    ensures Keys(Delete(d, k)) == Keys(d) - {k}
  {
    if d == [] {
    } else if d[0].0 == k {
      forall x | x != k
        ensures Find(d[1..], x) == Find(d, x)
      {
      }
      KeysTail(d);
      assert !Has(d[1..], k);
    } else {
      var rest := Delete(d[1..], k);
      DeleteAt(d[1..], k);
      KeysTail(d);
      KeysTail([d[0]] + rest);
      assert ([d[0]] + rest)[1..] == rest;
      HasTail([d[0]] + rest, k);
      forall j | 0 <= j < |rest| ensures rest[j].0 != d[0].0 {
        assert rest[j].0 in Keys(rest);
      }
    }
  }

  lemma KeysTail<V>(d: Dict<V>)
    requires d != []
    ensures Keys(d) == {d[0].0} + Keys(d[1..])
  {
    forall k | k in Keys(d) ensures k in {d[0].0} + Keys(d[1..]) {
      var i :| 0 <= i < |d| && d[i].0 == k;
      assert i > 0 ==> d[1..][i - 1].0 == k;
    }
    forall k | k in Keys(d[1..]) ensures k in Keys(d) {
      var i :| 0 <= i < |d[1..]| && d[1..][i].0 == k;
      assert d[i + 1].0 == k;
    }
  }

  lemma UniqueCons<V>(e: (string, V), d: Dict<V>)
    ensures Unique([e] + d) <==> Unique(d) && e.0 !in Keys(d)
    ensures Keys([e] + d) == {e.0} + Keys(d)
  {
    var w := [e] + d;
    assert w[1..] == d;
    KeysTail(w);
    if Unique(w) {
      forall i, j | 0 <= i < j < |d| ensures d[i].0 != d[j].0 {
        assert w[i + 1] == d[i] && w[j + 1] == d[j];
      }
      forall i | 0 <= i < |d| ensures d[i].0 != e.0 {
        assert w[i + 1] == d[i];
      }
    }
  }

  lemma {:induction false} AssignConcat<V>(d: Dict<V>, a: seq<(string, V)>, b: seq<(string, V)>)
    ensures Assign(d, a + b) == Assign(Assign(d, a), b)
  {
    if b == [] {
      assert a + b == a;
    } else {
      AssignConcat(d, a, b[..|b| - 1]);
      assert (a + b)[..|a + b| - 1] == a + b[..|b| - 1];
    }
  }

  /** Assigning fresh, distinct keys appends them. */
  lemma {:induction false} AssignFresh<V>(d: Dict<V>, pairs: seq<(string, V)>)
    requires Unique(d + pairs)
    ensures Assign(d, pairs) == d + pairs
  {
    if pairs == [] {
      assert d + pairs == d;
    } else {
      var n := |pairs| - 1;
      assert d + pairs == d + pairs[..n] + [pairs[n]];
      forall i, j | 0 <= i < j < |d + pairs[..n]|
        ensures (d + pairs[..n])[i].0 != (d + pairs[..n])[j].0
      {
        assert (d + pairs[..n])[i] == (d + pairs)[i] && (d + pairs[..n])[j] == (d + pairs)[j];
      }
      AssignFresh(d, pairs[..n]);
      forall i | 0 <= i < |d + pairs[..n]|
        ensures (d + pairs[..n])[i].0 != pairs[n].0
      {
        assert (d + pairs[..n])[i] == (d + pairs)[i] && (d + pairs)[|d| + n] == pairs[n];
      }
      PutAt(d + pairs[..n], pairs[n].0, pairs[n].1);
    }
  }

  lemma {:induction false} PutCommutes<V>(d: Dict<V>, k: string, v: V, x: string, w: V)
    requires k != x && Has(d, k)
    ensures Put(Put(d, x, w), k, v) == Put(Put(d, k, v), x, w)
  {
    HasTail(d, k);
    if d[0].0 != k {
      PutCommutes(d[1..], k, v, x, w);
    }
  }

  lemma {:induction false} HasAssign<V>(d: Dict<V>, pairs: seq<(string, V)>, k: string)
    ensures Has(Assign(d, pairs), k) <==> Has(d, k) || Has(pairs, k)
  {
    if pairs != [] {
      var n := |pairs| - 1;
      HasAssign(d, pairs[..n], k);
      HasPut(Assign(d, pairs[..n]), pairs[n].0, pairs[n].1, k);
      assert Has(pairs, k) <==> Has(pairs[..n], k) || pairs[n].0 == k by {
        if Has(pairs, k) && pairs[n].0 != k {
          var i :| 0 <= i < |pairs| && pairs[i].0 == k;
          assert pairs[..n][i].0 == k;
        }
        if Has(pairs[..n], k) {
          var i :| 0 <= i < n && pairs[..n][i].0 == k;
          assert pairs[i].0 == k;
        }
      }
    }
  }

  lemma HasPut<V>(d: Dict<V>, k: string, v: V, x: string)
    ensures Has(Put(d, k, v), x) <==> Has(d, x) || x == k
  {
    FindPut(d, k, v, x);
  }

  /** Overwriting a key of the update, before or after applying it, is the same. */
  lemma {:induction false} AssignPut<V>(d: Dict<V>, x: Dict<V>, k: string, v: V)
    requires Unique(x)
    ensures Assign(d, Put(x, k, v)) == Put(Assign(d, x), k, v)
  {
    PutAt(x, k, v);
    if !Has(x, k) {
      assert (x + [(k, v)])[..|x|] == x;
    } else {
      var n := |x| - 1;
      var y := x[..n];
      assert x == y + [x[n]];
      if x[n].0 == k {
        assert Put(x, k, v) == y + [(k, v)];
        assert (y + [(k, v)])[..n] == y;
        PutTwice(Assign(d, y), k, x[n].1, v);
      } else {
        HasInit(x, k);
        PutAt(y, k, v);
        assert Put(x, k, v) == Put(y, k, v) + [x[n]];
        assert (Put(y, k, v) + [x[n]])[..n] == Put(y, k, v);
        AssignPut(d, y, k, v);
        HasAssign(d, y, k);
        PutCommutes(Assign(d, y), k, v, x[n].0, x[n].1);
      }
    }
  }

  lemma HasInit<V>(x: Dict<V>, k: string)
    requires Has(x, k) && x[|x| - 1].0 != k
    ensures Has(x[..|x| - 1], k)
  {
    var i :| 0 <= i < |x| && x[i].0 == k;
    assert x[..|x| - 1][i].0 == k;
  }

  lemma {:induction false} PutTwice<V>(d: Dict<V>, k: string, v: V, w: V)
    ensures Put(Put(d, k, v), k, w) == Put(d, k, w)
  {
    if d != [] && d[0].0 != k {
      PutTwice(d[1..], k, v, w);
    }
  }

  lemma {:induction false} AssignUnique<V>(d: Dict<V>, pairs: seq<(string, V)>)
    requires Unique(d)
    ensures Unique(Assign(d, pairs))
  {
    if pairs != [] {
      var n := |pairs| - 1;
      AssignUnique(d, pairs[..n]);
      PutAt(Assign(d, pairs[..n]), pairs[n].0, pairs[n].1);
    }
  }

  /** d.update(e), where `e` was itself built by assignments, performs those assignments on `d`. */
  lemma {:induction false} UpdateIsAssign<V>(d: Dict<V>, pairs: seq<(string, V)>)
    ensures Assign(d, Assign([], pairs)) == Assign(d, pairs)
  {
    if pairs != [] {
      var n := |pairs| - 1;
      UpdateIsAssign(d, pairs[..n]);
      AssignUnique([], pairs[..n]);
      AssignPut(d, Assign([], pairs[..n]), pairs[n].0, pairs[n].1);
    }
  }

  /** The entries with these keys, in order. */
  function Restrict<V>(d: Dict<V>, keys: set<string>): Dict<V> {
    if d == [] then []
    else (if d[0].0 in keys then [d[0]] else []) + Restrict(d[1..], keys)
  }

  lemma {:induction false} RestrictKeys<V>(d: Dict<V>, keys: set<string>)
    ensures Keys(Restrict(d, keys)) == Keys(d) * keys
  {
    if d != [] {
      RestrictKeys(d[1..], keys);
      KeysTail(d);
      if d[0].0 in keys {
        var r := [d[0]] + Restrict(d[1..], keys);
        assert r[1..] == Restrict(d[1..], keys);
        KeysTail(r);
      } else {
        assert [] + Restrict(d[1..], keys) == Restrict(d[1..], keys);
      }
    }
  }

  lemma HasKeys<V>(d: Dict<V>, k: string)
    ensures Has(d, k) <==> k in Keys(d)
  {
  }

  lemma HasCons<V>(e: (string, V), d: Dict<V>, k: string)
    ensures Has([e] + d, k) <==> e.0 == k || Has(d, k)
    ensures Find([e] + d, k) == if e.0 == k then Some(e.1) else Find(d, k)
    ensures Delete([e] + d, k) == if e.0 == k then d else [e] + Delete(d, k)
  {
    assert ([e] + d)[1..] == d;
    HasTail([e] + d, k);
  }

  lemma {:induction false} FindRestrict<V>(d: Dict<V>, keys: set<string>, k: string)
    ensures Find(Restrict(d, keys), k) == if k in keys then Find(d, k) else None
  {
    if d != [] {
      FindRestrict(d[1..], keys, k);
      if d[0].0 in keys {
        HasCons(d[0], Restrict(d[1..], keys), k);
      } else {
        assert [] + Restrict(d[1..], keys) == Restrict(d[1..], keys);
      }
    }
  }

  lemma {:induction false} RestrictUnique<V>(d: Dict<V>, keys: set<string>)
    requires Unique(d)
    ensures Unique(Restrict(d, keys))
  {
    if d != [] {
      var rest := Restrict(d[1..], keys);
      RestrictUnique(d[1..], keys);
      RestrictKeys(d[1..], keys);
      assert forall j | 0 <= j < |rest| :: rest[j].0 in Keys(rest);
      assert forall j | 0 <= j < |d[1..]| :: d[1..][j].0 != d[0].0;
    }
  }

  lemma {:induction false} DeleteMissing<V>(d: Dict<V>, k: string)
    requires !Has(d, k)
    ensures Delete(d, k) == d
  {
    if d != [] {
      HasTail(d, k);
      DeleteMissing(d[1..], k);
    }
  }

  lemma ConsConcat<T>(x: T, a: seq<T>, b: seq<T>)
    ensures [x] + (a + b) == [x] + a + b
  {
  }

  lemma {:induction false} DeleteConcat<V>(a: Dict<V>, b: Dict<V>, k: string)
    ensures Delete(a + b, k) == if Has(a, k) then Delete(a, k) + b else a + Delete(b, k)
  {
    if a == [] {
      assert a + b == b && a + Delete(b, k) == Delete(b, k);
    } else {
      var rest := a[1..];
      DeleteConcat(rest, b, k);
      HasTail(a, k);
      HasCons(a[0], rest + b, k);
      HasCons(a[0], rest, k);
      assert a == [a[0]] + rest;
      hide *;
      ConsConcat(a[0], rest, b);
      ConsConcat(a[0], rest, Delete(b, k));
      ConsConcat(a[0], Delete(rest, k), b);
    }
  }

  lemma RestrictCons<V>(d: Dict<V>, keys: set<string>)
    requires d != []
    ensures Restrict(d, keys)
         == if d[0].0 in keys then [d[0]] + Restrict(d[1..], keys) else Restrict(d[1..], keys)
  {
    assert [] + Restrict(d[1..], keys) == Restrict(d[1..], keys);
  }

  lemma {:induction false} DeleteRestrict<V>(d: Dict<V>, keys: set<string>, k: string)
    requires Unique(d)
    ensures Delete(Restrict(d, keys), k) == Restrict(d, keys - {k})
  {
    if d != [] {
      var rest := d[1..];
      DeleteRestrict(rest, keys, k);
      RestrictCons(d, keys);
      RestrictCons(d, keys - {k});
      HasCons(d[0], Restrict(rest, keys), k);
      if d[0].0 == k {
        assert !Has(rest, k);
        FindRestrict(rest, keys, k);
        hide *;
        DeleteMissing(Restrict(rest, keys), k);
      }
    }
  }

  lemma {:induction false} RestrictIgnores<V>(d: Dict<V>, keys: set<string>, k: string)
    requires !Has(d, k)
    ensures Restrict(d, keys + {k}) == Restrict(d, keys)
  {
    if d != [] {
      HasTail(d, k);
      RestrictIgnores(d[1..], keys, k);
    }
  }

  lemma {:induction false} RestrictAll<V>(d: Dict<V>, keys: set<string>)
    requires Keys(d) <= keys
    ensures Restrict(d, keys) == d
  {
    if d != [] {
      KeysTail(d);
      RestrictAll(d[1..], keys);
    }
  }

  lemma {:induction false} DeletePart<V>(d: Dict<V>, k: string)
    ensures |Delete(d, k)| <= |d|
    ensures forall i | 0 <= i < |Delete(d, k)| :: Delete(d, k)[i] in d
  {
    if d != [] && d[0].0 != k {
      DeletePart(d[1..], k);
    }
  }
}
