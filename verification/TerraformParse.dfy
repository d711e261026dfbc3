/** Reading flat Terraform attributes back: the parsers are inverse to the flattener. */
module TerraformParse {
  import opened Options
  import opened OrderedDict
  import opened Text
  import opened Terraform

  // ---------------------------------------------------------------- The parsers

  /** What `_parse_prefix` yields for one entry. */
  function Yield(entry: (string, Json), prefix: string): seq<(string, Json)> {
    match SplitOnce(entry.0, '.')
    case None => []
    case Some((head, rest)) => if head != prefix || rest == "#" then [] else [(rest, entry.1)]
  }

  /** _parse_prefix */
  function ParsePrefix(source: Dict<Json>, prefix: string): seq<(string, Json)> {
    if source == [] then [] else Yield(source[0], prefix) + ParsePrefix(source[1..], prefix)
  }

  /** parse_dict */
  function ParseDict(source: Dict<Json>, prefix: string): Dict<Json> {
    Assign([], ParsePrefix(source, prefix))
  }

  function Values<V>(d: Dict<V>): (r: seq<V>)
    ensures |r| == |d| && forall i | 0 <= i < |d| :: r[i] == d[i].1
  {
    seq(|d|, i requires 0 <= i < |d| => d[i].1)
  }

  /** parse_list */
  function ParseList(source: Dict<Json>, prefix: string): seq<Json> {
    Values(ParsePrefix(source, prefix))
  }

  /** attrs[idx][key] = value on a defaultdict. */
  function Enter(groups: Dict<Dict<Json>>, idx: string, key: string, value: Json): Dict<Dict<Json>> {
    Put(groups, idx, Put(match Find(groups, idx) case Some(g) => g case None => [], key, value))
  }

  /** The groups after the first `n` pairs; None is the ValueError for a key without a second part. */
  function Grouped(pairs: seq<(string, Json)>, n: nat): Option<Dict<Dict<Json>>>
    requires n <= |pairs|
  {
    if n == 0 then Some([])
    else match (Grouped(pairs, n - 1), SplitOnce(pairs[n - 1].0, '.'))
      case (Some(g), Some((idx, key))) => Some(Enter(g, idx, key, pairs[n - 1].1))
      case _ => None
  }

  /** parse_attr_list */
  method ParseAttrList(source: Dict<Json>, prefix: string) returns (attrs: Option<seq<Dict<Json>>>)
    ensures attrs == AttrList(source, prefix)
  {
    hide Enter, ParsePrefix;
    var pairs := ParsePrefix(source, prefix);
    var groups: Dict<Dict<Json>> := [];
    for n := 0 to |pairs|
      invariant Grouped(pairs, n) == Some(groups)
    {
      GroupFailureStays(pairs, n + 1);
      match SplitOnce(pairs[n].0, '.')
      case None =>
        return None;
      case Some((idx, key)) =>
        groups := Enter(groups, idx, key, pairs[n].1);
    }
    return Some(Values(groups));
  }

  function AttrList(source: Dict<Json>, prefix: string): Option<seq<Dict<Json>>> {
    var pairs := ParsePrefix(source, prefix);
    match Grouped(pairs, |pairs|)
    case None => None
    case Some(g) => Some(Values(g))
  }

  lemma {:induction false} GroupFailureStays(pairs: seq<(string, Json)>, n: nat)
    requires n <= |pairs|
    ensures Grouped(pairs, n).None? ==> Grouped(pairs, |pairs|).None?
    decreases |pairs| - n
  {
    if n < |pairs| {
      GroupFailureStays(pairs, n + 1);
    }
  }

  // ---------------------------------------------------------------- Parsing commutes with assignment

  lemma Associative<T>(a: seq<T>, b: seq<T>, c: seq<T>)
    ensures a + (b + c) == a + b + c
  {
  }

  lemma {:induction false} ParseConcat(a: seq<(string, Json)>, b: seq<(string, Json)>, p: string)
    ensures ParsePrefix(a + b, p) == ParsePrefix(a, p) + ParsePrefix(b, p)
  {
    if a == [] {
      assert a + b == b;
    } else {
      ParseConcat(a[1..], b, p);
      assert (a + b)[0] == a[0] && (a + b)[1..] == a[1..] + b;
      Associative(Yield(a[0], p), ParsePrefix(a[1..], p), ParsePrefix(b, p));
    }
  }

  lemma ParseOne(e: (string, Json), p: string)
    ensures ParsePrefix([e], p) == Yield(e, p)
  {
    assert [e][1..] == [];
  }

  /** Different flat keys under one prefix stay different without it. */
  lemma YieldInjective(a: (string, Json), b: (string, Json), p: string)
    requires Yield(a, p) != [] && Yield(b, p) != [] && a.0 != b.0
    ensures Yield(a, p)[0].0 != Yield(b, p)[0].0
  {
    assert a.0 == p + "." + Yield(a, p)[0].0 && b.0 == p + "." + Yield(b, p)[0].0;
  }

  lemma PutBehind<V>(e: (string, V), d: Dict<V>, k: string, v: V)
    requires e.0 != k
    ensures Put([e] + d, k, v) == [e] + Put(d, k, v)
  {
    assert ([e] + d)[1..] == d;
  }

  lemma {:induction false} ParsePut(d: Dict<Json>, k: string, v: Json, p: string)
    ensures ParsePrefix(Put(d, k, v), p) == Assign(ParsePrefix(d, p), Yield((k, v), p))
  {
    var y := Yield((k, v), p);
    if d == [] {
      ParseOne((k, v), p);
      if y != [] {
        AssignOne([], y[0].0, v);
      }
    } else if d[0].0 == k {
      assert ([(k, v)] + d[1..])[1..] == d[1..];
      if y != [] {
        AssignOne(ParsePrefix(d, p), y[0].0, v);
        assert Put(ParsePrefix(d, p), y[0].0, v) == y + ParsePrefix(d[1..], p);
      }
    } else {
      ParsePut(d[1..], k, v, p);
      assert ([d[0]] + Put(d[1..], k, v))[1..] == Put(d[1..], k, v);
      AssignBehind(d[0], (k, v), ParsePrefix(d[1..], p), p);
    }
  }

  lemma AssignBehind(a: (string, Json), b: (string, Json), tail: Dict<Json>, p: string)
    requires a.0 != b.0
    ensures Assign(Yield(a, p) + tail, Yield(b, p)) == Yield(a, p) + Assign(tail, Yield(b, p))
  {
    var x, y := Yield(a, p), Yield(b, p);
    if y != [] {
      AssignOne(x + tail, y[0].0, y[0].1);
      AssignOne(tail, y[0].0, y[0].1);
      if x == [] {
        assert x + tail == tail && x + Put(tail, y[0].0, y[0].1) == Put(tail, y[0].0, y[0].1);
      } else {
        YieldInjective(a, b, p);
        PutBehind(x[0], tail, y[0].0, y[0].1);
      }
    }
  }

  lemma {:induction false} ParseAssign(d: Dict<Json>, w: seq<(string, Json)>, p: string)
    ensures ParsePrefix(Assign(d, w), p) == Assign(ParsePrefix(d, p), ParsePrefix(w, p))
  {
    if w != [] {
      var n := |w| - 1;
      ParseAssign(d, w[..n], p);
      ParsePut(Assign(d, w[..n]), w[n].0, w[n].1, p);
      ParseConcat(w[..n], [w[n]], p);
      ParseOne(w[n], p);
      assert w == w[..n] + [w[n]];
      AssignConcat(ParsePrefix(d, p), ParsePrefix(w[..n], p), Yield(w[n], p));
    }
  }
}
