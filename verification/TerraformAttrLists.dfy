/**
 Lists among the attributes: parse_attr_list gives back the flattened form of every element, in order.
 */
module TerraformAttrLists {
  import opened Options
  import opened OrderedDict
  import opened Text
  import opened Terraform
  import opened TerraformParse
  import opened TerraformRoundTrip

  // ---------------------------------------------------------------- Flattening below a path

  /** The random numbers as they are drawn below `path`. */
  function Shift(draw: Draw, path: string): Draw {
    (q: string) => draw(path + q)
  }

  function Under(w: Option<seq<(string, Json)>>, path: string): Option<seq<(string, Json)>> {
    match w case None => None case Some(pairs) => Some(FieldKeys(pairs, path))
  }

  lemma FieldKeysConcat(a: Dict<Json>, b: Dict<Json>, path: string)
    ensures FieldKeys(a + b, path) == FieldKeys(a, path) + FieldKeys(b, path)
  {
  }

  lemma FieldKeysTwice(d: Dict<Json>, p: string, q: string)
    ensures FieldKeys(FieldKeys(d, q), p) == FieldKeys(d, p + q)
  {
    forall i | 0 <= i < |d| ensures p + (q + d[i].0) == p + q + d[i].0 {
    }
  }

  lemma UnderOne(k: string, v: Json, path: string)
    ensures FieldKeys([(k, v)], path) == [(path + k, v)]
  {
  }

  /** Below a path a value is flattened as it is on its own, with that path in front of every key. */
  lemma {:induction false} WritesUnder(j: Json, p: string, q: string, draw: Draw)
    ensures Writes(j, p + q, draw) == Under(Writes(j, q, Shift(draw, p)), p)
    decreases j, 0
  {
    match j
    case Str(_) =>
      assert p + q + Numeral(draw(p + q)) == p + (q + Numeral(draw(p + q)));
      UnderOne(q + Numeral(draw(p + q)), j, p);
    case Obj(fields) => FieldWritesUnder(fields, |fields|, p, q, draw);
    case _ =>
  }

  lemma {:induction false} FieldWritesUnder(fields: Dict<Json>, n: nat, p: string, q: string, draw: Draw)
    requires n <= |fields|
    ensures FieldWrites(fields, n, p + q, draw) == Under(FieldWrites(fields, n, q, Shift(draw, p)), p)
    decreases fields, n
  {
    if n > 0 {
      FieldWritesUnder(fields, n - 1, p, q, draw);
      EntryWritesUnder(fields[n - 1], p, q, draw);
      UnderBoth(FieldWrites(fields, n - 1, q, Shift(draw, p)), EntryWrites(fields[n - 1], q, Shift(draw, p)), p);
    }
  }

  lemma UnderBoth(a: Option<seq<(string, Json)>>, b: Option<seq<(string, Json)>>, p: string)
    ensures a.Some? && b.Some? ==>
              Under(Some(a.value + b.value), p) == Some(Under(a, p).value + Under(b, p).value)
  {
    if a.Some? && b.Some? {
      FieldKeysConcat(a.value, b.value, p);
    }
  }

  lemma ListWritesUnder(key: string, items: seq<Json>, p: string, q: string, draw: Draw)
    requires ItemWrites(items, |items|, p + (q + key + "."), draw)
          == Under(ItemWrites(items, |items|, q + key + ".", Shift(draw, p)), p)
    ensures EntryWrites((key, List(items)), p + q, draw) == Under(EntryWrites((key, List(items)), q, Shift(draw, p)), p)
  {
    hide ItemWrites, Shift, FieldKeys;
    var header := (q + key + ".#", Num(|items|));
    assert p + q + key + "." == p + (q + key + ".") && p + q + key + ".#" == p + header.0;
    UnderOne(header.0, header.1, p);
    UnderBoth(Some([header]), ItemWrites(items, |items|, q + key + ".", Shift(draw, p)), p);
  }

  lemma DictWrites(key: string, fields: Dict<Json>, prefix: string, draw: Draw)
    ensures EntryWrites((key, Obj(fields)), prefix, draw)
         == Some([(prefix + key + ".%", Num(|fields|))] + FieldKeys(fields, prefix + key + "."))
  {
  }

  lemma UnderSome(e: (string, Json), b: Dict<Json>, p: string)
    ensures Under(Some([e] + b), p) == Some([(p + e.0, e.1)] + FieldKeys(b, p))
  {
    UnderOne(e.0, e.1, p);
    FieldKeysConcat([e], b, p);
  }

  lemma DictWritesUnder(key: string, fields: Dict<Json>, p: string, q: string, draw: Draw)
    ensures EntryWrites((key, Obj(fields)), p + q, draw) == Under(EntryWrites((key, Obj(fields)), q, Shift(draw, p)), p)
  {
    hide *;
    assert p + q + key + "." == p + (q + key + ".") && p + q + key + ".%" == p + (q + key + ".%");
    DictWrites(key, fields, p + q, draw);
    DictWrites(key, fields, q, Shift(draw, p));
    UnderSome((q + key + ".%", Num(|fields|)), FieldKeys(fields, q + key + "."), p);
    FieldKeysTwice(fields, p, q + key + ".");
  }

  lemma {:induction false} EntryWritesUnder(entry: (string, Json), p: string, q: string, draw: Draw)
    ensures EntryWrites(entry, p + q, draw) == Under(EntryWrites(entry, q, Shift(draw, p)), p)
    decreases entry, 1
  {
    match entry
    case (key, List(items)) =>
      ItemWritesUnder(items, |items|, p, q + key + ".", draw);
      ListWritesUnder(key, items, p, q, draw);
    case (key, Obj(fields)) => DictWritesUnder(key, fields, p, q, draw);
    case (key, value) =>
      assert p + q + key == p + (q + key);
      UnderOne(q + key, value, p);
  }

  lemma {:induction false} ItemWritesUnder(items: seq<Json>, n: nat, p: string, path: string, draw: Draw)
    requires n <= |items|
    ensures ItemWrites(items, n, p + path, draw) == Under(ItemWrites(items, n, path, Shift(draw, p)), p)
    decreases items, n
  {
    if n > 0 {
      ItemWritesUnder(items, n - 1, p, path, draw);
      assert p + path + Numeral(n - 1) + "." == p + (path + Numeral(n - 1) + ".");
      WritesUnder(items[n - 1], p, path + Numeral(n - 1) + ".", draw);
      UnderBoth(ItemWrites(items, n - 1, path, Shift(draw, p)),
                Writes(items[n - 1], path + Numeral(n - 1) + ".", Shift(draw, p)), p);
    }
  }

  // ---------------------------------------------------------------- What is yielded for a list

  /** What element `j` of a list at `path` is turned into, seen on its own. */
  function ItemWrite(items: seq<Json>, j: nat, path: string, draw: Draw): seq<(string, Json)>
    requires j < |items|
  {
    match Writes(items[j], "", Shift(draw, path + Numeral(j) + ".")) case Some(w) => w case None => []
  }

  /** Its flattened form. */
  function Form(items: seq<Json>, j: nat, path: string, draw: Draw): (r: Dict<Json>)
    requires j < |items|
  {
    Assign([], ItemWrite(items, j, path, draw))
  }

  function Forms(items: seq<Json>, path: string, draw: Draw): (r: seq<Dict<Json>>)
    ensures |r| == |items|
  {
    seq(|items|, j requires 0 <= j < |items| => Form(items, j, path, draw))
  }

  lemma FormsAreFlat(items: seq<Json>, j: nat, path: string, draw: Draw)
    requires j < |items|
    ensures Unique(Forms(items, path, draw)[j])
    ensures Writes(items[j], "", Shift(draw, path + Numeral(j) + ".")).Some? ==>
              Flat(items[j], "", Shift(draw, path + Numeral(j) + ".")) == Some(Forms(items, path, draw)[j])
  {
    AssignUnique([], ItemWrite(items, j, path, draw));
  }

  /** The keys of each element, under its index. */
  function ItemPairs(items: seq<Json>, n: nat, path: string, draw: Draw): seq<(string, Json)>
    requires n <= |items|
  {
    if n == 0 then []
    else ItemPairs(items, n - 1, path, draw)
         + FieldKeys(ItemWrite(items, n - 1, path, draw), Numeral(n - 1) + ".")
  }

  lemma {:induction false} PathFieldsYield(fields: Dict<Json>, name: string, i: string)
    requires '.' !in name
    ensures ParsePrefix(FieldKeys(fields, name + "." + i + "."), name) == FieldKeys(fields, i + ".")
  {
    if fields != [] {
      hide Yield;
      FieldKeysCons(fields, name + "." + i + ".");
      FieldKeysCons(fields, i + ".");
      PathFieldsYield(fields[1..], name, i);
      UnderYieldsPath(name, i, fields[0].0, fields[0].1);
      ParseCons((name + "." + i + "." + fields[0].0, fields[0].1), FieldKeys(fields[1..], name + "." + i + "."), name);
    }
  }

  lemma {:induction false} ItemsYield(items: seq<Json>, n: nat, name: string, draw: Draw)
    requires n <= |items| && '.' !in name && ItemWrites(items, n, name + ".", draw).Some?
    ensures ParsePrefix(ItemWrites(items, n, name + ".", draw).value, name) == ItemPairs(items, n, name + ".", draw)
  {
    if n > 0 {
      ItemsYield(items, n - 1, name, draw);
      var path := name + "." + Numeral(n - 1) + ".";
      assert path + "" == path;
      WritesUnder(items[n - 1], path, "", draw);
      var own := ItemWrite(items, n - 1, name + ".", draw);
      ParseConcat(ItemWrites(items, n - 1, name + ".", draw).value, FieldKeys(own, path), name);
      PathFieldsYield(own, name, Numeral(n - 1));
    }
  }

  // ---------------------------------------------------------------- Assignments of different elements

  /** The entries of the first `n` dictionaries, under their indices. */
  function FormPairs(forms: seq<Dict<Json>>, n: nat): Dict<Json>
    requires n <= |forms|
  {
    if n == 0 then [] else FormPairs(forms, n - 1) + FieldKeys(forms[n - 1], Numeral(n - 1) + ".")
  }

  ghost predicate NoneUnder(d: Dict<Json>, path: string) {
    forall i | 0 <= i < |d| :: !(path <= d[i].0)
  }

  lemma OtherIndex(k: string, i: nat, j: nat)
    requires Numeral(i) + "." <= k && Numeral(j) + "." <= k
    ensures i == j
  {
    var a, b := k[|Numeral(i)| + 1..], k[|Numeral(j)| + 1..];
    assert k == Numeral(i) + "." + a;
    assert k == Numeral(j) + "." + b;
    if i != j {
      NumeralsDiffer(i, j, a, b);
    }
  }

  lemma {:induction false} FormPairsElsewhere(forms: seq<Dict<Json>>, n: nat, j: nat)
    requires n <= |forms| && n <= j
    ensures NoneUnder(FormPairs(forms, n), Numeral(j) + ".")
  {
    if n > 0 {
      FormPairsElsewhere(forms, n - 1, j);
      var own := FieldKeys(forms[n - 1], Numeral(n - 1) + ".");
      forall i | 0 <= i < |own| ensures !(Numeral(j) + "." <= own[i].0) {
        assert Numeral(n - 1) + "." <= own[i].0;
        if Numeral(j) + "." <= own[i].0 {
          OtherIndex(own[i].0, n - 1, j);
        }
      }
    }
  }

  lemma {:induction false} PutBehindAll(a: Dict<Json>, d: Dict<Json>, k: string, v: Json)
    requires forall i | 0 <= i < |a| :: a[i].0 != k
    ensures Put(a + d, k, v) == a + Put(d, k, v)
  {
    if a == [] {
      assert a + d == d && a + Put(d, k, v) == Put(d, k, v);
    } else {
      PutBehindAll(a[1..], d, k, v);
      PutBehind(a[0], a[1..] + d, k, v);
      assert a + d == [a[0]] + (a[1..] + d) && a + Put(d, k, v) == [a[0]] + (a[1..] + Put(d, k, v));
    }
  }

  lemma {:induction false} PutUnder(d: Dict<Json>, k: string, v: Json, path: string)
    ensures Put(FieldKeys(d, path), path + k, v) == FieldKeys(Put(d, k, v), path)
  {
    if d != [] {
      FieldKeysCons(d, path);
      if d[0].0 == k {
        FieldKeysConcat([(k, v)], d[1..], path);
        assert path + d[0].0 == path + k;
      } else {
        PutUnder(d[1..], k, v, path);
        FieldKeysConcat([d[0]], Put(d[1..], k, v), path);
        assert (path + d[0].0)[|path|..] == d[0].0 && (path + k)[|path|..] == k;
        PutBehind((path + d[0].0, d[0].1), FieldKeys(d[1..], path), path + k, v);
        assert FieldKeys([d[0]], path) == [(path + d[0].0, d[0].1)];
      }
    }
  }

  lemma {:induction false} AssignUnder(a: Dict<Json>, w: seq<(string, Json)>, path: string)
    requires NoneUnder(a, path)
    ensures Assign(a, FieldKeys(w, path)) == a + FieldKeys(Assign([], w), path)
  {
    if w == [] {
      assert a + FieldKeys([], path) == a;
    } else {
      var n := |w| - 1;
      var d, k, v := Assign([], w[..n]), w[n].0, w[n].1;
      AssignUnder(a, w[..n], path);
      assert w == w[..n] + [w[n]] && FieldKeys(w, path) == FieldKeys(w[..n], path) + [(path + k, v)];
      AssignMore([], w[..n], k, v);
      AssignMore(a, FieldKeys(w[..n], path), path + k, v);
      PutBehindAll(a, FieldKeys(d, path), path + k, v);
      PutUnder(d, k, v, path);
    }
  }

  lemma PairsNext(items: seq<Json>, n: nat, path: string, draw: Draw)
    requires 0 < n <= |items|
    ensures var forms, w, index := Forms(items, path, draw), ItemWrite(items, n - 1, path, draw), Numeral(n - 1) + ".";
            && ItemPairs(items, n, path, draw) == ItemPairs(items, n - 1, path, draw) + FieldKeys(w, index)
            && FormPairs(forms, n) == FormPairs(forms, n - 1) + FieldKeys(Assign([], w), index)
  {
  }

  lemma OneMoreAssigned(x: seq<(string, Json)>, a: Dict<Json>, w: seq<(string, Json)>, path: string)
    requires Assign([], x) == a && NoneUnder(a, path)
    ensures Assign([], x + FieldKeys(w, path)) == a + FieldKeys(Assign([], w), path)
  {
    hide *;
    AssignConcat([], x, FieldKeys(w, path));
    AssignUnder(a, w, path);
  }

  lemma NothingAssigned(items: seq<Json>, path: string, draw: Draw)
    ensures Assign([], ItemPairs(items, 0, path, draw)) == FormPairs(Forms(items, path, draw), 0)
  {
  }

  /** Assignments for different elements do not meet: each element keeps its own form. */
  lemma {:induction false} ItemsAssign(items: seq<Json>, n: nat, path: string, draw: Draw)
    requires n <= |items|
    ensures Assign([], ItemPairs(items, n, path, draw)) == FormPairs(Forms(items, path, draw), n)
  {
    hide *;
    if n == 0 {
      NothingAssigned(items, path, draw);
    } else {
      var w, index := ItemWrite(items, n - 1, path, draw), Numeral(n - 1) + ".";
      ItemsAssign(items, n - 1, path, draw);
      FormPairsElsewhere(Forms(items, path, draw), n - 1, n - 1);
      OneMoreAssigned(ItemPairs(items, n - 1, path, draw), FormPairs(Forms(items, path, draw), n - 1), w, index);
      PairsNext(items, n, path, draw);
    }
  }

  // ---------------------------------------------------------------- Grouping by index

  /** The non-empty dictionaries among the first `n`, with their indices. */
  function NonEmpty(forms: seq<Dict<Json>>, n: nat): Dict<Dict<Json>>
    requires n <= |forms|
  {
    if n == 0 then []
    else Begun(NonEmpty(forms, n - 1), Numeral(n - 1), forms[n - 1])
  }

  lemma {:induction false} NonEmptyBefore(forms: seq<Dict<Json>>, n: nat, j: nat)
    requires n <= j && n <= |forms|
    ensures forall i | 0 <= i < |NonEmpty(forms, n)| :: NonEmpty(forms, n)[i].0 != Numeral(j)
  {
    if n > 0 {
      NonEmptyBefore(forms, n - 1, j);
      if Numeral(n - 1) == Numeral(j) {
        NumeralInjective(n - 1, j);
      }
    }
  }

  lemma {:induction false} FindLast<V>(d: Dict<V>, k: string, v: V)
    requires forall i | 0 <= i < |d| :: d[i].0 != k
    ensures Find(d, k) == None && Find(d + [(k, v)], k) == Some(v)
    ensures forall w :: Put(d, k, w) == d + [(k, w)] && Put(d + [(k, v)], k, w) == d + [(k, w)]
  {
    if d != [] {
      FindLast(d[1..], k, v);
      assert (d + [(k, v)])[1..] == d[1..] + [(k, v)];
    }
  }

  lemma EnterLast(g: Dict<Dict<Json>>, i: string, before: Dict<Json>, e: (string, Json))
    requires forall x | 0 <= x < |g| :: g[x].0 != i
    requires forall x | 0 <= x < |before| :: before[x].0 != e.0
    ensures Enter(Begun(g, i, before), i, e.0, e.1) == Begun(g, i, before + [e])
  {
    FindLast(g, i, before);
    FindLast(before, e.0, e.1);
    if before == [] {
      assert before + [e] == [e];
    }
  }

  lemma GroupedNext(pairs: seq<(string, Json)>, n: nat, i: string, e: (string, Json))
    requires n < |pairs| && Grouped(pairs, n).Some? && pairs[n] == (i + "." + e.0, e.1) && '.' !in i
    ensures Grouped(pairs, n + 1) == Some(Enter(Grouped(pairs, n).value, i, e.0, e.1))
  {
    SplitAtFirst(i, e.0, '.');
  }

  function Begun(g: Dict<Dict<Json>>, i: string, own: Dict<Json>): Dict<Dict<Json>> {
    if own == [] then g else g + [(i, own)]
  }

  lemma GroupStep(pairs: seq<(string, Json)>, n: nat, k: nat, g: Dict<Dict<Json>>, own: Dict<Json>, i: string)
    requires k < |own| && Unique(own) && '.' !in i && forall x | 0 <= x < |g| :: g[x].0 != i
    requires n < |pairs| && pairs[n] == (i + "." + own[k].0, own[k].1)
    requires Grouped(pairs, n) == Some(Begun(g, i, own[..k]))
    ensures Grouped(pairs, n + 1) == Some(Begun(g, i, own[..k + 1]))
  {
    FirstOf(own, k);
    hide *;
    GroupedNext(pairs, n, i, own[k]);
    EnterLast(g, i, own[..k], own[k]);
    assert own[..k] + [own[k]] == own[..k + 1];
  }

  lemma FirstOf(d: Dict<Json>, k: nat)
    requires Unique(d) && k < |d|
    ensures forall x | 0 <= x < |d[..k]| :: d[..k][x].0 != d[k].0
  {
  }

  /** Entry `x` of the dictionary is entry `start + x` of the pairs. */
  ghost predicate PairAt(pairs: seq<(string, Json)>, start: nat, own: Dict<Json>, i: string, x: nat) {
    start + x < |pairs| && x < |own| && pairs[start + x] == (i + "." + own[x].0, own[x].1)
  }

  /** Entering the fields of one dictionary one by one builds that dictionary as the last group. */
  lemma {:induction false} GroupOne(pairs: seq<(string, Json)>, start: nat, k: nat, g: Dict<Dict<Json>>,
                                    own: Dict<Json>, i: string)
    requires start + |own| <= |pairs| && k <= |own| && Unique(own) && '.' !in i
    requires forall x: nat | x < |own| :: PairAt(pairs, start, own, i, x)
    requires Grouped(pairs, start) == Some(g) && forall x | 0 <= x < |g| :: g[x].0 != i
    ensures Grouped(pairs, start + k) == Some(Begun(g, i, own[..k]))
  {
    if k > 0 {
      GroupOne(pairs, start, k - 1, g, own, i);
      assert PairAt(pairs, start, own, i, k - 1);
      assert pairs[start + (k - 1)] == (i + "." + own[k - 1].0, own[k - 1].1);
      hide *;
      GroupStep(pairs, start + (k - 1), k - 1, g, own, i);
    }
  }

  lemma {:induction false} GroupPrefix(a: seq<(string, Json)>, w: seq<(string, Json)>, n: nat)
    requires n <= |a| && n <= |w| && forall i | 0 <= i < n :: a[i] == w[i]
    ensures Grouped(w, n) == Grouped(a, n)
  {
    hide Enter, SplitOnce;
    if n > 0 {
      GroupPrefix(a, w, n - 1);
      assert a[n - 1] == w[n - 1];
    }
  }

  lemma FieldPairs(a: seq<(string, Json)>, own: Dict<Json>, i: string)
    ensures var pairs := a + FieldKeys(own, i + ".");
            |pairs| == |a| + |own| && forall x: nat | x < |own| :: PairAt(pairs, |a|, own, i, x)
  {
  }

  lemma GroupBehind(a: seq<(string, Json)>, own: Dict<Json>, i: string, g: Dict<Dict<Json>>)
    requires Grouped(a, |a|) == Some(g) && Unique(own) && '.' !in i
    requires forall x | 0 <= x < |g| :: g[x].0 != i
    ensures Grouped(a + FieldKeys(own, i + "."), |a| + |own|) == Some(Begun(g, i, own))
  {
    hide *;
    FieldPairs(a, own, i);
    GroupPrefix(a, a + FieldKeys(own, i + "."), |a|);
    GroupOne(a + FieldKeys(own, i + "."), |a|, |own|, g, own, i);
    assert own[..|own|] == own;
  }

  lemma GroupNext(forms: seq<Dict<Json>>, n: nat)
    requires 0 < n <= |forms| && Unique(forms[n - 1])
    requires Grouped(FormPairs(forms, n - 1), |FormPairs(forms, n - 1)|) == Some(NonEmpty(forms, n - 1))
    ensures Grouped(FormPairs(forms, n), |FormPairs(forms, n)|) == Some(NonEmpty(forms, n))
  {
    hide Enter, Grouped, FieldKeys, Numeral;
    var own, i := forms[n - 1], Numeral(n - 1);
    NonEmptyBefore(forms, n - 1, n - 1);
    assert '.' !in i;
    GroupBehind(FormPairs(forms, n - 1), own, i, NonEmpty(forms, n - 1));
    assert |FormPairs(forms, n)| == |FormPairs(forms, n - 1)| + |own|;
  }

  lemma {:induction false} GroupAll(forms: seq<Dict<Json>>, n: nat)
    requires n <= |forms| && forall j | 0 <= j < |forms| :: Unique(forms[j])
    ensures Grouped(FormPairs(forms, n), |FormPairs(forms, n)|) == Some(NonEmpty(forms, n))
  {
    hide *;
    if n == 0 {
      GroupNone(forms);
    } else {
      assert Unique(forms[n - 1]);
      GroupAll(forms, n - 1);
      GroupNext(forms, n);
    }
  }

  lemma GroupNone(forms: seq<Dict<Json>>)
    ensures Grouped(FormPairs(forms, 0), |FormPairs(forms, 0)|) == Some(NonEmpty(forms, 0))
  {
  }

  // ---------------------------------------------------------------- Theorems

  /** parse_attr_list gives back the flattened forms of the elements of any list, strings and dictionaries
      nested to any depth, in order, without the empty ones. */
  lemma AttrListRoundTrip(fields: Dict<Json>, i: nat, name: string, draw: Draw, items: seq<Json>)
    requires Attribute(fields, i, name, draw) && fields[i].1 == List(items)
    ensures AttrList(Flat(Obj(fields), "", draw).value, name)
         == Some(Values(NonEmpty(Forms(items, name + ".", draw), |items|)))
  {
    var forms := Forms(items, name + ".", draw);
    FlatShowsOwn(fields, i, name, draw);
    OwnSucceeds(fields, |fields|, i, draw);
    assert fields[i] == (name, List(items));
    ListYields(items, name, draw);
    ItemsYield(items, |items|, name, draw);
    ItemsAssign(items, |items|, name + ".", draw);
    forall j | 0 <= j < |forms| ensures Unique(forms[j]) {
      FormsAreFlat(items, j, name + ".", draw);
    }
    GroupAll(forms, |items|);
  }

  lemma {:induction false} NonEmptyKeepsAll(forms: seq<Dict<Json>>, n: nat)
    requires n <= |forms|
    ensures |NonEmpty(forms, n)| <= n
    ensures |NonEmpty(forms, n)| == n <==> forall j | 0 <= j < n :: forms[j] != []
    ensures |NonEmpty(forms, n)| == n ==> forall j | 0 <= j < n :: NonEmpty(forms, n)[j].1 == forms[j]
  {
    if n > 0 {
      NonEmptyKeepsAll(forms, n - 1);
    }
  }

  /** Nothing is left of an element that is a dictionary of empty lists only. */
  predicate IsBlank(j: Json) {
    j.Obj? && forall k | 0 <= k < |j.fields| :: j.fields[k].1 == List([])
  }

  lemma EntryWritesNothing(entry: (string, Json), draw: Draw)
    requires EntryWrites(entry, "", draw).Some?
    ensures EntryWrites(entry, "", draw).value == [] <==> entry.1 == List([])
  {
    match entry
    case (key, List(items)) =>
    case (key, Obj(fields)) =>
    case (key, _) =>
  }

  lemma {:induction false} BlankWritesNothing(fields: Dict<Json>, n: nat, draw: Draw)
    requires n <= |fields| && FieldWrites(fields, n, "", draw).Some?
    ensures FieldWrites(fields, n, "", draw).value == [] <==> forall k | 0 <= k < n :: fields[k].1 == List([])
  {
    if n > 0 {
      BlankWritesNothing(fields, n - 1, draw);
      EntryWritesNothing(fields[n - 1], draw);
    }
  }

  lemma {:induction false} AssignedIsEmpty(w: Dict<Json>)
    ensures Assign([], w) == [] <==> w == []
  {
    if w != [] {
      var n := |w| - 1;
      AssignMore([], w[..n], w[n].0, w[n].1);
      assert w == w[..n] + [w[n]];
    }
  }

  /** Every element comes back if and only if none is blank. */
  lemma AttrListRoundTripExact(fields: Dict<Json>, i: nat, name: string, draw: Draw, items: seq<Json>)
    requires Attribute(fields, i, name, draw) && fields[i].1 == List(items)
    ensures AttrList(Flat(Obj(fields), "", draw).value, name) == Some(Forms(items, name + ".", draw))
       <==> forall j | 0 <= j < |items| :: !IsBlank(items[j])
  {
    var forms := Forms(items, name + ".", draw);
    AttrListRoundTrip(fields, i, name, draw, items);
    NonEmptyKeepsAll(forms, |items|);
    OwnSucceeds(fields, |fields|, i, draw);
    assert fields[i] == (name, List(items));
    ListYields(items, name, draw);
    forall j | 0 <= j < |items| ensures forms[j] == [] <==> IsBlank(items[j]) {
      FormIsEmpty(items, j, name, draw);
    }
    hide *;
    AllValues(NonEmpty(forms, |items|), forms);
  }

  lemma AllValues(d: Dict<Dict<Json>>, forms: seq<Dict<Json>>)
    ensures Values(d) == forms <==> |d| == |forms| && forall j | 0 <= j < |d| :: d[j].1 == forms[j]
  {
  }

  lemma FormIsEmpty(items: seq<Json>, j: nat, name: string, draw: Draw)
    requires j < |items| && ItemWrites(items, |items|, name + ".", draw).Some?
    ensures Form(items, j, name + ".", draw) == [] <==> IsBlank(items[j])
  {
    var path := name + "." + Numeral(j) + ".";
    ItemSucceeds(items, |items|, j, name + ".", draw);
    assert path + "" == path;
    WritesUnder(items[j], path, "", draw);
    AssignedIsEmpty(ItemWrite(items, j, name + ".", draw));
    if items[j].Obj? {
      BlankWritesNothing(items[j].fields, |items[j].fields|, Shift(draw, path));
    }
  }

  lemma {:induction false} ItemSucceeds(items: seq<Json>, n: nat, j: nat, path: string, draw: Draw)
    requires j < n <= |items| && ItemWrites(items, n, path, draw).Some?
    ensures Writes(items[j], path + Numeral(j) + ".", draw).Some?
  {
    if j < n - 1 {
      ItemSucceeds(items, n - 1, j, path, draw);
    }
  }

  // ---------------------------------------------------------------- Lists of flat dictionaries

  ghost predicate IsFlatObj(j: Json) {
    j.Obj? && Unique(j.fields) && forall k | 0 <= k < |j.fields| :: IsScalar(j.fields[k].1)
  }

  lemma {:induction false} FlatFieldWrites(fields: Dict<Json>, n: nat, prefix: string, draw: Draw)
    requires n <= |fields| && forall k | 0 <= k < |fields| :: IsScalar(fields[k].1)
    ensures FieldWrites(fields, n, prefix, draw) == Some(FieldKeys(fields, prefix)[..n])
  {
    if n > 0 {
      FlatFieldWrites(fields, n - 1, prefix, draw);
      assert EntryWrites(fields[n - 1], prefix, draw) == Some([(prefix + fields[n - 1].0, fields[n - 1].1)]);
      assert FieldKeys(fields, prefix)[..n] == FieldKeys(fields, prefix)[..n - 1] + [FieldKeys(fields, prefix)[n - 1]];
    }
  }

  function FieldsOf(j: Json): Dict<Json> {
    if j.Obj? then j.fields else []
  }

  lemma UnderNothing(d: Dict<Json>)
    ensures FieldKeys(d, "")[..|d|] == d
  {
    forall i | 0 <= i < |d| ensures "" + d[i].0 == d[i].0 {
    }
  }

  lemma FlatObjIsItsForm(items: seq<Json>, j: nat, path: string, draw: Draw)
    requires j < |items| && IsFlatObj(items[j])
    ensures Forms(items, path, draw)[j] == FieldsOf(items[j])
  {
    var own := items[j].fields;
    FlatFieldWrites(own, |own|, "", Shift(draw, path + Numeral(j) + "."));
    UnderNothing(own);
    assert ItemWrite(items, j, path, draw) == own;
    AssignFreshOnly(own);
  }

  /** `r` is the list of dictionaries itself. */
  ghost predicate IsWhole(r: Option<seq<Dict<Json>>>, items: seq<Json>) {
    r.Some? && |r.value| == |items| && forall j | 0 <= j < |items| :: r.value[j] == FieldsOf(items[j])
  }

  /** A list of flat dictionaries comes back whole exactly when none of them is empty. */
  lemma FlatListRoundTripExact(fields: Dict<Json>, i: nat, name: string, draw: Draw, items: seq<Json>)
    requires Attribute(fields, i, name, draw) && fields[i].1 == List(items)
    requires forall j | 0 <= j < |items| :: IsFlatObj(items[j])
    ensures IsWhole(AttrList(Flat(Obj(fields), "", draw).value, name), items)
       <==> forall j | 0 <= j < |items| :: FieldsOf(items[j]) != []
  {
    var forms := Forms(items, name + ".", draw);
    AttrListRoundTrip(fields, i, name, draw, items);
    NonEmptyKeepsAll(forms, |items|);
    forall j | 0 <= j < |items| ensures forms[j] == FieldsOf(items[j]) {
      FlatObjIsItsForm(items, j, name + ".", draw);
    }
  }
}
