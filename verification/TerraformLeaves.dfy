/** Flattening loses nothing: when no two leaves of a resource end up under one flat key. */
module TerraformLeaves {
  import opened Options
  import opened OrderedDict
  import opened Text
  import opened Terraform
  import opened TerraformRoundTrip

  // ---------------------------------------------------------------- Attributes of any depth

  /** A dictionary that the flattener descends into: distinct keys without dots. */
  ghost predicate Attributes(fields: Dict<Json>)
    decreases fields
  {
    Unique(fields) && forall i | 0 <= i < |fields| :: IsAttribute(fields[i])
  }

  /** Lists hold strings and dictionaries to descend into; other dictionaries are copied as they are. */
  ghost predicate IsAttribute(entry: (string, Json))
    decreases entry
  {
    '.' !in entry.0 &&
    match entry
    case (_, List(items)) => forall k | 0 <= k < |items| :: IsItem(items[k])
    case (_, Obj(own)) => Unique(own)
    case _ => true
  }

  ghost predicate IsItem(j: Json)
    decreases j
  {
    j.Str? || (j.Obj? && Attributes(j.fields))
  }

  /** No dictionary that is copied, at any depth, has an entry called "%", which would hide its count. */
  ghost predicate CountsShow(fields: Dict<Json>)
    decreases fields
  {
    forall i | 0 <= i < |fields| :: CountShows(fields[i])
  }

  ghost predicate CountShows(entry: (string, Json))
    decreases entry
  {
    match entry
    case (_, List(items)) => forall k | 0 <= k < |items| :: ItemCountsShow(items[k])
    case (_, Obj(own)) => !Has(own, "%")
    case _ => true
  }

  ghost predicate ItemCountsShow(j: Json)
    decreases j
  {
    j.Obj? ==> CountsShow(j.fields)
  }

  // ---------------------------------------------------------------- Keys of a concatenation

  ghost predicate Apart(a: seq<(string, Json)>, b: seq<(string, Json)>) {
    forall i, j | 0 <= i < |a| && 0 <= j < |b| :: a[i].0 != b[j].0
  }

  lemma UniqueConcat(a: seq<(string, Json)>, b: seq<(string, Json)>)
    ensures Unique(a + b) <==> Unique(a) && Unique(b) && Apart(a, b)
  {
    var w := a + b;
    if Unique(w) {
      forall i, j | 0 <= i < j < |a| ensures a[i].0 != a[j].0 { assert w[i] == a[i] && w[j] == a[j]; }
      forall i, j | 0 <= i < j < |b| ensures b[i].0 != b[j].0 { assert w[|a| + i] == b[i] && w[|a| + j] == b[j]; }
      forall i, j | 0 <= i < |a| && 0 <= j < |b| ensures a[i].0 != b[j].0 { assert w[i] == a[i] && w[|a| + j] == b[j]; }
    }
  }

  lemma SamePath(path: string, a: string, b: string)
    ensures path + a == path + b <==> a == b
  {
    assert (path + a)[|path|..] == a && (path + b)[|path|..] == b;
  }

  lemma FieldKeysUnique(fields: Dict<Json>, path: string)
    requires Unique(fields)
    ensures Unique(FieldKeys(fields, path))
  {
    var w := FieldKeys(fields, path);
    forall i, j | 0 <= i < j < |w| ensures w[i].0 != w[j].0 {
      SamePath(path, fields[i].0, fields[j].0);
    }
  }

  // ---------------------------------------------------------------- Below the elements of a list

  /** The key is below element `j` of the list at `path`. */
  ghost predicate Below(k: string, path: string, j: nat) {
    path + Numeral(j) + "." <= k
  }

  ghost predicate BelowSome(k: string, path: string, n: nat) {
    exists j: nat | j < n :: Below(k, path, j)
  }

  lemma AfterIndex(k: string, path: string, j: nat) returns (rest: string)
    requires Below(k, path, j)
    ensures |path| <= |k| && k[|path|..] == Numeral(j) + "." + rest
  {
    rest := k[|path + Numeral(j) + "."|..];
    assert k == path + Numeral(j) + "." + rest;
  }

  lemma BelowOne(k: string, path: string, i: nat, j: nat)
    requires Below(k, path, i) && Below(k, path, j)
    ensures i == j
  {
    var a := AfterIndex(k, path, i);
    var b := AfterIndex(k, path, j);
    if i != j {
      NumeralsDiffer(i, j, a, b);
    }
  }

  ghost predicate AllBelow(w: seq<(string, Json)>, path: string, n: nat) {
    forall p | 0 <= p < |w| :: BelowSome(w[p].0, path, n)
  }

  lemma HeaderIsApart(path: string, n: nat, k: string)
    requires Below(k, path, n)
    ensures k != path + "#"
  {
    var rest := AfterIndex(k, path, n);
    assert k[|path|..][0] == Numeral(n)[0];
  }

  lemma BelowIsNew(a: seq<(string, Json)>, b: seq<(string, Json)>, path: string, n: nat)
    requires AllBelow(a, path, n)
    requires KeysExtend(b, path + Numeral(n) + ".")
    ensures Apart(a, b)
    ensures AllBelow(a + b, path, n + 1)
  {
    forall p, q | 0 <= p < |a| && 0 <= q < |b| ensures a[p].0 != b[q].0 {
      assert BelowSome(a[p].0, path, n);
      var j: nat :| j < n && Below(a[p].0, path, j);
      if a[p].0 == b[q].0 {
        BelowOne(a[p].0, path, j, n);
      }
    }
    forall p | 0 <= p < |a + b| ensures BelowSome((a + b)[p].0, path, n + 1) {
      if p < |a| {
        assert BelowSome(a[p].0, path, n);
      var j: nat :| j < n && Below(a[p].0, path, j);
        assert Below((a + b)[p].0, path, j);
      } else {
        assert Below(b[p - |a|].0, path, n);
      }
    }
  }

  // ---------------------------------------------------------------- Below the keys of a dictionary

  lemma OneRoot(k: string, prefix: string, a: string, b: string)
    requires '.' !in a && '.' !in b && RootedAt(k, prefix + a) && RootedAt(k, prefix + b)
    ensures a == b
  {
    RootFirst(k, prefix, a);
    RootFirst(k, prefix, b);
  }

  lemma RootFirst(k: string, prefix: string, a: string)
    requires '.' !in a && RootedAt(k, prefix + a)
    ensures |prefix| <= |k|
    ensures var rest := k[|prefix|..]; a == match SplitOnce(rest, '.') case None => rest case Some((head, _)) => head
  {
    var rest := k[|prefix|..];
    if k == prefix + a {
      assert rest == a && SplitOnce(rest, '.').None?;
    } else {
      assert prefix + a + "." <= k;
      assert rest == a + ['.'] + rest[|a| + 1..];
      SplitAtFirst(a, rest[|a| + 1..], '.');
    }
  }

  /** The key is rooted at one of the first `n` keys of the dictionary. */
  ghost predicate RootedInSome(k: string, prefix: string, fields: Dict<Json>, n: nat)
    requires n <= |fields|
  {
    exists i | 0 <= i < n :: RootedAt(k, prefix + fields[i].0)
  }

  ghost predicate AllRooted(w: seq<(string, Json)>, prefix: string, fields: Dict<Json>, n: nat)
    requires n <= |fields|
  {
    forall p | 0 <= p < |w| :: RootedInSome(w[p].0, prefix, fields, n)
  }

  lemma RootIsNew(a: seq<(string, Json)>, b: seq<(string, Json)>, prefix: string, fields: Dict<Json>, n: nat)
    requires n < |fields| && Unique(fields) && forall i | 0 <= i < |fields| :: '.' !in fields[i].0
    requires AllRooted(a, prefix, fields, n)
    requires forall q | 0 <= q < |b| :: RootedAt(b[q].0, prefix + fields[n].0)
    ensures Apart(a, b)
    ensures AllRooted(a + b, prefix, fields, n + 1)
  {
    forall p, q | 0 <= p < |a| && 0 <= q < |b| ensures a[p].0 != b[q].0 {
      assert RootedInSome(a[p].0, prefix, fields, n);
      var i :| 0 <= i < n && RootedAt(a[p].0, prefix + fields[i].0);
      if a[p].0 == b[q].0 {
        OneRoot(a[p].0, prefix, fields[i].0, fields[n].0);
      }
    }
    forall p | 0 <= p < |a + b| ensures RootedInSome((a + b)[p].0, prefix, fields, n + 1) {
      if p < |a| {
        assert RootedInSome(a[p].0, prefix, fields, n);
        var i :| 0 <= i < n && RootedAt(a[p].0, prefix + fields[i].0);
        assert RootedAt((a + b)[p].0, prefix + fields[i].0);
      } else {
        assert RootedAt((a + b)[p].0, prefix + fields[n].0);
      }
    }
  }

  // ---------------------------------------------------------------- Down the tree

  /** The assignments succeed, and no two go to the same key exactly if `shows` holds. */
  ghost predicate Separate(w: Option<seq<(string, Json)>>, shows: bool) {
    w.Some? && (Unique(w.value) <==> shows)
  }

  lemma {:induction false} WritesSeparate(j: Json, prefix: string, draw: Draw)
    requires IsItem(j)
    ensures Separate(Writes(j, prefix, draw), ItemCountsShow(j))
    decreases j, 0
  {
    match j
    case Str(_) =>
    case Obj(fields) => FieldsSeparate(fields, |fields|, prefix, draw);
    case _ =>
  }

  lemma {:induction false} FieldsSeparate(fields: Dict<Json>, n: nat, prefix: string, draw: Draw)
    requires n <= |fields| && Attributes(fields)
    ensures Separate(FieldWrites(fields, n, prefix, draw), forall i | 0 <= i < n :: CountShows(fields[i]))
    ensures AllRooted(FieldWrites(fields, n, prefix, draw).value, prefix, fields, n)
    decreases fields, n
  {
    hide *;
    if n == 0 {
      NoFieldsSeparate(fields, prefix, draw);
    } else {
      AttributeAt(fields, n - 1);
      FieldsSeparate(fields, n - 1, prefix, draw);
      EntrySeparate(fields[n - 1], prefix, draw);
      var earlier := forall i | 0 <= i < n - 1 :: CountShows(fields[i]);
      FieldsNext(fields, n - 1, prefix, draw, earlier, CountShows(fields[n - 1]));
      assert (forall i | 0 <= i < n :: CountShows(fields[i])) == (earlier && CountShows(fields[n - 1]));
    }
  }

  lemma AttributeAt(fields: Dict<Json>, i: nat)
    requires i < |fields| && Attributes(fields)
    ensures IsAttribute(fields[i])
  {
  }

  lemma NoFieldsSeparate(fields: Dict<Json>, prefix: string, draw: Draw)
    ensures Separate(FieldWrites(fields, 0, prefix, draw), true)
    ensures AllRooted(FieldWrites(fields, 0, prefix, draw).value, prefix, fields, 0)
  {
  }

  /** One more key of the dictionary. */
  lemma FieldsNext(fields: Dict<Json>, n: nat, prefix: string, draw: Draw, earlier: bool, last: bool)
    requires n < |fields| && Attributes(fields)
    requires Separate(FieldWrites(fields, n, prefix, draw), earlier)
    requires Separate(EntryWrites(fields[n], prefix, draw), last)
    requires AllRooted(FieldWrites(fields, n, prefix, draw).value, prefix, fields, n)
    ensures Separate(FieldWrites(fields, n + 1, prefix, draw), earlier && last)
    ensures AllRooted(FieldWrites(fields, n + 1, prefix, draw).value, prefix, fields, n + 1)
  {
    EntryWritesExtend(fields[n], prefix, draw);
    assert forall i | 0 <= i < |fields| :: IsAttribute(fields[i]) ==> '.' !in fields[i].0;
    hide EntryWrites, IsAttribute;
    var a, b := FieldWrites(fields, n, prefix, draw).value, EntryWrites(fields[n], prefix, draw).value;
    RootIsNew(a, b, prefix, fields, n);
    UniqueConcat(a, b);
  }

  lemma {:induction false} EntrySeparate(entry: (string, Json), prefix: string, draw: Draw)
    requires IsAttribute(entry)
    ensures Separate(EntryWrites(entry, prefix, draw), CountShows(entry))
    decreases entry, 1
  {
    match entry
    case (key, List(items)) =>
      ItemsSeparate(items, |items|, prefix + key + ".", draw);
      HeaderSeparate(items, prefix + key, draw);
    case (key, Obj(own)) => DictSeparate(key, own, prefix, draw);
    case _ =>
  }

  lemma {:induction false} ItemsSeparate(items: seq<Json>, n: nat, path: string, draw: Draw)
    requires n <= |items| && forall k | 0 <= k < |items| :: IsItem(items[k])
    ensures Separate(ItemWrites(items, n, path, draw), forall k | 0 <= k < n :: ItemCountsShow(items[k]))
    ensures AllBelow(ItemWrites(items, n, path, draw).value, path, n)
    decreases items, n
  {
    if n > 0 {
      ItemsSeparate(items, n - 1, path, draw);
      WritesSeparate(items[n - 1], path + Numeral(n - 1) + ".", draw);
      WritesExtend(items[n - 1], path + Numeral(n - 1) + ".", draw);
      var a := ItemWrites(items, n - 1, path, draw).value;
      var b := Writes(items[n - 1], path + Numeral(n - 1) + ".", draw).value;
      BelowIsNew(a, b, path, n - 1);
      UniqueConcat(a, b);
    }
  }

  lemma HeaderSeparate(items: seq<Json>, name: string, draw: Draw)
    requires ItemWrites(items, |items|, name + ".", draw).Some?
    requires AllBelow(ItemWrites(items, |items|, name + ".", draw).value, name + ".", |items|)
    ensures var w := ItemWrites(items, |items|, name + ".", draw).value;
            Unique([(name + ".#", Num(|items|))] + w) <==> Unique(w)
  {
    var w := ItemWrites(items, |items|, name + ".", draw).value;
    assert name + ".#" == name + "." + "#";
    forall p | 0 <= p < |w| ensures w[p].0 != name + ".#" {
      assert BelowSome(w[p].0, name + ".", |items|);
      var j: nat :| j < |items| && Below(w[p].0, name + ".", j);
      HeaderIsApart(name + ".", j, w[p].0);
    }
    UniqueConcat([(name + ".#", Num(|items|))], w);
  }

  lemma DictSeparate(key: string, own: Dict<Json>, prefix: string, draw: Draw)
    requires Unique(own)
    ensures Unique(EntryWrites((key, Obj(own)), prefix, draw).value) <==> !Has(own, "%")
  {
    var path := prefix + key + ".";
    assert path + "%" == prefix + key + ".%";
    var count, w := [(path + "%", Num(|own|))], FieldKeys(own, path);
    FieldKeysUnique(own, path);
    UniqueConcat(count, w);
    forall i | 0 <= i < |own| ensures w[i].0 == count[0].0 <==> own[i].0 == "%" {
      SamePath(path, own[i].0, "%");
    }
    if Has(own, "%") {
      var i :| 0 <= i < |own| && own[i].0 == "%";
      assert w[i].0 == count[0].0;
    }
  }

  /** For attributes nested to any depth: no leaf and no count overwrites another (the flat dictionary
      is exactly the sequence of all assignments) if and only if no dictionary that is copied, at any
      depth, has an entry called "%". */
  lemma NothingIsOverwritten(fields: Dict<Json>, draw: Draw)
    requires Attributes(fields)
    ensures Writes(Obj(fields), "", draw).Some?
    ensures Flat(Obj(fields), "", draw) == Writes(Obj(fields), "", draw) <==> CountsShow(fields)
  {
    WritesSeparate(Obj(fields), "", draw);
    var w := Writes(Obj(fields), "", draw).value;
    AssignUnique([], w);
    if Unique(w) {
      AssignFreshOnly(w);
    }
  }
}
