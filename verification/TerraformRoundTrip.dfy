/** Flattening attributes and parsing one of them back. */
module TerraformRoundTrip {
  import opened Options
  import opened OrderedDict
  import opened Text
  import opened Terraform
  import opened TerraformParse

  // ---------------------------------------------------------------- Where the flat keys lie

  ghost predicate KeysExtend(w: seq<(string, Json)>, p: string) {
    forall i | 0 <= i < |w| :: p <= w[i].0
  }

  lemma {:induction false} WritesExtend(j: Json, prefix: string, draw: Draw)
    requires Writes(j, prefix, draw).Some?
    ensures KeysExtend(Writes(j, prefix, draw).value, prefix)
    decreases j, 0
  {
    match j
    case Str(_) =>
    case Obj(fields) => FieldWritesExtend(fields, |fields|, prefix, draw);
    case _ =>
  }

  lemma {:induction false} FieldWritesExtend(fields: Dict<Json>, n: nat, prefix: string, draw: Draw)
    requires n <= |fields| && FieldWrites(fields, n, prefix, draw).Some?
    ensures KeysExtend(FieldWrites(fields, n, prefix, draw).value, prefix)
    decreases fields, n
  {
    if n > 0 {
      FieldWritesExtend(fields, n - 1, prefix, draw);
      EntryWritesExtend(fields[n - 1], prefix, draw);
    }
  }

  lemma {:induction false} ItemWritesExtend(items: seq<Json>, n: nat, path: string, draw: Draw)
    requires n <= |items| && ItemWrites(items, n, path, draw).Some?
    ensures KeysExtend(ItemWrites(items, n, path, draw).value, path)
    decreases items, n
  {
    if n > 0 {
      ItemWritesExtend(items, n - 1, path, draw);
      WritesExtend(items[n - 1], path + Numeral(n - 1) + ".", draw);
      PrefixTransitive(Writes(items[n - 1], path + Numeral(n - 1) + ".", draw).value, path, Numeral(n - 1) + ".");
    }
  }

  lemma PrefixTransitive(w: seq<(string, Json)>, p: string, q: string)
    requires KeysExtend(w, p + q)
    ensures KeysExtend(w, p)
  {
    forall i | 0 <= i < |w| ensures p <= w[i].0 {
      assert p + q <= w[i].0;
    }
  }

  /** `k` is the top-level key itself, or a path that starts with it. */
  ghost predicate RootedAt(k: string, key: string) {
    k == key || key + "." <= k
  }

  lemma {:induction false} EntryWritesExtend(entry: (string, Json), prefix: string, draw: Draw)
    requires EntryWrites(entry, prefix, draw).Some?
    ensures KeysExtend(EntryWrites(entry, prefix, draw).value, prefix)
    ensures forall i | 0 <= i < |EntryWrites(entry, prefix, draw).value| ::
              RootedAt(EntryWrites(entry, prefix, draw).value[i].0, prefix + entry.0)
    decreases entry, 1
  {
    match entry
    case (key, List(items)) =>
      ItemWritesExtend(items, |items|, prefix + key + ".", draw);
      var w := ItemWrites(items, |items|, prefix + key + ".", draw).value;
      PrefixTransitive(w, prefix, key + ".") by {
        assert prefix + (key + ".") == prefix + key + ".";
      }
    case (key, Obj(fields)) =>
    case (key, _) =>
  }

  /** A path below another dot-free top-level key is not picked up. */
  lemma ForeignKey(e: (string, Json), key: string, name: string)
    requires '.' !in key && key != name && RootedAt(e.0, key)
    ensures Yield(e, name) == []
  {
    if e.0 == key {
      assert SplitOnce(e.0, '.').None?;
    } else {
      assert e.0 == key + ['.'] + e.0[|key| + 1..];
      SplitAtFirst(key, e.0[|key| + 1..], '.');
    }
  }

  lemma {:induction false} NothingYielded(w: seq<(string, Json)>, name: string)
    requires forall i | 0 <= i < |w| :: Yield(w[i], name) == []
    ensures ParsePrefix(w, name) == []
  {
    if w != [] {
      NothingYielded(w[1..], name);
    }
  }

  /** Entry `i` of the attributes is called `name`; top-level keys are distinct and have no dots. */
  ghost predicate Attribute(fields: Dict<Json>, i: nat, name: string, draw: Draw) {
    && Unique(fields) && (forall j | 0 <= j < |fields| :: '.' !in fields[j].0)
    && i < |fields| && fields[i].0 == name
    && Writes(Obj(fields), "", draw).Some?
  }

  function Own(fields: Dict<Json>, i: nat, draw: Draw): seq<(string, Json)>
    requires i < |fields|
  {
    match EntryWrites(fields[i], "", draw) case Some(w) => w case None => []
  }

  lemma ForeignEntry(fields: Dict<Json>, n: nat, i: nat, name: string, draw: Draw)
    requires Attribute(fields, i, name, draw) && n < |fields| && n != i && EntryWrites(fields[n], "", draw).Some?
    ensures ParsePrefix(Own(fields, n, draw), name) == []
  {
    var w := EntryWrites(fields[n], "", draw).value;
    EntryWritesExtend(fields[n], "", draw);
    assert "" + fields[n].0 == fields[n].0;
    forall j | 0 <= j < |w| ensures Yield(w[j], name) == [] {
      ForeignKey(w[j], fields[n].0, name);
    }
    NothingYielded(w, name);
  }

  lemma {:induction false} OnlyOwnEntry(fields: Dict<Json>, n: nat, i: nat, name: string, draw: Draw)
    requires Attribute(fields, i, name, draw) && n <= |fields| && FieldWrites(fields, n, "", draw).Some?
    ensures ParsePrefix(FieldWrites(fields, n, "", draw).value, name)
         == if i < n then ParsePrefix(Own(fields, i, draw), name) else []
  {
    if n > 0 {
      hide Attribute, Writes;
      OnlyOwnEntry(fields, n - 1, i, name, draw);
      ParseConcat(FieldWrites(fields, n - 1, "", draw).value, Own(fields, n - 1, draw), name);
      if n - 1 != i {
        ForeignEntry(fields, n - 1, i, name, draw);
      }
    }
  }

  /** What the parsers see of an attribute: the assignments made for it, and nothing else. */
  lemma FlatShowsOwn(fields: Dict<Json>, i: nat, name: string, draw: Draw)
    requires Attribute(fields, i, name, draw)
    ensures ParsePrefix(Flat(Obj(fields), "", draw).value, name) == Assign([], ParsePrefix(Own(fields, i, draw), name))
  {
    OnlyOwnEntry(fields, |fields|, i, name, draw);
    ParseAssign([], FieldWrites(fields, |fields|, "", draw).value, name);
  }

  // ---------------------------------------------------------------- Lists of strings

  /** What is yielded for a list of strings. */
  function StringPairs(items: seq<Json>, n: nat, path: string, draw: Draw): seq<(string, Json)>
    requires n <= |items|
  {
    if n == 0 then []
    else
      var key := Numeral(n - 1) + "." + Numeral(draw(path + Numeral(n - 1) + "."));
      StringPairs(items, n - 1, path, draw) + [(key, items[n - 1])]
  }

  lemma UnderYields(name: string, rest: string, v: Json)
    requires '.' !in name && rest != "#"
    ensures Yield((name + "." + rest, v), name) == [(rest, v)]
  {
    SplitAtFirst(name, rest, '.');
  }

  lemma HasDot(a: string, b: string)
    ensures a + "." + b != "#"
  {
    assert '.' in a + "." + b by {
      assert (a + "." + b)[|a|] == '.';
    }
  }

  lemma {:induction false} StringsYield(items: seq<Json>, n: nat, name: string, draw: Draw)
    requires n <= |items| && '.' !in name && forall j | 0 <= j < |items| :: items[j].Str?
    ensures ItemWrites(items, n, name + ".", draw).Some?
    ensures ParsePrefix(ItemWrites(items, n, name + ".", draw).value, name) == StringPairs(items, n, name + ".", draw)
  {
    if n > 0 {
      StringsYield(items, n - 1, name, draw);
      var i, drawn := Numeral(n - 1), Numeral(draw(name + "." + Numeral(n - 1) + "."));
      var last := (name + "." + i + "." + drawn, items[n - 1]);
      ParseConcat(ItemWrites(items, n - 1, name + ".", draw).value, [last], name);
      ParseOne(last, name);
      UnderYieldsPath(name, i, drawn, items[n - 1]);
    }
  }

  lemma UnderYieldsPath(name: string, i: string, k: string, v: Json)
    requires '.' !in name
    ensures Yield((name + "." + i + "." + k, v), name) == [(i + "." + k, v)]
  {
    HasDot(i, k);
    UnderYields(name, i + "." + k, v);
    assert name + "." + i + "." + k == name + "." + (i + "." + k);
  }

  lemma NumeralsDiffer(i: nat, j: nat, a: string, b: string)
    requires i != j
    ensures Numeral(i) + "." + a != Numeral(j) + "." + b
  {
    SplitAtFirst(Numeral(i), a, '.');
    SplitAtFirst(Numeral(j), b, '.');
    if Numeral(i) == Numeral(j) {
      NumeralInjective(i, j);
    }
  }

  lemma {:induction false} StringPairsAre(items: seq<Json>, n: nat, path: string, draw: Draw)
    requires n <= |items|
    ensures |StringPairs(items, n, path, draw)| == n
    ensures forall j | 0 <= j < n :: StringPairs(items, n, path, draw)[j]
              == (Numeral(j) + "." + Numeral(draw(path + Numeral(j) + ".")), items[j])
  {
    if n > 0 {
      StringPairsAre(items, n - 1, path, draw);
    }
  }

  lemma StringPairsUnique(items: seq<Json>, path: string, draw: Draw)
    ensures Unique(StringPairs(items, |items|, path, draw))
  {
    StringPairsAre(items, |items|, path, draw);
    var w := StringPairs(items, |items|, path, draw);
    forall i, j | 0 <= i < j < |w| ensures w[i].0 != w[j].0 {
      NumeralsDiffer(i, j, Numeral(draw(path + Numeral(i) + ".")), Numeral(draw(path + Numeral(j) + ".")));
    }
  }

  /** A count header is not yielded. */
  lemma HeaderYields(name: string, v: Json)
    requires '.' !in name
    ensures Yield((name + ".#", v), name) == []
  {
    assert name + ".#" == name + ['.'] + "#";
    SplitAtFirst(name, "#", '.');
  }

  lemma ListYields(items: seq<Json>, name: string, draw: Draw)
    requires '.' !in name && EntryWrites((name, List(items)), "", draw).Some?
    ensures ItemWrites(items, |items|, name + ".", draw).Some?
    ensures ParsePrefix(EntryWrites((name, List(items)), "", draw).value, name)
         == ParsePrefix(ItemWrites(items, |items|, name + ".", draw).value, name)
  {
    assert "" + name == name;
    if items != [] {
      var header := (name + ".#", Num(|items|));
      ParseConcat([header], ItemWrites(items, |items|, name + ".", draw).value, name);
      ParseOne(header, name);
      HeaderYields(name, Num(|items|));
    }
  }

  /** parse_list gives back a list of strings, in order. */
  lemma ListRoundTrip(fields: Dict<Json>, i: nat, name: string, draw: Draw, items: seq<Json>)
    requires Attribute(fields, i, name, draw) && fields[i].1 == List(items)
    requires forall j | 0 <= j < |items| :: items[j].Str?
    ensures ParseList(Flat(Obj(fields), "", draw).value, name) == items
  {
    FlatShowsOwn(fields, i, name, draw);
    OwnSucceeds(fields, |fields|, i, draw);
    assert fields[i] == (name, List(items));
    ListYields(items, name, draw);
    StringsYield(items, |items|, name, draw);
    StringPairsUnique(items, name + ".", draw);
    StringPairsAre(items, |items|, name + ".", draw);
    AssignFreshOnly(StringPairs(items, |items|, name + ".", draw));
  }

  lemma AssignFreshOnly(w: Dict<Json>)
    requires Unique(w)
    ensures Assign([], w) == w
  {
    assert [] + w == w;
    AssignFresh([], w);
  }

  lemma {:induction false} OwnSucceeds(fields: Dict<Json>, n: nat, i: nat, draw: Draw)
    requires i < n <= |fields| && FieldWrites(fields, n, "", draw).Some?
    ensures EntryWrites(fields[i], "", draw).Some?
  {
    if i < n - 1 {
      OwnSucceeds(fields, n - 1, i, draw);
    }
  }

  // ---------------------------------------------------------------- Dictionaries

  /** The entries of a dictionary that parse_dict can see. */
  function Visible(fields: Dict<Json>): Dict<Json> {
    if fields == [] then []
    else (if fields[0].0 == "#" then [] else [fields[0]]) + Visible(fields[1..])
  }

  lemma FieldKeysCons(fields: Dict<Json>, path: string)
    requires fields != []
    ensures FieldKeys(fields, path) == [(path + fields[0].0, fields[0].1)] + FieldKeys(fields[1..], path)
  {
  }

  lemma ParseCons(e: (string, Json), tail: seq<(string, Json)>, name: string)
    ensures ParsePrefix([e] + tail, name) == Yield(e, name) + ParsePrefix(tail, name)
  {
    assert ([e] + tail)[1..] == tail;
  }

  lemma EntryYields(name: string, k: string, v: Json)
    requires '.' !in name
    ensures Yield((name + "." + k, v), name) == if k == "#" then [] else [(k, v)]
  {
    if k == "#" {
      assert name + "." + k == name + ".#";
      HeaderYields(name, v);
    } else {
      UnderYields(name, k, v);
    }
  }

  lemma {:induction false} FieldsYield(fields: Dict<Json>, name: string)
    requires '.' !in name
    ensures ParsePrefix(FieldKeys(fields, name + "."), name) == Visible(fields)
  {
    if fields != [] {
      var path := name + ".";
      FieldKeysCons(fields, path);
      ParseCons((path + fields[0].0, fields[0].1), FieldKeys(fields[1..], path), name);
      EntryYields(name, fields[0].0, fields[0].1);
      FieldsYield(fields[1..], name);
    }
  }

  lemma FindCons(e: (string, Json), d: Dict<Json>, x: string)
    ensures Find([e] + d, x) == if e.0 == x then Some(e.1) else Find(d, x)
  {
    assert ([e] + d)[1..] == d;
  }

  lemma {:induction false} FindVisible(fields: Dict<Json>, x: string)
    ensures Find(Visible(fields), x) == if x == "#" then None else Find(fields, x)
  {
    if fields != [] {
      FindVisible(fields[1..], x);
      if fields[0].0 == "#" {
        assert [] + Visible(fields[1..]) == Visible(fields[1..]);
      } else {
        FindCons(fields[0], Visible(fields[1..]), x);
      }
    }
  }

  lemma {:induction false} FindAssign(d: Dict<Json>, w: Dict<Json>, x: string)
    requires Unique(w)
    ensures Find(Assign(d, w), x) == if Find(w, x).Some? then Find(w, x) else Find(d, x)
  {
    if w != [] {
      var n := |w| - 1;
      FindAssign(d, w[..n], x);
      FindPut(Assign(d, w[..n]), w[n].0, w[n].1, x);
      FindSnoc(w[..n], w[n], x);
      assert w == w[..n] + [w[n]];
    }
  }

  lemma {:induction false} FindSnoc(w: Dict<Json>, e: (string, Json), x: string)
    requires forall i | 0 <= i < |w| :: w[i].0 != e.0
    ensures Find(w + [e], x) == if x == e.0 then Some(e.1) else Find(w, x)
  {
    if w != [] {
      FindSnoc(w[1..], e, x);
      assert (w + [e])[1..] == w[1..] + [e];
    }
  }

  lemma {:induction false} VisibleUnique(fields: Dict<Json>)
    requires Unique(fields)
    ensures Unique(Visible(fields)) && Keys(Visible(fields)) <= Keys(fields)
  {
    if fields != [] {
      var rest := Visible(fields[1..]);
      UniqueCons(fields[0], fields[1..]);
      assert fields == [fields[0]] + fields[1..];
      VisibleUnique(fields[1..]);
      if fields[0].0 == "#" {
        assert Visible(fields) == rest;
      } else {
        assert Visible(fields) == [fields[0]] + rest;
        hide *;
        UniqueCons(fields[0], rest);
      }
    }
  }

  lemma DictYields(own: Dict<Json>, name: string, draw: Draw)
    requires '.' !in name
    ensures var w := EntryWrites((name, Obj(own)), "", draw);
            w.Some? && ParsePrefix(w.value, name) == [("%", Num(|own|))] + Visible(own)
  {
    assert "" + name == name && name + ".%" == name + "." + "%";
    var count := (name + ".%", Num(|own|));
    ParseCons(count, FieldKeys(own, name + "."), name);
    UnderYields(name, "%", Num(|own|));
    FieldsYield(own, name);
  }

  lemma FindParsed(own: Dict<Json>, count: Json, x: string)
    requires Unique(own)
    ensures Find(Assign([], [("%", count)] + Visible(own)), x) == Parsed(own, count, x)
  {
    AssignConcat([], [("%", count)], Visible(own));
    AssignOne([], "%", count);
    VisibleUnique(own);
    FindAssign([("%", count)], Visible(own), x);
    FindVisible(own, x);
    assert Find([("%", count)], x) == if x == "%" then Some(count) else None;
  }

  /** What parse_dict shows under `x`, `count` being the number of entries: nothing under "#", the
      count under "%" unless the dictionary has an entry of that name, every other entry as it was. */
  function Parsed(own: Dict<Json>, count: Json, x: string): Option<Json> {
    if x == "#" then None
    else if x == "%" && Find(own, x).None? then Some(count)
    else Find(own, x)
  }

  lemma DictRoundTrip(fields: Dict<Json>, i: nat, name: string, draw: Draw, own: Dict<Json>, x: string)
    requires Attribute(fields, i, name, draw) && fields[i].1 == Obj(own) && Unique(own)
    ensures Find(ParseDict(Flat(Obj(fields), "", draw).value, name), x) == Parsed(own, Num(|own|), x)
  {
    FlatShowsOwn(fields, i, name, draw);
    assert fields[i] == (name, Obj(own));
    DictYields(own, name, draw);
    UpdateIsAssign([], [("%", Num(|own|))] + Visible(own));
    FindParsed(own, Num(|own|), x);
  }

  /** `d` is `own` plus only the count. */
  ghost predicate IsWithCount(d: Dict<Json>, own: Dict<Json>, count: Json) {
    forall x :: Find(d, x) == if x == "%" then Some(count) else Find(own, x)
  }

  /** parse_dict returns the original dictionary plus only the count exactly when no entry is called
      "#" and none called "%" contradicts the count. */
  lemma DictRoundTripExact(fields: Dict<Json>, i: nat, name: string, draw: Draw, own: Dict<Json>)
    requires Attribute(fields, i, name, draw) && fields[i].1 == Obj(own) && Unique(own)
    ensures IsWithCount(ParseDict(Flat(Obj(fields), "", draw).value, name), own, Num(|own|))
       <==> !Has(own, "#") && (Has(own, "%") ==> Find(own, "%") == Some(Num(|own|)))
  {
    var parsed := ParseDict(Flat(Obj(fields), "", draw).value, name);
    forall x ensures Find(parsed, x) == Parsed(own, Num(|own|), x) {
      DictRoundTrip(fields, i, name, draw, own, x);
    }
    WithCountExactly(parsed, own, Num(|own|));
  }

  lemma WithCountExactly(d: Dict<Json>, own: Dict<Json>, count: Json)
    requires forall x :: Find(d, x) == Parsed(own, count, x)
    ensures IsWithCount(d, own, count) <==> !Has(own, "#") && (Has(own, "%") ==> Find(own, "%") == Some(count))
  {
    assert "#" != "%";
    assert Find(d, "#") == None && Find(d, "%") == Parsed(own, count, "%");
  }
}
