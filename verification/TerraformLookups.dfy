/** What is found in flattened attributes under each key, and when flattening fails. */
module TerraformLookups {
  import opened Options
  import opened OrderedDict
  import opened Text
  import opened Terraform
  import opened TerraformParse
  import opened TerraformRoundTrip
  import opened TerraformLeaves
  import opened TerraformAttrLists

  // ---------------------------------------------------------------- When it succeeds

  /** Lists hold strings and dictionaries, at every depth that the flattener descends into. */
  ghost predicate Convertible(j: Json)
    decreases j, 0
  {
    j.Str? || (j.Obj? && forall i | 0 <= i < |j.fields| :: ConvertibleEntry(j.fields[i]))
  }

  ghost predicate ConvertibleEntry(entry: (string, Json))
    decreases entry, 1
  {
    match entry
    case (_, List(items)) => forall k | 0 <= k < |items| :: Convertible(items[k])
    case _ => true
  }

  /** Flattening raises its exception exactly on an element that is neither a string nor a dictionary. */
  lemma {:induction false} SucceedsExactly(j: Json, prefix: string, draw: Draw)
    ensures Writes(j, prefix, draw).Some? <==> Convertible(j)
    decreases j, 0
  {
    match j
    case Str(_) =>
    case Obj(fields) => FieldsSucceedExactly(fields, |fields|, prefix, draw);
    case _ =>
  }

  lemma {:induction false} FieldsSucceedExactly(fields: Dict<Json>, n: nat, prefix: string, draw: Draw)
    requires n <= |fields|
    ensures FieldWrites(fields, n, prefix, draw).Some? <==> forall i | 0 <= i < n :: ConvertibleEntry(fields[i])
    decreases fields, n
  {
    if n > 0 {
      FieldsSucceedExactly(fields, n - 1, prefix, draw);
      EntrySucceedsExactly(fields[n - 1], prefix, draw);
    }
  }

  lemma {:induction false} EntrySucceedsExactly(entry: (string, Json), prefix: string, draw: Draw)
    ensures EntryWrites(entry, prefix, draw).Some? <==> ConvertibleEntry(entry)
    decreases entry, 1
  {
    match entry
    case (key, List(items)) => ItemsSucceedExactly(items, |items|, prefix + key + ".", draw);
    case _ =>
  }

  lemma {:induction false} ItemsSucceedExactly(items: seq<Json>, n: nat, path: string, draw: Draw)
    requires n <= |items|
    ensures ItemWrites(items, n, path, draw).Some? <==> forall k | 0 <= k < n :: Convertible(items[k])
    decreases items, n
  {
    if n > 0 {
      ItemsSucceedExactly(items, n - 1, path, draw);
      SucceedsExactly(items[n - 1], path + Numeral(n - 1) + ".", draw);
    }
  }

  // ---------------------------------------------------------------- Which attribute a key belongs to

  ghost predicate NotIn(w: seq<(string, Json)>, k: string) {
    forall i | 0 <= i < |w| :: w[i].0 != k
  }

  lemma {:induction false} FindUnassigned(d: Dict<Json>, w: seq<(string, Json)>, k: string)
    requires NotIn(w, k)
    ensures Find(Assign(d, w), k) == Find(d, k)
  {
    if w != [] {
      var n := |w| - 1;
      assert NotIn(w[..n], k);
      FindUnassigned(d, w[..n], k);
      FindPut(Assign(d, w[..n]), w[n].0, w[n].1, k);
    }
  }

  lemma {:induction false} FindAssignedFrom(d: Dict<Json>, w: seq<(string, Json)>, k: string)
    requires Find(d, k) == None
    ensures Find(Assign(d, w), k) == Find(Assign([], w), k)
  {
    if w != [] {
      var n := |w| - 1;
      FindAssignedFrom(d, w[..n], k);
      FindPut(Assign(d, w[..n]), w[n].0, w[n].1, k);
      FindPut(Assign([], w[..n]), w[n].0, w[n].1, k);
    }
  }

  lemma EntryElsewhere(entry: (string, Json), draw: Draw, k: string)
    requires EntryWrites(entry, "", draw).Some? && !RootedAt(k, entry.0)
    ensures NotIn(EntryWrites(entry, "", draw).value, k)
  {
    EntryWritesExtend(entry, "", draw);
    assert "" + entry.0 == entry.0;
  }

  lemma RootedOnce(k: string, a: string, b: string)
    requires '.' !in a && '.' !in b && RootedAt(k, a) && RootedAt(k, b)
    ensures a == b
  {
    assert "" + a == a && "" + b == b;
    OneRoot(k, "", a, b);
  }

  lemma {:induction false} OwnLookupUpTo(fields: Dict<Json>, n: nat, i: nat, name: string, draw: Draw, k: string)
    requires Attribute(fields, i, name, draw) && RootedAt(k, name)
    requires n <= |fields| && FieldWrites(fields, n, "", draw).Some?
    ensures Find(Assign([], FieldWrites(fields, n, "", draw).value), k)
         == if i < n then Find(Assign([], Own(fields, i, draw)), k) else None
  {
    if n > 0 {
      OwnLookupUpTo(fields, n - 1, i, name, draw, k);
      var before, own := FieldWrites(fields, n - 1, "", draw).value, EntryWrites(fields[n - 1], "", draw).value;
      AssignConcat([], before, own);
      if n - 1 == i {
        FindAssignedFrom(Assign([], before), own, k);
      } else {
        if RootedAt(k, fields[n - 1].0) {
          RootedOnce(k, fields[n - 1].0, name);
        }
        EntryElsewhere(fields[n - 1], draw, k);
        FindUnassigned(Assign([], before), own, k);
      }
    }
  }

  /** Under a key that belongs to an attribute one finds what was assigned for this attribute. */
  lemma OwnLookup(fields: Dict<Json>, i: nat, name: string, draw: Draw, k: string)
    requires Attribute(fields, i, name, draw) && RootedAt(k, name)
    ensures Find(Flat(Obj(fields), "", draw).value, k) == Find(Assign([], Own(fields, i, draw)), k)
  {
    OwnLookupUpTo(fields, |fields|, i, name, draw, k);
  }

  lemma {:induction false} ForeignLookupUpTo(fields: Dict<Json>, n: nat, draw: Draw, k: string)
    requires n <= |fields| && FieldWrites(fields, n, "", draw).Some?
    requires forall j | 0 <= j < |fields| :: !RootedAt(k, fields[j].0)
    ensures Find(Assign([], FieldWrites(fields, n, "", draw).value), k) == None
  {
    if n > 0 {
      ForeignLookupUpTo(fields, n - 1, draw, k);
      var before, own := FieldWrites(fields, n - 1, "", draw).value, EntryWrites(fields[n - 1], "", draw).value;
      AssignConcat([], before, own);
      EntryElsewhere(fields[n - 1], draw, k);
      FindUnassigned(Assign([], before), own, k);
    }
  }

  /** Under any other key nothing is found. */
  lemma ForeignLookup(fields: Dict<Json>, draw: Draw, k: string)
    requires Writes(Obj(fields), "", draw).Some? && forall j | 0 <= j < |fields| :: !RootedAt(k, fields[j].0)
    ensures Find(Flat(Obj(fields), "", draw).value, k) == None
  {
    ForeignLookupUpTo(fields, |fields|, draw, k);
  }

  // ---------------------------------------------------------------- What is found

  /** An attribute that is neither a list nor a dictionary is found under its name, and nothing below it. */
  lemma ScalarIsFound(fields: Dict<Json>, i: nat, name: string, draw: Draw, k: string)
    requires Attribute(fields, i, name, draw) && IsScalar(fields[i].1) && RootedAt(k, name)
    ensures Find(Flat(Obj(fields), "", draw).value, k) == if k == name then Some(fields[i].1) else None
  {
    OwnLookup(fields, i, name, draw, k);
    assert fields[i] == (name, fields[i].1) && "" + name == name;
    assert Own(fields, i, draw) == [(name, fields[i].1)];
    AssignOne([], name, fields[i].1);
  }

  /** The length of a list is found under its count, if it has elements. */
  lemma CountIsFound(fields: Dict<Json>, i: nat, name: string, draw: Draw, items: seq<Json>)
    requires Attribute(fields, i, name, draw) && fields[i].1 == List(items)
    ensures Find(Flat(Obj(fields), "", draw).value, name + ".#") == if items == [] then None else Some(Num(|items|))
  {
    OwnLookup(fields, i, name, draw, name + ".#");
    OwnOfList(fields, i, name, draw, items);
    if items != [] {
      var w, header := ItemWrites(items, |items|, name + ".", draw).value, (name + ".#", Num(|items|));
      ItemsBelow(items, |items|, name + ".", draw);
      hide *;
      assert name + "." + "#" == name + ".#";
      CountInFront(header, w);
    }
  }

  lemma OwnOfList(fields: Dict<Json>, i: nat, name: string, draw: Draw, items: seq<Json>)
    requires Attribute(fields, i, name, draw) && fields[i].1 == List(items)
    ensures ItemWrites(items, |items|, name + ".", draw).Some?
    ensures Own(fields, i, draw)
         == if items == [] then []
            else [(name + ".#", Num(|items|))] + ItemWrites(items, |items|, name + ".", draw).value
  {
    OwnSucceeds(fields, |fields|, i, draw);
    assert fields[i] == (name, List(items)) && "" + name == name;
  }

  lemma CountInFront(header: (string, Json), w: seq<(string, Json)>)
    requires NotIn(w, header.0)
    ensures Find(Assign([], [header] + w), header.0) == Some(header.1)
  {
    AssignConcat([], [header], w);
    AssignOne([], header.0, header.1);
    FindUnassigned(Assign([], [header]), w, header.0);
  }

  /** The keys of elements go on with a digit. */
  lemma {:induction false} ItemsBelow(items: seq<Json>, n: nat, path: string, draw: Draw)
    requires n <= |items| && ItemWrites(items, n, path, draw).Some?
    ensures NotIn(ItemWrites(items, n, path, draw).value, path + "#")
  {
    if n > 0 {
      ItemsBelow(items, n - 1, path, draw);
      var own, below := Writes(items[n - 1], path + Numeral(n - 1) + ".", draw).value, path + Numeral(n - 1) + ".";
      WritesExtend(items[n - 1], below, draw);
      forall p | 0 <= p < |own| ensures own[p].0 != path + "#" {
        assert below <= own[p].0 && IsDigit(below[|path|]);
        assert own[p].0[|path|] == below[|path|];
      }
    }
  }

  lemma {:induction false} FindBelow(d: Dict<Json>, name: string, rest: string)
    requires '.' !in name && rest != "#"
    ensures Find(ParsePrefix(d, name), rest) == Find(d, name + "." + rest)
  {
    if d != [] {
      FindBelow(d[1..], name, rest);
      var k := d[0].0;
      if k == name + "." + rest {
        UnderYields(name, rest, d[0].1);
      }
      FindBehind(Yield(d[0], name), ParsePrefix(d[1..], name), rest);
      if Yield(d[0], name) != [] {
        assert k == name + "." + Yield(d[0], name)[0].0;
      }
    }
  }

  /** An entry in front is found first. */
  lemma FindBehind(a: Dict<Json>, b: Dict<Json>, k: string)
    requires |a| <= 1
    ensures Find(a + b, k) == if |a| == 1 && a[0].0 == k then Some(a[0].1) else Find(b, k)
  {
    if |a| == 1 {
      assert (a + b)[1..] == b;
    } else {
      assert a + b == b;
    }
  }

  lemma {:induction false} FindUnder(d: Dict<Json>, path: string, k: string)
    ensures Find(FieldKeys(d, path), path + k) == Find(d, k)
  {
    if d != [] {
      FieldKeysCons(d, path);
      FindUnder(d[1..], path, k);
      assert (path + d[0].0)[|path|..] == d[0].0 && (path + k)[|path|..] == k;
      FindBehind([(path + d[0].0, d[0].1)], FieldKeys(d[1..], path), path + k);
    }
  }

  lemma {:induction false} FindConcat(a: Dict<Json>, b: Dict<Json>, k: string)
    ensures Find(a + b, k) == if Find(a, k).Some? then Find(a, k) else Find(b, k)
  {
    if a == [] {
      assert a + b == b;
    } else {
      FindConcat(a[1..], b, k);
      assert a + b == [a[0]] + (a[1..] + b);
      FindBehind([a[0]], a[1..] + b, k);
    }
  }

  lemma NotOfAnother(form: Dict<Json>, m: nat, n: nat, rest: string)
    requires m != n
    ensures Find(FieldKeys(form, Numeral(m) + "."), Numeral(n) + "." + rest) == None
  {
    var own, k := FieldKeys(form, Numeral(m) + "."), Numeral(n) + "." + rest;
    if Has(own, k) {
      var i :| 0 <= i < |own| && own[i].0 == k;
      assert own[i].0 == Numeral(m) + "." + form[i].0;
      hide *;
      NumeralsDiffer(m, n, form[i].0, rest);
    }
  }

  lemma {:induction false} FindFormPairs(forms: seq<Dict<Json>>, m: nat, n: nat, rest: string)
    requires m <= |forms|
    ensures Find(FormPairs(forms, m), Numeral(n) + "." + rest) == if n < m then Find(forms[n], rest) else None
  {
    if m > 0 {
      var own, k := FieldKeys(forms[m - 1], Numeral(m - 1) + "."), Numeral(n) + "." + rest;
      FindFormPairs(forms, m - 1, n, rest);
      assert FormPairs(forms, m) == FormPairs(forms, m - 1) + own;
      hide *;
      FindConcat(FormPairs(forms, m - 1), own, k);
      if n == m - 1 {
        FindUnder(forms[n], Numeral(n) + ".", rest);
      } else {
        NotOfAnother(forms[m - 1], m - 1, n, rest);
      }
    }
  }

  /** Below its index one finds the flattened form of an element. */
  lemma ElementIsFound(fields: Dict<Json>, i: nat, name: string, draw: Draw, items: seq<Json>, n: nat, rest: string)
    requires Attribute(fields, i, name, draw) && fields[i].1 == List(items)
    ensures Find(Flat(Obj(fields), "", draw).value, name + "." + (Numeral(n) + "." + rest))
         == if n < |items| then Find(Forms(items, name + ".", draw)[n], rest) else None
  {
    FindBelow(Flat(Obj(fields), "", draw).value, name, Numeral(n) + "." + rest);
    ListAttributeShows(fields, i, name, draw, items);
    FindFormPairs(Forms(items, name + ".", draw), |items|, n, rest);
  }

  lemma ListAttributeShows(fields: Dict<Json>, i: nat, name: string, draw: Draw, items: seq<Json>)
    requires Attribute(fields, i, name, draw) && fields[i].1 == List(items)
    ensures ParsePrefix(Flat(Obj(fields), "", draw).value, name) == FormPairs(Forms(items, name + ".", draw), |items|)
  {
    FlatShowsOwn(fields, i, name, draw);
    OwnSucceeds(fields, |fields|, i, draw);
    assert fields[i] == (name, List(items));
    ListYields(items, name, draw);
    ItemsYield(items, |items|, name, draw);
    ItemsAssign(items, |items|, name + ".", draw);
  }

  /** Below the name of a dictionary one finds its entries, and its size unless an entry hides it. */
  lemma EntryIsFound(fields: Dict<Json>, i: nat, name: string, draw: Draw, own: Dict<Json>, x: string)
    requires Attribute(fields, i, name, draw) && fields[i].1 == Obj(own) && Unique(own)
    ensures Find(Flat(Obj(fields), "", draw).value, name + "." + x)
         == if Has(own, x) then Find(own, x) else if x == "%" then Some(Num(|own|)) else None
  {
    var header := (name + ".%", Num(|own|));
    OwnLookup(fields, i, name, draw, name + "." + x);
    OwnOfDict(fields, i, name, draw, own);
    hide Own, Attribute, Writes, Flat;
    AssignConcat([], [header], FieldKeys(own, name + "."));
    AssignOne([], header.0, header.1);
    FindOverridden([header], own, name + ".", x);
    SizeKey(name, x);
    FindBehind([header], [], name + "." + x);
    assert [header] + [] == [header];
  }

  lemma OwnOfDict(fields: Dict<Json>, i: nat, name: string, draw: Draw, own: Dict<Json>)
    requires Attribute(fields, i, name, draw) && fields[i].1 == Obj(own)
    ensures Own(fields, i, draw) == [(name + ".%", Num(|own|))] + FieldKeys(own, name + ".")
  {
    assert fields[i] == (name, Obj(own)) && "" + name == name;
  }

  lemma SizeKey(name: string, x: string)
    ensures name + "." + x == name + ".%" <==> x == "%"
  {
    assert (name + "." + x)[|name| + 1..] == x && (name + ".%")[|name| + 1..] == "%";
  }

  lemma {:induction false} FindOverridden(d: Dict<Json>, own: Dict<Json>, path: string, x: string)
    requires Unique(own)
    ensures Find(Assign(d, FieldKeys(own, path)), path + x) == if Has(own, x) then Find(own, x) else Find(d, path + x)
  {
    if own != [] {
      var n := |own| - 1;
      var e := own[n];
      assert !Has(own[..n], e.0) by {
        forall j | 0 <= j < n ensures own[..n][j].0 != e.0 {
          assert own[j].0 != own[n].0;
        }
      }
      FindOverridden(d, own[..n], path, x);
      assert own == own[..n] + [e] && FieldKeys(own, path) == FieldKeys(own[..n], path) + [(path + e.0, e.1)];
      AssignMore(d, FieldKeys(own[..n], path), path + e.0, e.1);
      FindPut(Assign(d, FieldKeys(own[..n], path)), path + e.0, e.1, path + x);
      assert (path + e.0)[|path|..] == e.0 && (path + x)[|path|..] == x;
      FindConcat(own[..n], [e], x);
      FindBehind([e], [], x);
      assert [e] + [] == [e];
    }
  }

  // ---------------------------------------------------------------- When parse_attr_list fails

  /** parse_attr_list raises its exception exactly on a key below the prefix that has only one part. */
  lemma AttrListFailsExactly(source: Dict<Json>, prefix: string)
    ensures AttrList(source, prefix).None? <==> exists e | e in ParsePrefix(source, prefix) :: '.' !in e.0
  {
    var pairs := ParsePrefix(source, prefix);
    GroupedFailsExactly(pairs, |pairs|);
    if e :| e in pairs && '.' !in e.0 {
      var i :| 0 <= i < |pairs| && pairs[i] == e;
    }
  }

  lemma {:induction false} GroupedFailsExactly(pairs: seq<(string, Json)>, n: nat)
    requires n <= |pairs|
    ensures Grouped(pairs, n).None? <==> exists i | 0 <= i < n :: '.' !in pairs[i].0
  {
    if n > 0 {
      hide Enter;
      GroupedFailsExactly(pairs, n - 1);
    }
  }
}
