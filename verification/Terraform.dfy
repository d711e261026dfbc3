/**
 The Terraform state flattener (version 4 to version 3 attributes) and the parsers that read flat
 attributes back. Flat keys are paths with dots; dictionaries keep insertion order.
 */
module Terraform {
  import opened Options
  import opened OrderedDict
  import opened Text

  datatype Json =
    | Str(text: string)
    | Num(number: int)
    | Bool(truth: bool)
    | Null
    | List(items: seq<Json>)
    | Obj(fields: Dict<Json>)

  /** Random numbers drawn for bare strings, one for each path. */
  type Draw = string -> nat

  predicate IsScalar(j: Json) { !j.List? && !j.Obj? }

  // ---------------------------------------------------------------- Flattening, as a list of assignments

  function FieldKeys(fields: Dict<Json>, path: string): Dict<Json>
    ensures |FieldKeys(fields, path)| == |fields|
  {
    seq(|fields|, i requires 0 <= i < |fields| => (path + fields[i].0, fields[i].1))
  }

  /** The assignments of one call; None is the exception for an element that is neither a string nor
      a dictionary. */
  function Writes(j: Json, prefix: string, draw: Draw): Option<seq<(string, Json)>>
    decreases j, 0
  {
    match j
    case Str(_) => Some([(prefix + Numeral(draw(prefix)), j)])
    case Obj(fields) => FieldWrites(fields, |fields|, prefix, draw)
    case _ => None
  }

  /** The assignments for the first `n` entries of a dictionary. */
  function FieldWrites(fields: Dict<Json>, n: nat, prefix: string, draw: Draw): Option<seq<(string, Json)>>
    requires n <= |fields|
    decreases fields, n
  {
    if n == 0 then Some([])
    else
      match (FieldWrites(fields, n - 1, prefix, draw), EntryWrites(fields[n - 1], prefix, draw))
      case (Some(a), Some(b)) => Some(a + b)
      case _ => None
  }

  function EntryWrites(entry: (string, Json), prefix: string, draw: Draw): Option<seq<(string, Json)>>
    decreases entry, 1
  {
    match entry
    case (key, List(items)) =>
      (match ItemWrites(items, |items|, prefix + key + ".", draw)
       case None => None
       case Some(w) => Some(if items == [] then w else [(prefix + key + ".#", Num(|items|))] + w))
    case (key, Obj(fields)) => Some([(prefix + key + ".%", Num(|fields|))] + FieldKeys(fields, prefix + key + "."))
    case (key, value) => Some([(prefix + key, value)])
  }

  /** The assignments for the first `n` elements of a list. */
  function ItemWrites(items: seq<Json>, n: nat, path: string, draw: Draw): Option<seq<(string, Json)>>
    requires n <= |items|
    decreases items, n
  {
    if n == 0 then Some([])
    else
      match (ItemWrites(items, n - 1, path, draw), Writes(items[n - 1], path + Numeral(n - 1) + ".", draw))
      case (Some(a), Some(b)) => Some(a + b)
      case _ => None
  }

  function Flat(j: Json, prefix: string, draw: Draw): Option<Dict<Json>> {
    match Writes(j, prefix, draw)
    case None => None
    case Some(w) => Some(Assign([], w))
  }

  // ---------------------------------------------------------------- Flattening, as the loops that do it

  lemma AssignOne<V>(d: Dict<V>, k: string, v: V)
    ensures Assign(d, [(k, v)]) == Put(d, k, v)
  {
    assert [(k, v)][..0] == [];
  }

  lemma AssignMore<V>(d: Dict<V>, pairs: seq<(string, V)>, k: string, v: V)
    ensures Assign(d, pairs + [(k, v)]) == Put(Assign(d, pairs), k, v)
  {
    assert (pairs + [(k, v)])[..|pairs|] == pairs;
  }

  /** An exception in the middle of a loop is an exception of the whole loop. */
  lemma {:induction false} FieldFailureStays(fields: Dict<Json>, n: nat, prefix: string, draw: Draw)
    requires n <= |fields|
    ensures FieldWrites(fields, n, prefix, draw).None? ==> FieldWrites(fields, |fields|, prefix, draw).None?
    decreases |fields| - n
  {
    if n < |fields| {
      FieldFailureStays(fields, n + 1, prefix, draw);
    }
  }

  lemma {:induction false} ItemFailureStays(items: seq<Json>, n: nat, path: string, draw: Draw)
    requires n <= |items|
    ensures ItemWrites(items, n, path, draw).None? ==> ItemWrites(items, |items|, path, draw).None?
    decreases |items| - n
  {
    if n < |items| {
      ItemFailureStays(items, n + 1, path, draw);
    }
  }

  /** convert_to_v3_structure */
  method Convert(j: Json, prefix: string, draw: Draw) returns (result: Option<Dict<Json>>)
    ensures result == Flat(j, prefix, draw)
    decreases j, 0
  {
    match j
    case Str(_) =>
      AssignOne([], prefix + Numeral(draw(prefix)), j);
      return Some([(prefix + Numeral(draw(prefix)), j)]);
    case Obj(fields) =>
      var flat: Dict<Json> := [];
      for n := 0 to |fields|
        invariant FieldWrites(fields, n, prefix, draw).Some?
        invariant flat == Assign([], FieldWrites(fields, n, prefix, draw).value)
      {
        var extended := ConvertEntry(fields[n], prefix, draw, flat);
        FieldFailureStays(fields, n + 1, prefix, draw);
        if extended.None? {
          return None;
        }
        AssignConcat([], FieldWrites(fields, n, prefix, draw).value, EntryWrites(fields[n], prefix, draw).value);
        flat := extended.value;
      }
      return Some(flat);
    case _ =>
      return None;
  }

  /** The body of the loop over a dictionary: one entry added to the result. */
  method ConvertEntry(entry: (string, Json), prefix: string, draw: Draw, flat: Dict<Json>)
    returns (result: Option<Dict<Json>>)
    ensures result == match EntryWrites(entry, prefix, draw)
                      case None => None
                      case Some(w) => Some(Assign(flat, w))
    decreases entry, 1
  {
    match entry
    case (key, List(items)) =>
      result := ConvertItems(items, prefix + key, draw, flat);
    case (key, Obj(fields)) =>
      var r := CopyFields(fields, prefix + key + ".", Put(flat, prefix + key + ".%", Num(|fields|)));
      AssignOne(flat, prefix + key + ".%", Num(|fields|));
      AssignConcat(flat, [(prefix + key + ".%", Num(|fields|))], FieldKeys(fields, prefix + key + "."));
      result := Some(r);
    case (key, value) =>
      AssignOne(flat, prefix + key, value);
      result := Some(Put(flat, prefix + key, value));
  }

  lemma UpdateWithItem(start: Dict<Json>, items: seq<Json>, n: nat, path: string, draw: Draw)
    requires n < |items| && ItemWrites(items, n + 1, path, draw).Some?
    ensures Assign(Assign(start, ItemWrites(items, n, path, draw).value),
                   Flat(items[n], path + Numeral(n) + ".", draw).value)
         == Assign(start, ItemWrites(items, n + 1, path, draw).value)
  {
    var before, now := ItemWrites(items, n, path, draw).value, Writes(items[n], path + Numeral(n) + ".", draw).value;
    UpdateIsAssign(Assign(start, before), now);
    AssignConcat(start, before, now);
  }

  method ConvertItems(items: seq<Json>, name: string, draw: Draw, flat: Dict<Json>)
    returns (result: Option<Dict<Json>>)
    ensures result == match ItemWrites(items, |items|, name + ".", draw)
                      case None => None
                      case Some(w) => Some(Assign(flat, if items == [] then w else [(name + ".#", Num(|items|))] + w))
    decreases items, 1
  {
    var path := name + ".";
    var start := if items == [] then flat else Put(flat, name + ".#", Num(|items|));
    var r := start;
    for n := 0 to |items|
      invariant ItemWrites(items, n, path, draw).Some?
      invariant r == Assign(start, ItemWrites(items, n, path, draw).value)
    {
      var sub := Convert(items[n], path + Numeral(n) + ".", draw);
      ItemFailureStays(items, n + 1, path, draw);
      if sub.None? {
        return None;
      }
      UpdateWithItem(start, items, n, path, draw);
      r := Assign(r, sub.value);
    }
    AssignOne(flat, name + ".#", Num(|items|));
    AssignConcat(flat, [(name + ".#", Num(|items|))], ItemWrites(items, |items|, path, draw).value);
    result := Some(r);
  }

  method CopyFields(fields: Dict<Json>, path: string, flat: Dict<Json>) returns (result: Dict<Json>)
    ensures result == Assign(flat, FieldKeys(fields, path))
  {
    result := flat;
    for n := 0 to |fields|
      invariant result == Assign(flat, FieldKeys(fields, path)[..n])
    {
      AssignMore(flat, FieldKeys(fields, path)[..n], path + fields[n].0, fields[n].1);
      assert FieldKeys(fields, path)[..n + 1] == FieldKeys(fields, path)[..n] + [(path + fields[n].0, fields[n].1)];
      result := Put(result, path + fields[n].0, fields[n].1);
    }
    assert FieldKeys(fields, path)[..|fields|] == FieldKeys(fields, path);
  }
}
