/** The recursive merge of whole trees, lookups along paths, and folding several layers. */
module ConfigLayers {
  import opened Prelude
  import opened ConfigMerge

  predicate HasField(v: Value, field: string) {
    v.Table? && field in v.entries
  }

  /** `code` or `id` when every item is a table that has that same field. */
  function DetectKeyedField(items: seq<Value>): Option<string> {
    if items == [] || exists i :: 0 <= i < |items| && !items[i].Table? then None
    else if forall i :: 0 <= i < |items| ==> HasField(items[i], "code") then Some("code")
    else if forall i :: 0 <= i < |items| ==> HasField(items[i], "id") then Some("id")
    else None
  }

  /** The merge does not raise: every key it looks up in an index is a scalar. */
  predicate Mergeable(base: Value, override: Value)
    decreases base
  {
    match (base, override)
    case (Table(b), Table(o)) => forall k :: k in b && k in o ==> Mergeable(b[k], o[k])
    case (Array(b), Array(o)) =>
      var field := DetectKeyedField(b + o);
      field.None? || forall v :: v in b + o ==> Hashable(v, field.value)
    case _ => true
  }

  function MergeArrays(base: seq<Value>, override: seq<Value>): seq<Value> {
    match DetectKeyedField(base + override)
    case Some(field) => KeyedMerge(base, override, field)
    case None => base + override
  }

  function DeepMerge(base: Value, override: Value): Value
    decreases base
  {
    match (base, override)
    case (Table(b), Table(o)) =>
      Table(map k | k in b.Keys + o.Keys ::
        if k !in o then b[k] else if k in b then DeepMerge(b[k], o[k]) else o[k])
    case (Array(b), Array(o)) => Array(MergeArrays(b, o))
    case _ => override
  }

  /** The array case as the program runs it. */
  method MergeArraysByLoop(base: seq<Value>, override: seq<Value>) returns (r: seq<Value>)
    requires Mergeable(Array(base), Array(override))
    ensures r == MergeArrays(base, override)
  {
    var field := DetectKeyedField(base + override);
    if field.Some? {
      assert forall v :: v in base || v in override ==> v in base + override;
      r := MergeByKey(base, override, field.value);
    } else {
      r := base + override;
    }
  }

  // ------------------------------------------------------------------ lookups

  function Lookup(v: Value, path: seq<string>): Option<Value>
    decreases |path|
  {
    if path == [] then Some(v)
    else if HasField(v, path[0]) then Lookup(v.entries[path[0]], path[1..])
    else None
  }

  /** The cursor walk behind a dotted key. */
  method ExtractKey(data: Value, parts: seq<string>) returns (r: Option<Value>)
    ensures r == Lookup(data, parts)
  {
    var current := data;
    for i := 0 to |parts|
      invariant Lookup(data, parts) == Lookup(current, parts[i..])
    {
      if current.Table? && parts[i] in current.entries {
        current := current.entries[parts[i]];
        assert parts[i..][1..] == parts[i + 1..];
      } else {
        return None;
      }
    }
    return Some(current);
  }

  /** Every proper prefix of the path is a table in both trees. */
  predicate TablesAlong(b: Value, o: Value, path: seq<string>)
    decreases |path|
  {
    path == [] ||
    (b.Table? && o.Table? &&
     (|path| == 1 ||
      (path[0] in b.entries && path[0] in o.entries &&
       TablesAlong(b.entries[path[0]], o.entries[path[0]], path[1..]))))
  }

  lemma {:induction false} TablesAlongMeaning(b: Value, o: Value, path: seq<string>)
    ensures TablesAlong(b, o, path) <==>
            forall n :: 0 <= n < |path| ==>
              && Lookup(b, path[..n]).Some? && Lookup(b, path[..n]).value.Table?
              && Lookup(o, path[..n]).Some? && Lookup(o, path[..n]).value.Table?
    decreases |path|
  {
    if path != [] {
      assert path[..0] == [];
      if b.Table? && o.Table? && path[0] in b.entries && path[0] in o.entries {
        var h, t := path[0], path[1..];
        TablesAlongMeaning(b.entries[h], o.entries[h], t);
        forall n | 0 <= n < |t|
          ensures Lookup(b, path[..n + 1]) == Lookup(b.entries[h], t[..n])
          ensures Lookup(o, path[..n + 1]) == Lookup(o.entries[h], t[..n])
        {
          assert path[..n + 1][1..] == t[..n];
        }
        forall n | 0 < n < |path|
          ensures Lookup(b, path[..n]) == Lookup(b.entries[h], t[..n - 1])
          ensures Lookup(o, path[..n]) == Lookup(o.entries[h], t[..n - 1])
        {
          assert path[..n][1..] == t[..n - 1];
        }
      } else if |path| > 1 && b.Table? && o.Table? {
        assert path[..1][0] == path[0];
        assert Lookup(b, path[..1]).None? || Lookup(o, path[..1]).None?;
      }
    }
  }

  /** At the end of a path of tables the merge of the two sides is found, or the side that exists. */
  lemma {:induction false} PathLaw(b: Value, o: Value, path: seq<string>)
    requires TablesAlong(b, o, path)
    ensures Lookup(DeepMerge(b, o), path) ==
            match (Lookup(b, path), Lookup(o, path))
            case (Some(x), Some(y)) => Some(DeepMerge(x, y))
            case (Some(x), None) => Some(x)
            case (None, Some(y)) => Some(y)
            case (None, None) => None
    decreases |path|
  {
    if |path| == 1 {
      assert path[1..] == [];
    } else if |path| > 1 {
      PathLaw(b.entries[path[0]], o.entries[path[0]], path[1..]);
    }
  }

  lemma {:induction false} LookupConcat(v: Value, path: seq<string>, rest: seq<string>)
    ensures Lookup(v, path + rest) ==
            if Lookup(v, path).Some? then Lookup(Lookup(v, path).value, rest) else None
    decreases |path|
  {
    if path == [] {
      assert path + rest == rest;
    } else {
      assert (path + rest)[1..] == path[1..] + rest;
      if HasField(v, path[0]) {
        LookupConcat(v.entries[path[0]], path[1..], rest);
      }
    }
  }

  /**
   From the end of a path of tables on, one tree decides alone: the override when it has a value
   there that does not meet a value of the same shape, the base when the override has none.
   Two arrays meet in their array merge, which no longer path enters.
   */
  lemma OneSideDecides(b: Value, o: Value, path: seq<string>, rest: seq<string>)
    requires TablesAlong(b, o, path)
    ensures var x, y := Lookup(b, path), Lookup(o, path);
            var found := Lookup(DeepMerge(b, o), path + rest);
            && (y.None? ==> found == Lookup(b, path + rest))
            && (y.Some? && (x.None? || !((x.value.Table? && y.value.Table?) || (x.value.Array? && y.value.Array?))) ==>
                  found == Lookup(o, path + rest))
            && (y.Some? && x.Some? && x.value.Array? && y.value.Array? ==>
                  found == if rest == [] then Some(Array(MergeArrays(x.value.items, y.value.items))) else None)
  {
    PathLaw(b, o, path);
    LookupConcat(b, path, rest);
    LookupConcat(o, path, rest);
    LookupConcat(DeepMerge(b, o), path, rest);
  }

  /** A layer that is absent or empty changes nothing, on either side. */
  lemma EmptyLayer(t: Value)
    requires t.Table?
    ensures DeepMerge(Table(map[]), t) == t && DeepMerge(t, Table(map[])) == t
  {
  }

  // ------------------------------------------------------------------ any two arrays

  predicate AllHave(items: seq<Value>, field: string) {
    forall i :: 0 <= i < |items| ==> items[i].Table? && field in items[i].entries
  }

  lemma AllHaveBoth(a: seq<Value>, b: seq<Value>, field: string)
    ensures AllHave(a + b, field) <==> AllHave(a, field) && AllHave(b, field)
  {
    if AllHave(a + b, field) {
      forall i | 0 <= i < |a| ensures a[i].Table? && field in a[i].entries { assert (a + b)[i] == a[i]; }
      forall i | 0 <= i < |b| ensures b[i].Table? && field in b[i].entries { assert (a + b)[|a| + i] == b[i]; }
    }
  }

  lemma Detects(items: seq<Value>)
    ensures DetectKeyedField(items) ==
            if items != [] && AllHave(items, "code") then Some("code")
            else if items != [] && AllHave(items, "id") then Some("id") else None
  {
  }

  /**
   Arrays merge by `code` when every item of both is a table with a code, by `id` when that fails
   and every item is a table with an id, and otherwise the override follows the base.
   */
  lemma ArraysMerge(b: seq<Value>, o: seq<Value>)
    ensures var byCode, byId := AllHave(b, "code") && AllHave(o, "code"), AllHave(b, "id") && AllHave(o, "id");
            && (byCode ==> MergeArrays(b, o) == KeyedMerge(b, o, "code"))
            && (byId && !byCode ==> MergeArrays(b, o) == KeyedMerge(b, o, "id"))
            && (!byCode && !byId ==> MergeArrays(b, o) == b + o)
  {
    AllHaveBoth(b, o, "code");
    AllHaveBoth(b, o, "id");
    Detects(b + o);
    if b + o == [] {
      assert b == [] && o == [];
    }
  }

  // ------------------------------------------------------------------ schemas

  datatype Schema =
    | AnyLeaf
    | Fields(fields: map<string, Schema>)
    | PlainArray
    | KeyedArray(field: string)

  predicate Unkeyed(v: Value) {
    !HasField(v, "code") && !HasField(v, "id")
  }

  ghost predicate KeyedItems(items: seq<Value>, field: string) {
    && (field == "code" || field == "id")
    && (forall i :: 0 <= i < |items| ==>
          && KeyAt(items[i], field).Some?
          && (field == "id" ==> !HasField(items[i], "code")))
    && DistinctKeys(items, field)
  }

  ghost predicate DistinctKeys(items: seq<Value>, field: string) {
    AllKeyed(items, field) && Distinct(Keys(items, field))
  }

  ghost predicate Conforms(v: Value, s: Schema)
    decreases s
  {
    match s
    case AnyLeaf => v.Leaf?
    case Fields(fields) =>
      v.Table? && forall k :: k in v.entries ==> k in fields && Conforms(v.entries[k], fields[k])
    case PlainArray => v.Array? && forall i :: 0 <= i < |v.items| ==> Unkeyed(v.items[i])
    case KeyedArray(field) => v.Array? && KeyedItems(v.items, field)
  }

  lemma DetectsKeyed(a: seq<Value>, b: seq<Value>, field: string)
    requires KeyedItems(a, field) && KeyedItems(b, field)
    ensures MergeArrays(a, b) == KeyedMerge(a, b, field) && Mergeable(Array(a), Array(b))
  {
    var items := a + b;
    forall i | 0 <= i < |items|
      ensures KeyAt(items[i], field).Some? && (field == "id" ==> !HasField(items[i], "code"))
    {
      if i < |a| { assert items[i] == a[i]; } else { assert items[i] == b[i - |a|]; }
    }
    if items == [] {
      assert a == [] && b == [];
    } else {
      assert HasField(items[0], field) && (field == "id" ==> !HasField(items[0], "code"));
      assert DetectKeyedField(items) == Some(field);
    }
  }

  lemma DetectsPlain(a: seq<Value>, b: seq<Value>)
    requires forall i :: 0 <= i < |a| ==> Unkeyed(a[i])
    requires forall i :: 0 <= i < |b| ==> Unkeyed(b[i])
    ensures DetectKeyedField(a + b).None? && MergeArrays(a, b) == a + b
  {
    if a + b != [] {
      assert Unkeyed((a + b)[0]);
    }
  }

  /** Merging two keyed arrays gives a keyed array. */
  lemma KeyedItemsMerge(a: seq<Value>, b: seq<Value>, field: string)
    requires KeyedItems(a, field) && KeyedItems(b, field)
    ensures KeyedItems(KeyedMerge(a, b, field), field)
  {
    KeyedMergeKeeps(a, b, field);
    var r := KeyedMerge(a, b, field);
    forall i | 0 <= i < |r| ensures field == "id" ==> !HasField(r[i], "code") {
      var k := KeyAt(r[i], field).value;
      GetAt(r, i, field);
      var from := if Get(b, k, field).Some? then b else a;
      assert Get(from, k, field) == Some(r[i]);
      var j :| 0 <= j < |from| && from[j] == r[i];
    }
  }

  /** With distinct keys, the item found under an item's key is that item. */
  lemma GetAt(items: seq<Value>, i: nat, field: string)
    requires DistinctKeys(items, field) && i < |items|
    ensures Get(items, KeyAt(items[i], field).value, field) == Some(items[i])
  {
    var k := KeyAt(items[i], field).value;
    PresentIffKey(items, k, field);
    assert Keys(items, field)[i] == k;
    var j := LastWith(items, k, field).value;
    assert Keys(items, field)[j] == k;
  }

  /** Keyed arrays with distinct keys are equal when their key lists and their items by key are. */
  lemma KeyedExtensional(a: seq<Value>, b: seq<Value>, field: string)
    requires DistinctKeys(a, field) && DistinctKeys(b, field)
    requires Keys(a, field) == Keys(b, field)
    requires forall k :: Get(a, k, field) == Get(b, k, field)
    ensures a == b
  {
    assert |a| == |Keys(a, field)| == |Keys(b, field)| == |b|;
    forall i | 0 <= i < |a| ensures a[i] == b[i] {
      assert Keys(a, field)[i] == Keys(b, field)[i];
      GetAt(a, i, field);
      GetAt(b, i, field);
    }
  }

  lemma {:induction false} KeyUnionAssociative(x: seq<Key>, y: seq<Key>, z: seq<Key>)
    ensures KeyUnion(KeyUnion(x, y), z) == KeyUnion(x, KeyUnion(y, z))
    decreases |z|
  {
    if z != [] {
      var init, k := z[..|z| - 1], z[|z| - 1];
      assert z == init + [k];
      KeyUnionAssociative(x, y, init);
      KeyUnionSnoc(KeyUnion(x, y), init, k);
      KeyUnionSnoc(y, init, k);
      if !(k in y || k in init) {
        KeyUnionSnoc(x, KeyUnion(y, init), k);
      }
    }
  }

  lemma KeyedMergeAssociative(a: seq<Value>, b: seq<Value>, c: seq<Value>, field: string)
    requires KeyedItems(a, field) && KeyedItems(b, field) && KeyedItems(c, field)
    ensures KeyedMerge(KeyedMerge(a, b, field), c, field) == KeyedMerge(a, KeyedMerge(b, c, field), field)
  {
    var ab, bc := KeyedMerge(a, b, field), KeyedMerge(b, c, field);
    KeyedItemsMerge(a, b, field);
    KeyedItemsMerge(b, c, field);
    KeyedItemsMerge(ab, c, field);
    KeyedItemsMerge(a, bc, field);
    KeyedMergeKeeps(a, b, field);
    KeyedMergeKeeps(b, c, field);
    KeyedMergeKeeps(ab, c, field);
    KeyedMergeKeeps(a, bc, field);
    KeyUnionAssociative(Keys(a, field), Keys(b, field), Keys(c, field));
    KeyedExtensional(KeyedMerge(ab, c, field), KeyedMerge(a, bc, field), field);
  }

  lemma {:induction false} KeyUnionSelf(ks: seq<Key>, ls: seq<Key>)
    requires forall k :: k in ls ==> k in ks
    ensures KeyUnion(ks, ls) == ks
    decreases |ls|
  {
    if ls != [] {
      var init, k := ls[..|ls| - 1], ls[|ls| - 1];
      assert ls == init + [k];
      KeyUnionSelf(ks, init);
      KeyUnionSnoc(ks, init, k);
    }
  }

  lemma KeyedMergeIdempotent(a: seq<Value>, field: string)
    requires KeyedItems(a, field)
    ensures KeyedMerge(a, a, field) == a
  {
    KeyedItemsMerge(a, a, field);
    KeyedMergeKeeps(a, a, field);
    KeyUnionSelf(Keys(a, field), Keys(a, field));
    KeyedExtensional(KeyedMerge(a, a, field), a, field);
  }

  // ------------------------------------------------------------------ merging under one schema

  /** Trees of one schema merge without raising, into a tree of that schema. */
  lemma {:induction false} MergeConforms(a: Value, b: Value, s: Schema)
    requires Conforms(a, s) && Conforms(b, s)
    ensures Mergeable(a, b) && Conforms(DeepMerge(a, b), s)
    decreases s
  {
    match s {
      case AnyLeaf =>
      case Fields(fields) =>
        forall k | k in a.entries && k in b.entries
          ensures Mergeable(a.entries[k], b.entries[k])
          ensures Conforms(DeepMerge(a.entries[k], b.entries[k]), fields[k])
        {
          MergeConforms(a.entries[k], b.entries[k], fields[k]);
        }
      case PlainArray => DetectsPlain(a.items, b.items);
      case KeyedArray(field) =>
        DetectsKeyed(a.items, b.items, field);
        KeyedItemsMerge(a.items, b.items, field);
    }
  }

  /** One entry of the merge of two tables. */
  lemma MergedEntry(a: Value, b: Value, k: string)
    requires a.Table? && b.Table?
    ensures var m := DeepMerge(a, b);
            && m.Table? && (k in m.entries <==> k in a.entries || k in b.entries)
            && (k in a.entries && k in b.entries ==> m.entries[k] == DeepMerge(a.entries[k], b.entries[k]))
            && (k in a.entries && k !in b.entries ==> m.entries[k] == a.entries[k])
            && (k !in a.entries && k in b.entries ==> m.entries[k] == b.entries[k])
  {
  }

  /** What a table holds under a key. */
  function EntryOf(v: Value, k: string): Option<Value>
    requires v.Table?
  {
    if k in v.entries then Some(v.entries[k]) else None
  }

  lemma EntryAssociative(a: Value, b: Value, c: Value, k: string)
    requires a.Table? && b.Table? && c.Table?
    requires k in a.entries && k in b.entries && k in c.entries ==>
               DeepMerge(DeepMerge(a.entries[k], b.entries[k]), c.entries[k]) ==
               DeepMerge(a.entries[k], DeepMerge(b.entries[k], c.entries[k]))
    ensures var l, r := DeepMerge(DeepMerge(a, b), c), DeepMerge(a, DeepMerge(b, c));
            l.Table? && r.Table? && EntryOf(l, k) == EntryOf(r, k)
  {
    MergedEntry(a, b, k);
    MergedEntry(b, c, k);
    MergedEntry(DeepMerge(a, b), c, k);
    MergedEntry(a, DeepMerge(b, c), k);
  }

  lemma SameEntries(l: Value, r: Value)
    requires l.Table? && r.Table? && forall k :: EntryOf(l, k) == EntryOf(r, k)
    ensures l == r
  {
    forall k ensures k in l.entries <==> k in r.entries {
      assert EntryOf(l, k) == EntryOf(r, k);
    }
    forall k | k in l.entries ensures l.entries[k] == r.entries[k] {
      assert EntryOf(l, k) == EntryOf(r, k);
    }
    assert l.entries == r.entries;
  }

  lemma {:induction false} MergeAssociative(a: Value, b: Value, c: Value, s: Schema)
    requires Conforms(a, s) && Conforms(b, s) && Conforms(c, s)
    ensures DeepMerge(DeepMerge(a, b), c) == DeepMerge(a, DeepMerge(b, c))
    decreases s
  {
    match s {
      case AnyLeaf =>
      case Fields(fields) =>
        MergedEntry(DeepMerge(a, b), c, "");
        MergedEntry(a, DeepMerge(b, c), "");
        forall k ensures EntryOf(DeepMerge(DeepMerge(a, b), c), k) == EntryOf(DeepMerge(a, DeepMerge(b, c)), k) {
          if k in a.entries && k in b.entries && k in c.entries {
            MergeAssociative(a.entries[k], b.entries[k], c.entries[k], fields[k]);
          }
          EntryAssociative(a, b, c, k);
        }
        SameEntries(DeepMerge(DeepMerge(a, b), c), DeepMerge(a, DeepMerge(b, c)));
      case PlainArray => PlainAssociative(a, b, c);
      case KeyedArray(field) => KeyedAssociative(a, b, c, field);
    }
  }

  lemma PlainArraysMerge(a: Value, b: Value)
    requires Conforms(a, PlainArray) && Conforms(b, PlainArray)
    ensures DeepMerge(a, b) == Array(a.items + b.items) && Conforms(DeepMerge(a, b), PlainArray)
  {
    DetectsPlain(a.items, b.items);
  }

  lemma PlainAssociative(a: Value, b: Value, c: Value)
    requires Conforms(a, PlainArray) && Conforms(b, PlainArray) && Conforms(c, PlainArray)
    ensures DeepMerge(DeepMerge(a, b), c) == DeepMerge(a, DeepMerge(b, c))
  {
    PlainArraysMerge(a, b);
    PlainArraysMerge(b, c);
    PlainArraysMerge(DeepMerge(a, b), c);
    PlainArraysMerge(a, DeepMerge(b, c));
    assert a.items + b.items + c.items == a.items + (b.items + c.items);
  }

  lemma KeyedAssociative(a: Value, b: Value, c: Value, field: string)
    requires Conforms(a, KeyedArray(field)) && Conforms(b, KeyedArray(field)) && Conforms(c, KeyedArray(field))
    ensures DeepMerge(DeepMerge(a, b), c) == DeepMerge(a, DeepMerge(b, c))
  {
    DetectsKeyed(a.items, b.items, field);
    DetectsKeyed(b.items, c.items, field);
    KeyedItemsMerge(a.items, b.items, field);
    KeyedItemsMerge(b.items, c.items, field);
    DetectsKeyed(KeyedMerge(a.items, b.items, field), c.items, field);
    DetectsKeyed(a.items, KeyedMerge(b.items, c.items, field), field);
    KeyedMergeAssociative(a.items, b.items, c.items, field);
  }

  predicate NoPlainArrays(s: Schema) {
    match s
    case AnyLeaf => true
    case Fields(fields) => forall k :: k in fields ==> NoPlainArrays(fields[k])
    case PlainArray => false
    case KeyedArray(_) => true
  }

  /** Without plain arrays, merging a tree with itself changes nothing. */
  lemma {:induction false} MergeIdempotent(a: Value, s: Schema)
    requires Conforms(a, s) && NoPlainArrays(s)
    ensures DeepMerge(a, a) == a
    decreases s
  {
    match s {
      case AnyLeaf =>
      case Fields(fields) =>
        forall k | k in a.entries ensures DeepMerge(a.entries[k], a.entries[k]) == a.entries[k] {
          MergeIdempotent(a.entries[k], fields[k]);
        }
        assert DeepMerge(a, a).entries == a.entries;
      case KeyedArray(field) =>
        DetectsKeyed(a.items, a.items, field);
        KeyedMergeIdempotent(a.items, field);
      case PlainArray =>
    }
  }

  /** With a plain array it does: a non-empty one doubles. */
  lemma PlainArrayDoubles(items: seq<Value>)
    requires items != [] && forall i :: 0 <= i < |items| ==> Unkeyed(items[i])
    ensures DeepMerge(Array(items), Array(items)) != Array(items)
  {
    DetectsPlain(items, items);
    assert |items + items| != |items|;
  }

  // ------------------------------------------------------------------ folding layers

  function FoldLeft(first: Value, rest: seq<Value>): Value {
    if rest == [] then first else DeepMerge(FoldLeft(first, rest[..|rest| - 1]), rest[|rest| - 1])
  }

  function FoldRight(layers: seq<Value>): Value
    requires layers != []
  {
    if |layers| == 1 then layers[0] else DeepMerge(layers[0], FoldRight(layers[1..]))
  }

  /** No merge along the fold raises. */
  predicate MergeableLayers(first: Value, rest: seq<Value>) {
    rest == [] ||
    (MergeableLayers(first, rest[..|rest| - 1]) && Mergeable(FoldLeft(first, rest[..|rest| - 1]), rest[|rest| - 1]))
  }

  /** The layers merged one after the other, lowest priority first, as both programs do. */
  method MergeLayers(first: Value, rest: seq<Value>) returns (merged: Value)
    requires MergeableLayers(first, rest)
    ensures merged == FoldLeft(first, rest)
  {
    merged := first;
    for i := 0 to |rest|
      invariant merged == FoldLeft(first, rest[..i])
    {
      assert rest[..i + 1][..i] == rest[..i];
      merged := DeepMerge(merged, rest[i]);
    }
    assert rest[..|rest|] == rest;
  }

  lemma {:induction false} FoldConforms(first: Value, rest: seq<Value>, s: Schema)
    requires Conforms(first, s) && forall i :: 0 <= i < |rest| ==> Conforms(rest[i], s)
    ensures Conforms(FoldLeft(first, rest), s) && MergeableLayers(first, rest)
    decreases |rest|
  {
    if rest != [] {
      FoldConforms(first, rest[..|rest| - 1], s);
      MergeConforms(FoldLeft(first, rest[..|rest| - 1]), rest[|rest| - 1], s);
    }
  }

  lemma {:induction false} FoldShift(a: Value, b: Value, rest: seq<Value>, s: Schema)
    requires Conforms(a, s) && Conforms(b, s) && forall i :: 0 <= i < |rest| ==> Conforms(rest[i], s)
    ensures FoldLeft(DeepMerge(a, b), rest) == DeepMerge(a, FoldLeft(b, rest))
    decreases |rest|
  {
    if rest != [] {
      var init, last := rest[..|rest| - 1], rest[|rest| - 1];
      FoldShift(a, b, init, s);
      FoldConforms(b, init, s);
      MergeAssociative(a, FoldLeft(b, init), last, s);
    }
  }

  lemma {:induction false} FoldFirst(a: Value, b: Value, rest: seq<Value>)
    ensures FoldLeft(a, [b] + rest) == FoldLeft(DeepMerge(a, b), rest)
    decreases |rest|
  {
    var all := [b] + rest;
    if rest == [] {
      assert all[..0] == [];
    } else {
      assert all[..|all| - 1] == [b] + rest[..|rest| - 1];
      FoldFirst(a, b, rest[..|rest| - 1]);
    }
  }

  /** Any number of layers of one schema: grouping does not matter. */
  lemma {:induction false} LeftFoldIsRightFold(first: Value, rest: seq<Value>, s: Schema)
    requires Conforms(first, s) && forall i :: 0 <= i < |rest| ==> Conforms(rest[i], s)
    ensures FoldLeft(first, rest) == FoldRight([first] + rest)
    decreases |rest|
  {
    if rest != [] {
      LeftFoldIsRightFold(rest[0], rest[1..], s);
      assert [rest[0]] + rest[1..] == rest;
      assert ([first] + rest)[1..] == rest;
      FoldFirst(first, rest[0], rest[1..]);
      FoldShift(first, rest[0], rest[1..], s);
    }
  }

  // ------------------------------------------------------------------ which layer decides

  /** Nothing but tables stands on the way: the path ends, or breaks off at a missing key. */
  predicate Open(v: Value, path: seq<string>)
    decreases |path|
  {
    path == [] || (v.Table? && (path[0] in v.entries ==> Open(v.entries[path[0]], path[1..])))
  }

  /** A scalar of the override wins, whatever the base has. */
  lemma {:induction false} ScalarWins(b: Value, o: Value, path: seq<string>, x: Scalar)
    requires Lookup(o, path) == Some(Leaf(x))
    ensures Lookup(DeepMerge(b, o), path) == Some(Leaf(x))
    decreases |path|
  {
    if path != [] && HasField(b, path[0]) {
      ScalarWins(b.entries[path[0]], o.entries[path[0]], path[1..], x);
    }
  }

  /** Where the override breaks off, the base stays. */
  lemma {:induction false} AbsenceKeeps(b: Value, o: Value, path: seq<string>)
    requires Lookup(b, path).Some? && Open(o, path) && Lookup(o, path).None?
    ensures Lookup(DeepMerge(b, o), path) == Lookup(b, path)
    decreases |path|
  {
    if path != [] && HasField(o, path[0]) {
      AbsenceKeeps(b.entries[path[0]], o.entries[path[0]], path[1..]);
    }
  }

  /** Of any number of layers, the last one with the path decides a scalar, whatever stands below it. */
  lemma {:induction false} LastLayerDecides(first: Value, rest: seq<Value>, path: seq<string>, j: nat, x: Scalar)
    requires j <= |rest| && Lookup(([first] + rest)[j], path) == Some(Leaf(x))
    requires forall i :: j <= i < |rest| ==> Open(rest[i], path) && Lookup(rest[i], path).None?
    ensures Lookup(FoldLeft(first, rest), path) == Some(Leaf(x))
    decreases |rest|
  {
    if rest != [] {
      var init, last := rest[..|rest| - 1], rest[|rest| - 1];
      if j == |rest| {
        ScalarWins(FoldLeft(first, init), last, path, x);
      } else {
        assert ([first] + init)[j] == ([first] + rest)[j];
        LastLayerDecides(first, init, path, j, x);
        assert Open(rest[|rest| - 1], path);
        AbsenceKeeps(FoldLeft(first, init), last, path);
      }
    }
  }
}
