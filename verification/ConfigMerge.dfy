/**
 The structural merge of configuration layers: tables merge key by key, arrays whose items
 all carry the same identifier merge by it, other arrays append, anything else is replaced.
 */
module ConfigMerge {
  import opened Prelude

  datatype Scalar = Text(s: string) | Integer(n: int) | Floating(r: real) | Boolean(b: bool) | Moment(s: string)

  datatype Value = Leaf(scalar: Scalar) | Table(entries: map<string, Value>) | Array(items: seq<Value>)

  /** A scalar as a dictionary key: equal numbers are one key, whatever their type. */
  datatype Key = TextKey(s: string) | NumberKey(r: real) | MomentKey(s: string)

  function KeyOf(s: Scalar): Key {
    match s
    case Text(t) => TextKey(t)
    case Integer(n) => NumberKey(n as real)
    case Floating(r) => NumberKey(r)
    case Boolean(b) => NumberKey(if b then 1.0 else 0.0)
    case Moment(t) => MomentKey(t)
  }

  // ------------------------------------------------------------------ keyed arrays

  /** The key of an array item, if it is a table that has the field. */
  function KeyAt(v: Value, field: string): Option<Key> {
    if v.Table? && field in v.entries && v.entries[field].Leaf? then Some(KeyOf(v.entries[field].scalar)) else None
  }

  /** Looking the item up in the index does not raise: its key value is a scalar. */
  predicate Hashable(v: Value, field: string) {
    v.Table? && field in v.entries ==> v.entries[field].Leaf?
  }

  /** The last item with the key. */
  function LastWith(items: seq<Value>, k: Key, field: string): (r: Option<nat>)
    ensures r.Some? ==> r.value < |items| && KeyAt(items[r.value], field) == Some(k)
    ensures r.Some? ==> forall j :: r.value < j < |items| ==> KeyAt(items[j], field) != Some(k)
    ensures r.None? ==> forall j :: 0 <= j < |items| ==> KeyAt(items[j], field) != Some(k)
  {
    if items == [] then None
    else if KeyAt(items[|items| - 1], field) == Some(k) then Some(|items| - 1)
    else LastWith(items[..|items| - 1], k, field)
  }

  function OnlyTables(items: seq<Value>): (r: seq<Value>)
    ensures (forall i :: 0 <= i < |items| ==> items[i].Table?) ==> r == items
    ensures forall v :: v in r ==> v in items && v.Table?
  {
    if items == [] then []
    else
      var init, last := items[..|items| - 1], items[|items| - 1];
      assert items == init + [last];
      OnlyTables(init) + (if last.Table? then [last] else [])
  }

  /** One override item: it replaces the last item with its key, or goes to the end. */
  function Put(items: seq<Value>, x: Value, field: string): seq<Value> {
    var k := KeyAt(x, field);
    if k.Some? && LastWith(items, k.value, field).Some? then items[LastWith(items, k.value, field).value := x]
    else items + [x]
  }

  function PutAll(items: seq<Value>, override: seq<Value>, field: string): seq<Value>
    decreases |override|
  {
    if override == [] then items
    else Put(PutAll(items, override[..|override| - 1], field), override[|override| - 1], field)
  }

  function KeyedMerge(base: seq<Value>, override: seq<Value>, field: string): seq<Value> {
    PutAll(OnlyTables(base), override, field)
  }

  // ------------------------------------------------------------------ the loop

  /** The index knows exactly the keys present, each with its last position. */
  ghost predicate IndexOk(index: map<Key, nat>, items: seq<Value>, field: string) {
    forall k :: if k in index then LastWith(items, k, field) == Some(index[k]) else LastWith(items, k, field).None?
  }

  lemma LastWithSnoc(items: seq<Value>, x: Value, k: Key, field: string)
    ensures LastWith(items + [x], k, field) ==
            if KeyAt(x, field) == Some(k) then Some(|items|) else LastWith(items, k, field)
  {
    assert (items + [x])[..|items|] == items;
  }

  lemma LastWithUpdate(items: seq<Value>, i: nat, x: Value, k: Key, field: string)
    requires i < |items| && KeyAt(x, field) == KeyAt(items[i], field)
    ensures LastWith(items[i := x], k, field) == LastWith(items, k, field)
  {
    var a, b := LastWith(items[i := x], k, field), LastWith(items, k, field);
    if a.Some? {
      assert KeyAt(items[a.value], field) == Some(k);
    }
    if b.Some? {
      assert KeyAt(items[i := x][b.value], field) == Some(k);
    }
  }

  lemma IndexAppend(index: map<Key, nat>, items: seq<Value>, x: Value, field: string)
    requires IndexOk(index, items, field)
    ensures IndexOk(if KeyAt(x, field).Some? then index[KeyAt(x, field).value := |items|] else index,
                    items + [x], field)
  {
    forall k { LastWithSnoc(items, x, k, field); }
  }

  lemma IndexUpdate(index: map<Key, nat>, items: seq<Value>, x: Value, field: string)
    requires IndexOk(index, items, field)
    requires KeyAt(x, field).Some? && KeyAt(x, field).value in index
    ensures index[KeyAt(x, field).value] < |items|
    ensures items[index[KeyAt(x, field).value] := x] == Put(items, x, field)
    ensures IndexOk(index, items[index[KeyAt(x, field).value] := x], field)
  {
    var i := index[KeyAt(x, field).value];
    assert LastWith(items, KeyAt(x, field).value, field) == Some(i);
    forall k { LastWithUpdate(items, i, x, k, field); }
  }

  /** The indexed loop; either side may even hold items that are not tables. */
  method MergeByKey(base: seq<Value>, override: seq<Value>, field: string) returns (result: seq<Value>)
    requires forall v :: v in base || v in override ==> Hashable(v, field)
    ensures result == KeyedMerge(base, override, field)
  {
    result := [];
    var index: map<Key, nat> := map[];
    for i := 0 to |base|
      invariant result == OnlyTables(base[..i]) && IndexOk(index, result, field)
    {
      var item := base[i];
      assert item in base && base[..i + 1][..i] == base[..i];
      if item.Table? {
        IndexAppend(index, result, item, field);
        if field in item.entries {
          index := index[KeyOf(item.entries[field].scalar) := |result|];
        }
        result := result + [item];
      }
    }
    assert base[..|base|] == base;
    ghost var tables := result;
    for i := 0 to |override|
      invariant result == PutAll(tables, override[..i], field) && IndexOk(index, result, field)
    {
      var item := override[i];
      assert item in override && override[..i + 1][..i] == override[..i];
      if !item.Table? {
        IndexAppend(index, result, item, field);
        result := result + [item];
      } else if field in item.entries && KeyOf(item.entries[field].scalar) in index {
        IndexUpdate(index, result, item, field);
        result := result[index[KeyOf(item.entries[field].scalar)] := item];
      } else {
        IndexAppend(index, result, item, field);
        if field in item.entries {
          index := index[KeyOf(item.entries[field].scalar) := |result|];
        }
        result := result + [item];
      }
    }
    assert override[..|override|] == override;
  }

  // ------------------------------------------------------------------ what a keyed merge keeps

  ghost predicate AllKeyed(items: seq<Value>, field: string) {
    forall i :: 0 <= i < |items| ==> KeyAt(items[i], field).Some?
  }

  /** The keys of the items, in order. */
  function Keys(items: seq<Value>, field: string): seq<Key>
    requires AllKeyed(items, field)
  {
    seq(|items|, i requires 0 <= i < |items| => KeyAt(items[i], field).value)
  }

  /** The item found under a key: the last one that has it. */
  function Get(items: seq<Value>, k: Key, field: string): (r: Option<Value>)
    ensures r.Some? ==> r.value in items && KeyAt(r.value, field) == Some(k)
  {
    match LastWith(items, k, field)
    case None => None
    case Some(i) => Some(items[i])
  }

  /** `ks` followed by the keys of `ls` that are new, each once, where it is first seen. */
  function KeyUnion(ks: seq<Key>, ls: seq<Key>): (r: seq<Key>)
    ensures |ks| <= |r| && r[..|ks|] == ks
    ensures forall k :: k in r <==> k in ks || k in ls
    ensures Distinct(ks) ==> Distinct(r)
  {
    if ls == [] then ks
    else
      var init, k := KeyUnion(ks, ls[..|ls| - 1]), ls[|ls| - 1];
      assert ls == ls[..|ls| - 1] + [k];
      if k in init then init else init + [k]
  }

  lemma PresentIffKey(items: seq<Value>, k: Key, field: string)
    requires AllKeyed(items, field)
    ensures k in Keys(items, field) <==> LastWith(items, k, field).Some?
    ensures Get(items, k, field).Some? <==> k in Keys(items, field)
  {
    var r := LastWith(items, k, field);
    if r.Some? {
      assert Keys(items, field)[r.value] == k;
    }
    if k in Keys(items, field) {
      var i :| 0 <= i < |items| && Keys(items, field)[i] == k;
      assert KeyAt(items[i], field) == Some(k);
    }
  }

  lemma KeyUnionSnoc(ks: seq<Key>, ls: seq<Key>, k: Key)
    ensures KeyUnion(ks, ls + [k]) ==
            if k in ks || k in ls then KeyUnion(ks, ls) else KeyUnion(ks, ls) + [k]
  {
    assert (ls + [k])[..|ls|] == ls;
  }

  lemma ItemsSnoc(items: seq<Value>, x: Value, field: string)
    requires AllKeyed(items, field) && KeyAt(x, field).Some?
    ensures AllKeyed(items + [x], field)
    ensures Keys(items + [x], field) == Keys(items, field) + [KeyAt(x, field).value]
    ensures forall k :: Get(items + [x], k, field) ==
                        if k == KeyAt(x, field).value then Some(x) else Get(items, k, field)
  {
    forall k { LastWithSnoc(items, x, k, field); }
  }

  lemma PutAllSnoc(base: seq<Value>, override: seq<Value>, x: Value, field: string)
    ensures PutAll(base, override + [x], field) == Put(PutAll(base, override, field), x, field)
  {
    assert (override + [x])[..|override|] == override;
  }

  /** Storing one item: the key list grows only by a new key, and only that key's item changes. */
  lemma PutFacts(items: seq<Value>, x: Value, field: string)
    requires AllKeyed(items, field) && KeyAt(x, field).Some?
    ensures var k := KeyAt(x, field).value;
            var r := Put(items, x, field);
            && AllKeyed(r, field)
            && Keys(r, field) == (if k in Keys(items, field) then Keys(items, field) else Keys(items, field) + [k])
            && forall l :: Get(r, l, field) == if l == k then Some(x) else Get(items, l, field)
  {
    var k := KeyAt(x, field).value;
    var r := Put(items, x, field);
    PresentIffKey(items, k, field);
    var at := LastWith(items, k, field);
    if at.Some? {
      assert Keys(r, field) == Keys(items, field);
      forall l ensures Get(r, l, field) == if l == k then Some(x) else Get(items, l, field) {
        LastWithUpdate(items, at.value, x, l, field);
      }
    } else {
      assert Keys(r, field) == Keys(items, field) + [k];
      forall l ensures Get(r, l, field) == if l == k then Some(x) else Get(items, l, field) {
        LastWithSnoc(items, x, l, field);
      }
    }
  }

  /**
   The promises of the keyed merge.  Its keys are the base keys in their positions, then the
   new override keys in first-seen order; under each key it has the last override item with
   that key, else the base item; distinct base keys stay distinct.
   */
  lemma {:induction false} PutAllKeeps(base: seq<Value>, override: seq<Value>, field: string)
    requires AllKeyed(base, field) && AllKeyed(override, field)
    ensures var r := PutAll(base, override, field);
            && AllKeyed(r, field)
            && Keys(r, field) == KeyUnion(Keys(base, field), Keys(override, field))
            && (forall k :: Get(r, k, field) ==
                  if Get(override, k, field).Some? then Get(override, k, field) else Get(base, k, field))
    decreases |override|
  {
    if override == [] {
      assert Keys(override, field) == [];
    } else {
      var init, x := override[..|override| - 1], override[|override| - 1];
      assert override == init + [x];
      PutAllKeeps(base, init, field);
      PutAllSnoc(base, init, x, field);
      PutFacts(PutAll(base, init, field), x, field);
      ItemsSnoc(init, x, field);
      KeyUnionSnoc(Keys(base, field), Keys(init, field), KeyAt(x, field).value);
    }
  }

  lemma KeyedMergeKeeps(base: seq<Value>, override: seq<Value>, field: string)
    requires AllKeyed(base, field) && AllKeyed(override, field)
    ensures var r := KeyedMerge(base, override, field);
            && AllKeyed(r, field) && |r| >= |base|
            && Keys(r, field) == KeyUnion(Keys(base, field), Keys(override, field))
            && (forall i :: 0 <= i < |base| ==> KeyAt(r[i], field) == KeyAt(base[i], field))
            && (Distinct(Keys(base, field)) ==> Distinct(Keys(r, field)))
            && (forall k :: Get(r, k, field) ==
                  if Get(override, k, field).Some? then Get(override, k, field) else Get(base, k, field))
  {
    assert OnlyTables(base) == base;
    PutAllKeeps(base, override, field);
    var r := KeyedMerge(base, override, field);
    assert |Keys(r, field)| == |r|;
    forall i | 0 <= i < |base| ensures KeyAt(r[i], field) == KeyAt(base[i], field) {
      assert Keys(r, field)[..|base|][i] == Keys(base, field)[i];
    }
  }

  // ------------------------------------------------------------------ position by position

  /** A key of the base keeps its last position. */
  lemma {:induction false} LastStays(base: seq<Value>, override: seq<Value>, k: Key, field: string)
    requires AllKeyed(override, field) && LastWith(base, k, field).Some?
    ensures LastWith(PutAll(base, override, field), k, field) == LastWith(base, k, field)
    decreases |override|
  {
    if override != [] {
      var init, x := override[..|override| - 1], override[|override| - 1];
      var items, kx := PutAll(base, init, field), KeyAt(x, field);
      LastStays(base, init, k, field);
      var at := LastWith(items, kx.value, field);
      if at.Some? {
        LastWithUpdate(items, at.value, x, k, field);
      } else {
        LastWithSnoc(items, x, k, field);
      }
    }
  }

  /** The last override item with the key, if the base item is the last of its key; else the base item. */
  function Winner(base: seq<Value>, override: seq<Value>, i: nat, field: string): Value
    requires i < |base| && AllKeyed(base, field)
  {
    var k := KeyAt(base[i], field).value;
    var o := LastWith(override, k, field);
    if LastWith(base, k, field) == Some(i) && o.Some? then override[o.value] else base[i]
  }

  lemma {:induction false} BaseItemAt(base: seq<Value>, override: seq<Value>, i: nat, field: string)
    requires AllKeyed(base, field) && AllKeyed(override, field) && i < |base|
    ensures var r := PutAll(base, override, field);
            i < |r| && KeyAt(r[i], field) == KeyAt(base[i], field) && r[i] == Winner(base, override, i, field)
    decreases |override|
  {
    if override != [] {
      var init, x := override[..|override| - 1], override[|override| - 1];
      var k, kx := KeyAt(base[i], field).value, KeyAt(x, field).value;
      assert override == init + [x];
      BaseItemAt(base, init, i, field);
      LastStays(base, init, k, field);
      LastWithSnoc(init, x, k, field);
    }
  }

  ghost predicate SeenFirst(ls: seq<Key>, k: Key, l: Key) {
    exists i :: 0 <= i < |ls| && ls[i] == k && forall j :: 0 <= j <= i ==> ls[j] != l
  }

  lemma {:induction false} NewKey(ks: seq<Key>, ls: seq<Key>, p: nat)
    requires |ks| <= p < |KeyUnion(ks, ls)|
    ensures KeyUnion(ks, ls)[p] !in ks && KeyUnion(ks, ls)[p] in ls
    decreases |ls|
  {
    var init, k := ls[..|ls| - 1], ls[|ls| - 1];
    assert ls == init + [k];
    if p < |KeyUnion(ks, init)| {
      NewKey(ks, init, p);
    }
  }

  /** New keys stand in the order in which the override first names them. */
  lemma {:induction false} NewKeysInOrder(ks: seq<Key>, ls: seq<Key>, p: nat, q: nat)
    requires |ks| <= p < q < |KeyUnion(ks, ls)|
    ensures SeenFirst(ls, KeyUnion(ks, ls)[p], KeyUnion(ks, ls)[q])
    decreases |ls|
  {
    var init, k := ls[..|ls| - 1], ls[|ls| - 1];
    var before := KeyUnion(ks, init);
    assert ls == init + [k];
    if q < |before| {
      NewKeysInOrder(ks, init, p, q);
      var i :| 0 <= i < |init| && init[i] == before[p] && forall j :: 0 <= j <= i ==> init[j] != before[q];
      assert forall j :: 0 <= j <= i ==> ls[j] == init[j];
      assert ls[i] == before[p];
    } else {
      NewKey(ks, init, p);
      var i :| 0 <= i < |init| && init[i] == before[p];
      assert forall j :: 0 <= j <= i ==> ls[j] == init[j] && init[j] in init;
      assert ls[i] == before[p];
    }
  }

  /**
   The keyed merge, position by position: a base position holds the last override item with its
   key, if it is the last of that key in the base, and otherwise its own item; behind them stand
   the new keys in the order first named, each with its last override item.
   */
  lemma MergedByPosition(base: seq<Value>, override: seq<Value>, field: string)
    requires AllKeyed(base, field) && AllKeyed(override, field)
    ensures var r := KeyedMerge(base, override, field);
            && |base| <= |r| && AllKeyed(r, field)
            && (forall i :: 0 <= i < |base| ==> r[i] == Winner(base, override, i, field))
            && (forall p :: |base| <= p < |r| ==>
                  Some(r[p]) == Get(override, KeyAt(r[p], field).value, field)
                  && LastWith(base, KeyAt(r[p], field).value, field).None?)
            && forall p, q :: |base| <= p < q < |r| ==>
                 SeenFirst(Keys(override, field), KeyAt(r[p], field).value, KeyAt(r[q], field).value)
  {
    assert OnlyTables(base) == base;
    KeyedMergeKeeps(base, override, field);
    var r := KeyedMerge(base, override, field);
    forall i | 0 <= i < |base| ensures r[i] == Winner(base, override, i, field) {
      BaseItemAt(base, override, i, field);
    }
    forall p | |base| <= p < |r|
      ensures Some(r[p]) == Get(override, KeyAt(r[p], field).value, field)
      ensures LastWith(base, KeyAt(r[p], field).value, field).None?
    {
      NewItemAt(base, override, p, field);
    }
    forall p, q | |base| <= p < q < |r|
      ensures SeenFirst(Keys(override, field), KeyAt(r[p], field).value, KeyAt(r[q], field).value)
    {
      NewKeysInOrder(Keys(base, field), Keys(override, field), p, q);
      assert Keys(r, field)[p] == KeyAt(r[p], field).value && Keys(r, field)[q] == KeyAt(r[q], field).value;
    }
  }

  /** A new key stands at one position only. */
  lemma NewIsLast(r: seq<Value>, ks: seq<Key>, ls: seq<Key>, p: nat, field: string)
    requires AllKeyed(r, field) && Keys(r, field) == KeyUnion(ks, ls) && |ks| <= p < |r|
    ensures LastWith(r, Keys(r, field)[p], field) == Some(p)
  {
    var k := Keys(r, field)[p];
    PresentIffKey(r, k, field);
    var last := LastWith(r, k, field).value;
    assert Keys(r, field)[last] == k;
    assert KeyAt(r[p], field) == Some(k);
    if p < last {
      NewKeysInOrder(ks, ls, p, last);
    }
  }

  lemma NewItemAt(base: seq<Value>, override: seq<Value>, p: nat, field: string)
    requires AllKeyed(base, field) && AllKeyed(override, field) && |base| <= p < |KeyedMerge(base, override, field)|
    ensures var r := KeyedMerge(base, override, field);
            && AllKeyed(r, field)
            && Some(r[p]) == Get(override, KeyAt(r[p], field).value, field)
            && LastWith(base, KeyAt(r[p], field).value, field).None?
  {
    KeyedMergeKeeps(base, override, field);
    var r := KeyedMerge(base, override, field);
    var ks, ls := Keys(base, field), Keys(override, field);
    var k := Keys(r, field)[p];
    NewKey(ks, ls, p);
    NewIsLast(r, ks, ls, p, field);
    PresentIffKey(base, k, field);
    PresentIffKey(override, k, field);
    assert Get(r, k, field) == Some(r[p]);
  }
}
