/** The layer merge of src/config/loader.ts. */
module ConfigMerge {
  import opened Text

  /** A parsed configuration value. Numbers, booleans and null are `Scalar`. */
  datatype Value = Scalar(text: string) | Str(text: string) | Arr(items: seq<Value>) | Obj(fields: map<string, Value>)

  const EXTEND_ARRAY_KEYS: set<string> :=
    {"tools", "agents", "providers", "bindings", "origins", "fileAccessPaths", "fileAccessPresets"}

  // ------------------------------------------------------------ deduplication by id

  function IdOf(item: Value): Option<string> {
    if item.Obj? && "id" in item.fields && item.fields["id"].Str? then Some(item.fields["id"].text) else None
  }

  /** Position of the item with the given id. */
  function Find(items: seq<Value>, id: string): (at: Option<nat>)
    ensures at.Some? ==> at.value < |items| && IdOf(items[at.value]) == Some(id)
    ensures at.Some? ==> forall k :: 0 <= k < at.value ==> IdOf(items[k]) != Some(id)
    ensures at.None? ==> forall k :: 0 <= k < |items| ==> IdOf(items[k]) != Some(id)
  {
    if items == [] then None
    else if IdOf(items[0]) == Some(id) then Some(0)
    else
      var rest := Find(items[1..], id);
      if rest.None? then None
      else
        assert forall k :: 1 <= k < rest.value + 1 ==> items[k] == items[1..][k - 1];
        Some(rest.value + 1)
  }

  /** Where an item goes: over the earlier item with its id, else to the end. */
  function Insert(items: seq<Value>, item: Value): seq<Value> {
    var at := if IdOf(item).None? then None else Find(items, IdOf(item).value);
    if at.Some? then items[at.value := item] else items + [item]
  }

  function InsertAll(items: seq<Value>, more: seq<Value>): seq<Value>
    decreases |more|
  {
    if more == [] then items else InsertAll(Insert(items, more[0]), more[1..])
  }

  function Dedup(items: seq<Value>): seq<Value> {
    InsertAll([], items)
  }

  /** No two items share an id. */
  predicate Distinct(items: seq<Value>) {
    forall i, j :: 0 <= i < j < |items| && IdOf(items[i]).Some? ==> IdOf(items[i]) != IdOf(items[j])
  }

  /** src/config/loader.ts deduplicateById, with its index of the ids seen. */
  method DeduplicateById(arr: seq<Value>) returns (result: seq<Value>)
    ensures result == Dedup(arr)
  {
    var seen: map<string, nat> := map[];
    result := [];
    assert arr[0..] == arr;
    for k := 0 to |arr|
      invariant InsertAll(result, arr[k..]) == Dedup(arr)
      invariant Distinct(result)
      invariant forall id :: id in seen ==> seen[id] < |result| && IdOf(result[seen[id]]) == Some(id)
      invariant forall i :: 0 <= i < |result| && IdOf(result[i]).Some? ==> IdOf(result[i]).value in seen
    {
      var item := arr[k];
      assert arr[k..][0] == item && arr[k..][1..] == arr[k + 1..];
      ghost var next := Insert(result, item);
      InsertKeepsDistinct(result, item);
      var id := IdOf(item);
      if id.Some? {
        if id.value in seen {
          FindIsUnique(result, seen[id.value]);
          result := result[seen[id.value] := item];
        } else {
          seen := seen[id.value := |result|];
          result := result + [item];
        }
      } else {
        result := result + [item];
      }
      assert result == next;
    }
  }

  lemma FindIsUnique(items: seq<Value>, at: nat)
    requires Distinct(items) && at < |items| && IdOf(items[at]).Some?
    ensures Find(items, IdOf(items[at]).value) == Some(at)
  {
  }

  lemma InsertKeepsDistinct(items: seq<Value>, item: Value)
    requires Distinct(items)
    ensures Distinct(Insert(items, item))
  {
  }

  lemma {:induction false} InsertAllKeepsDistinct(items: seq<Value>, more: seq<Value>)
    requires Distinct(items)
    ensures Distinct(InsertAll(items, more))
    decreases |more|
  {
    if more != [] {
      InsertKeepsDistinct(items, more[0]);
      InsertAllKeepsDistinct(Insert(items, more[0]), more[1..]);
    }
  }

  lemma {:induction false} InsertAllAppend(items: seq<Value>, a: seq<Value>, b: seq<Value>)
    ensures InsertAll(items, a + b) == InsertAll(InsertAll(items, a), b)
    decreases |a|
  {
    if a == [] {
      assert a + b == b;
    } else {
      assert (a + b)[1..] == a[1..] + b;
      InsertAllAppend(Insert(items, a[0]), a[1..], b);
    }
  }

  predicate HasId(items: seq<Value>, id: string) {
    Find(items, id).Some?
  }

  lemma InsertFinds(items: seq<Value>, item: Value, id: string)
    ensures HasId(Insert(items, item), id) <==> HasId(items, id) || IdOf(item) == Some(id)
  {
    var next := Insert(items, item);
    if HasId(items, id) {
      assert IdOf(next[Find(items, id).value]) == Some(id);
    }
    if IdOf(item) == Some(id) && !HasId(items, id) {
      assert next[|items|] == item;
    }
  }

  /** Items whose ids are new, and pairwise different, are appended as they are. */
  lemma {:induction false} FreshItemsAppend(items: seq<Value>, more: seq<Value>)
    requires Distinct(more)
    requires forall k :: 0 <= k < |more| && IdOf(more[k]).Some? ==> !HasId(items, IdOf(more[k]).value)
    ensures InsertAll(items, more) == items + more
    decreases |more|
  {
    if more != [] {
      var next := Insert(items, more[0]);
      assert next == items + [more[0]];
      forall k | 0 <= k < |more[1..]| && IdOf(more[1..][k]).Some? ensures !HasId(next, IdOf(more[1..][k]).value) {
        InsertFinds(items, more[0], IdOf(more[1..][k]).value);
        assert more[1..][k] == more[k + 1];
      }
      FreshItemsAppend(next, more[1..]);
      assert next + more[1..] == items + more;
    }
  }

  /** Deduplication leaves an array without repeated ids alone, and yields one. */
  lemma DedupIdempotent(items: seq<Value>)
    ensures Distinct(Dedup(items)) && Dedup(Dedup(items)) == Dedup(items)
    ensures Distinct(items) ==> Dedup(items) == items
  {
    InsertAllKeepsDistinct([], items);
    FreshItemsAppend([], Dedup(items));
    if Distinct(items) {
      FreshItemsAppend([], items);
    }
  }

  lemma InsertTwice(items: seq<Value>, earlier: Value, item: Value)
    requires IdOf(earlier).Some? && IdOf(earlier) == IdOf(item)
    ensures Insert(Insert(items, earlier), item) == Insert(items, item)
    ensures HasId(Insert(items, earlier), IdOf(item).value)
  {
    var id := IdOf(item).value;
    var once := Insert(items, earlier);
    InsertFinds(items, earlier, id);
    var at := Find(once, id).value;
    if HasId(items, id) {
      var p := Find(items, id).value;
      assert IdOf(once[p]) == Some(id);
      assert forall k :: 0 <= k < p ==> once[k] == items[k];
      assert at == p;
    } else {
      assert forall k :: 0 <= k < |items| ==> once[k] == items[k];
      assert at == |items|;
    }
  }

  /** Replacing an item that is there commutes with inserting items of other ids. */
  lemma InsertCommutes(items: seq<Value>, item: Value, other: Value)
    requires IdOf(item).Some? && HasId(items, IdOf(item).value) && IdOf(other) != IdOf(item)
    ensures Insert(Insert(items, other), item) == Insert(Insert(items, item), other)
    ensures HasId(Insert(items, other), IdOf(item).value)
  {
    var id := IdOf(item).value;
    var b := Insert(items, item);
    InsertFinds(items, other, id);
    InsertKeepsPlace(items, other, id);
    assert forall k :: 0 <= k < |items| ==> IdOf(b[k]) == IdOf(items[k]);
    if IdOf(other).Some? {
      SameIdsFindSame(items, b, IdOf(other).value);
    }
  }

  lemma InsertKeepsPlace(items: seq<Value>, other: Value, id: string)
    requires HasId(items, id) && IdOf(other) != Some(id)
    ensures Find(Insert(items, other), id) == Find(items, id)
  {
    var p, next := Find(items, id).value, Insert(items, other);
    assert forall k :: 0 <= k <= p ==> IdOf(next[k]) == IdOf(items[k]);
  }

  lemma SameIdsFindSame(a: seq<Value>, b: seq<Value>, id: string)
    requires |a| == |b| && forall k :: 0 <= k < |a| ==> IdOf(a[k]) == IdOf(b[k])
    ensures Find(a, id) == Find(b, id)
  {
  }

  lemma {:induction false} InsertAllCommutes(items: seq<Value>, item: Value, more: seq<Value>)
    requires IdOf(item).Some? && HasId(items, IdOf(item).value)
    requires forall k :: 0 <= k < |more| ==> IdOf(more[k]) != IdOf(item)
    ensures Insert(InsertAll(items, more), item) == InsertAll(Insert(items, item), more)
    decreases |more|
  {
    if more != [] {
      InsertCommutes(items, item, more[0]);
      InsertAllCommutes(Insert(items, more[0]), item, more[1..]);
    }
  }

  /** Inserting a deduplicated array is inserting the array. */
  lemma {:induction false} InsertAllDedup(items: seq<Value>, more: seq<Value>)
    ensures InsertAll(items, Dedup(more)) == InsertAll(items, more)
    decreases |more|
  {
    if more != [] {
      var front, item := more[..|more| - 1], more[|more| - 1];
      assert more == front + [item];
      InsertAllAppend([], front, [item]);
      InsertAllAppend(items, front, [item]);
      assert InsertAll(Dedup(front), [item]) == Insert(Dedup(front), item);
      assert InsertAll(InsertAll(items, front), [item]) == Insert(InsertAll(items, front), item);
      InsertAllDedup(items, front);
      InsertAllKeepsDistinct([], front);
      InsertIntoDedup(items, Dedup(front), item);
    }
  }

  lemma InsertIntoDedup(items: seq<Value>, unique: seq<Value>, item: Value)
    requires Distinct(unique)
    ensures InsertAll(items, Insert(unique, item)) == Insert(InsertAll(items, unique), item)
  {
    if IdOf(item).Some? && HasId(unique, IdOf(item).value) {
      var p := Find(unique, IdOf(item).value).value;
      var before, after := unique[..p], unique[p + 1..];
      assert unique == before + ([unique[p]] + after);
      assert Insert(unique, item) == before + ([item] + after);
      InsertAllAppend(items, before, [unique[p]] + after);
      InsertAllAppend(items, before, [item] + after);
      var s := InsertAll(items, before);
      assert ([unique[p]] + after)[1..] == after && ([item] + after)[1..] == after;
      InsertTwice(s, unique[p], item);
      InsertAllCommutes(Insert(s, unique[p]), item, after);
    } else {
      InsertAllAppend(items, unique, [item]);
      assert InsertAll(InsertAll(items, unique), [item]) == Insert(InsertAll(items, unique), item);
    }
  }

  /** The law the layers rest on: it does not matter which part is deduplicated first. */
  lemma DedupLaw(a: seq<Value>, b: seq<Value>, c: seq<Value>)
    ensures Dedup(Dedup(a + b) + c) == Dedup(a + b + c)
    ensures Dedup(a + Dedup(b + c)) == Dedup(a + b + c)
  {
    DedupFront(a + b, c);
    DedupBack(a, b + c);
    Regroup(a, b, c);
  }

  lemma DedupFront(front: seq<Value>, c: seq<Value>)
    ensures Dedup(Dedup(front) + c) == Dedup(front + c)
  {
    InsertAllAppend([], Dedup(front), c);
    InsertAllAppend([], front, c);
    DedupIdempotent(front);
  }

  lemma DedupBack(a: seq<Value>, back: seq<Value>)
    ensures Dedup(a + Dedup(back)) == Dedup(a + back)
  {
    InsertAllAppend([], a, Dedup(back));
    InsertAllAppend([], a, back);
    InsertAllDedup(Dedup(a), back);
  }

  /** The last item of the array with the given id. */
  function LastWith(items: seq<Value>, id: string): Option<Value> {
    if items == [] then None
    else if IdOf(items[|items| - 1]) == Some(id) then Some(items[|items| - 1])
    else LastWith(items[..|items| - 1], id)
  }

  function Ids(items: seq<Value>): seq<Option<string>> {
    seq(|items|, i requires 0 <= i < |items| => IdOf(items[i]))
  }

  /** The ids in order of first appearance, with None for every item without id. */
  function FirstIds(items: seq<Value>): seq<Option<string>> {
    if items == [] then []
    else
      var before, id := FirstIds(items[..|items| - 1]), IdOf(items[|items| - 1]);
      if id.Some? && id in before then before else before + [id]
  }

  function WithoutId(items: seq<Value>): seq<Value> {
    if items == [] then []
    else WithoutId(items[..|items| - 1]) + if IdOf(items[|items| - 1]).None? then [items[|items| - 1]] else []
  }

  /** What deduplication returns, in terms of the array alone: each id once, where it
      first appeared and with its last item, and every item without id, in order. */
  lemma {:induction false} DedupMeaning(items: seq<Value>)
    ensures Ids(Dedup(items)) == FirstIds(items)
    ensures forall k :: 0 <= k < |Dedup(items)| && IdOf(Dedup(items)[k]).Some? ==>
              LastWith(items, IdOf(Dedup(items)[k]).value) == Some(Dedup(items)[k])
    ensures WithoutId(Dedup(items)) == WithoutId(items)
  {
    if items != [] {
      var front, item := items[..|items| - 1], items[|items| - 1];
      var before := Dedup(front);
      DedupMeaning(front);
      assert items == front + [item];
      InsertAllAppend([], front, [item]);
      assert InsertAll(before, [item]) == Insert(before, item);
      InsertAllKeepsDistinct([], front);
      InsertEffect(before, item);
    }
  }

  lemma InsertEffect(items: seq<Value>, item: Value)
    requires Distinct(items)
    ensures var next := Insert(items, item);
            && Ids(next) == (if IdOf(item).Some? && IdOf(item) in Ids(items) then Ids(items) else Ids(items) + [IdOf(item)])
            && WithoutId(next) == WithoutId(items) + (if IdOf(item).None? then [item] else [])
            && forall k :: 0 <= k < |next| ==> next[k] == item || (k < |items| && next[k] == items[k] && IdOf(items[k]) != IdOf(item))
                                               || (k < |items| && next[k] == items[k] && IdOf(item).None?)
  {
    var next := Insert(items, item);
    if IdOf(item).Some? && HasId(items, IdOf(item).value) {
      var p := Find(items, IdOf(item).value).value;
      assert Ids(items)[p] == IdOf(item);
      ReplaceKeepsWithoutId(items, p, item);
      assert WithoutId(items) + [] == WithoutId(items);
    } else {
      assert next[..|items|] == items;
    }
  }

  lemma {:induction false} ReplaceKeepsWithoutId(items: seq<Value>, p: nat, item: Value)
    requires p < |items| && IdOf(items[p]).Some? && IdOf(item).Some?
    ensures WithoutId(items[p := item]) == WithoutId(items)
    decreases |items|
  {
    var front := items[..|items| - 1];
    if p < |front| {
      assert items[p := item][..|items| - 1] == front[p := item];
      ReplaceKeepsWithoutId(front, p, item);
    } else {
      assert items[p := item][..|items| - 1] == front;
    }
  }

  // ------------------------------------------------------------ the deep merge

  function Get(holder: Value, key: string): Option<Value>
    requires holder.Obj?
  {
    if key in holder.fields then Some(holder.fields[key]) else None
  }

  /** The value of a key the upper layer has. */
  function Combined(key: string, base: Option<Value>, over: Value): Value
    decreases over, 1
  {
    if over.Arr? && key in EXTEND_ARRAY_KEYS then
      Arr(Dedup((if base.Some? && base.value.Arr? then base.value.items else []) + over.items))
    else if over.Obj? && base.Some? && base.value.Obj? then Merge(base.value, over)
    else over
  }

  function Merge(base: Value, over: Value): (merged: Value)
    requires base.Obj? && over.Obj?
    ensures merged.Obj? && merged.fields.Keys == base.fields.Keys + over.fields.Keys
    decreases over, 0
  {
    Obj(map key | key in base.fields.Keys + over.fields.Keys ::
      if key in over.fields then Combined(key, Get(base, key), over.fields[key]) else base.fields[key])
  }

  /** src/config/loader.ts deepMerge. */
  method DeepMerge(base: Value, over: Value) returns (merged: Value)
    requires base.Obj? && over.Obj?
    ensures merged == Merge(base, over)
    decreases over
  {
    var result := base.fields;
    var todo := over.fields.Keys;
    while todo != {}
      invariant todo <= over.fields.Keys
      invariant result.Keys == base.fields.Keys + (over.fields.Keys - todo)
      invariant forall key :: key in result ==>
                  result[key] == if key in over.fields && key !in todo
                                 then Combined(key, Get(base, key), over.fields[key]) else base.fields[key]
      decreases todo
    {
      var key :| key in todo;
      todo := todo - {key};
      var overrideVal := over.fields[key];
      var baseVal := if key in result then Some(result[key]) else None;
      if overrideVal.Arr? && key in EXTEND_ARRAY_KEYS {
        var baseArr := if baseVal.Some? && baseVal.value.Arr? then baseVal.value.items else [];
        var items := DeduplicateById(baseArr + overrideVal.items);
        result := result[key := Arr(items)];
      } else if overrideVal.Obj? && baseVal.Some? && baseVal.value.Obj? {
        var inner := DeepMerge(baseVal.value, overrideVal);
        result := result[key := inner];
      } else {
        result := result[key := overrideVal];
      }
    }
    assert result == Merge(base, over).fields;
    merged := Obj(result);
  }

  // ------------------------------------------------------------ layers that agree in kind

  datatype Kind = ScalarKind | ArrayKind | ObjectKind

  function KindOf(v: Value): Kind {
    match v
    case Scalar(_) => ScalarKind
    case Str(_) => ScalarKind
    case Arr(_) => ArrayKind
    case Obj(_) => ObjectKind
  }

  /** The same kind of value at every path that both have. */
  predicate Agree(a: Value, b: Value)
    decreases a
  {
    && KindOf(a) == KindOf(b)
    && (a.Obj? ==> forall key :: key in a.fields && key in b.fields ==> Agree(a.fields[key], b.fields[key]))
  }

  /** The merge, seen at one key. */
  function CombinedAt(key: string, base: Option<Value>, over: Option<Value>): Option<Value> {
    if over.None? then base else Some(Combined(key, base, over.value))
  }

  lemma MergeAt(base: Value, over: Value, key: string)
    requires base.Obj? && over.Obj?
    ensures Get(Merge(base, over), key) == CombinedAt(key, Get(base, key), Get(over, key))
  {
  }

  function ItemsOf(v: Option<Value>): seq<Value> {
    if v.Some? && v.value.Arr? then v.value.items else []
  }

  // ------------------------------------------------------------ when merging is associative

  /** Every item of `a` has an id, and `c` begins with these ids in this order. */
  predicate ComesFirst(a: seq<Value>, c: seq<Value>) {
    None !in FirstIds(a) && FirstIds(a) <= FirstIds(c)
  }

  /** Nothing of `x` is left when `z` is merged over it. */
  predicate Hidden(x: Value, z: Value)
    requires x.Obj? && z.Obj?
    decreases z, 0
  {
    && x.fields.Keys <= z.fields.Keys
    && forall key :: key in z.fields ==> HiddenAt(key, Get(x, key), z.fields[key])
  }

  predicate HiddenAt(key: string, x: Option<Value>, z: Value)
    decreases z, 1
  {
    if key in EXTEND_ARRAY_KEYS && z.Arr? then Distinct(z.items) && ComesFirst(ItemsOf(x), z.items)
    else x.Some? && x.value.Obj? && z.Obj? ==> Hidden(x.value, z)
  }

  /** Merged from the bottom, the middle layer cuts off what the lower one has; merged
      from the top, it does not. */
  predicate Breaks(key: string, x: Value, y: Value, z: Value) {
    if key in EXTEND_ARRAY_KEYS && z.Arr? then x.Arr? && !y.Arr? && !ComesFirst(x.items, z.items)
    else x.Obj? && !y.Obj? && z.Obj? && !Hidden(x, z)
  }

  /** At no path do the three layers break. */
  predicate Associate(a: Value, b: Value, c: Value)
    requires a.Obj? && b.Obj? && c.Obj?
    decreases a, 0
  {
    forall key :: key in a.fields && key in b.fields && key in c.fields ==>
      AssociateAt(key, a.fields[key], b.fields[key], c.fields[key])
  }

  predicate AssociateAt(key: string, x: Value, y: Value, z: Value)
    decreases x, 1
  {
    if x.Obj? && y.Obj? && z.Obj? then Associate(x, y, z) else !Breaks(key, x, y, z)
  }

  lemma {:induction false} IdsStayInFront(items: seq<Value>, more: seq<Value>)
    ensures Ids(items) <= Ids(InsertAll(items, more))
    decreases |more|
  {
    if more != [] {
      var next := Insert(items, more[0]);
      assert Ids(items) <= Ids(next);
      IdsStayInFront(next, more[1..]);
    }
  }

  lemma {:induction false} WithoutIdAppend(a: seq<Value>, b: seq<Value>)
    ensures WithoutId(a + b) == WithoutId(a) + WithoutId(b)
  {
    if b == [] {
      assert a + b == a;
    } else {
      assert (a + b)[..|a + b| - 1] == a + b[..|b| - 1];
      WithoutIdAppend(a, b[..|b| - 1]);
    }
  }

  lemma {:induction false} NoneMeansWithoutId(items: seq<Value>)
    ensures WithoutId(items) == [] <==> None !in Ids(items)
  {
    if items != [] {
      var front := items[..|items| - 1];
      NoneMeansWithoutId(front);
      assert Ids(items) == Ids(front) + [IdOf(items[|items| - 1])];
    }
  }

  /** Items with the ids of the array replace it one by one. */
  lemma {:induction false} ReplaceAll(items: seq<Value>, more: seq<Value>, done: nat)
    requires Distinct(items) && |items| == |more| && done <= |items|
    requires Ids(items) == Ids(more) && None !in Ids(items)
    requires items[..done] == more[..done]
    ensures InsertAll(items, more[done..]) == more
    decreases |items| - done
  {
    if done < |items| {
      var item := more[done];
      assert Ids(items)[done] == Ids(more)[done] == IdOf(item) && IdOf(item) in Ids(items);
      FindIsUnique(items, done);
      var next := items[done := item];
      assert Insert(items, item) == next;
      assert more[done..][0] == item && more[done..][1..] == more[done + 1..];
      assert Ids(next) == Ids(items);
      InsertKeepsDistinct(items, item);
      ReplaceAll(next, more, done + 1);
    } else {
      assert items == more;
    }
  }

  /** For arrays without repeated ids. */
  lemma AddsNothingExactlyWhen(u: seq<Value>, v: seq<Value>)
    requires Distinct(u) && Distinct(v)
    ensures InsertAll(u, v) == v <==> None !in Ids(u) && Ids(u) <= Ids(v)
  {
    if InsertAll(u, v) == v {
      IdsStayInFront(u, v);
      NothingIsWithoutId(u, v);
    } else if None !in Ids(u) && Ids(u) <= Ids(v) {
      assert v == v[..|u|] + v[|u|..];
      AddsNothing(u, v[..|u|], v[|u|..]);
    }
  }

  lemma NothingIsWithoutId(u: seq<Value>, v: seq<Value>)
    requires Distinct(u) && InsertAll(u, v) == v
    ensures None !in Ids(u)
  {
    InsertAllAppend([], u, v);
    DedupIdempotent(u);
    DedupMeaning(u + v);
    WithoutIdAppend(u, v);
    NoneMeansWithoutId(u);
  }

  lemma AddsNothing(u: seq<Value>, front: seq<Value>, back: seq<Value>)
    requires Distinct(u) && Distinct(front + back) && |u| == |front|
    requires None !in Ids(u) && Ids(u) <= Ids(front + back)
    ensures InsertAll(u, front + back) == front + back
  {
    assert forall k :: 0 <= k < |u| ==> Ids(u)[k] == Ids(front + back)[k] == Ids(front)[k];
    assert Ids(u) == Ids(front);
    ReplaceAll(u, front, 0);
    assert front[0..] == front;
    InsertAllAppend(u, front, back);
    assert forall k :: 0 <= k < |back| ==> back[k] == (front + back)[|front| + k];
    assert forall k :: 0 <= k < |front| ==> front[k] == (front + back)[k];
    FreshItemsAppend(front, back);
  }

  /** When an array in front of another leaves no trace in their union. */
  lemma NoTraceExactlyWhen(a: seq<Value>, c: seq<Value>)
    ensures Dedup(a + c) == Dedup(c) <==> ComesFirst(a, c)
    ensures Dedup(a + c) == c <==> Distinct(c) && ComesFirst(a, c)
  {
    InsertAllAppend([], a, c);
    InsertAllDedup(Dedup(a), c);
    DedupIdempotent(a);
    DedupIdempotent(c);
    DedupIdempotent(a + c);
    AddsNothingExactlyWhen(Dedup(a), Dedup(c));
    DedupMeaning(a);
    DedupMeaning(c);
  }

  lemma {:induction false} HiddenExactlyWhen(x: Value, z: Value)
    requires x.Obj? && z.Obj?
    ensures Merge(x, z) == z <==> Hidden(x, z)
    decreases z, 0
  {
    var m := Merge(x, z);
    forall key | key in z.fields ensures m.fields[key] == z.fields[key] <==> HiddenAt(key, Get(x, key), z.fields[key]) {
      MergeAt(x, z, key);
      HiddenAtExactlyWhen(key, Get(x, key), z.fields[key]);
    }
    assert m.fields == z.fields <==>
      m.fields.Keys == z.fields.Keys && forall key :: key in z.fields ==> m.fields[key] == z.fields[key];
  }

  lemma {:induction false} HiddenAtExactlyWhen(key: string, x: Option<Value>, z: Value)
    ensures Combined(key, x, z) == z <==> HiddenAt(key, x, z)
    decreases z, 1
  {
    if key in EXTEND_ARRAY_KEYS && z.Arr? {
      NoTraceExactlyWhen(ItemsOf(x), z.items);
    } else if x.Some? && x.value.Obj? && z.Obj? {
      HiddenExactlyWhen(x.value, z);
    }
  }

  /** Merging three layers is associative exactly when they break at no path. */
  lemma {:induction false} MergeAssociatesExactlyWhen(a: Value, b: Value, c: Value)
    requires a.Obj? && b.Obj? && c.Obj?
    ensures Merge(Merge(a, b), c) == Merge(a, Merge(b, c)) <==> Associate(a, b, c)
    decreases a, 0
  {
    var left, right := Merge(Merge(a, b), c), Merge(a, Merge(b, c));
    forall key | key in left.fields
      ensures left.fields[key] == right.fields[key] <==>
              (key in a.fields && key in b.fields && key in c.fields ==>
                 AssociateAt(key, a.fields[key], b.fields[key], c.fields[key]))
    {
      MergeAt(a, b, key);
      MergeAt(Merge(a, b), c, key);
      MergeAt(b, c, key);
      MergeAt(a, Merge(b, c), key);
      if key in a.fields && key in b.fields && key in c.fields {
        AssociateAtExactlyWhen(key, a.fields[key], b.fields[key], c.fields[key]);
      } else {
        AbsentAssociates(key, Get(a, key), Get(b, key), Get(c, key));
      }
    }
    assert left.fields == right.fields <==> forall key :: key in left.fields ==> left.fields[key] == right.fields[key];
  }

  lemma {:induction false} AssociateAtExactlyWhen(key: string, x: Value, y: Value, z: Value)
    ensures AssociateAt(key, x, y, z) <==>
            CombinedAt(key, CombinedAt(key, Some(x), Some(y)), Some(z))
            == CombinedAt(key, Some(x), CombinedAt(key, Some(y), Some(z)))
    decreases x, 1
  {
    if key in EXTEND_ARRAY_KEYS && z.Arr? {
      ExtendedAssociate(key, x, y, z.items);
    } else if x.Obj? && z.Obj? {
      if y.Obj? {
        MergeAssociatesExactlyWhen(x, y, z);
      } else {
        HiddenExactlyWhen(x, z);
      }
    }
  }

  lemma Extended(key: string, x: Option<Value>, c: seq<Value>)
    requires key in EXTEND_ARRAY_KEYS
    ensures CombinedAt(key, x, Some(Arr(c))) == Some(Arr(Dedup(ItemsOf(x) + c)))
  {
  }

  /** Merged from the top, extended arrays are deduplicated as one. */
  lemma ExtendedFromTop(key: string, x: Option<Value>, y: Option<Value>, c: seq<Value>)
    requires key in EXTEND_ARRAY_KEYS
    ensures CombinedAt(key, x, CombinedAt(key, y, Some(Arr(c)))) == Some(Arr(Dedup(ItemsOf(x) + ItemsOf(y) + c)))
  {
    Extended(key, y, c);
    Extended(key, x, Dedup(ItemsOf(y) + c));
    DedupLaw(ItemsOf(x), ItemsOf(y), c);
    DedupBack(ItemsOf(x), ItemsOf(y) + c);
  }

  /** Merged from the bottom, unless the middle layer holds something else. */
  lemma ExtendedFromBottom(key: string, x: Option<Value>, b: seq<Value>, c: seq<Value>)
    requires key in EXTEND_ARRAY_KEYS
    ensures CombinedAt(key, CombinedAt(key, x, Some(Arr(b))), Some(Arr(c))) == Some(Arr(Dedup(ItemsOf(x) + b + c)))
  {
    Extended(key, x, b);
    Extended(key, Some(Arr(Dedup(ItemsOf(x) + b))), c);
    DedupFront(ItemsOf(x) + b, c);
  }

  /** Extended arrays, where the law of deduplication is what it takes. */
  lemma ExtendedAssociate(key: string, x: Value, y: Value, c: seq<Value>)
    requires key in EXTEND_ARRAY_KEYS
    ensures !Breaks(key, x, y, Arr(c)) <==>
            CombinedAt(key, CombinedAt(key, Some(x), Some(y)), Some(Arr(c)))
            == CombinedAt(key, Some(x), CombinedAt(key, Some(y), Some(Arr(c))))
  {
    ExtendedFromTop(key, Some(x), Some(y), c);
    if y.Arr? {
      ExtendedFromBottom(key, Some(x), y.items, c);
    } else {
      CutOff(key, x, y, c);
    }
  }

  lemma CutOff(key: string, x: Value, y: Value, c: seq<Value>)
    requires key in EXTEND_ARRAY_KEYS && !y.Arr?
    ensures CombinedAt(key, CombinedAt(key, Some(x), Some(y)), Some(Arr(c))) == Some(Arr(Dedup(c)))
    ensures Dedup(ItemsOf(Some(x)) + ItemsOf(Some(y)) + c) == Dedup(c) <==> !Breaks(key, x, y, Arr(c))
  {
    var a := ItemsOf(Some(x));
    assert a + [] == a && [] + c == c;
    Extended(key, CombinedAt(key, Some(x), Some(y)), c);
    NoTraceExactlyWhen(a, c);
  }

  /** Where a layer has no value the others associate. */
  lemma AbsentAssociates(key: string, x: Option<Value>, y: Option<Value>, z: Option<Value>)
    requires x.None? || y.None? || z.None?
    ensures CombinedAt(key, CombinedAt(key, x, y), z) == CombinedAt(key, x, CombinedAt(key, y, z))
  {
    if key in EXTEND_ARRAY_KEYS && z.Some? && z.value.Arr? {
      ExtendedFromTop(key, x, y, z.value.items);
      AbsentFromBottom(key, x, y, z.value.items);
    }
  }

  lemma AbsentFromBottom(key: string, x: Option<Value>, y: Option<Value>, c: seq<Value>)
    requires key in EXTEND_ARRAY_KEYS && (x.None? || y.None?)
    ensures CombinedAt(key, CombinedAt(key, x, y), Some(Arr(c))) == Some(Arr(Dedup(ItemsOf(x) + ItemsOf(y) + c)))
  {
    if y.Some? && y.value.Arr? {
      ExtendedFromBottom(key, x, y.value.items, c);
    } else {
      assert ItemsOf(x) + [] == ItemsOf(x);
      Extended(key, CombinedAt(key, x, y), c);
    }
  }

  lemma {:induction false} AgreeingAssociate(a: Value, b: Value, c: Value)
    requires a.Obj? && b.Obj? && c.Obj? && Agree(a, b) && Agree(b, c) && Agree(a, c)
    ensures Associate(a, b, c)
    decreases a
  {
    forall key | key in a.fields && key in b.fields && key in c.fields
      ensures AssociateAt(key, a.fields[key], b.fields[key], c.fields[key])
    {
      if a.fields[key].Obj? {
        AgreeingAssociate(a.fields[key], b.fields[key], c.fields[key]);
      }
    }
  }

  /** On layers that agree in kind the merge is associative, at every depth. */
  lemma MergeAssociative(a: Value, b: Value, c: Value)
    requires a.Obj? && b.Obj? && c.Obj? && Agree(a, b) && Agree(b, c) && Agree(a, c)
    ensures Merge(Merge(a, b), c) == Merge(a, Merge(b, c))
  {
    AgreeingAssociate(a, b, c);
    MergeAssociatesExactlyWhen(a, b, c);
  }

  /** Where two layers disagree in kind, the order of merging shows. */
  lemma DisagreementBreaksAssociativity()
    ensures var a, b := Obj(map["k" := Obj(map["x" := Scalar("1")])]), Obj(map["k" := Scalar("0")]);
            var c := Obj(map["k" := Obj(map[])]);
            Merge(Merge(a, b), c) != Merge(a, Merge(b, c))
  {
    var a, b := Obj(map["k" := Obj(map["x" := Scalar("1")])]), Obj(map["k" := Scalar("0")]);
    var c := Obj(map["k" := Obj(map[])]);
    MergeAt(a, b, "k");
    MergeAt(Merge(a, b), c, "k");
    MergeAt(b, c, "k");
    MergeAt(a, Merge(b, c), "k");
    var inner := Merge(Obj(map["x" := Scalar("1")]), Obj(map[]));
    assert "x" in inner.fields && "x" !in Obj(map[]).fields;
    assert Get(Merge(Merge(a, b), c), "k") == Some(Obj(map[]));
    assert Get(Merge(a, Merge(b, c)), "k") == Some(inner);
  }

  /** The empty layer changes nothing from above, and from below nothing but that the
      extended arrays of the top level lose their repeated ids. */
  lemma EmptyLayer(x: Value)
    requires x.Obj?
    ensures Merge(x, Obj(map[])) == x
    ensures forall key :: Get(Merge(Obj(map[]), x), key) ==
              if key in x.fields && x.fields[key].Arr? && key in EXTEND_ARRAY_KEYS
              then Some(Arr(Dedup(x.fields[key].items))) else Get(x, key)
  {
    assert Merge(x, Obj(map[])).fields == x.fields;
    forall key
      ensures Get(Merge(Obj(map[]), x), key) ==
              if key in x.fields && x.fields[key].Arr? && key in EXTEND_ARRAY_KEYS
              then Some(Arr(Dedup(x.fields[key].items))) else Get(x, key)
    {
      MergeAt(Obj(map[]), x, key);
      if key in x.fields && x.fields[key].Arr? {
        assert [] + x.fields[key].items == x.fields[key].items;
      }
    }
  }

  // ------------------------------------------------------------ the cascade

  /** A layer agrees with a merge of layers it agrees with. */
  lemma {:induction false} AgreeWithMerge(a: Value, b: Value, c: Value)
    requires a.Obj? && b.Obj? && c.Obj? && Agree(a, b) && Agree(a, c) && Agree(b, c)
    ensures Agree(a, Merge(b, c))
    decreases a
  {
    var m := Merge(b, c);
    forall key | key in a.fields && key in m.fields ensures Agree(a.fields[key], m.fields[key]) {
      MergeAt(b, c, key);
      if key in b.fields && key in c.fields && a.fields[key].Obj? {
        AgreeWithMerge(a.fields[key], b.fields[key], c.fields[key]);
      }
    }
  }

  lemma {:induction false} AgreeSymmetric(a: Value, b: Value)
    requires Agree(a, b)
    ensures Agree(b, a)
    decreases a
  {
    if a.Obj? {
      forall key | key in b.fields && key in a.fields ensures Agree(b.fields[key], a.fields[key]) {
        AgreeSymmetric(a.fields[key], b.fields[key]);
      }
    }
  }

  function FoldLeft(merged: Value, layers: seq<Value>): (all: Value)
    requires merged.Obj? && forall k :: 0 <= k < |layers| ==> layers[k].Obj?
    ensures all.Obj?
    decreases |layers|
  {
    if layers == [] then merged else FoldLeft(Merge(merged, layers[0]), layers[1..])
  }

  function FoldRight(layers: seq<Value>): (all: Value)
    requires layers != [] && forall k :: 0 <= k < |layers| ==> layers[k].Obj?
    ensures all.Obj?
  {
    if |layers| == 1 then layers[0] else Merge(layers[0], FoldRight(layers[1..]))
  }

  /** The merge in src/config/loader.ts loadCascade: user, project, local. */
  method LoadCascade(layers: seq<Value>) returns (merged: Option<Value>)
    requires forall k :: 0 <= k < |layers| ==> layers[k].Obj?
    ensures merged == if layers == [] then None else Some(FoldLeft(Obj(map[]), layers))
  {
    if layers == [] {
      return None;
    }
    var all := Obj(map[]);
    for k := 0 to |layers|
      invariant all.Obj? && FoldLeft(all, layers[k..]) == FoldLeft(Obj(map[]), layers)
    {
      assert layers[k..][0] == layers[k] && layers[k..][1..] == layers[k + 1..];
      all := DeepMerge(all, layers[k]);
    }
    merged := Some(all);
  }

  /** Every two of the layers are objects and agree. */
  predicate AllAgree(layers: seq<Value>) {
    && (forall k :: 0 <= k < |layers| ==> layers[k].Obj?)
    && forall j, k :: 0 <= j < k < |layers| ==> Agree(layers[j], layers[k])
  }

  lemma {:induction false} AgreeWithAll(a: Value, layers: seq<Value>)
    requires a.Obj? && layers != [] && AllAgree(layers) && forall k :: 0 <= k < |layers| ==> Agree(a, layers[k])
    ensures Agree(a, FoldRight(layers))
    decreases |layers|
  {
    if |layers| > 1 {
      var rest := layers[1..];
      assert forall k :: 0 <= k < |rest| ==> rest[k] == layers[k + 1];
      AgreeWithAll(a, rest);
      AgreeWithAll(layers[0], rest);
      AgreeWithMerge(a, layers[0], FoldRight(rest));
    }
  }

  /** Reading the layers one after the other is merging the upper layers among
      themselves first and putting the result over the lower ones. */
  lemma {:induction false} CascadeIsRightFold(merged: Value, layers: seq<Value>)
    requires merged.Obj? && layers != [] && AllAgree(layers)
    requires forall k :: 0 <= k < |layers| ==> Agree(merged, layers[k])
    ensures FoldLeft(merged, layers) == Merge(merged, FoldRight(layers))
    decreases |layers|
  {
    if |layers| > 1 {
      var first, rest := layers[0], layers[1..];
      var next := Merge(merged, first);
      assert forall k :: 0 <= k < |rest| ==> rest[k] == layers[k + 1];
      forall k | 0 <= k < |rest| ensures Agree(next, rest[k]) {
        AgreeSymmetric(merged, rest[k]);
        AgreeSymmetric(first, rest[k]);
        AgreeWithMerge(rest[k], merged, first);
        AgreeSymmetric(rest[k], next);
      }
      CascadeIsRightFold(next, rest);
      AgreeWithAll(merged, rest);
      AgreeWithAll(first, rest);
      MergeAssociative(merged, first, FoldRight(rest));
    } else {
      assert FoldLeft(Merge(merged, layers[0]), layers[1..]) == Merge(merged, layers[0]);
    }
  }
}
