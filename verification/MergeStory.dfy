/**
 What a merged configuration holds at each path, told from the two layers alone.
 */
module MergeStory {
  import opened Text
  import opened ConfigMerge

  /** The value at a path of keys, if there is one. */
  function At(v: Value, path: seq<string>): Option<Value>
    decreases |path|
  {
    if path == [] then Some(v)
    else if v.Obj? && path[0] in v.fields then At(v.fields[path[0]], path[1..])
    else None
  }

  /** Objects all the way to the last key. */
  predicate Open(v: Value, path: seq<string>)
    requires path != []
    decreases |path|
  {
    v.Obj? && (|path| == 1 || (path[0] in v.fields && Open(v.fields[path[0]], path[1..])))
  }

  /** The path runs through objects up to a key that is not there. */
  predicate Silent(v: Value, path: seq<string>)
    decreases |path|
  {
    path != [] && v.Obj? && (path[0] !in v.fields || Silent(v.fields[path[0]], path[1..]))
  }

  predicate Extends(path: seq<string>, x: Value)
    requires path != []
  {
    x.Arr? && path[|path| - 1] in {"tools", "agents", "providers", "bindings", "origins", "fileAccessPaths",
                                   "fileAccessPresets"}
  }

  /** The fields of a merged object: those of both; a field of one layer only is that
      layer's, unless it is an extended array of the upper one. */
  lemma MergedField(base: Value, over: Value, key: string)
    requires base.Obj? && over.Obj?
    ensures var merged := Merge(base, over);
            && merged.Obj? && (key in merged.fields <==> key in base.fields || key in over.fields)
            && (key in base.fields && key !in over.fields ==> merged.fields[key] == base.fields[key])
            && (key in over.fields && over.fields[key].Obj? ==>
                  merged.fields[key] == if key in base.fields && base.fields[key].Obj?
                                        then Merge(base.fields[key], over.fields[key]) else over.fields[key])
            && (key in over.fields && !over.fields[key].Obj? && !Extends([key], over.fields[key]) ==>
                  merged.fields[key] == over.fields[key])
            && (key in over.fields && Extends([key], over.fields[key]) ==>
                  merged.fields[key] == Arr(Dedup((if key in base.fields && base.fields[key].Arr?
                                                   then base.fields[key].items else []) + over.fields[key].items)))
  {
  }

  /** A value of the upper layer that is no object stands at its path, whatever the lower
      layer has there, unless it is an extended array. */
  lemma {:induction false} UpperValueStands(base: Value, over: Value, path: seq<string>)
    requires base.Obj? && over.Obj? && path != [] && At(over, path).Some?
    requires !At(over, path).value.Obj? && !Extends(path, At(over, path).value)
    ensures At(Merge(base, over), path) == At(over, path)
    decreases |path|
  {
    var key, rest := path[0], path[1..];
    MergedField(base, over, key);
    if rest != [] {
      assert rest[|rest| - 1] == path[|path| - 1];
      if key in base.fields && base.fields[key].Obj? {
        UpperValueStands(base.fields[key], over.fields[key], rest);
      }
    } else {
      assert path == [key];
    }
  }

  /** An extended array of the upper layer is put behind the lower layer's, if that has
      one at the path, and the whole is deduplicated. It stands as it is where the lower
      layer has no object on the way. */
  lemma {:induction false} UpperArrayExtends(base: Value, over: Value, path: seq<string>)
    requires base.Obj? && over.Obj? && path != [] && At(over, path).Some? && Extends(path, At(over, path).value)
    ensures var below := At(base, path);
            var lower := if below.Some? && below.value.Arr? then below.value.items else [];
            At(Merge(base, over), path)
            == if Open(base, path) then Some(Arr(Dedup(lower + At(over, path).value.items))) else At(over, path)
    decreases |path|
  {
    var key, rest := path[0], path[1..];
    MergedField(base, over, key);
    if rest != [] {
      assert rest[|rest| - 1] == path[|path| - 1];
      if key in base.fields && base.fields[key].Obj? {
        UpperArrayExtends(base.fields[key], over.fields[key], rest);
      }
    } else {
      assert path == [key];
    }
  }

  /** Where the upper layer says nothing the lower layer's value stands, unless the upper
      layer put an object over something else on the way. */
  lemma {:induction false} LowerValueStands(base: Value, over: Value, path: seq<string>)
    requires base.Obj? && over.Obj? && Silent(over, path)
    ensures Spared(base, over, path) ==> At(Merge(base, over), path) == At(base, path)
    ensures !Spared(base, over, path) ==> At(Merge(base, over), path) == None
    decreases |path|
  {
    var key, rest := path[0], path[1..];
    MergedField(base, over, key);
    if key in over.fields {
      if key in base.fields && base.fields[key].Obj? {
        LowerValueStands(base.fields[key], over.fields[key], rest);
      } else {
        SilentIsNone(over.fields[key], rest);
      }
    }
  }

  /** The lower layer has an object wherever the upper one has one on the path. */
  predicate Spared(base: Value, over: Value, path: seq<string>)
    requires base.Obj? && Silent(over, path)
    decreases |path|
  {
    path[0] !in over.fields
    || (path[0] in base.fields && base.fields[path[0]].Obj?
        && Spared(base.fields[path[0]], over.fields[path[0]], path[1..]))
  }

  lemma {:induction false} SilentIsNone(v: Value, path: seq<string>)
    requires Silent(v, path)
    ensures At(v, path) == None
    decreases |path|
  {
    if path[0] in v.fields {
      SilentIsNone(v.fields[path[0]], path[1..]);
    }
  }

  /** The id of an item is the text of its field of that name, if it has one. */
  lemma IdIsAText(item: Value, id: string)
    ensures IdOf(item) == Some(id) <==> item.Obj? && "id" in item.fields && item.fields["id"] == Str(id)
  {
  }

  /** Deduplication loses no item without an id, and of each id keeps the last item. */
  lemma DedupKeeps(items: seq<Value>, k: nat)
    requires k < |items|
    ensures var id := IdOf(items[k]);
            && (id.None? ==> items[k] in Dedup(items))
            && (id.Some? && (forall j :: k < j < |items| ==> IdOf(items[j]) != id) ==> items[k] in Dedup(items))
  {
    DedupMeaning(items);
    var out := Dedup(items);
    if IdOf(items[k]).None? {
      WithoutIdHolds(items, k);
      WithoutIdIsThere(out, items[k]);
    } else if forall j :: k < j < |items| ==> IdOf(items[j]) != IdOf(items[k]) {
      LastIsLast(items, k);
      FirstIdsHold(items, k);
      var j :| 0 <= j < |FirstIds(items)| && FirstIds(items)[j] == IdOf(items[k]);
      assert Ids(out)[j] == IdOf(out[j]);
      assert out[j] == items[k];
    }
  }

  lemma {:induction false} WithoutIdHolds(items: seq<Value>, k: nat)
    requires k < |items| && IdOf(items[k]).None?
    ensures items[k] in WithoutId(items)
  {
    if k < |items| - 1 {
      WithoutIdHolds(items[..|items| - 1], k);
    }
  }

  lemma {:induction false} WithoutIdIsThere(items: seq<Value>, v: Value)
    requires v in WithoutId(items)
    ensures v in items
  {
    if items != [] && v in WithoutId(items[..|items| - 1]) {
      WithoutIdIsThere(items[..|items| - 1], v);
    }
  }

  lemma {:induction false} LastIsLast(items: seq<Value>, k: nat)
    requires k < |items| && IdOf(items[k]).Some?
    requires forall j :: k < j < |items| ==> IdOf(items[j]) != IdOf(items[k])
    ensures LastWith(items, IdOf(items[k]).value) == Some(items[k])
  {
    if k < |items| - 1 {
      LastIsLast(items[..|items| - 1], k);
    }
  }

  lemma {:induction false} FirstIdsHold(items: seq<Value>, k: nat)
    requires k < |items|
    ensures IdOf(items[k]) in FirstIds(items)
  {
    if k < |items| - 1 {
      FirstIdsHold(items[..|items| - 1], k);
    }
  }
}
