/** Merging the reference config into the operator's, on decoded values: the form that
    computes the change report. */
module ConfigMerge {
  import opened Text

  /** A decoded YAML value. `Other` is every leaf that is neither null nor a string:
      numbers, booleans, timestamps, and mappings with a key that is not a string. */
  datatype Value =
    | Null
    | Str(s: string)
    | Other(tag: string, text: string)
    | List(items: seq<Value>)
    | Map(m: map<string, Value>)

  type Config = map<string, Value>

  datatype Options = Options(overwrite: bool, fillEmpty: bool)

  predicate IsEmpty(v: Value)
  {
    v == Null || v == Str("") || v == List([]) || v == Map(map[])
  }

  /** The trimmed `name` of a list entry, "" when it has none. */
  function NameOf(v: Value): string
  {
    if v.Map? && "name" in v.m && v.m["name"].Str? then TrimSpace(v.m["name"].s) else ""
  }

  predicate NamedMaps(items: seq<Value>)
  {
    items != [] && forall i :: 0 <= i < |items| ==> items[i].Map? && NameOf(items[i]) != ""
  }

  predicate AllStrings(items: seq<Value>)
  {
    forall i :: 0 <= i < |items| ==> items[i].Str?
  }

  // ------------------------------------------------------------- the meaning

  /** Key by key: only one side has it, or both do and the values merge. */
  function Merged(base: Config, overlay: Value, opts: Options): (r: Config)
    requires overlay.Map?
    ensures r.Keys == base.Keys + overlay.m.Keys
    decreases overlay, 1
  {
    map k | k in base.Keys + overlay.m.Keys ::
      if k !in overlay.m then base[k]
      else if k !in base then overlay.m[k]
      else MergedValue(base[k], overlay.m[k], opts)
  }

  function MergedValue(base: Value, overlay: Value, opts: Options): Value
    decreases overlay, 2
  {
    if base.Null? then overlay
    else if opts.fillEmpty && IsEmpty(base) then overlay
    else if base.Map? && overlay.Map? then Map(Merged(base.m, overlay, opts))
    else if base.List? && overlay.List? then List(MergedList(base.items, overlay, opts))
    else if opts.overwrite then overlay
    else base
  }

  function MergedList(base: seq<Value>, overlay: Value, opts: Options): seq<Value>
    requires overlay.List?
    decreases overlay, 1
  {
    if opts.overwrite then overlay.items
    else if opts.fillEmpty && base == [] then overlay.items
    else if NamedMaps(base) || NamedMaps(overlay.items) then
      Emit(TakeOverlay(TakeBase(base), overlay, |overlay.items|, opts))
    else if AllStrings(base) && AllStrings(overlay.items) then Distinct(base + overlay.items)
    else base
  }

  /** Entries by name, in order of first appearance. */
  datatype Named = Named(order: seq<string>, byName: map<string, Config>)

  predicate Indexed(n: Named)
  {
    forall i :: 0 <= i < |n.order| ==> n.order[i] in n.byName
  }

  function Emit(n: Named): (r: seq<Value>)
    requires Indexed(n)
    ensures |r| == |n.order|
  {
    seq(|n.order|, i requires 0 <= i < |n.order| => Map(n.byName[n.order[i]]))
  }

  function AddNamed(n: Named, v: Value): (r: Named)
    requires v.Map? && Indexed(n)
    ensures Indexed(r)
  {
    Named(n.order + [NameOf(v)], n.byName[NameOf(v) := v.m])
  }

  /** The operator's entries: the first of each name counts. */
  function TakeBase(items: seq<Value>): (r: Named)
    ensures Indexed(r)
  {
    if items == [] then Named([], map[])
    else
      var n, v := TakeBase(items[..|items| - 1]), items[|items| - 1];
      if NameOf(v) == "" || NameOf(v) in n.byName then n else AddNamed(n, v)
  }

  /** One entry of the example: merged into the entry of the same name, or appended. */
  function TakeOne(n: Named, v: Value, opts: Options): (r: Named)
    requires Indexed(n)
    ensures Indexed(r)
    decreases v, 3
  {
    if NameOf(v) == "" then n
    else if NameOf(v) in n.byName then
      Named(n.order, n.byName[NameOf(v) := Merged(n.byName[NameOf(v)], v, opts)])
    else AddNamed(n, v)
  }

  /** The first `k` entries of the example. */
  function TakeOverlay(n0: Named, overlay: Value, k: nat, opts: Options): (r: Named)
    requires overlay.List? && k <= |overlay.items| && Indexed(n0)
    ensures Indexed(r)
    decreases overlay, 0, k
  {
    if k == 0 then n0 else TakeOne(TakeOverlay(n0, overlay, k - 1, opts), overlay.items[k - 1], opts)
  }

  /** First occurrences only. */
  function Distinct(items: seq<Value>): seq<Value>
  {
    if items == [] then []
    else
      var r, v := Distinct(items[..|items| - 1]), items[|items| - 1];
      if v in r then r else r + [v]
  }

  // ------------------------------------------------------------------ the code

  lemma MergedAt(base: Config, overlay: Value, opts: Options, k: string)
    requires overlay.Map? && (k in base || k in overlay.m)
    ensures Merged(base, overlay, opts)[k] ==
            if k !in overlay.m then base[k]
            else if k !in base then overlay.m[k]
            else MergedValue(base[k], overlay.m[k], opts)
  {
  }

  /** `out` is the base with every overlay key outside `todo` merged in. */
  ghost predicate Folded(out: Config, base: Config, overlay: Value, opts: Options, todo: set<string>)
    requires overlay.Map?
  {
    && (forall k :: k in out <==> k in base || (k in overlay.m && k !in todo))
    && (forall k :: k in out ==> out[k] == if k in todo then base[k] else Merged(base, overlay, opts)[k])
  }

  lemma FoldKey(out: Config, base: Config, overlay: Value, opts: Options, todo: set<string>, k: string, v: Value)
    requires overlay.Map? && Folded(out, base, overlay, opts, todo) && k in todo && k in overlay.m
    requires v == if k in out then MergedValue(out[k], overlay.m[k], opts) else overlay.m[k]
    ensures Folded(out[k := v], base, overlay, opts, todo - {k})
  {
    MergedAt(base, overlay, opts, k);
    hide Merged, MergedValue;
  }

  lemma FoldEnds(base: Config, overlay: Value, opts: Options)
    requires overlay.Map?
    ensures Folded(base, base, overlay, opts, overlay.m.Keys)
    ensures forall out :: Folded(out, base, overlay, opts, {}) ==> out == Merged(base, overlay, opts)
  {
    hide MergedValue;
  }

  /** Copies the base and then folds in the overlay's keys, in whatever order the map
      yields them. */
  method DeepMerge(base: Config, overlay: Value, opts: Options) returns (out: Config)
    requires overlay.Map?
    ensures out == Merged(base, overlay, opts)
    decreases overlay, 1
  {
    hide *;
    FoldEnds(base, overlay, opts);
    out := base;
    var todo := overlay.m.Keys;
    while todo != {}
      invariant todo <= overlay.m.Keys && Folded(out, base, overlay, opts, todo)
      decreases |todo|
    {
      var k :| k in todo;
      var v := overlay.m[k];
      if k in out { v := MergeOne(out[k], v, opts); }
      FoldKey(out, base, overlay, opts, todo, k, v);
      out, todo := out[k := v], todo - {k};
    }
  }

  /** What the loop body does with a key both sides have. */
  method MergeOne(bv: Value, ov: Value, opts: Options) returns (v: Value)
    ensures v == MergedValue(bv, ov, opts)
    decreases ov, 2
  {
    if bv.Null? { return ov; }
    if opts.fillEmpty && IsEmpty(bv) { return ov; }
    if bv.Map? && ov.Map? {
      var sub := DeepMerge(bv.m, ov, opts);
      return Map(sub);
    }
    if bv.List? && ov.List? {
      var items := MergeSlices(bv.items, ov, opts);
      return List(items);
    }
    if opts.overwrite { return ov; }
    return bv;
  }

  method MergeSlices(base: seq<Value>, overlay: Value, opts: Options) returns (out: seq<Value>)
    requires overlay.List?
    ensures out == MergedList(base, overlay, opts)
    decreases overlay, 1
  {
    if opts.overwrite { return overlay.items; }
    if opts.fillEmpty && |base| == 0 { return overlay.items; }
    if NamedMaps(base) || NamedMaps(overlay.items) {
      out := MergeNamedMaps(base, overlay, opts);
    } else if AllStrings(base) && AllStrings(overlay.items) {
      out := UnionStrings(base, overlay.items);
    } else {
      out := base;
    }
  }

  method MergeNamedMaps(base: seq<Value>, overlay: Value, opts: Options) returns (out: seq<Value>)
    requires overlay.List?
    ensures out == Emit(TakeOverlay(TakeBase(base), overlay, |overlay.items|, opts))
    decreases overlay, 0
  {
    hide Merged, AddNamed;
    var n := IndexBase(base);
    for k := 0 to |overlay.items|
      invariant Indexed(n) && n == TakeOverlay(TakeBase(base), overlay, k, opts)
    {
      var v := overlay.items[k];
      if NameOf(v) != "" {
        if NameOf(v) in n.byName {
          var both := DeepMerge(n.byName[NameOf(v)], v, opts);
          n := Named(n.order, n.byName[NameOf(v) := both]);
        } else {
          n := AddNamed(n, v);
        }
      }
    }
    out := InOrder(n);
  }

  method IndexBase(base: seq<Value>) returns (n: Named)
    ensures n == TakeBase(base)
  {
    n := Named([], map[]);
    for i := 0 to |base|
      invariant Indexed(n) && n == TakeBase(base[..i])
    {
      assert base[..i + 1][..i] == base[..i];
      if NameOf(base[i]) != "" && NameOf(base[i]) !in n.byName { n := AddNamed(n, base[i]); }
    }
    assert base[..|base|] == base;
  }

  method InOrder(n: Named) returns (out: seq<Value>)
    requires Indexed(n)
    ensures out == Emit(n)
  {
    out := [];
    for i := 0 to |n.order|
      invariant out == Emit(n)[..i]
    {
      out := out + [Map(n.byName[n.order[i]])];
    }
  }

  method UnionStrings(base: seq<Value>, overlay: seq<Value>) returns (out: seq<Value>)
    requires AllStrings(base) && AllStrings(overlay)
    ensures out == Distinct(base + overlay)
  {
    var seen: set<string>, items := {}, base + overlay;
    out := [];
    for i := 0 to |items|
      invariant out == Distinct(items[..i]) && AllStrings(out)
      invariant forall s :: s in seen <==> Str(s) in out
    {
      assert items[..i + 1][..i] == items[..i];
      var s := items[i].s;
      if s !in seen {
        seen := seen + {s};
        out := out + [Str(s)];
      }
    }
    assert items[..|items|] == items;
  }
}
