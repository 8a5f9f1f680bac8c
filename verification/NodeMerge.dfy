/** The same merge on YAML nodes, the form that writes the file and keeps comments. */
module NodeMerge {
  import opened Text
  import C = ConfigMerge

  const NULL_TAG := "!!null"
  const STR_TAG := "!!str"

  /** A parsed, alias-free YAML node. Keys are string scalars; `note` stands for the
      comments attached to a node. */
  datatype Node =
    | Scalar(tag: string, value: string, note: string)
    | Sequence(items: seq<Node>, note: string)
    | Mapping(pairs: seq<Pair>, note: string)

  datatype Pair = Pair(key: string, keyNote: string, value: Node)

  // ---------------------------------------------------------------- decoding

  function Decode(n: Node): C.Value
  {
    match n
    case Scalar(tag, value, _) =>
      if tag == NULL_TAG then C.Null else if tag == STR_TAG then C.Str(value) else C.Other(tag, value)
    case Sequence(items, _) => C.List(DecodeItems(items))
    case Mapping(pairs, _) => C.Map(DecodePairs(pairs))
  }

  function DecodeItems(items: seq<Node>): (r: seq<C.Value>)
    ensures |r| == |items|
    ensures forall i :: 0 <= i < |items| ==> r[i] == Decode(items[i])
  {
    if items == [] then [] else DecodeItems(items[..|items| - 1]) + [Decode(items[|items| - 1])]
  }

  function DecodePairs(pairs: seq<Pair>): C.Config
  {
    if pairs == [] then map[]
    else DecodePairs(pairs[..|pairs| - 1])[pairs[|pairs| - 1].key := Decode(pairs[|pairs| - 1].value)]
  }

  // -------------------------------------------------------- reading a node

  predicate IsNullNode(n: Node)
  {
    n.Scalar? && (n.tag == NULL_TAG || n.value == "null" || n.value == "~")
  }

  predicate IsEmptyNode(n: Node)
  {
    match n
    case Scalar(tag, value, _) => value == "" || tag == NULL_TAG
    case Sequence(items, _) => items == []
    case Mapping(pairs, _) => pairs == []
  }

  /** Position of the last pair with key `k`, which is the one mappingIndex keeps. */
  function Find(pairs: seq<Pair>, k: string): (i: int)
    ensures -1 <= i < |pairs|
    ensures i >= 0 ==> pairs[i].key == k
    ensures i < 0 ==> forall j :: 0 <= j < |pairs| ==> pairs[j].key != k
  {
    if pairs == [] then -1
    else if pairs[|pairs| - 1].key == k then |pairs| - 1
    else Find(pairs[..|pairs| - 1], k)
  }

  /** mappingString: the trimmed value of the first scalar pair with key `k`. */
  function StringAt(pairs: seq<Pair>, k: string): string
  {
    if pairs == [] then ""
    else if pairs[0].key == k && pairs[0].value.Scalar? then TrimSpace(pairs[0].value.value)
    else StringAt(pairs[1..], k)
  }

  function NameOf(n: Node): string
  {
    if n.Mapping? then StringAt(n.pairs, "name") else ""
  }

  predicate NamedMaps(items: seq<Node>)
  {
    items != [] && forall i :: 0 <= i < |items| ==> items[i].Mapping? && NameOf(items[i]) != ""
  }

  predicate AllScalars(items: seq<Node>)
  {
    forall i :: 0 <= i < |items| ==> items[i].Scalar?
  }

  // ------------------------------------------------------------- the merge

  /** The operator's pairs, in order, each merged with the example's value if there is
      one. */
  function MergedPairs(base: seq<Pair>, overlay: Node, opts: C.Options): (r: seq<Pair>)
    requires overlay.Mapping?
    ensures |r| == |base|
    ensures forall i :: 0 <= i < |base| ==> r[i].key == base[i].key && r[i].keyNote == base[i].keyNote
    decreases overlay, 1, |base|
  {
    if base == [] then []
    else
      var p := base[|base| - 1];
      var i := Find(overlay.pairs, p.key);
      MergedPairs(base[..|base| - 1], overlay, opts) +
      [if i < 0 then p else Pair(p.key, p.keyNote, MergedValue(p.value, overlay.pairs[i].value, opts))]
  }

  /** The example's pairs whose key the operator does not have. */
  function NewPairs(base: seq<Pair>, more: seq<Pair>): seq<Pair>
  {
    if more == [] then []
    else
      var p := more[|more| - 1];
      NewPairs(base, more[..|more| - 1]) + if Find(base, p.key) < 0 then [p] else []
  }

  function MergedMapping(base: Node, overlay: Node, opts: C.Options): (r: Node)
    requires base.Mapping? && overlay.Mapping?
    ensures r.Mapping?
    decreases overlay, 2
  {
    Mapping(MergedPairs(base.pairs, overlay, opts) + NewPairs(base.pairs, overlay.pairs), base.note)
  }

  function MergedValue(base: Node, overlay: Node, opts: C.Options): Node
    decreases overlay, 3
  {
    if IsNullNode(base) then overlay
    else if opts.fillEmpty && IsEmptyNode(base) then overlay
    else if base.Mapping? && overlay.Mapping? then MergedMapping(base, overlay, opts)
    else if base.Sequence? && overlay.Sequence? then MergedSequence(base, overlay, opts)
    else if opts.overwrite then overlay
    else base
  }

  function MergedSequence(base: Node, overlay: Node, opts: C.Options): Node
    requires base.Sequence? && overlay.Sequence?
    decreases overlay, 2
  {
    if opts.overwrite then overlay
    else if opts.fillEmpty && base.items == [] then overlay
    else if NamedMaps(base.items) || NamedMaps(overlay.items) then
      Sequence(Emit(TakeOverlay(TakeBase(base.items), overlay, |overlay.items|, opts)), "")
    else if AllScalars(base.items) && AllScalars(overlay.items) then
      Sequence(Distinct(base.items + overlay.items), "")
    else base
  }

  datatype Named = Named(order: seq<string>, byName: map<string, Node>)

  predicate Indexed(n: Named)
  {
    && (forall i :: 0 <= i < |n.order| ==> n.order[i] in n.byName)
    && (forall x :: x in n.byName ==> n.byName[x].Mapping?)
  }

  function Emit(n: Named): (r: seq<Node>)
    requires Indexed(n)
    ensures |r| == |n.order|
  {
    seq(|n.order|, i requires 0 <= i < |n.order| => n.byName[n.order[i]])
  }

  function AddNamed(n: Named, v: Node): (r: Named)
    requires v.Mapping? && Indexed(n)
    ensures Indexed(r)
  {
    Named(n.order + [NameOf(v)], n.byName[NameOf(v) := v])
  }

  function TakeBase(items: seq<Node>): (r: Named)
    ensures Indexed(r)
  {
    if items == [] then Named([], map[])
    else
      var n, v := TakeBase(items[..|items| - 1]), items[|items| - 1];
      if NameOf(v) == "" || NameOf(v) in n.byName then n else AddNamed(n, v)
  }

  function TakeOne(n: Named, v: Node, opts: C.Options): (r: Named)
    requires Indexed(n)
    ensures Indexed(r)
    decreases v, 4
  {
    if NameOf(v) == "" then n
    else if NameOf(v) in n.byName then
      Named(n.order, n.byName[NameOf(v) := MergedMapping(n.byName[NameOf(v)], v, opts)])
    else AddNamed(n, v)
  }

  function TakeOverlay(n0: Named, overlay: Node, k: nat, opts: C.Options): (r: Named)
    requires overlay.Sequence? && k <= |overlay.items| && Indexed(n0)
    ensures Indexed(r)
    decreases overlay, 0, k
  {
    if k == 0 then n0 else TakeOne(TakeOverlay(n0, overlay, k - 1, opts), overlay.items[k - 1], opts)
  }

  /** First scalar of each value. */
  function Distinct(items: seq<Node>): seq<Node>
  {
    if items == [] then []
    else
      var r, v := Distinct(items[..|items| - 1]), items[|items| - 1];
      if !v.Scalar? || HasValue(r, v.value) then r else r + [v]
  }

  predicate HasValue(items: seq<Node>, s: string)
  {
    exists i :: 0 <= i < |items| && items[i].Scalar? && items[i].value == s
  }

  // ------------------------------------------------------------------ the code

  /** key -> position of its last pair. */
  method MappingIndex(pairs: seq<Pair>) returns (index: map<string, nat>)
    ensures forall k :: k in index <==> Find(pairs, k) >= 0
    ensures forall k :: k in index ==> index[k] == Find(pairs, k)
  {
    index := map[];
    for i := 0 to |pairs|
      invariant forall k :: k in index <==> Find(pairs[..i], k) >= 0
      invariant forall k :: k in index ==> index[k] == Find(pairs[..i], k)
    {
      assert pairs[..i + 1][..i] == pairs[..i];
      index := index[pairs[i].key := i];
    }
    assert pairs[..|pairs|] == pairs;
  }

  method MergeMappingNode(base: Node, overlay: Node, opts: C.Options) returns (out: Node)
    requires base.Mapping? && overlay.Mapping?
    ensures out == MergedMapping(base, overlay, opts)
    decreases overlay, 2
  {
    hide MergedPairs, NewPairs;
    var content, seen := MergeBasePairs(base.pairs, overlay, opts);
    var added := AppendNewPairs(base.pairs, overlay.pairs, seen);
    return Mapping(content + added, base.note);
  }

  /** The operator's pairs, in the operator's order. */
  method MergeBasePairs(base: seq<Pair>, overlay: Node, opts: C.Options) returns (content: seq<Pair>, seen: set<string>)
    requires overlay.Mapping?
    ensures content == MergedPairs(base, overlay, opts)
    ensures forall k :: k in seen <==> Find(base, k) >= 0
    decreases overlay, 1
  {
    hide Find, MergedValue, MergedPairs;
    var index := MappingIndex(overlay.pairs);
    content, seen := [], {};
    NoPairs(overlay, opts);
    for i := 0 to |base|
      invariant content == MergedPairs(base[..i], overlay, opts)
      invariant forall k :: k in seen <==> Find(base[..i], k) >= 0
    {
      var p := base[i];
      assert base[..i + 1] == base[..i] + [p];
      PairsMore(base[..i], p, overlay, opts);
      seen := seen + {p.key};
      if p.key in index {
        var v := MergeValueNode(p.value, overlay.pairs[index[p.key]].value, opts);
        content := content + [Pair(p.key, p.keyNote, v)];
      } else {
        content := content + [p];
      }
    }
    assert base[..|base|] == base;
  }

  lemma NoPairs(overlay: Node, opts: C.Options)
    requires overlay.Mapping?
    ensures MergedPairs([], overlay, opts) == [] && forall k :: Find([], k) < 0
  {
  }

  lemma PairsMore(base: seq<Pair>, p: Pair, overlay: Node, opts: C.Options)
    requires overlay.Mapping?
    ensures var i := Find(overlay.pairs, p.key);
            MergedPairs(base + [p], overlay, opts) == MergedPairs(base, overlay, opts) +
              [if i < 0 then p else Pair(p.key, p.keyNote, MergedValue(p.value, overlay.pairs[i].value, opts))]
    ensures forall k :: Find(base + [p], k) >= 0 <==> Find(base, k) >= 0 || k == p.key
  {
    hide MergedValue;
    assert (base + [p])[..|base|] == base;
  }

  /** The example's pairs under keys the operator does not have. */
  method AppendNewPairs(base: seq<Pair>, more: seq<Pair>, seen: set<string>) returns (content: seq<Pair>)
    requires forall k :: k in seen <==> Find(base, k) >= 0
    ensures content == NewPairs(base, more)
  {
    hide Find, NewPairs;
    content := [];
    NoNewPairs(base);
    for i := 0 to |more|
      invariant content == NewPairs(base, more[..i])
    {
      var p := more[i];
      assert more[..i + 1] == more[..i] + [p];
      NewPairsMore(base, more[..i], p);
      if p.key !in seen { content := content + [p]; }
    }
    assert more[..|more|] == more;
  }

  lemma NewPairsMore(base: seq<Pair>, more: seq<Pair>, p: Pair)
    ensures NewPairs(base, more + [p]) ==
            if Find(base, p.key) < 0 then NewPairs(base, more) + [p] else NewPairs(base, more)
  {
    hide Find;
    assert (more + [p])[..|more|] == more;
  }

  lemma NoNewPairs(base: seq<Pair>)
    ensures NewPairs(base, []) == []
  {
  }

  method MergeValueNode(base: Node, overlay: Node, opts: C.Options) returns (out: Node)
    ensures out == MergedValue(base, overlay, opts)
    decreases overlay, 3
  {
    if IsNullNode(base) { return overlay; }
    if opts.fillEmpty && IsEmptyNode(base) { return overlay; }
    if base.Mapping? && overlay.Mapping? {
      out := MergeMappingNode(base, overlay, opts);
    } else if base.Sequence? && overlay.Sequence? {
      out := MergeSequenceNode(base, overlay, opts);
    } else {
      out := if opts.overwrite then overlay else base;
    }
  }

  method MergeSequenceNode(base: Node, overlay: Node, opts: C.Options) returns (out: Node)
    requires base.Sequence? && overlay.Sequence?
    ensures out == MergedSequence(base, overlay, opts)
    decreases overlay, 2
  {
    if opts.overwrite { return overlay; }
    if opts.fillEmpty && |base.items| == 0 { return overlay; }
    if NamedMaps(base.items) || NamedMaps(overlay.items) {
      var items := MergeNamedMapSequence(base.items, overlay, opts);
      out := Sequence(items, "");
    } else if AllScalars(base.items) && AllScalars(overlay.items) {
      var items := UnionStringSequence(base.items, overlay.items);
      out := Sequence(items, "");
    } else {
      out := base;
    }
  }

  method MergeNamedMapSequence(base: seq<Node>, overlay: Node, opts: C.Options) returns (items: seq<Node>)
    requires overlay.Sequence?
    ensures items == Emit(TakeOverlay(TakeBase(base), overlay, |overlay.items|, opts))
    decreases overlay, 1
  {
    hide MergedMapping, AddNamed, NameOf, TakeBase;
    var n := IngestBase(base);
    for k := 0 to |overlay.items|
      invariant Indexed(n) && n == TakeOverlay(TakeBase(base), overlay, k, opts)
    {
      var v := overlay.items[k];
      if NameOf(v) != "" {
        HasNameIsMapping(v);
        if NameOf(v) in n.byName {
          var both := MergeMappingNode(n.byName[NameOf(v)], v, opts);
          n := Named(n.order, n.byName[NameOf(v) := both]);
        } else {
          n := AddNamed(n, v);
        }
      }
    }
    items := [];
    for i := 0 to |n.order|
      invariant items == Emit(n)[..i]
    {
      items := items + [n.byName[n.order[i]]];
    }
  }

  lemma HasNameIsMapping(v: Node)
    requires NameOf(v) != ""
    ensures v.Mapping?
  {
  }

  method IngestBase(items: seq<Node>) returns (n: Named)
    ensures n == TakeBase(items)
  {
    n := Named([], map[]);
    for i := 0 to |items|
      invariant Indexed(n) && n == TakeBase(items[..i])
    {
      assert items[..i + 1][..i] == items[..i];
      if NameOf(items[i]) != "" && NameOf(items[i]) !in n.byName { n := AddNamed(n, items[i]); }
    }
    assert items[..|items|] == items;
  }

  method UnionStringSequence(base: seq<Node>, overlay: seq<Node>) returns (out: seq<Node>)
    ensures out == Distinct(base + overlay)
  {
    var seen: set<string>, items := {}, base + overlay;
    out := [];
    for i := 0 to |items|
      invariant out == Distinct(items[..i])
      invariant forall s :: s in seen <==> HasValue(out, s)
    {
      assert items[..i + 1][..i] == items[..i];
      var v := items[i];
      if v.Scalar? && v.value !in seen {
        HasValueAfter(out, v);
        seen := seen + {v.value};
        out := out + [v];
      }
    }
    assert items[..|items|] == items;
  }

  lemma HasValueAfter(items: seq<Node>, v: Node)
    requires v.Scalar?
    ensures forall s :: HasValue(items + [v], s) <==> HasValue(items, s) || s == v.value
  {
    forall s ensures HasValue(items + [v], s) <==> HasValue(items, s) || s == v.value {
      assert (items + [v])[|items|] == v;
      assert forall i :: 0 <= i < |items| ==> (items + [v])[i] == items[i];
    }
  }

  /** Of pairs that repeat a key the last counts, and of a list entry's names the first that
      is a scalar. */
  lemma {:induction false} FindsLast(pairs: seq<Pair>, k: string)
    ensures forall j :: Find(pairs, k) < j < |pairs| ==> pairs[j].key != k
    ensures Find(pairs, k) >= 0 ==> pairs[Find(pairs, k)].key == k
  {
    if pairs != [] && pairs[|pairs| - 1].key != k { FindsLast(pairs[..|pairs| - 1], k); }
  }

  lemma {:induction false} ReadsFirst(pairs: seq<Pair>, k: string, i: nat)
    requires i < |pairs| && pairs[i].key == k && pairs[i].value.Scalar?
    requires forall j :: 0 <= j < i ==> !(pairs[j].key == k && pairs[j].value.Scalar?)
    ensures StringAt(pairs, k) == TrimSpace(pairs[i].value.value)
  {
    hide TrimSpace;
    if i > 0 { ReadsFirst(pairs[1..], k, i - 1); }
  }
}
