/** The two merges mean the same: decoding the merged nodes gives the merge of the
    decoded configs, for every operator document that is fine and every example that is
    good. NodeExact shows that nothing weaker will do. */
module NodeLaws {
  import opened Text
  import opened NodeMerge
  import C = ConfigMerge

  // --------------------------------------------------- the nodes it holds for

  ghost predicate UniqueKeys(pairs: seq<Pair>)
  {
    forall i, j :: 0 <= i < j < |pairs| ==> pairs[i].key != pairs[j].key
  }

  /** No mapping, at any depth, repeats a key: what the YAML decoder accepts. */
  ghost predicate Unique(n: Node)
  {
    match n
    case Scalar(_, _, _) => true
    case Sequence(items, _) => forall i :: 0 <= i < |items| ==> Unique(items[i])
    case Mapping(pairs, _) => UniqueKeys(pairs) && forall i :: 0 <= i < |pairs| ==> Unique(pairs[i].value)
  }

  /** No string that looks like a null, no blank scalar of another type. */
  predicate PlainScalar(n: Node)
    requires n.Scalar?
  {
    n.tag == NULL_TAG ||
    (n.value != "null" && n.value != "~" && (n.tag == STR_TAG || n.value != ""))
  }

  /** A name is a string, or blank. */
  predicate PlainName(n: Node)
  {
    n.Scalar? ==> n.tag == STR_TAG || TrimSpace(n.value) == ""
  }

  /** A list entry whose name, if any, is plain. */
  predicate PlainEntry(n: Node)
  {
    n.Mapping? ==> forall i :: 0 <= i < |n.pairs| && n.pairs[i].key == "name" ==> PlainName(n.pairs[i].value)
  }

  /** A list of scalars is a list of strings. */
  predicate StringsOnly(items: seq<Node>)
  {
    AllScalars(items) ==> forall i :: 0 <= i < |items| ==> items[i].tag == STR_TAG
  }

  predicate FirstOfName(items: seq<Node>, i: int)
  {
    && 0 <= i < |items| && NameOf(items[i]) != ""
    && forall j :: 0 <= j < i ==> NameOf(items[j]) != NameOf(items[i])
  }

  predicate SameName(items: seq<Node>, i: nat, j: nat)
    requires i < |items| && j < |items|
  {
    i != j && NameOf(items[i]) == NameOf(items[j]) != ""
  }

  /** What an operator may have: plain scalars as values, lists of scalars that hold strings
      only (whatever they say), lists of named entries whose names are plain, and in any
      list the first entry of each name plain and fine. The rest of a list is free. */
  ghost predicate Fine(n: Node)
  {
    match n
    case Scalar(_, _, _) => PlainScalar(n)
    case Mapping(pairs, _) => forall i :: 0 <= i < |pairs| ==> Fine(pairs[i].value)
    case Sequence(items, _) =>
      && StringsOnly(items)
      && (NamedMaps(items) ==> forall i :: 0 <= i < |items| ==> PlainEntry(items[i]))
      && (forall i :: 0 <= i < |items| && FirstOfName(items, i) ==> PlainEntry(items[i]) && Fine(items[i]))
  }

  /** What an example may have: any scalar, lists of scalars that hold strings only, list
      entries with plain names, good where they are named, and fine as well where a name
      is repeated, since the later ones are then merged into the earlier. */
  ghost predicate Good(n: Node)
  {
    match n
    case Scalar(_, _, _) => true
    case Mapping(pairs, _) => forall i :: 0 <= i < |pairs| ==> Good(pairs[i].value)
    case Sequence(items, _) =>
      && StringsOnly(items)
      && (forall i :: 0 <= i < |items| ==> PlainEntry(items[i]) && (NameOf(items[i]) != "" ==> Good(items[i])))
      && (forall i, j :: 0 <= i < |items| && 0 <= j < |items| && SameName(items, i, j) ==> Fine(items[i]))
  }

  /** Decoding what the node merge gives is what the map merge gives. */
  predicate Agree(base: Node, overlay: Node, opts: C.Options)
  {
    Decode(MergedValue(base, overlay, opts)) == C.MergedValue(Decode(base), Decode(overlay), opts)
  }

  // ------------------------------------------------------- reading agrees

  lemma {:induction false} DecodePairsAt(pairs: seq<Pair>, k: string)
    ensures k in DecodePairs(pairs) <==> Find(pairs, k) >= 0
    ensures k in DecodePairs(pairs) ==> DecodePairs(pairs)[k] == Decode(pairs[Find(pairs, k)].value)
  {
    if pairs != [] { DecodePairsAt(pairs[..|pairs| - 1], k); }
  }

  lemma NullAgrees(n: Node)
    requires Fine(n)
    ensures IsNullNode(n) <==> Decode(n).Null?
  {
  }

  lemma EmptyAgrees(n: Node)
    requires Fine(n)
    ensures IsEmptyNode(n) <==> C.IsEmpty(Decode(n))
  {
    if n.Mapping? && n.pairs != [] {
      assert n.pairs[|n.pairs| - 1].key in DecodePairs(n.pairs);
    }
  }

  lemma {:induction false} StringAtIs(pairs: seq<Pair>, k: string, i: nat)
    requires UniqueKeys(pairs) && i < |pairs| && pairs[i].key == k
    ensures StringAt(pairs, k) == if pairs[i].value.Scalar? then TrimSpace(pairs[i].value.value) else ""
    decreases |pairs|
  {
    hide TrimSpace;
    if i > 0 {
      assert pairs[0].key != k;
      StringAtIs(pairs[1..], k, i - 1);
    } else {
      StringAtAbsent(pairs[1..], k);
    }
  }

  lemma {:induction false} StringAtAbsent(pairs: seq<Pair>, k: string)
    requires forall i :: 0 <= i < |pairs| ==> pairs[i].key != k
    ensures StringAt(pairs, k) == ""
  {
    if pairs != [] { StringAtAbsent(pairs[1..], k); }
  }

  /** The decoded name is the node's or none at all, and the node's exactly when plain. */
  lemma NameAgrees(n: Node)
    requires Unique(n)
    ensures C.NameOf(Decode(n)) == NameOf(n) || C.NameOf(Decode(n)) == ""
    ensures C.NameOf(Decode(n)) == NameOf(n) <==> PlainEntry(n)
    ensures n.Mapping? <==> Decode(n).Map?
  {
    hide TrimSpace;
    if n.Mapping? {
      DecodePairsAt(n.pairs, "name");
      var i := Find(n.pairs, "name");
      if i < 0 {
        StringAtAbsent(n.pairs, "name");
      } else {
        StringAtIs(n.pairs, "name", i);
        assert PlainEntry(n) <==> PlainName(n.pairs[i].value);
        BlankTrim();
      }
    }
  }

  lemma BlankTrim()
    ensures TrimSpace("") == ""
  {
  }

  lemma NamedMapsAgree(items: seq<Node>)
    requires forall i :: 0 <= i < |items| ==> Unique(items[i])
    requires NamedMaps(items) ==> forall i :: 0 <= i < |items| ==> PlainEntry(items[i])
    ensures NamedMaps(items) <==> C.NamedMaps(DecodeItems(items))
  {
    hide NameOf, C.NameOf, Unique, PlainEntry, Decode, DecodeItems;
    var vs := DecodeItems(items);
    forall i | 0 <= i < |items|
      ensures (items[i].Mapping? <==> vs[i].Map?) && (C.NameOf(vs[i]) == NameOf(items[i]) || C.NameOf(vs[i]) == "")
      ensures PlainEntry(items[i]) ==> C.NameOf(vs[i]) == NameOf(items[i])
    {
      NameAgrees(items[i]);
    }
  }

  lemma StringsAgree(items: seq<Node>)
    requires StringsOnly(items)
    ensures AllScalars(items) <==> C.AllStrings(DecodeItems(items))
  {
    if C.AllStrings(DecodeItems(items)) {
      forall i | 0 <= i < |items| ensures items[i].Scalar? { assert DecodeItems(items)[i].Str?; }
    }
  }

  lemma ValueInDecoded(r: seq<Node>, s: string)
    requires forall i :: 0 <= i < |r| ==> r[i].Scalar? && r[i].tag == STR_TAG
    ensures HasValue(r, s) <==> C.Str(s) in DecodeItems(r)
  {
    if HasValue(r, s) {
      var i :| 0 <= i < |r| && r[i].Scalar? && r[i].value == s;
      assert DecodeItems(r)[i] == C.Str(s);
    }
  }

  lemma {:induction false} DistinctAgrees(items: seq<Node>)
    requires forall i :: 0 <= i < |items| ==> items[i].Scalar? && items[i].tag == STR_TAG
    ensures DecodeItems(Distinct(items)) == C.Distinct(DecodeItems(items))
    ensures forall i :: 0 <= i < |Distinct(items)| ==> Distinct(items)[i] in items
  {
    hide HasValue;
    if items != [] {
      var m := |items| - 1;
      var r, v := Distinct(items[..m]), items[m];
      DistinctAgrees(items[..m]);
      forall i | 0 <= i < |r| ensures r[i] in items && r[i].Scalar? && r[i].tag == STR_TAG {
        assert r[i] in items[..m];
      }
      assert DecodeItems(items)[..m] == DecodeItems(items[..m]);
      ValueInDecoded(r, v.value);
      assert DecodeItems(r + [v]) == DecodeItems(r) + [Decode(v)];
    }
  }

  // --------------------------------------------------- merging pairs agrees

  lemma {:induction false} DecodeConcat(a: seq<Pair>, b: seq<Pair>)
    ensures DecodePairs(a + b) == DecodePairs(a) + DecodePairs(b)
    decreases |b|
  {
    if b == [] {
      assert a + b == a;
    } else {
      var m := |b| - 1;
      DecodeConcat(a, b[..m]);
      assert (a + b)[..|a + b| - 1] == a + b[..m];
    }
  }

  /** The operator's half of a merge. */
  ghost function Half(base: C.Config, overlay: C.Value, opts: C.Options): C.Config
    requires overlay.Map?
  {
    map k | k in base :: if k in overlay.m then C.MergedValue(base[k], overlay.m[k], opts) else base[k]
  }

  /** The example's half. */
  ghost function Rest(base: C.Config, more: C.Config): C.Config
  {
    map k | k in more && k !in base :: more[k]
  }

  lemma HalvesMakeMerge(base: C.Config, overlay: C.Value, opts: C.Options)
    requires overlay.Map?
    ensures C.Merged(base, overlay, opts) == Half(base, overlay, opts) + Rest(base, overlay.m)
  {
    hide C.MergedValue;
  }

  lemma DecodePairsMore(pairs: seq<Pair>, p: Pair)
    ensures DecodePairs(pairs + [p]) == DecodePairs(pairs)[p.key := Decode(p.value)]
  {
    hide Decode;
    assert (pairs + [p])[..|pairs|] == pairs;
  }

  lemma RestMore(base: C.Config, more: C.Config, k: string, v: C.Value)
    ensures Rest(base, more[k := v]) == if k in base then Rest(base, more) else Rest(base, more)[k := v]
  {
  }

  lemma {:induction false} NewPairsAgree(base: seq<Pair>, more: seq<Pair>)
    ensures DecodePairs(NewPairs(base, more)) == Rest(DecodePairs(base), DecodePairs(more))
    ensures forall i :: 0 <= i < |NewPairs(base, more)| ==>
              NewPairs(base, more)[i] in more && Find(base, NewPairs(base, more)[i].key) < 0
    decreases |more|
  {
    hide Find, Decode, DecodePairs, NewPairs, Rest;
    if more == [] {
      NothingNew(base);
    } else {
      var m := |more| - 1;
      var p := more[m];
      assert more == more[..m] + [p];
      NewPairsAgree(base, more[..m]);
      DecodePairsAt(base, p.key);
      NewPairsMore(base, more[..m], p);
      DecodePairsMore(more[..m], p);
      DecodePairsMore(NewPairs(base, more[..m]), p);
      RestMore(DecodePairs(base), DecodePairs(more[..m]), p.key, Decode(p.value));
    }
  }

  lemma NothingNew(base: seq<Pair>)
    ensures NewPairs(base, []) == [] && Rest(DecodePairs(base), DecodePairs([])) == DecodePairs([])
  {
  }

  // ------------------------------------------------- indexes by name agree

  ghost function DecodeNamed(n: Named): (r: C.Named)
    requires Indexed(n)
    ensures C.Indexed(r)
  {
    C.Named(n.order, map x | x in n.byName :: DecodePairs(n.byName[x].pairs))
  }

  lemma AddAgrees(n: Named, v: Node)
    requires Indexed(n) && v.Mapping? && Unique(v) && PlainEntry(v)
    ensures DecodeNamed(AddNamed(n, v)) == C.AddNamed(DecodeNamed(n), Decode(v))
  {
    hide NameOf, C.NameOf, Unique, PlainEntry, DecodePairs;
    NameAgrees(v);
    assert DecodeNamed(AddNamed(n, v)).byName == DecodeNamed(n).byName[NameOf(v) := DecodePairs(v.pairs)];
  }

  /** An index holds the first entry of each name. */
  lemma {:induction false} TakeBaseFirst(items: seq<Node>, x: string)
    ensures x in TakeBase(items).byName <==> exists i :: 0 <= i < |items| && FirstOfName(items, i) && NameOf(items[i]) == x
    ensures forall i :: 0 <= i < |items| && FirstOfName(items, i) && NameOf(items[i]) == x ==>
              x in TakeBase(items).byName && TakeBase(items).byName[x] == items[i]
  {
    hide NameOf;
    if items != [] {
      var m := |items| - 1;
      var n, v := TakeBase(items[..m]), items[m];
      TakeBaseFirst(items[..m], x);
      FirstPrefix(items, x);
    }
  }

  /** Leaving out the last entry leaves the first ones of a name as they are. */
  lemma FirstPrefix(items: seq<Node>, x: string)
    requires items != []
    ensures var m := |items| - 1;
            && (forall i :: 0 <= i < m ==> (FirstOfName(items, i) <==> FirstOfName(items[..m], i)) && items[..m][i] == items[i])
            && (FirstOfName(items, m) && NameOf(items[m]) == x ==>
                  !exists i :: 0 <= i < m && FirstOfName(items[..m], i) && NameOf(items[..m][i]) == x)
            && (!FirstOfName(items, m) && NameOf(items[m]) == x != "" ==>
                  exists i :: 0 <= i < m && FirstOfName(items[..m], i) && NameOf(items[..m][i]) == x)
  {
    hide NameOf;
    var m := |items| - 1;
    if !FirstOfName(items, m) && NameOf(items[m]) == x != "" {
      var j :| 0 <= j < m && NameOf(items[j]) == NameOf(items[m]);
      Earliest(items[..m], j);
    }
  }

  lemma {:induction false} Earliest(items: seq<Node>, j: nat)
    requires j < |items| && NameOf(items[j]) != ""
    ensures exists i :: 0 <= i < |items| && FirstOfName(items, i) && NameOf(items[i]) == NameOf(items[j])
    decreases j
  {
    hide NameOf;
    if !FirstOfName(items, j) {
      var i :| 0 <= i < j && NameOf(items[i]) == NameOf(items[j]);
      Earliest(items, i);
    }
  }

  /** The first entry of each name is plain. */
  ghost predicate FirstsPlain(items: seq<Node>)
  {
    forall i :: 0 <= i < |items| && FirstOfName(items, i) ==> PlainEntry(items[i])
  }

  lemma {:induction false} TakeBaseAgrees(items: seq<Node>)
    requires FirstsPlain(items) && forall i :: 0 <= i < |items| ==> Unique(items[i])
    ensures DecodeNamed(TakeBase(items)) == C.TakeBase(DecodeItems(items))
  {
    hide NameOf, C.NameOf, Unique, PlainEntry, Decode, DecodePairs, AddNamed, C.AddNamed, FirstOfName;
    if items == [] {
      assert DecodeNamed(TakeBase(items)).byName == map[];
    } else {
      var m := |items| - 1;
      var n, v := TakeBase(items[..m]), items[m];
      FirstPrefix(items, NameOf(v));
      TakeBaseAgrees(items[..m]);
      assert DecodeItems(items)[..m] == DecodeItems(items[..m]);
      NameAgrees(v);
      TakeBaseFirst(items[..m], NameOf(v));
      if NameOf(v) != "" && NameOf(v) !in n.byName {
        HasNameIsMapping(v);
        AddAgrees(n, v);
      }
    }
  }

  lemma EmitAgrees(n: Named)
    requires Indexed(n)
    ensures DecodeItems(Emit(n)) == C.Emit(DecodeNamed(n))
  {
    hide DecodePairs, DecodeItems;
    forall i | 0 <= i < |Emit(n)| ensures Decode(Emit(n)[i]) == C.Emit(DecodeNamed(n))[i] {
      assert n.order[i] in n.byName;
    }
  }

  lemma ReplaceAgrees(n: Named, x: string, v: Node)
    requires Indexed(n) && x in n.byName && v.Mapping?
    ensures Indexed(Named(n.order, n.byName[x := v]))
    ensures DecodeNamed(Named(n.order, n.byName[x := v])) ==
            C.Named(n.order, DecodeNamed(n).byName[x := DecodePairs(v.pairs)])
  {
    hide DecodePairs;
    assert DecodeNamed(Named(n.order, n.byName[x := v])).byName == DecodeNamed(n).byName[x := DecodePairs(v.pairs)];
  }

  // ------------------------------------------------- merging keeps things fine

  ghost predicate Sound(n: Node) { Fine(n) && Unique(n) }

  /** Every entry of the index is sound, plainly named, and filed under its name. */
  ghost predicate Neat(n: Named)
  {
    forall x :: x in n.byName ==>
      n.byName[x].Mapping? && Sound(n.byName[x]) && PlainEntry(n.byName[x]) && NameOf(n.byName[x]) == x && x != ""
  }

  lemma {:induction false} MergedIsSound(base: Node, overlay: Node, opts: C.Options)
    requires Sound(base) && Sound(overlay) && Good(overlay)
    ensures Sound(MergedValue(base, overlay, opts))
    decreases overlay, 3
  {
    hide Fine, Unique, Good, MergedMapping, MergedSequence, IsNullNode, IsEmptyNode;
    if base.Mapping? && overlay.Mapping? {
      MappingIsSound(base, overlay, opts);
    } else if base.Sequence? && overlay.Sequence? {
      SequenceIsSound(base, overlay, opts);
    }
  }

  lemma {:induction false} MappingIsSound(base: Node, overlay: Node, opts: C.Options)
    requires base.Mapping? && overlay.Mapping? && Sound(base) && Sound(overlay) && Good(overlay)
    ensures Sound(MergedMapping(base, overlay, opts))
    decreases overlay, 2
  {
    hide MergedPairs, NewPairs, Find, MergedValue;
    var p, q := MergedPairs(base.pairs, overlay, opts), NewPairs(base.pairs, overlay.pairs);
    forall i | 0 <= i < |p| ensures Sound(p[i].value) {
      MergedPairAt(base.pairs, overlay, opts, i);
      var j := Find(overlay.pairs, base.pairs[i].key);
      if j >= 0 { MergedIsSound(base.pairs[i].value, overlay.pairs[j].value, opts); }
    }
    NewPairsAgree(base.pairs, overlay.pairs);
    NewPairsUnique(base.pairs, overlay.pairs);
    ConcatIsSound(base, overlay, p, q);
  }

  lemma {:induction false} MergedPairAt(base: seq<Pair>, overlay: Node, opts: C.Options, i: nat)
    requires overlay.Mapping? && i < |base|
    ensures var j := Find(overlay.pairs, base[i].key);
            MergedPairs(base, overlay, opts)[i] ==
            if j < 0 then base[i] else Pair(base[i].key, base[i].keyNote, MergedValue(base[i].value, overlay.pairs[j].value, opts))
    decreases |base|
  {
    hide MergedValue, Find;
    if i < |base| - 1 { MergedPairAt(base[..|base| - 1], overlay, opts, i); }
  }

  lemma ConcatIsSound(base: Node, overlay: Node, p: seq<Pair>, q: seq<Pair>)
    requires base.Mapping? && overlay.Mapping? && Sound(base) && Sound(overlay) && |p| == |base.pairs|
    requires forall i :: 0 <= i < |p| ==> p[i].key == base.pairs[i].key && Sound(p[i].value)
    requires UniqueKeys(q) && forall i :: 0 <= i < |q| ==> q[i] in overlay.pairs && Find(base.pairs, q[i].key) < 0
    ensures Sound(Mapping(p + q, base.note))
  {
    hide PlainScalar;
    var r := p + q;
    forall i | 0 <= i < |r| ensures Sound(r[i].value) {
      if i >= |p| { assert r[i] == q[i - |p|] && r[i] in overlay.pairs; }
    }
    forall i, j | 0 <= i < j < |r| ensures r[i].key != r[j].key {
      if i < |p| <= j { assert Find(base.pairs, q[j - |p|].key) < 0; }
    }
  }

  lemma {:induction false} NewPairsUnique(base: seq<Pair>, more: seq<Pair>)
    requires UniqueKeys(more)
    ensures UniqueKeys(NewPairs(base, more))
    decreases |more|
  {
    hide Decode, DecodePairs, Find;
    if more != [] {
      NewPairsUnique(base, more[..|more| - 1]);
      NewPairsAgree(base, more[..|more| - 1]);
    }
  }

  lemma {:induction false} SequenceIsSound(base: Node, overlay: Node, opts: C.Options)
    requires base.Sequence? && overlay.Sequence? && Sound(base) && Sound(overlay) && Good(overlay)
    ensures Sound(MergedSequence(base, overlay, opts))
    decreases overlay, 2
  {
    hide TakeOverlay, TakeBase, Emit, Distinct, NamedMaps, Fine, Unique, Good, StringsOnly, Neat;
    if !opts.overwrite && !(opts.fillEmpty && base.items == []) {
      if NamedMaps(base.items) || NamedMaps(overlay.items) {
        TakeBaseIsNeat(base);
        TakeOverlayIsNeat(TakeBase(base.items), overlay, |overlay.items|, opts);
        EmitIsSound(TakeOverlay(TakeBase(base.items), overlay, |overlay.items|, opts));
      } else if AllScalars(base.items) && AllScalars(overlay.items) {
        StringsOf(base);
        StringsOf(overlay);
        UnionIsSound(base.items, overlay.items);
      }
    }
  }

  lemma StringsOf(n: Node)
    requires n.Sequence? && (Fine(n) || Good(n)) && AllScalars(n.items)
    ensures forall i :: 0 <= i < |n.items| ==> n.items[i].Scalar? && n.items[i].tag == STR_TAG
  {
  }

  lemma UnionIsSound(a: seq<Node>, b: seq<Node>)
    requires forall i :: 0 <= i < |a| ==> a[i].Scalar? && a[i].tag == STR_TAG
    requires forall i :: 0 <= i < |b| ==> b[i].Scalar? && b[i].tag == STR_TAG
    ensures Sound(Sequence(Distinct(a + b), ""))
  {
    hide Distinct, Sound, Decode, DecodeItems;
    DistinctAgrees(a + b);
    var r := Distinct(a + b);
    forall i | 0 <= i < |r| ensures r[i].Scalar? && r[i].tag == STR_TAG {
      var j :| 0 <= j < |a + b| && (a + b)[j] == r[i];
    }
    ScalarsAreSound(r);
  }

  lemma ScalarsAreSound(r: seq<Node>)
    requires forall i :: 0 <= i < |r| ==> r[i].Scalar? && r[i].tag == STR_TAG
    ensures Sound(Sequence(r, ""))
  {
    hide PlainEntry;
    assert forall i :: 0 <= i < |r| ==> NameOf(r[i]) == "";
    assert forall i :: 0 <= i < |r| ==> !FirstOfName(r, i);
    assert !NamedMaps(r) by {
      if r != [] { assert !r[0].Mapping?; }
    }
    assert forall i :: 0 <= i < |r| ==> Unique(r[i]);
  }

  lemma TakeBaseIsNeat(base: Node)
    requires base.Sequence? && Sound(base)
    ensures Neat(TakeBase(base.items))
  {
    hide NameOf, TakeBase, FirstOfName, PlainEntry;
    forall x | x in TakeBase(base.items).byName
      ensures var v := TakeBase(base.items).byName[x];
              v.Mapping? && Sound(v) && PlainEntry(v) && NameOf(v) == x && x != ""
    {
      TakeBaseFirst(base.items, x);
      var i :| 0 <= i < |base.items| && FirstOfName(base.items, i) && NameOf(base.items[i]) == x;
      FirstIsNamed(base.items, i);
      HasNameIsMapping(base.items[i]);
    }
  }

  lemma FirstIsNamed(items: seq<Node>, i: int)
    requires FirstOfName(items, i)
    ensures 0 <= i < |items| && NameOf(items[i]) != ""
  {
  }

  /** A named entry of a good and sound example is good and sound itself. */
  lemma EntryIsSound(overlay: Node, i: nat)
    requires overlay.Sequence? && Sound(overlay) && Good(overlay) && i < |overlay.items| && NameOf(overlay.items[i]) != ""
    ensures Sound(overlay.items[i]) && Good(overlay.items[i]) && PlainEntry(overlay.items[i])
  {
    hide NameOf, PlainEntry, StringsOnly;
    if !FirstOfName(overlay.items, i) {
      var j :| 0 <= j < i && NameOf(overlay.items[j]) == NameOf(overlay.items[i]);
      assert SameName(overlay.items, i, j);
    }
  }

  lemma {:induction false} TakeOverlayIsNeat(n0: Named, overlay: Node, k: nat, opts: C.Options)
    requires overlay.Sequence? && Sound(overlay) && Good(overlay) && k <= |overlay.items| && Indexed(n0) && Neat(n0)
    requires !opts.overwrite
    ensures Neat(TakeOverlay(n0, overlay, k, opts))
    decreases overlay, 1, k
  {
    hide NameOf, Neat, Sound, Good, PlainEntry, MergedMapping, AddNamed;
    if k > 0 {
      TakeOverlayIsNeat(n0, overlay, k - 1, opts);
      var n, v := TakeOverlay(n0, overlay, k - 1, opts), overlay.items[k - 1];
      if NameOf(v) != "" {
        EntryIsSound(overlay, k - 1);
        HasNameIsMapping(v);
        if NameOf(v) in n.byName {
          NeatAt(n, NameOf(v));
          MappingIsSound(n.byName[NameOf(v)], v, opts);
          NameIsKept(n.byName[NameOf(v)], v, opts);
          NeatReplace(n, NameOf(v), MergedMapping(n.byName[NameOf(v)], v, opts));
        } else {
          NeatAdd(n, v);
        }
      }
    }
  }

  lemma NeatAt(n: Named, x: string)
    requires Neat(n) && x in n.byName
    ensures n.byName[x].Mapping? && Sound(n.byName[x]) && PlainEntry(n.byName[x]) && NameOf(n.byName[x]) == x && x != ""
  {
    hide Sound, PlainEntry, NameOf;
  }

  lemma NeatReplace(n: Named, x: string, v: Node)
    requires Neat(n) && v.Mapping? && Sound(v) && PlainEntry(v) && NameOf(v) == x != ""
    ensures Neat(Named(n.order, n.byName[x := v]))
  {
    hide Sound, PlainEntry, NameOf;
  }

  lemma NeatAdd(n: Named, v: Node)
    requires Indexed(n) && Neat(n) && v.Mapping? && Sound(v) && PlainEntry(v) && NameOf(v) != ""
    ensures Neat(AddNamed(n, v))
  {
    hide Sound, PlainEntry, NameOf;
  }

  /** Where lists merge, the operator's entry keeps its name. */
  lemma NameIsKept(b: Node, v: Node, opts: C.Options)
    requires b.Mapping? && v.Mapping? && Sound(b) && Sound(MergedMapping(b, v, opts)) && PlainEntry(b) && NameOf(b) != ""
    requires !opts.overwrite
    ensures var r := MergedMapping(b, v, opts); NameOf(r) == NameOf(b) && PlainEntry(r)
  {
    hide MergedPairs, NewPairs, TrimSpace;
    var r := MergedMapping(b, v, opts);
    var i := NamePair(b);
    MergedPairAt(b.pairs, v, opts, i);
    assert r.pairs[i] == MergedPairs(b.pairs, v, opts)[i];
    KeepsScalar(b.pairs[i].value, v, opts, i, b);
    StringAtIs(b.pairs, "name", i);
    StringAtIs(r.pairs, "name", i);
  }

  lemma NamePair(b: Node) returns (i: nat)
    requires b.Mapping? && Unique(b) && NameOf(b) != ""
    ensures i < |b.pairs| && b.pairs[i].key == "name" && b.pairs[i].value.Scalar?
    ensures TrimSpace(b.pairs[i].value.value) == NameOf(b)
  {
    hide TrimSpace;
    if Find(b.pairs, "name") < 0 { StringAtAbsent(b.pairs, "name"); }
    i := Find(b.pairs, "name");
    StringAtIs(b.pairs, "name", i);
  }

  lemma KeepsScalar(s: Node, v: Node, opts: C.Options, i: nat, b: Node)
    requires b.Mapping? && i < |b.pairs| && b.pairs[i].value == s && s.Scalar? && Fine(b) && PlainEntry(b)
    requires b.pairs[i].key == "name" && TrimSpace(s.value) != "" && !opts.overwrite
    ensures forall o :: MergedValue(s, o, opts) == s
  {
    BlankTrim();
  }

  lemma EmitIsSound(n: Named)
    requires Indexed(n) && Neat(n)
    ensures Sound(Sequence(Emit(n), ""))
  {
    hide NameOf, PlainEntry, PlainScalar, FirstOfName;
    var r := Emit(n);
    forall i | 0 <= i < |r| ensures r[i].Mapping? && Sound(r[i]) && PlainEntry(r[i]) {
      assert n.order[i] in n.byName;
    }
    assert AllScalars(r) ==> r == [] by {
      if r != [] { assert !r[0].Scalar?; }
    }
  }

  // ------------------------------------------------------------ the theorem

  /** Entries that later ones of the example are merged into are sound. */
  ghost predicate Ready(n: Named, items: seq<Node>, k: nat)
  {
    forall j :: k <= j < |items| && NameOf(items[j]) in n.byName ==> Sound(n.byName[NameOf(items[j])])
  }

  lemma {:induction false} TakeOverlayAgrees(n0: Named, overlay: Node, k: nat, opts: C.Options)
    requires overlay.Sequence? && Good(overlay) && Unique(overlay) && k <= |overlay.items|
    requires Indexed(n0) && Ready(n0, overlay.items, 0)
    ensures DecodeNamed(TakeOverlay(n0, overlay, k, opts)) ==
            C.TakeOverlay(DecodeNamed(n0), Decode(overlay), k, opts)
    ensures Ready(TakeOverlay(n0, overlay, k, opts), overlay.items, k)
    decreases overlay, 0, k
  {
    hide TakeOne, C.TakeOne, DecodeNamed, Ready, Good, Unique, DecodeItems;
    if k > 0 {
      TakeOverlayAgrees(n0, overlay, k - 1, opts);
      TakeOneAgrees(TakeOverlay(n0, overlay, k - 1, opts), overlay, k - 1, opts);
    }
  }

  lemma {:induction false} TakeOneAgrees(n: Named, overlay: Node, k: nat, opts: C.Options)
    requires overlay.Sequence? && Good(overlay) && Unique(overlay) && k < |overlay.items|
    requires Indexed(n) && Ready(n, overlay.items, k)
    ensures DecodeNamed(TakeOne(n, overlay.items[k], opts)) == C.TakeOne(DecodeNamed(n), Decode(overlay.items[k]), opts)
    ensures Ready(TakeOne(n, overlay.items[k], opts), overlay.items, k + 1)
    decreases overlay, 0, k
  {
    hide NameOf, C.NameOf, Sound, Fine, PlainEntry, DecodePairs, MergedMapping, C.Merged, AddNamed, C.AddNamed, StringsOnly;
    var v := overlay.items[k];
    NameAgrees(v);
    if NameOf(v) != "" {
      HasNameIsMapping(v);
      if NameOf(v) in n.byName {
        var b := n.byName[NameOf(v)];
        SoundIs(b);
        MappingAgrees(b, v, opts);
        ReplaceAgrees(n, NameOf(v), MergedMapping(b, v, opts));
        if exists j :: k < j < |overlay.items| && NameOf(overlay.items[j]) == NameOf(v) {
          RepeatIsSound(overlay, k);
          MappingIsSound(b, v, opts);
        }
        ReadyReplace(n, overlay.items, k, MergedMapping(b, v, opts));
      } else {
        AddAgrees(n, v);
        if exists j :: k < j < |overlay.items| && NameOf(overlay.items[j]) == NameOf(v) { RepeatIsSound(overlay, k); }
        ReadyAdd(n, overlay.items, k);
      }
    }
  }

  lemma SoundIs(n: Node)
    requires Sound(n)
    ensures Fine(n) && Unique(n)
  {
  }

  lemma BothSound(n: Node)
    requires Fine(n) && Unique(n)
    ensures Sound(n)
  {
  }

  /** An entry whose name comes again is sound. */
  lemma RepeatIsSound(overlay: Node, k: nat)
    requires overlay.Sequence? && Good(overlay) && Unique(overlay) && k < |overlay.items| && NameOf(overlay.items[k]) != ""
    requires exists j :: k < j < |overlay.items| && NameOf(overlay.items[j]) == NameOf(overlay.items[k])
    ensures Sound(overlay.items[k])
  {
    hide NameOf, PlainEntry, StringsOnly;
    var j :| k < j < |overlay.items| && NameOf(overlay.items[j]) == NameOf(overlay.items[k]);
    assert SameName(overlay.items, k, j);
  }

  lemma ReadyReplace(n: Named, items: seq<Node>, k: nat, r: Node)
    requires k < |items| && Ready(n, items, k)
    requires (exists j :: k < j < |items| && NameOf(items[j]) == NameOf(items[k])) ==> Sound(r)
    ensures Ready(Named(n.order, n.byName[NameOf(items[k]) := r]), items, k + 1)
  {
    hide Sound, NameOf;
  }

  lemma ReadyAdd(n: Named, items: seq<Node>, k: nat)
    requires k < |items| && items[k].Mapping? && Indexed(n) && Ready(n, items, k)
    requires (exists j :: k < j < |items| && NameOf(items[j]) == NameOf(items[k])) ==> Sound(items[k])
    ensures Ready(AddNamed(n, items[k]), items, k + 1)
  {
    hide Sound, NameOf;
  }

  lemma BaseIsReady(base: Node, overlay: Node)
    requires base.Sequence? && overlay.Sequence? && Sound(base)
    ensures Ready(TakeBase(base.items), overlay.items, 0)
  {
    hide Sound, NameOf, TakeBase;
    TakeBaseIsNeat(base);
  }

  lemma {:induction false} SequenceAgrees(base: Node, overlay: Node, opts: C.Options)
    requires base.Sequence? && overlay.Sequence? && Fine(base) && Unique(base) && Good(overlay) && Unique(overlay)
    ensures var r := MergedSequence(base, overlay, opts);
            r.Sequence? && Decode(r) == C.List(C.MergedList(DecodeItems(base.items), Decode(overlay), opts))
    decreases overlay, 1
  {
    hide NamedMaps, C.NamedMaps, TakeBase, C.TakeBase, TakeOverlay, C.TakeOverlay, Emit, C.Emit, Distinct, C.Distinct,
      PlainEntry, DecodeNamed, Ready, StringsOnly, FirstOfName;
    BaseReads(base);
    OverlayReads(overlay);
    if !opts.overwrite && !(opts.fillEmpty && base.items == []) {
      if NamedMaps(base.items) || NamedMaps(overlay.items) {
        BothSound(base);
        BaseIsReady(base, overlay);
        TakeBaseAgrees(base.items);
        TakeOverlayAgrees(TakeBase(base.items), overlay, |overlay.items|, opts);
        EmitAgrees(TakeOverlay(TakeBase(base.items), overlay, |overlay.items|, opts));
      } else if AllScalars(base.items) && AllScalars(overlay.items) {
        StringsOf(base);
        StringsOf(overlay);
        UnionAgrees(base.items, overlay.items);
      }
    }
  }

  lemma BaseReads(base: Node)
    requires base.Sequence? && Fine(base) && Unique(base)
    ensures NamedMaps(base.items) <==> C.NamedMaps(DecodeItems(base.items))
    ensures AllScalars(base.items) <==> C.AllStrings(DecodeItems(base.items))
    ensures FirstsPlain(base.items)
  {
    hide NamedMaps, C.NamedMaps, PlainEntry, FirstOfName, DecodeItems;
    NamedMapsAgree(base.items);
    StringsAgree(base.items);
  }

  lemma OverlayReads(overlay: Node)
    requires overlay.Sequence? && Good(overlay) && Unique(overlay)
    ensures NamedMaps(overlay.items) <==> C.NamedMaps(DecodeItems(overlay.items))
    ensures AllScalars(overlay.items) <==> C.AllStrings(DecodeItems(overlay.items))
  {
    hide NamedMaps, C.NamedMaps, PlainEntry, DecodeItems;
    NamedMapsAgree(overlay.items);
    StringsAgree(overlay.items);
  }

  lemma UnionAgrees(a: seq<Node>, b: seq<Node>)
    requires forall i :: 0 <= i < |a| ==> a[i].Scalar? && a[i].tag == STR_TAG
    requires forall i :: 0 <= i < |b| ==> b[i].Scalar? && b[i].tag == STR_TAG
    ensures DecodeItems(Distinct(a + b)) == C.Distinct(DecodeItems(a) + DecodeItems(b))
  {
    hide Distinct, C.Distinct, DecodeItems;
    ItemsConcat(a, b);
    DistinctAgrees(a + b);
  }

  lemma ItemsConcat(a: seq<Node>, b: seq<Node>)
    ensures DecodeItems(a + b) == DecodeItems(a) + DecodeItems(b)
  {
    hide Decode;
  }

  /** Any value: the merges agree for every Overwrite/FillEmpty setting. */
  lemma {:induction false} ValueAgrees(base: Node, overlay: Node, opts: C.Options)
    requires Fine(base) && Unique(base) && Good(overlay) && Unique(overlay)
    ensures Agree(base, overlay, opts)
    decreases overlay, 3
  {
    hide Fine, Good, Unique, IsNullNode, IsEmptyNode, C.IsEmpty, MergedMapping, MergedSequence, C.Merged, C.MergedList,
      DecodePairs, DecodeItems;
    NullAgrees(base);
    EmptyAgrees(base);
    if base.Mapping? && overlay.Mapping? {
      MappingAgrees(base, overlay, opts);
    } else if base.Sequence? && overlay.Sequence? {
      SequenceAgrees(base, overlay, opts);
    }
  }

  /** The operator's pairs, merged one by one. */
  lemma {:induction false} PairsAgree(base: seq<Pair>, overlay: Node, opts: C.Options)
    requires overlay.Mapping? && Good(overlay) && Unique(overlay)
    requires forall i :: 0 <= i < |base| ==> Fine(base[i].value) && Unique(base[i].value)
    ensures DecodePairs(MergedPairs(base, overlay, opts)) == Half(DecodePairs(base), Decode(overlay), opts)
    decreases overlay, 1, |base|
  {
    hide Fine, MergedValue, C.MergedValue, Find;
    if base != [] {
      var m := |base| - 1;
      var p := base[m];
      PairsAgree(base[..m], overlay, opts);
      var r := MergedPairs(base, overlay, opts);
      assert r[..m] == MergedPairs(base[..m], overlay, opts);
      DecodePairsAt(overlay.pairs, p.key);
      var i := Find(overlay.pairs, p.key);
      if i >= 0 { ValueAgrees(p.value, overlay.pairs[i].value, opts); }
      HalfStep(DecodePairs(base[..m]), Decode(overlay), opts, p.key, Decode(p.value), Decode(r[m].value));
    }
  }

  lemma HalfStep(base: C.Config, overlay: C.Value, opts: C.Options, k: string, v: C.Value, w: C.Value)
    requires overlay.Map?
    requires w == if k in overlay.m then C.MergedValue(v, overlay.m[k], opts) else v
    ensures Half(base[k := v], overlay, opts) == Half(base, overlay, opts)[k := w]
  {
    hide C.MergedValue;
  }

  /** Whole documents: decoding the merged nodes equals merging the decoded configs, for
      every Overwrite/FillEmpty setting; and the operator's keys come first, in the
      operator's order and with the operator's comments. */
  lemma {:induction false} MappingAgrees(base: Node, overlay: Node, opts: C.Options)
    requires base.Mapping? && overlay.Mapping? && Fine(base) && Unique(base) && Good(overlay) && Unique(overlay)
    ensures var r := MergedMapping(base, overlay, opts);
            && DecodePairs(r.pairs) == C.Merged(DecodePairs(base.pairs), Decode(overlay), opts)
            && |base.pairs| <= |r.pairs| && r.note == base.note
            && forall i :: 0 <= i < |base.pairs| ==>
                 r.pairs[i].key == base.pairs[i].key && r.pairs[i].keyNote == base.pairs[i].keyNote
    decreases overlay, 2
  {
    hide MergedPairs, NewPairs, DecodePairs, C.Merged, Half, Rest;
    var p, q := MergedPairs(base.pairs, overlay, opts), NewPairs(base.pairs, overlay.pairs);
    PairsAgree(base.pairs, overlay, opts);
    NewPairsAgree(base.pairs, overlay.pairs);
    DecodeConcat(p, q);
    HalvesMakeMerge(DecodePairs(base.pairs), Decode(overlay), opts);
  }
}
