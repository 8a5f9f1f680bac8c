/** Nothing weaker will do: an operator document that is not fine, or an example that is not
    good, parts the two merges on some partner. */
module NodeExact {
  import opened Text
  import opened NodeMerge
  import opened NodeLaws
  import C = ConfigMerge
  import CL = ConfigLaws

  // ------------------------------------------------------------- making entries

  function NameScalar(name: string): Node { Scalar(STR_TAG, name, "") }

  /** A list entry with a name, and one with a name and one more value. */
  function Entry(name: string): Node { Mapping([Pair("name", "", NameScalar(name))], "") }

  function EntryWith(name: string, k: string, v: Node): Node
  {
    Mapping([Pair("name", "", NameScalar(name)), Pair(k, "", v)], "")
  }

  function One(n: Node): Node { Sequence([n], "") }

  lemma SpacedTrim(x: string)
    requires Trimmed(x) && x != ""
    ensures TrimSpace(" " + x) == x
  {
    assert (" " + x)[1..] == x;
    assert TrimLeft(" " + x) == TrimLeft(x) == x;
  }

  lemma NameIsTrimmed(n: Node)
    ensures Trimmed(NameOf(n))
  {
    hide TrimSpace;
    if n.Mapping? { StringAtTrimmed(n.pairs, "name"); }
  }

  lemma {:induction false} StringAtTrimmed(pairs: seq<Pair>, k: string)
    ensures Trimmed(StringAt(pairs, k))
  {
    hide TrimSpace;
    if pairs != [] { StringAtTrimmed(pairs[1..], k); }
  }

  lemma EntryIs(name: string)
    ensures Unique(Entry(name)) && PlainEntry(Entry(name)) && NameOf(Entry(name)) == TrimSpace(name) && Good(Entry(name))
    ensures PlainScalar(NameScalar(name)) ==> Fine(Entry(name))
  {
    hide TrimSpace;
    var e := Entry(name);
    StringAtIs(e.pairs, "name", 0);
    assert forall i :: 0 <= i < |e.pairs| ==> e.pairs[i].value == NameScalar(name);
  }

  lemma EntryWithIs(name: string, k: string, v: Node)
    requires k != "name" && Unique(v)
    ensures var e := EntryWith(name, k, v);
            && Unique(e) && PlainEntry(e) && NameOf(e) == TrimSpace(name)
            && (Good(v) ==> Good(e))
            && (Fine(v) && PlainScalar(NameScalar(name)) ==> Fine(e))
  {
    hide TrimSpace;
    var e := EntryWith(name, k, v);
    assert UniqueKeys(e.pairs);
    StringAtIs(e.pairs, "name", 0);
    assert forall i :: 0 <= i < |e.pairs| ==> e.pairs[i].value == NameScalar(name) || e.pairs[i].value == v;
  }

  /** A list of one named entry. */
  lemma OneIs(e: Node)
    requires e.Mapping? && Unique(e) && PlainEntry(e) && NameOf(e) != ""
    ensures Unique(One(e)) && NamedMaps([e]) && (Good(e) ==> Good(One(e))) && (Fine(e) ==> Fine(One(e)))
  {
    hide NameOf, PlainEntry;
    assert forall i :: 0 <= i < |[e]| ==> [e][i] == e;
    assert !AllScalars([e]) by { assert !([e][0].Scalar?); }
  }

  /** What the two readings make of a list of one plainly named entry. */
  lemma OneReads(e: Node)
    requires e.Mapping? && Unique(e) && PlainEntry(e) && NameOf(e) != ""
    ensures var v := Decode(One(e));
            v == C.List([Decode(e)]) && C.NamedMaps(v.items) && NamedMaps([e]) && C.NameOf(Decode(e)) == NameOf(e) && Decode(e).Map?
    ensures TakeBase([e]) == Named([NameOf(e)], map[NameOf(e) := e])
    ensures C.TakeBase([Decode(e)]) == C.Named([NameOf(e)], map[NameOf(e) := DecodePairs(e.pairs)])
  {
    hide NameOf, PlainEntry, C.NameOf, DecodePairs;
    NameAgrees(e);
    assert DecodeItems([e]) == [Decode(e)];
    assert [e][..0] == [] && [Decode(e)][..0] == [];
    assert TakeBase([]) == Named([], map[]) && C.TakeBase([]) == C.Named([], map[]);
  }

  // ------------------------------------------------------------- inside mappings

  /** Values that part the merges part them in a mapping that holds them. */
  lemma MappingDisagrees(base: Node, overlay: Node, i: nat, j: nat, opts: C.Options)
    requires base.Mapping? && overlay.Mapping? && UniqueKeys(base.pairs) && UniqueKeys(overlay.pairs)
    requires i < |base.pairs| && j < |overlay.pairs| && base.pairs[i].key == overlay.pairs[j].key
    requires !Agree(base.pairs[i].value, overlay.pairs[j].value, opts)
    ensures DecodePairs(MergedMapping(base, overlay, opts).pairs) != C.Merged(DecodePairs(base.pairs), Decode(overlay), opts)
    ensures !Agree(base, overlay, opts)
  {
    hide MergedPairs, NewPairs, DecodePairs, C.Merged, C.MergedValue, MergedValue, Rest, Find;
    var k := base.pairs[i].key;
    var p, q := MergedPairs(base.pairs, overlay, opts), NewPairs(base.pairs, overlay.pairs);
    FindUnique(base.pairs, i);
    FindUnique(overlay.pairs, j);
    FindUnique(p, i);
    MergedPairAt(base.pairs, overlay, opts, i);
    DecodePairsAt(base.pairs, k);
    DecodePairsAt(overlay.pairs, k);
    DecodePairsAt(p, k);
    NewPairsAgree(base.pairs, overlay.pairs);
    RestSkips(DecodePairs(base.pairs), DecodePairs(overlay.pairs), k);
    DecodeConcat(p, q);
    C.MergedAt(DecodePairs(base.pairs), Decode(overlay), opts, k);
    MappingsMerge(base, overlay, opts);
  }

  lemma RestSkips(base: C.Config, more: C.Config, k: string)
    requires k in base
    ensures k !in Rest(base, more)
  {
  }

  lemma FindUnique(pairs: seq<Pair>, i: nat)
    requires UniqueKeys(pairs) && i < |pairs|
    ensures Find(pairs, pairs[i].key) == i
  {
  }

  lemma MappingsMerge(base: Node, overlay: Node, opts: C.Options)
    requires base.Mapping? && overlay.Mapping? && base.pairs != []
    ensures MergedValue(base, overlay, opts) == MergedMapping(base, overlay, opts)
    ensures C.MergedValue(Decode(base), Decode(overlay), opts) == C.Map(C.Merged(DecodePairs(base.pairs), Decode(overlay), opts))
  {
    hide MergedMapping, C.Merged;
    assert base.pairs[|base.pairs| - 1].key in DecodePairs(base.pairs);
  }

  // ------------------------------------------------------------- inside lists

  predicate NamesOnce(items: seq<Node>)
  {
    forall i, j :: 0 <= i < j < |items| && NameOf(items[i]) != "" ==> NameOf(items[i]) != NameOf(items[j])
  }

  /** Every name of the index is in its order. */
  ghost predicate Ordered(n: Named) { forall x :: x in n.byName ==> x in n.order }

  lemma {:induction false} TakeBaseOrdered(items: seq<Node>)
    ensures Ordered(TakeBase(items))
  {
    hide NameOf;
    if items != [] { TakeBaseOrdered(items[..|items| - 1]); }
  }

  /** What becomes of an entry of an example that repeats no name. */
  lemma {:induction false} TakenNode(n0: Named, overlay: Node, k: nat, i: nat, opts: C.Options)
    requires overlay.Sequence? && NamesOnce(overlay.items) && k <= |overlay.items| && Indexed(n0) && Ordered(n0)
    requires i < |overlay.items| && overlay.items[i].Mapping? && NameOf(overlay.items[i]) != ""
    ensures var n, x := TakeOverlay(n0, overlay, k, opts), NameOf(overlay.items[i]);
            && Ordered(n) && n0.order <= n.order
            && (x in n.byName <==> x in n0.byName || i < k)
            && (x in n.byName ==>
                  n.byName[x] == if i >= k then n0.byName[x]
                                 else if x in n0.byName then MergedMapping(n0.byName[x], overlay.items[i], opts)
                                 else overlay.items[i])
    decreases k
  {
    hide NameOf, MergedMapping;
    if k > 0 { TakenNode(n0, overlay, k - 1, i, opts); }
  }

  lemma EmitAt(n: Named, x: string) returns (p: nat)
    requires Indexed(n) && Ordered(n) && x in n.byName
    ensures p < |Emit(n)| && Emit(n)[p] == n.byName[x] && n.order[p] == x
  {
    p :| 0 <= p < |n.order| && n.order[p] == x;
  }

  /** Where the named path is taken. */
  lemma ListsMerge(base: Node, overlay: Node, opts: C.Options)
    requires base.Sequence? && overlay.Sequence? && !opts.overwrite && base.items != []
    requires NamedMaps(base.items) || NamedMaps(overlay.items)
    ensures MergedValue(base, overlay, opts) ==
            Sequence(Emit(TakeOverlay(TakeBase(base.items), overlay, |overlay.items|, opts)), "")
  {
    hide TakeOverlay, TakeBase, NamedMaps;
  }

  lemma ConfigListsMerge(base: C.Value, overlay: C.Value, opts: C.Options)
    requires base.List? && overlay.List? && !opts.overwrite && base.items != []
    requires C.NamedMaps(base.items) || C.NamedMaps(overlay.items)
    ensures C.MergedValue(base, overlay, opts) ==
            C.List(C.Emit(C.TakeOverlay(C.TakeBase(base.items), overlay, |overlay.items|, opts)))
  {
    hide C.TakeOverlay, C.TakeBase, C.NamedMaps;
  }

  /** The map merge of named lists gives named entries only. */
  lemma AllNamed(base: seq<C.Value>, overlay: C.Value, p: nat)
    requires overlay.List?
    requires p < |C.Emit(C.TakeOverlay(C.TakeBase(base), overlay, |overlay.items|, CL.DEFAULT))|
    ensures C.NameOf(C.Emit(C.TakeOverlay(C.TakeBase(base), overlay, |overlay.items|, CL.DEFAULT))[p]) != ""
  {
    hide C.TakeOverlay, C.TakeBase, C.NameOf;
    var n := C.TakeOverlay(C.TakeBase(base), overlay, |overlay.items|, CL.DEFAULT);
    CL.TakeBaseProper(base);
    CL.TakeOverlayProper(C.TakeBase(base), overlay, |overlay.items|);
    CL.ProperName(n, n.order[p]);
  }

  /** An entry that the named path keeps as it is, but whose name only the nodes read. */
  lemma UnnamedDisagrees(base: Node, overlay: Node, x: string)
    requires base.Sequence? && overlay.Sequence? && base.items != []
    requires NamedMaps(base.items) || NamedMaps(overlay.items)
    requires C.NamedMaps(DecodeItems(base.items)) || C.NamedMaps(DecodeItems(overlay.items))
    requires var n := TakeOverlay(TakeBase(base.items), overlay, |overlay.items|, CL.DEFAULT);
             Ordered(n) && x in n.byName && C.NameOf(Decode(n.byName[x])) == ""
    ensures !Agree(base, overlay, CL.DEFAULT)
  {
    hide C.NameOf, C.NamedMaps, NamedMaps, TakeBase, TakeOverlay, C.TakeOverlay, C.TakeBase, MergedValue, C.MergedValue;
    var n := TakeOverlay(TakeBase(base.items), overlay, |overlay.items|, CL.DEFAULT);
    var p := EmitAt(n, x);
    ListsMerge(base, overlay, CL.DEFAULT);
    ConfigListsMerge(Decode(base), Decode(overlay), CL.DEFAULT);
    var vs := C.Emit(C.TakeOverlay(C.TakeBase(DecodeItems(base.items)), Decode(overlay), |overlay.items|, CL.DEFAULT));
    if p < |vs| { AllNamed(DecodeItems(base.items), Decode(overlay), p); }
    assert DecodeItems(Emit(n))[p] == Decode(n.byName[x]);
  }

  // ------------------------------------------------------- what is not fine parts them

  function OtherName(x: string): string { if x == "a" then "b" else "a" }

  lemma OtherNameIs(x: string)
    ensures TrimSpace(OtherName(x)) == OtherName(x) != x && OtherName(x) != "" && PlainScalar(NameScalar(OtherName(x)))
  {
    assert Trimmed("a") && Trimmed("b");
  }

  /** A string longer than every scalar of the list. */
  function Longer(items: seq<Node>): (s: string)
    ensures |s| > 0
    ensures forall i :: 0 <= i < |items| && items[i].Scalar? ==> |items[i].value| < |s|
  {
    if items == [] then "x"
    else
      var s, v := Longer(items[..|items| - 1]), items[|items| - 1];
      if v.Scalar? then s + v.value else s
  }

  lemma NotFineScalar(base: Node) returns (overlay: Node, opts: C.Options)
    requires base.Scalar? && !PlainScalar(base)
    ensures Unique(overlay) && Good(overlay) && !opts.overwrite && !Agree(base, overlay, opts)
  {
    overlay := Scalar(STR_TAG, base.value + "x", "");
    opts := C.Options(false, base.value == "");
    assert |base.value + "x"| > |base.value|;
  }

  lemma NumbersDisagree(base: Node) returns (overlay: Node)
    requires base.Sequence? && !StringsOnly(base.items)
    ensures Unique(overlay) && Good(overlay) && !Agree(base, overlay, CL.DEFAULT)
  {
    hide Distinct, NameOf, MergedValue, C.MergedValue, StringsOnly;
    var items := base.items;
    var s := Scalar(STR_TAG, Longer(items), "");
    overlay := One(s);
    OneScalarIsGood(s);
    NumbersAreScalars(items);
    assert AllScalars([s]);
    ScalarsMerge(base, overlay);
    DecodedScalarsMerge(items, [s]);
    UnionEndsWith(items, s);
    var r := DecodeItems(Distinct(items + [s]));
    assert r[|r| - 1] == C.Str(s.value);
    assert r != DecodeItems(items);
  }

  lemma NumbersAreScalars(items: seq<Node>)
    requires !StringsOnly(items)
    ensures AllScalars(items) && items != []
  {
  }

  /** Lists of scalars are unioned by the node merge. */
  lemma ScalarsMerge(a: Node, b: Node)
    requires a.Sequence? && b.Sequence? && AllScalars(a.items) && AllScalars(b.items)
    ensures MergedValue(a, b, CL.DEFAULT) == Sequence(Distinct(a.items + b.items), "")
  {
    hide Distinct, NameOf;
    assert a.items != [] ==> !a.items[0].Mapping?;
    assert b.items != [] ==> !b.items[0].Mapping?;
  }

  /** The other merge leaves them alone unless all are strings. */
  lemma DecodedScalarsMerge(a: seq<Node>, b: seq<Node>)
    requires AllScalars(a) && AllScalars(b) && (!StringsOnly(a) || !StringsOnly(b))
    ensures C.MergedValue(C.List(DecodeItems(a)), C.List(DecodeItems(b)), CL.DEFAULT) == C.List(DecodeItems(a))
  {
    hide C.NamedMaps, C.AllStrings, C.Distinct, StringsOnly, AllScalars, DecodeItems;
    ScalarsDecode(a);
    ScalarsDecode(b);
  }

  lemma ScalarsDecode(a: seq<Node>)
    requires AllScalars(a)
    ensures !C.NamedMaps(DecodeItems(a)) && (C.AllStrings(DecodeItems(a)) ==> StringsOnly(a))
  {
    hide C.NameOf;
    var u := DecodeItems(a);
    assert a != [] ==> !u[0].Map?;
    forall i | 0 <= i < |a| ensures u[i].Str? ==> a[i].tag == STR_TAG { }
  }

  lemma OneScalarIsGood(s: Node)
    requires s.Scalar? && s.tag == STR_TAG
    ensures Good(One(s))
  {
    hide PlainScalar, Fine;
    var items := [s];
    assert NameOf(s) == "" && PlainEntry(s);
    forall i | 0 <= i < |items| ensures items[i] == s { }
    assert StringsOnly(items);
    assert forall i, j :: 0 <= i < |items| && 0 <= j < |items| ==> !SameName(items, i, j);
  }

  lemma UnionEndsWith(items: seq<Node>, s: Node)
    requires s.Scalar? && forall i :: 0 <= i < |items| && items[i].Scalar? ==> items[i].value != s.value
    ensures var r := Distinct(items + [s]); |r| > 0 && r[|r| - 1] == s
  {
    hide HasValue;
    assert (items + [s])[..|items|] == items;
    DistinctFrom(items, s.value);
  }

  lemma {:induction false} DistinctFrom(items: seq<Node>, x: string)
    requires forall i :: 0 <= i < |items| && items[i].Scalar? ==> items[i].value != x
    ensures !HasValue(Distinct(items), x)
  {
    if items != [] { DistinctFrom(items[..|items| - 1], x); }
  }

  /** The first entry of a name whose name is no string. */
  lemma OddNameDisagrees(base: Node, i: nat) returns (overlay: Node)
    requires base.Sequence? && Unique(base) && i < |base.items| && FirstOfName(base.items, i) && !PlainEntry(base.items[i])
    ensures Unique(overlay) && Good(overlay) && !Agree(base, overlay, CL.DEFAULT)
  {
    hide NameOf, C.NameOf, PlainEntry, TrimSpace, TakeBase, MergedMapping;
    FirstIsNamed(base.items, i);
    var v := base.items[i];
    var x := NameOf(v);
    var z := OtherName(x);
    OtherNameIs(x);
    EntryIs(z);
    var e := Entry(z);
    OneIs(e);
    OneReads(e);
    overlay := One(e);
    NameAgrees(v);
    TakeBaseFirst(base.items, x);
    TakeBaseOrdered(base.items);
    TakeOneEntry(TakeBase(base.items), e, x);
    UnnamedDisagrees(base, overlay, x);
  }

  lemma TakeOneEntry(n0: Named, e: Node, x: string)
    requires Indexed(n0) && Ordered(n0) && x in n0.byName && e.Mapping? && NameOf(e) != "" && NameOf(e) != x
    ensures var n := TakeOverlay(n0, One(e), 1, CL.DEFAULT); Ordered(n) && x in n.byName && n.byName[x] == n0.byName[x]
  {
    hide NameOf, MergedMapping;
    assert TakeOverlay(n0, One(e), 0, CL.DEFAULT) == n0;
    assert TakeOverlay(n0, One(e), 1, CL.DEFAULT) == TakeOne(n0, e, CL.DEFAULT);
  }

  /** A later entry whose name is no string, in a list the nodes take for named entries. */
  lemma OddRepeatDisagrees(base: Node, i: nat) returns (overlay: Node)
    requires base.Sequence? && Unique(base) && NamedMaps(base.items) && FirstsPlain(base.items)
    requires i < |base.items| && !PlainEntry(base.items[i])
    ensures Unique(overlay) && Good(overlay) && !Agree(base, overlay, CL.DEFAULT)
  {
    hide NameOf, C.NameOf, PlainEntry, TakeBase, C.TakeBase, FirstOfName, MergedValue, C.MergedValue, TakeOverlay;
    var items, vs := base.items, DecodeItems(base.items);
    overlay := Sequence([], "");
    ListsMerge(base, overlay, CL.DEFAULT);
    TakeBaseAgrees(items);
    EmitAgrees(TakeBase(items));
    NameAgrees(items[i]);
    assert C.NameOf(vs[i]) == "";
    CL.TakeBaseSkips(vs, i);
    NameAgrees(items[0]);
    assert DecodeItems([]) == [];
    MixedIsLeft(vs, i);
    NothingTaken(TakeBase(items));
  }

  lemma NothingTaken(n: Named)
    requires Indexed(n)
    ensures TakeOverlay(n, Sequence([], ""), 0, CL.DEFAULT) == n
  {
  }

  lemma MixedIsLeft(vs: seq<C.Value>, i: nat)
    requires i < |vs| && C.NameOf(vs[i]) == "" && vs[0].Map?
    ensures C.MergedValue(C.List(vs), C.List([]), CL.DEFAULT) == C.List(vs)
  {
    hide C.NameOf, C.Distinct;
    assert !C.NamedMaps(vs) && !C.AllStrings(vs);
  }

  /** The first entry of a name, with a value that parts the merges. */
  lemma EntryDisagrees(base: Node, i: nat, e: Node, a: nat, b: nat, opts: C.Options)
    requires base.Sequence? && Unique(base) && FirstsPlain(base.items) && i < |base.items| && FirstOfName(base.items, i)
    requires e.Mapping? && Unique(e) && PlainEntry(e) && NameOf(e) == NameOf(base.items[i]) && !opts.overwrite
    requires base.items[i].Mapping? && a < |base.items[i].pairs| && b < |e.pairs| && base.items[i].pairs[a].key == e.pairs[b].key
    requires !Agree(base.items[i].pairs[a].value, e.pairs[b].value, opts)
    ensures !Agree(base, One(e), opts)
  {
    hide NameOf, C.NameOf, PlainEntry, TakeBase, C.TakeBase, FirstOfName, MergedMapping, C.Merged, MergedValue, C.MergedValue,
      DecodePairs;
    FirstIsNamed(base.items, i);
    var v, x := base.items[i], NameOf(e);
    MappingDisagrees(v, e, a, b, opts);
    OneReads(e);
    TakeBaseFirst(base.items, x);
    TakeBaseOrdered(base.items);
    TakeBaseAgrees(base.items);
    var n0 := TakeBase(base.items);
    var n := Named(n0.order, n0.byName[x := MergedMapping(v, e, opts)]);
    TakeOneNamed(n0, e, opts);
    ListsMerge(base, One(e), opts);
    ConfigListsMerge(Decode(base), Decode(One(e)), opts);
    ReplaceAgrees(n0, x, MergedMapping(v, e, opts));
    EmitAgrees(n);
    var p := EmitAt(n, x);
    ConfigTakeOneNamed(DecodeNamed(n0), Decode(e), opts);
    var r := C.Emit(C.Named(n0.order, DecodeNamed(n0).byName[x := C.Merged(DecodePairs(v.pairs), Decode(e), opts)]));
    assert r[p] == C.Map(C.Merged(DecodePairs(v.pairs), Decode(e), opts));
    assert C.Emit(DecodeNamed(n))[p] == C.Map(DecodePairs(MergedMapping(v, e, opts).pairs));
  }

  lemma TakeOneNamed(n0: Named, e: Node, opts: C.Options)
    requires Indexed(n0) && e.Mapping? && NameOf(e) != "" && NameOf(e) in n0.byName
    ensures TakeOverlay(n0, One(e), 1, opts) ==
            Named(n0.order, n0.byName[NameOf(e) := MergedMapping(n0.byName[NameOf(e)], e, opts)])
  {
    hide NameOf, MergedMapping;
    assert TakeOverlay(n0, One(e), 0, opts) == n0;
  }

  lemma ConfigTakeOneNamed(n0: C.Named, e: C.Value, opts: C.Options)
    requires C.Indexed(n0) && e.Map? && C.NameOf(e) != "" && C.NameOf(e) in n0.byName
    ensures C.TakeOverlay(n0, C.List([e]), 1, opts) ==
            C.Named(n0.order, n0.byName[C.NameOf(e) := C.Merged(n0.byName[C.NameOf(e)], e, opts)])
  {
    hide C.NameOf, C.Merged;
    assert C.TakeOverlay(n0, C.List([e]), 0, opts) == n0;
  }

  /** What is not fine parts the merges on some good example. */
  lemma {:induction false} NotFine(base: Node) returns (overlay: Node, opts: C.Options)
    requires Unique(base) && !Fine(base)
    ensures Unique(overlay) && Good(overlay) && !opts.overwrite && !Agree(base, overlay, opts)
    decreases base, 1
  {
    hide NameOf, PlainEntry, PlainScalar, FirstOfName, StringsOnly, NamedMaps, MergedValue, C.MergedValue, Agree;
    opts := CL.DEFAULT;
    match base
    case Scalar(_, _, _) => overlay, opts := NotFineScalar(base);
    case Mapping(pairs, _) =>
      var a;
      a, overlay, opts := NotFineValue(base);
      overlay := KeyPartner(base, a, overlay, opts);
    case Sequence(items, _) =>
      if !StringsOnly(items) {
        overlay := NumbersDisagree(base);
      } else if !FirstsPlain(items) {
        var i :| 0 <= i < |items| && FirstOfName(items, i) && !PlainEntry(items[i]);
        overlay := OddNameDisagrees(base, i);
      } else if NamedMaps(items) && exists i :: 0 <= i < |items| && !PlainEntry(items[i]) {
        var i :| 0 <= i < |items| && !PlainEntry(items[i]);
        overlay := OddRepeatDisagrees(base, i);
      } else {
        var i :| 0 <= i < |items| && FirstOfName(items, i) && !Fine(items[i]);
        FirstIsNamed(items, i);
        HasNameIsMapping(items[i]);
        var a, ov;
        a, ov, opts := NotFineValue(items[i]);
        overlay, opts := EntryPartner(base, i, a, ov, opts);
      }
  }

  lemma {:induction false} NotFineValue(base: Node) returns (a: nat, overlay: Node, opts: C.Options)
    requires base.Mapping? && Unique(base) && !Fine(base)
    ensures a < |base.pairs| && !Fine(base.pairs[a].value) && Unique(base.pairs[a].value)
    ensures Unique(overlay) && Good(overlay) && !opts.overwrite && !Agree(base.pairs[a].value, overlay, opts)
    decreases base, 0
  {
    hide Agree;
    a :| 0 <= a < |base.pairs| && !Fine(base.pairs[a].value);
    overlay, opts := NotFine(base.pairs[a].value);
  }

  /** An example with the one key. */
  lemma KeyPartner(base: Node, a: nat, v: Node, opts: C.Options) returns (overlay: Node)
    requires base.Mapping? && Unique(base) && a < |base.pairs| && Unique(v) && Good(v)
    requires !Agree(base.pairs[a].value, v, opts)
    ensures Unique(overlay) && Good(overlay) && !Agree(base, overlay, opts)
  {
    hide Agree;
    var pairs := [Pair(base.pairs[a].key, "", v)];
    overlay := Mapping(pairs, "");
    assert forall i :: 0 <= i < |pairs| ==> pairs[i].value == v;
    MappingDisagrees(base, overlay, a, 0, opts);
  }

  /** An example whose list has an entry of that name. When it is the name itself that reads
      as a null, the same name with a space in front shows it. */
  lemma EntryPartner(base: Node, i: nat, a: nat, v: Node, opts: C.Options) returns (overlay: Node, opts': C.Options)
    requires base.Sequence? && Unique(base) && FirstsPlain(base.items) && i < |base.items| && FirstOfName(base.items, i)
    requires base.items[i].Mapping? && a < |base.items[i].pairs| && !Fine(base.items[i].pairs[a].value)
    requires Unique(v) && Good(v) && !opts.overwrite && !Agree(base.items[i].pairs[a].value, v, opts)
    ensures Unique(overlay) && Good(overlay) && !opts'.overwrite && !Agree(base, overlay, opts')
  {
    hide NameOf, PlainEntry, Agree, TrimSpace, Fine;
    FirstIsNamed(base.items, i);
    var b := base.items[i];
    var x := NameOf(b);
    NameIsTrimmed(b);
    SpacedTrim(x);
    opts' := opts;
    if b.pairs[a].key == "name" {
      NullName(b, a);
      var e := Entry(" " + x);
      EntryIs(" " + x);
      OneIs(e);
      opts' := CL.DEFAULT;
      overlay := One(e);
      EntryDisagrees(base, i, e, a, 0, CL.DEFAULT);
    } else {
      var e := EntryWith(" " + x, b.pairs[a].key, v);
      EntryWithIs(" " + x, b.pairs[a].key, v);
      OneIs(e);
      overlay := One(e);
      EntryDisagrees(base, i, e, a, 1, opts);
    }
  }

  /** A plain name that is not fine is a quoted null. */
  lemma NullName(b: Node, a: nat)
    requires b.Mapping? && Unique(b) && PlainEntry(b) && NameOf(b) != "" && a < |b.pairs| && b.pairs[a].key == "name"
    requires !Fine(b.pairs[a].value)
    ensures !Agree(b.pairs[a].value, NameScalar(" " + NameOf(b)), CL.DEFAULT)
  {
    hide NameOf, TrimSpace;
    var i := NamePair(b);
    assert i == a;
    BlankTrim();
    var v := b.pairs[a].value;
    assert PlainName(v);
    assert v.value in {"null", "~"} && v.tag == STR_TAG;
    NullTrim();
  }

  lemma NullTrim()
    ensures TrimSpace("null") == "null" && TrimSpace("~") == "~"
  {
    assert Trimmed("null") && Trimmed("~");
  }

  // ------------------------------------------------------- what is not good parts them

  /** No list, at any depth that merging reaches, repeats a name. */
  predicate SingleNames(n: Node)
  {
    match n
    case Scalar(_, _, _) => true
    case Mapping(pairs, _) => forall i :: 0 <= i < |pairs| ==> SingleNames(pairs[i].value)
    case Sequence(items, _) =>
      NamesOnce(items) && forall i :: 0 <= i < |items| && NameOf(items[i]) != "" ==> SingleNames(items[i])
  }

  lemma NumbersInExample(overlay: Node) returns (base: Node)
    requires overlay.Sequence? && !StringsOnly(overlay.items)
    ensures Unique(base) && Fine(base) && !Agree(base, overlay, CL.DEFAULT)
  {
    hide Distinct, MergedValue, C.MergedValue, StringsOnly;
    var items := overlay.items;
    base := Sequence([], "");
    ScalarsAreSound([]);
    NumbersAreScalars(items);
    ScalarsMerge(base, overlay);
    DecodedScalarsMerge([], items);
    assert [] + items == items;
    DistinctSome(items);
  }

  lemma {:induction false} DistinctSome(items: seq<Node>)
    requires items != [] && AllScalars(items)
    ensures Distinct(items) != []
  {
    if |items| > 1 { DistinctSome(items[..|items| - 1]); } else { assert !HasValue(Distinct(items[..0]), items[0].value); }
  }

  lemma OddNameInExample(overlay: Node, i: nat) returns (base: Node)
    requires overlay.Sequence? && Unique(overlay) && NamesOnce(overlay.items) && i < |overlay.items| && !PlainEntry(overlay.items[i])
    ensures Unique(base) && Fine(base) && !Agree(base, overlay, CL.DEFAULT)
  {
    hide NameOf, C.NameOf, PlainEntry, TrimSpace, TakeBase, MergedMapping, TakeOverlay;
    var v := overlay.items[i];
    OddIsNamed(v);
    var x := NameOf(v);
    var z := OtherName(x);
    OtherNameIs(x);
    EntryIs(z);
    var e := Entry(z);
    OneIs(e);
    OneReads(e);
    base := One(e);
    NameAgrees(v);
    TakenNode(TakeBase([e]), overlay, |overlay.items|, i, CL.DEFAULT);
    UnnamedDisagrees(base, overlay, x);
  }

  lemma OddIsNamed(v: Node)
    requires Unique(v) && !PlainEntry(v)
    ensures v.Mapping? && NameOf(v) != ""
  {
    hide TrimSpace;
    NameAgrees(v);
  }

  /** An operator whose list has an entry of that name. */
  lemma ExampleEntryDisagrees(overlay: Node, i: nat, e: Node, a: nat, b: nat, opts: C.Options)
    requires overlay.Sequence? && Unique(overlay) && NamesOnce(overlay.items) && i < |overlay.items|
    requires overlay.items[i].Mapping? && PlainEntry(overlay.items[i]) && NameOf(overlay.items[i]) != ""
    requires e.Mapping? && Unique(e) && PlainEntry(e) && NameOf(e) == NameOf(overlay.items[i]) && !opts.overwrite
    requires a < |e.pairs| && b < |overlay.items[i].pairs| && e.pairs[a].key == overlay.items[i].pairs[b].key
    requires !Agree(e.pairs[a].value, overlay.items[i].pairs[b].value, opts)
    ensures !Agree(One(e), overlay, opts)
  {
    hide NameOf, C.NameOf, PlainEntry, TakeBase, C.TakeBase, TakeOverlay, C.TakeOverlay, MergedMapping, C.Merged, MergedValue,
      C.MergedValue, DecodePairs, NamesOnce, CL.NamesOnce;
    var v, x := overlay.items[i], NameOf(e);
    MappingDisagrees(e, v, a, b, opts);
    OneReads(e);
    var n0, m0 := TakeBase([e]), C.TakeBase([Decode(e)]);
    TakenNode(n0, overlay, |overlay.items|, i, opts);
    var n := TakeOverlay(n0, overlay, |overlay.items|, opts);
    NamesOnceDecoded(overlay);
    NameAgrees(v);
    CL.TakenAt(m0, Decode(overlay), |overlay.items|, i, opts);
    CL.OrderGrows(m0, Decode(overlay), |overlay.items|, opts);
    var m := C.TakeOverlay(m0, Decode(overlay), |overlay.items|, opts);
    ListsMerge(One(e), overlay, opts);
    ConfigListsMerge(Decode(One(e)), Decode(overlay), opts);
    assert n.order[0] == x && m.order[0] == x;
    assert DecodeItems(Emit(n))[0] == C.Map(DecodePairs(MergedMapping(e, v, opts).pairs));
    assert C.Emit(m)[0] == C.Map(C.Merged(DecodePairs(e.pairs), Decode(v), opts));
  }

  lemma NamesOnceDecoded(overlay: Node)
    requires overlay.Sequence? && Unique(overlay) && NamesOnce(overlay.items)
    ensures CL.NamesOnce(DecodeItems(overlay.items))
  {
    hide NameOf, C.NameOf, PlainEntry;
    forall i | 0 <= i < |overlay.items|
      ensures C.NameOf(Decode(overlay.items[i])) == NameOf(overlay.items[i]) || C.NameOf(Decode(overlay.items[i])) == ""
    {
      NameAgrees(overlay.items[i]);
    }
  }

  /** What is not good parts the merges on some fine operator document. */
  lemma {:induction false} NotGood(overlay: Node) returns (base: Node, opts: C.Options)
    requires Unique(overlay) && SingleNames(overlay) && !Good(overlay)
    ensures Unique(base) && Fine(base) && !opts.overwrite && !Agree(base, overlay, opts)
    decreases overlay, 1
  {
    hide NameOf, PlainEntry, PlainScalar, StringsOnly, Agree, Fine;
    opts := CL.DEFAULT;
    match overlay
    case Mapping(pairs, _) =>
      var b;
      b, base, opts := NotGoodValue(overlay);
      base := BasePartner(overlay, b, base, opts);
    case Sequence(items, _) =>
      if !StringsOnly(items) {
        base := NumbersInExample(overlay);
      } else if exists i :: 0 <= i < |items| && !PlainEntry(items[i]) {
        var i :| 0 <= i < |items| && !PlainEntry(items[i]);
        base := OddNameInExample(overlay, i);
      } else {
        var i := NotGoodEntry(overlay);
        HasNameIsMapping(items[i]);
        var b, v;
        b, v, opts := NotGoodValue(items[i]);
        base := BaseEntryPartner(overlay, i, b, v, opts);
      }
  }

  lemma NotGoodEntry(overlay: Node) returns (i: nat)
    requires overlay.Sequence? && SingleNames(overlay) && !Good(overlay) && StringsOnly(overlay.items)
    requires forall i :: 0 <= i < |overlay.items| ==> PlainEntry(overlay.items[i])
    ensures i < |overlay.items| && NameOf(overlay.items[i]) != "" && !Good(overlay.items[i]) && SingleNames(overlay.items[i])
  {
    hide NameOf, PlainEntry, StringsOnly, Fine;
    var items := overlay.items;
    assert forall i, j :: 0 <= i < |items| && 0 <= j < |items| ==> !SameName(items, i, j);
    i :| 0 <= i < |items| && NameOf(items[i]) != "" && !Good(items[i]);
  }

  lemma {:induction false} NotGoodValue(overlay: Node) returns (b: nat, base: Node, opts: C.Options)
    requires overlay.Mapping? && Unique(overlay) && SingleNames(overlay) && !Good(overlay)
    ensures b < |overlay.pairs| && !overlay.pairs[b].value.Scalar?
    ensures Unique(base) && Fine(base) && !opts.overwrite && !Agree(base, overlay.pairs[b].value, opts)
    decreases overlay, 0
  {
    hide Agree, Fine;
    b :| 0 <= b < |overlay.pairs| && !Good(overlay.pairs[b].value);
    base, opts := NotGood(overlay.pairs[b].value);
  }

  lemma BasePartner(overlay: Node, b: nat, v: Node, opts: C.Options) returns (base: Node)
    requires overlay.Mapping? && Unique(overlay) && b < |overlay.pairs| && Unique(v) && Fine(v)
    requires !Agree(v, overlay.pairs[b].value, opts)
    ensures Unique(base) && Fine(base) && !Agree(base, overlay, opts)
  {
    hide Agree;
    var pairs := [Pair(overlay.pairs[b].key, "", v)];
    base := Mapping(pairs, "");
    assert forall i :: 0 <= i < |pairs| ==> pairs[i].value == v;
    MappingDisagrees(base, overlay, 0, b, opts);
  }

  lemma BaseEntryPartner(overlay: Node, i: nat, b: nat, v: Node, opts: C.Options) returns (base: Node)
    requires overlay.Sequence? && Unique(overlay) && NamesOnce(overlay.items) && i < |overlay.items|
    requires overlay.items[i].Mapping? && PlainEntry(overlay.items[i]) && NameOf(overlay.items[i]) != ""
    requires b < |overlay.items[i].pairs| && !overlay.items[i].pairs[b].value.Scalar?
    requires Unique(v) && Fine(v) && !opts.overwrite && !Agree(v, overlay.items[i].pairs[b].value, opts)
    ensures Unique(base) && Fine(base) && !Agree(base, overlay, opts)
  {
    hide NameOf, PlainEntry, Agree, TrimSpace, Fine, NamesOnce;
    var w := overlay.items[i];
    var x, k := NameOf(w), w.pairs[b].key;
    NameIsTrimmed(w);
    SpacedTrim(x);
    var j := NamePair(w);
    assert k != "name";
    var e := EntryWith(" " + x, k, v);
    EntryWithIs(" " + x, k, v);
    OneIs(e);
    base := One(e);
    ExampleEntryDisagrees(overlay, i, e, 1, b, opts);
  }

  // ---------------------------------------------------- the four ways to part them

  /** A quoted "null" is a null to the node merge and a string to the other. */
  lemma QuotedNullDisagrees()
    ensures var base, overlay := Scalar(STR_TAG, "null", ""), Scalar(STR_TAG, "x", "");
            Decode(MergedValue(base, overlay, CL.DEFAULT)) == C.Str("x")
            && C.MergedValue(Decode(base), Decode(overlay), CL.DEFAULT) == C.Str("null")
  {
  }

  /** A blank scalar of another type is empty to the node merge, and filled, and not to the
      other. */
  lemma BlankScalarDisagrees(tag: string)
    requires tag != STR_TAG && tag != NULL_TAG
    ensures var base, overlay, fill := Scalar(tag, "", ""), Scalar(STR_TAG, "x", ""), C.Options(false, true);
            Decode(MergedValue(base, overlay, fill)) == C.Str("x")
            && C.MergedValue(Decode(base), Decode(overlay), fill) == C.Other(tag, "")
  {
  }

  /** Lists of scalars that are not strings are unioned by the node merge and left alone
      by the other. */
  lemma NumberListDisagrees(a: Node, b: Node)
    requires a.Scalar? && a.tag != STR_TAG && a.tag != NULL_TAG
    requires b.Scalar? && b.tag != STR_TAG && b.tag != NULL_TAG && a.value != b.value
    ensures Decode(MergedValue(One(a), One(b), CL.DEFAULT)) == C.List([Decode(a), Decode(b)])
    ensures C.MergedValue(Decode(One(a)), Decode(One(b)), CL.DEFAULT) == C.List([Decode(a)])
  {
    hide MergedValue, C.MergedValue, Distinct, DecodeItems, StringsOnly;
    assert AllScalars([a]) && AllScalars([b]);
    ScalarsMerge(One(a), One(b));
    assert !StringsOnly([a]) by { OneNumber(a); }
    DecodedScalarsMerge([a], [b]);
    TwoDistinct(a, b);
    DecodedPair(a, b);
  }

  lemma OneNumber(a: Node)
    requires a.Scalar? && a.tag != STR_TAG
    ensures !StringsOnly([a])
  {
    assert [a][0].tag != STR_TAG && AllScalars([a]);
  }

  lemma DecodedPair(a: Node, b: Node)
    ensures DecodeItems([a]) == [Decode(a)] && DecodeItems([a, b]) == [Decode(a), Decode(b)]
  {
    hide Decode;
  }

  lemma TwoDistinct(a: Node, b: Node)
    requires a.Scalar? && b.Scalar? && a.value != b.value
    ensures Distinct([a] + [b]) == [a, b]
  {
    assert [a][..0] == [] && Distinct([]) == [] && Distinct([a]) == [a];
    assert ([a] + [b])[..1] == [a];
    assert !HasValue([a], b.value);
  }

  /** An entry whose name is no string is kept by the node merge and dropped by the other. */
  lemma NumberNameDisagrees(v: Node)
    requires Unique(v) && !PlainEntry(v)
    ensures var e := Entry(OtherName(NameOf(v)));
            && Decode(MergedValue(One(v), One(e), CL.DEFAULT)) == C.List([Decode(v), Decode(e)])
            && C.MergedValue(Decode(One(v)), Decode(One(e)), CL.DEFAULT) == C.List([Decode(e)])
  {
    hide NameOf, C.NameOf, PlainEntry, TrimSpace, MergedValue, C.MergedValue, DecodePairs, TakeBase, C.TakeBase, TakeOverlay,
      C.TakeOverlay;
    OddIsNamed(v);
    NameAgrees(v);
    OtherNameIs(NameOf(v));
    var z := OtherName(NameOf(v));
    EntryIs(z);
    var e := Entry(z);
    OneReads(e);
    assert DecodeItems([v]) == [Decode(v)] && DecodeItems([v, e]) == [Decode(v), Decode(e)];
    KeptEntries(v, e);
    DroppedEntry(Decode(v), Decode(e));
    ListsMerge(One(v), One(e), CL.DEFAULT);
    ConfigListsMerge(Decode(One(v)), Decode(One(e)), CL.DEFAULT);
  }

  lemma KeptEntries(v: Node, e: Node)
    requires v.Mapping? && e.Mapping? && NameOf(v) != "" && NameOf(e) != "" && NameOf(v) != NameOf(e)
    ensures Emit(TakeOverlay(TakeBase([v]), One(e), 1, CL.DEFAULT)) == [v, e]
  {
    hide NameOf, MergedMapping;
    assert [v][..0] == [] && TakeBase([]) == Named([], map[]);
    var n0 := TakeBase([v]);
    assert n0 == Named([NameOf(v)], map[NameOf(v) := v]);
    assert TakeOverlay(n0, One(e), 0, CL.DEFAULT) == n0;
    assert TakeOverlay(n0, One(e), 1, CL.DEFAULT) == AddNamed(n0, e);
  }

  lemma DroppedEntry(v: C.Value, e: C.Value)
    requires e.Map? && C.NameOf(v) == "" && C.NameOf(e) != ""
    ensures C.Emit(C.TakeOverlay(C.TakeBase([v]), C.List([e]), 1, CL.DEFAULT)) == [e]
  {
    hide C.NameOf, C.Merged;
    assert [v][..0] == [] && C.TakeBase([]) == C.Named([], map[]);
    var n0 := C.TakeBase([v]);
    assert n0 == C.Named([], map[]);
    assert C.TakeOverlay(n0, C.List([e]), 0, CL.DEFAULT) == n0;
    assert C.TakeOverlay(n0, C.List([e]), 1, CL.DEFAULT) == C.AddNamed(n0, e);
  }

  /** Entries that share a name can each be good and not be so together: the later one is
      merged into the earlier, whose quoted null then counts. */
  lemma RepeatedNameDisagrees()
    ensures var one, two := EntryWith("x", "a", Scalar(STR_TAG, "null", "")), EntryWith("x", "a", Scalar(STR_TAG, "b", ""));
            && Good(One(one)) && Good(One(two)) && Fine(One(Entry("y")))
            && !Agree(One(Entry("y")), Sequence([one, two], ""), CL.DEFAULT)
  {
    hide NameOf, PlainEntry, TrimSpace, Agree, Good, Fine, Unique, PlainScalar;
    var quoted, b := Scalar(STR_TAG, "null", ""), Scalar(STR_TAG, "b", "");
    var one, two, y := EntryWith("x", "a", quoted), EntryWith("x", "a", b), Entry("y");
    ScalarIsGood(quoted);
    ScalarIsGood(b);
    EntryWithIs("x", "a", quoted);
    EntryWithIs("x", "a", b);
    EntryIs("y");
    NamesXY();
    OneIs(one);
    OneIs(two);
    OneIs(y);
    NullAgainstB(quoted, b);
    LaterDisagrees(y, one, two, 1, 1);
  }

  lemma ScalarIsGood(n: Node)
    requires n.Scalar?
    ensures Good(n) && Unique(n)
  {
  }

  /** An operator without the name: the example's later entry is merged into its earlier one. */
  lemma LaterDisagrees(y: Node, one: Node, two: Node, i: nat, j: nat)
    requires y.Mapping? && one.Mapping? && two.Mapping? && Unique(y) && Unique(one) && Unique(two)
    requires PlainEntry(y) && PlainEntry(one) && PlainEntry(two)
    requires NameOf(y) == "y" && NameOf(one) == NameOf(two) == "x"
    requires i < |one.pairs| && j < |two.pairs| && one.pairs[i].key == two.pairs[j].key
    requires !Agree(one.pairs[i].value, two.pairs[j].value, CL.DEFAULT)
    ensures !Agree(One(y), Sequence([one, two], ""), CL.DEFAULT)
  {
    hide NameOf, C.NameOf, PlainEntry, MergedMapping, C.Merged, MergedValue, C.MergedValue, Agree, DecodePairs, TakeOverlay,
      C.TakeOverlay, TakeBase, C.TakeBase, NamedMaps, C.NamedMaps;
    var overlay := Sequence([one, two], "");
    KeysOfUnique(one);
    KeysOfUnique(two);
    MappingDisagrees(one, two, i, j, CL.DEFAULT);
    OneReads(y);
    NameAgrees(one);
    NameAgrees(two);
    assert DecodeItems([one, two]) == [Decode(one), Decode(two)];
    TakeBoth(Named(["y"], map["y" := y]), one, two);
    ConfigTakeBoth(C.Named(["y"], map["y" := DecodePairs(y.pairs)]), Decode(one), Decode(two));
    ListsMerge(One(y), overlay, CL.DEFAULT);
    ConfigListsMerge(Decode(One(y)), Decode(overlay), CL.DEFAULT);
    ByDecoding(y, overlay, MergedMapping(one, two, CL.DEFAULT), C.Merged(DecodePairs(one.pairs), Decode(two), CL.DEFAULT));
  }

  lemma KeysOfUnique(n: Node)
    requires n.Mapping? && Unique(n)
    ensures UniqueKeys(n.pairs)
  {
  }

  lemma NamesXY()
    ensures TrimSpace("x") == "x" && TrimSpace("y") == "y" && PlainScalar(NameScalar("y"))
  {
    assert Trimmed("x") && Trimmed("y");
  }

  lemma NullAgainstB(quoted: Node, b: Node)
    requires quoted == Scalar(STR_TAG, "null", "") && b == Scalar(STR_TAG, "b", "")
    ensures !Agree(quoted, b, CL.DEFAULT)
  {
  }

  lemma TakeBoth(n0: Named, one: Node, two: Node)
    requires Indexed(n0) && n0.order == ["y"] && one.Mapping? && two.Mapping? && NameOf(one) == NameOf(two) == "x" && "x" !in n0.byName
    ensures var n := TakeOverlay(n0, Sequence([one, two], ""), 2, CL.DEFAULT);
            |Emit(n)| == 2 && Emit(n)[1] == MergedMapping(one, two, CL.DEFAULT)
  {
    hide NameOf, MergedMapping;
    var v := Sequence([one, two], "");
    assert TakeOverlay(n0, v, 0, CL.DEFAULT) == n0;
    assert TakeOverlay(n0, v, 1, CL.DEFAULT) == AddNamed(n0, one);
  }

  lemma ConfigTakeBoth(n0: C.Named, one: C.Value, two: C.Value)
    requires C.Indexed(n0) && n0.order == ["y"] && one.Map? && two.Map? && C.NameOf(one) == C.NameOf(two) == "x" && "x" !in n0.byName
    ensures var n := C.TakeOverlay(n0, C.List([one, two]), 2, CL.DEFAULT);
            |C.Emit(n)| == 2 && C.Emit(n)[1] == C.Map(C.Merged(one.m, two, CL.DEFAULT))
  {
    hide C.NameOf, C.Merged;
    var v := C.List([one, two]);
    assert C.TakeOverlay(n0, v, 0, CL.DEFAULT) == n0;
    assert C.TakeOverlay(n0, v, 1, CL.DEFAULT) == C.AddNamed(n0, one);
  }

  lemma ByDecoding(base: Node, overlay: Node, v: Node, c: C.Config)
    requires v.Mapping? && DecodePairs(v.pairs) != c
    requires var r := MergedValue(One(base), overlay, CL.DEFAULT); r.Sequence? && |r.items| == 2 && r.items[1] == v
    requires var r := C.MergedValue(Decode(One(base)), Decode(overlay), CL.DEFAULT); r.List? && |r.items| == 2 && r.items[1] == C.Map(c)
    ensures !Agree(One(base), overlay, CL.DEFAULT)
  {
    hide MergedValue, C.MergedValue, DecodePairs;
    assert DecodeItems(MergedValue(One(base), overlay, CL.DEFAULT).items)[1] == C.Map(DecodePairs(v.pairs));
  }

  // ------------------------------------------------------------------ exactly when

  /** An operator document with unique keys merges alike in both forms with every good
      example, under every option setting, if and only if it is fine. */
  lemma FineExactly(base: Node)
    requires Unique(base)
    ensures (forall overlay, opts :: Unique(overlay) && Good(overlay) ==> Agree(base, overlay, opts)) <==> Fine(base)
  {
    hide Unique, Good, Fine, Agree;
    if Fine(base) {
      forall overlay, opts | Unique(overlay) && Good(overlay) ensures Agree(base, overlay, opts) {
        ValueAgrees(base, overlay, opts);
      }
    } else {
      var overlay, opts := NotFine(base);
    }
  }

  /** An example with unique keys whose lists repeat no name merges alike in both forms into
      every fine operator document, under every option setting, if and only if it is good. */
  lemma GoodExactly(overlay: Node)
    requires Unique(overlay) && SingleNames(overlay)
    ensures (forall base, opts :: Unique(base) && Fine(base) ==> Agree(base, overlay, opts)) <==> Good(overlay)
  {
    hide Unique, Good, Fine, Agree, SingleNames;
    if Good(overlay) {
      forall base, opts | Unique(base) && Fine(base) ensures Agree(base, overlay, opts) {
        ValueAgrees(base, overlay, opts);
      }
    } else {
      var base, opts := NotGood(overlay);
    }
  }
}
