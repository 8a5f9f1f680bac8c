/** The merge policy, said of the values: what each option does, what becomes of lists of
    strings and of lists of named entries, and in what order. */
module ConfigPolicy {
  import Text
  import opened ConfigMerge
  import opened ConfigLaws

  // ------------------------------------------------------------------- one key

  /** Every key of the result, by what the two sides have there. */
  lemma KeyByKey(base: Config, overlay: Value, opts: Options, k: string)
    requires overlay.Map?
    ensures var r := Merged(base, overlay, opts);
            && (k in r <==> k in base || k in overlay.m)
            && (k in base && k !in overlay.m ==> r[k] == base[k])
            && (k !in base && k in overlay.m ==> r[k] == overlay.m[k])
            && (k in base && k in overlay.m ==>
                  var b, o := base[k], overlay.m[k];
                  && (b == Null ==> r[k] == o)
                  && (opts.fillEmpty && b in {Str(""), List([]), Map(map[])} ==> r[k] == o)
                  && (b != Null && !(opts.fillEmpty && b in {Str(""), List([]), Map(map[])}) ==>
                        && (b.Map? && o.Map? ==> r[k] == Map(Merged(b.m, o, opts)))
                        && (opts.overwrite && !(b.Map? && o.Map?) ==> r[k] == o)
                        && (!opts.overwrite && !(b.Map? && o.Map?) && !(b.List? && o.List?) ==> r[k] == b)))
  {
    hide TakeOverlay, TakeBase, Distinct, NameOf;
    if k in base && k in overlay.m { MergedAt(base, overlay, opts, k); }
  }

  // ---------------------------------------------------------- first occurrences

  /** `s` without repetitions. */
  function Firsts<T(==)>(s: seq<T>): seq<T>
  {
    if s == [] then []
    else
      var r, v := Firsts(s[..|s| - 1]), s[|s| - 1];
      if v in r then r else r + [v]
  }

  /** `x` occurs before any `y`. */
  ghost predicate Ahead<T>(s: seq<T>, x: T, y: T)
  {
    exists i :: 0 <= i < |s| && s[i] == x && y !in s[..i]
  }

  /** The same members, each once, in the order of first occurrence. */
  lemma {:induction false} FirstsAre<T>(s: seq<T>)
    ensures forall i, j :: 0 <= i < j < |Firsts(s)| ==> Firsts(s)[i] != Firsts(s)[j]
    ensures forall x :: x in Firsts(s) <==> x in s
    ensures forall x, y :: x in s && y in s && x != y ==> (Ahead(Firsts(s), x, y) <==> Ahead(s, x, y))
  {
    if s != [] {
      var m := |s| - 1;
      var p, v := s[..m], s[m];
      FirstsAre(p);
      assert s == p + [v];
      forall x, y | x in s && y in s && x != y ensures Ahead(Firsts(s), x, y) <==> Ahead(s, x, y) {
        AheadMore(p, v, x, y);
        if v !in Firsts(p) { AheadMore(Firsts(p), v, x, y); }
      }
    }
  }

  lemma AheadMore<T>(p: seq<T>, v: T, x: T, y: T)
    requires x in p + [v] && y in p + [v] && x != y
    ensures Ahead(p + [v], x, y) <==> if x in p && y in p then Ahead(p, x, y) else x in p
  {
    var s := p + [v];
    assert s[..|p|] == p;
    forall i | 0 <= i < |p| ensures s[i] == p[i] && s[..i] == p[..i] { }
    if x in p && y !in p {
      var i :| 0 <= i < |p| && p[i] == x;
      assert s[i] == x && y !in s[..i];
    }
  }

  lemma {:induction false} DistinctIsFirsts(items: seq<Value>)
    ensures Distinct(items) == Firsts(items)
  {
    if items != [] { DistinctIsFirsts(items[..|items| - 1]); }
  }

  // ------------------------------------------------------------------------ lists

  /** Lists under one key, when the operator's wins unless it can be joined: strings are
      united, lists with named entries are joined by name, anything else is left. */
  lemma ListsJoin(base: seq<Value>, overlay: Value, opts: Options)
    requires overlay.List?
    ensures var r := MergedList(base, overlay, opts);
            && (opts.overwrite || (opts.fillEmpty && base == []) ==> r == overlay.items)
            && (!opts.overwrite && !(opts.fillEmpty && base == []) && !AllNamed(base) && !AllNamed(overlay.items) ==>
                  r == if (forall v :: v in base + overlay.items ==> v.Str?) then Firsts(base + overlay.items) else base)
  {
    hide TakeOverlay, TakeBase, Distinct, NameOf;
    var more := overlay.items;
    DistinctIsFirsts(base + more);
    NamedBySame(base);
    NamedBySame(more);
    assert (forall v :: v in base + more ==> v.Str?) <==> AllStrings(base) && AllStrings(more) by {
      if forall v :: v in base + more ==> v.Str? {
        forall i | 0 <= i < |base| ensures base[i].Str? { assert base[i] in base + more; }
        forall i | 0 <= i < |more| ensures more[i].Str? { assert more[i] in base + more; }
      }
    }
  }

  predicate AllNamed(items: seq<Value>)
  {
    |items| > 0 && forall i :: 0 <= i < |items| ==> NameOf(items[i]) != ""
  }

  /** The names of the named entries, in order. */
  function NamesOf(items: seq<Value>): seq<string>
  {
    if items == [] then []
    else
      var v := items[|items| - 1];
      NamesOf(items[..|items| - 1]) + if NameOf(v) != "" then [NameOf(v)] else []
  }

  lemma {:induction false} NamesOfConcat(a: seq<Value>, b: seq<Value>)
    ensures NamesOf(a + b) == NamesOf(a) + NamesOf(b)
    decreases |b|
  {
    hide NameOf;
    if b == [] {
      assert a + b == a;
    } else {
      NamesOfConcat(a, b[..|b| - 1]);
      assert (a + b)[..|a + b| - 1] == a + b[..|b| - 1];
    }
  }

  lemma {:induction false} BaseOrder(items: seq<Value>)
    ensures TakeBase(items).order == Firsts(NamesOf(items))
    ensures forall x :: x in TakeBase(items).byName <==> x in TakeBase(items).order
  {
    hide NameOf;
    if items != [] {
      var m := |items| - 1;
      BaseOrder(items[..m]);
      assert items == items[..m] + [items[m]];
      NamesOfMore(items[..m], items[m]);
      FirstsMore(NamesOf(items[..m]), NameOf(items[m]));
    }
  }

  lemma FirstsMore<T>(s: seq<T>, v: T)
    ensures Firsts(s + [v]) == if v in Firsts(s) then Firsts(s) else Firsts(s) + [v]
  {
    assert (s + [v])[..|s|] == s;
  }

  /** The names of a joined list: those of the operator, then those of the example, each
      where it first occurs. */
  lemma {:induction false} JoinedOrder(base: seq<Value>, overlay: Value, k: nat, opts: Options)
    requires overlay.List? && k <= |overlay.items|
    ensures var n := TakeOverlay(TakeBase(base), overlay, k, opts);
            && n.order == Firsts(NamesOf(base + overlay.items[..k]))
            && forall x :: x in n.byName <==> x in n.order
    decreases k
  {
    hide NameOf, Merged, TakeBase, Firsts, NamesOf, TakeOverlay;
    TakeOverlayNone(TakeBase(base), overlay, opts);
    if k == 0 {
      BaseOrder(base);
      assert base + overlay.items[..0] == base;
    } else {
      JoinedOrder(base, overlay, k - 1, opts);
      TakeOverlayStep(TakeBase(base), overlay, k - 1, opts);
      var v := overlay.items[k - 1];
      assert base + overlay.items[..k] == base + overlay.items[..k - 1] + [v];
      NamesOfMore(base + overlay.items[..k - 1], v);
      FirstsMore(NamesOf(base + overlay.items[..k - 1]), NameOf(v));
    }
  }

  lemma NamesOfMore(items: seq<Value>, v: Value)
    ensures NamesOf(items + [v]) == if NameOf(v) != "" then NamesOf(items) + [NameOf(v)] else NamesOf(items)
  {
    hide NameOf;
    assert (items + [v])[..|items|] == items;
  }

  /** A joined list: an entry for each name, in the order of first occurrence; where the
      example names it once, the operator's first entry of that name merged with it, or
      the example's own when the operator has none; where it does not, the operator's. */
  lemma NamedListsJoin(base: seq<Value>, overlay: Value, opts: Options, i: nat)
    requires overlay.List? && !opts.overwrite && !(opts.fillEmpty && base == []) && (AllNamed(base) || AllNamed(overlay.items))
    requires NamesOnce(overlay.items)
    ensures var r, names := MergedList(base, overlay, opts), Firsts(NamesOf(base + overlay.items));
            && |r| == |names|
            && (i < |r| ==> r[i] == Map(EntryFor(base, overlay, opts, names[i])))
  {
    hide NameOf, TakeBase, TakeOverlay, Merged, Firsts, NamesOf, NamesOnce, EntryFor;
    var k := |overlay.items|;
    assert NamedMaps(base) || NamedMaps(overlay.items) by { NamedBySame(base); NamedBySame(overlay.items); }
    JoinedOrder(base, overlay, k, opts);
    assert overlay.items[..k] == overlay.items;
    var n := TakeOverlay(TakeBase(base), overlay, k, opts);
    if i < |n.order| { EntryIs(base, overlay, k, opts, n.order[i]); }
  }

  lemma NamedBySame(items: seq<Value>)
    ensures AllNamed(items) <==> NamedMaps(items)
  {
    hide Text.TrimSpace;
  }

  /** The first entry of a name. */
  function FirstNamed(items: seq<Value>, x: string): (i: int)
    ensures -1 <= i < |items|
  {
    if items == [] then -1
    else
      var i := FirstNamed(items[..|items| - 1], x);
      if i >= 0 then i else if NameOf(items[|items| - 1]) == x then |items| - 1 else -1
  }

  lemma {:induction false} FirstNamedIs(items: seq<Value>, x: string)
    ensures var i := FirstNamed(items, x);
            && (i >= 0 ==> NameOf(items[i]) == x && forall j :: 0 <= j < i ==> NameOf(items[j]) != x)
            && (i < 0 ==> forall j :: 0 <= j < |items| ==> NameOf(items[j]) != x)
  {
    hide NameOf;
    if items != [] { FirstNamedIs(items[..|items| - 1], x); }
  }

  function EntryFor(base: seq<Value>, overlay: Value, opts: Options, x: string): Config
    requires overlay.List?
  {
    var i, j := FirstNamed(base, x), FirstNamed(overlay.items, x);
    if i >= 0 && base[i].Map? then
      if j >= 0 && overlay.items[j].Map? then Merged(base[i].m, overlay.items[j], opts) else base[i].m
    else if j >= 0 && overlay.items[j].Map? then overlay.items[j].m
    else map[]
  }

  lemma {:induction false} BaseEntry(items: seq<Value>, x: string)
    requires x in TakeBase(items).byName
    ensures var i := FirstNamed(items, x); i >= 0 && items[i].Map? && TakeBase(items).byName[x] == items[i].m && x != ""
  {
    hide NameOf;
    var m := |items| - 1;
    NamedIsMapIf(items[m]);
    FirstNamedIs(items, x);
    if x in TakeBase(items[..m]).byName { BaseEntry(items[..m], x); } else if x != "" { NotInBase(items[..m], x); }
  }

  lemma NotInBase(items: seq<Value>, x: string)
    requires x !in TakeBase(items).byName && x != ""
    ensures FirstNamed(items, x) < 0
  {
    hide NameOf, FirstNamed;
    var i := FirstNamed(items, x);
    FirstNamedIs(items, x);
    if i >= 0 { TakeBaseHas(items, i); }
  }

  lemma NamedIsMapIf(v: Value)
    ensures NameOf(v) != "" ==> v.Map?
  {
  }

  lemma {:induction false} EntryIs(base: seq<Value>, overlay: Value, k: nat, opts: Options, x: string)
    requires overlay.List? && NamesOnce(overlay.items) && k == |overlay.items|
    requires x in TakeOverlay(TakeBase(base), overlay, k, opts).byName
    ensures TakeOverlay(TakeBase(base), overlay, k, opts).byName[x] == EntryFor(base, overlay, opts, x)
  {
    hide NameOf, TakeBase, TakeOverlay, Merged, FirstNamed, NamesOnce;
    var n0 := TakeBase(base);
    if x in n0.byName { BaseEntry(base, x); }
    TakenFor(n0, overlay, k, opts, x);
    var j := FirstNamed(overlay.items, x);
    FirstNamedIs(overlay.items, x);
    if j >= 0 { NamedIsMapIf(overlay.items[j]); }
    if x !in n0.byName && x != "" { NotInBase(base, x); }
  }

  /** What becomes of a name, up to the `k`-th entry of the example. */
  lemma {:induction false} TakenFor(n0: Named, overlay: Value, k: nat, opts: Options, x: string)
    requires overlay.List? && NamesOnce(overlay.items) && k <= |overlay.items| && Indexed(n0)
    requires x in n0.byName ==> x != ""
    ensures var n, j := TakeOverlay(n0, overlay, k, opts), FirstNamed(overlay.items, x);
            && (x in n.byName <==> x in n0.byName || (x != "" && 0 <= j < k))
            && (x in n.byName ==>
                  n.byName[x] == if !(0 <= j < k) then n0.byName[x]
                                 else if !overlay.items[j].Map? then map[]
                                 else if x in n0.byName then Merged(n0.byName[x], overlay.items[j], opts)
                                 else overlay.items[j].m)
    decreases k
  {
    hide NameOf, TakeOverlay, Merged, FirstNamed;
    TakeOverlayNone(n0, overlay, opts);
    FirstNamedIs(overlay.items, x);
    if k > 0 {
      TakenFor(n0, overlay, k - 1, opts, x);
      TakeOverlayStep(n0, overlay, k - 1, opts);
      NamedIsMapIf(overlay.items[k - 1]);
    }
  }

  /** An entry's name is its trimmed `name`, when that is a string. */
  lemma NameIs(v: Value, name: string)
    ensures v.Map? && "name" in v.m && v.m["name"] == Str(name) ==> NameOf(v) == Text.TrimSpace(name)
    ensures !(v.Map? && "name" in v.m && v.m["name"].Str?) ==> NameOf(v) == ""
  {
  }
}
