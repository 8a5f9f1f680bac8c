/** What the default merge policy promises an operator. */
module ConfigLaws {
  import opened Text
  import opened ConfigMerge

  /** Neither Overwrite nor FillEmpty. */
  const DEFAULT := Options(false, false)

  // --------------------------------------------------------- operator values win

  datatype Found = Absent | At(value: Value)

  /** The value at the end of a path of mappings. */
  function Follow(c: Config, path: seq<string>): Found
    requires path != []
    decreases |path|
  {
    if path[0] !in c then Absent
    else if |path| == 1 then At(c[path[0]])
    else if c[path[0]].Map? then Follow(c[path[0]].m, path[1..])
    else Absent
  }

  /** Every non-null scalar the operator set keeps its value, unless Overwrite is on, or
      FillEmpty is on and the scalar is the empty string. */
  lemma {:induction false} OperatorScalarKept(base: Config, overlay: Value, opts: Options, path: seq<string>, v: Value)
    requires overlay.Map? && path != [] && Follow(base, path) == At(v)
    requires v.Str? || v.Other?
    requires !opts.overwrite && (opts.fillEmpty ==> v != Str(""))
    ensures Follow(Merged(base, overlay, opts), path) == At(v)
    decreases |path|
  {
    var k := path[0];
    MergedAt(base, overlay, opts, k);
    hide Merged;
    if |path| > 1 && k in overlay.m && overlay.m[k].Map? {
      OperatorScalarKept(base[k].m, overlay.m[k], opts, path[1..], v);
    }
  }

  // ------------------------------------------------------------------ idempotence

  /** No two entries share a name. */
  predicate NamesOnce(items: seq<Value>)
  {
    forall i, j :: 0 <= i < j < |items| && NameOf(items[i]) != "" ==> NameOf(items[i]) != NameOf(items[j])
  }

  predicate NoDup(items: seq<Value>)
  {
    forall i, j :: 0 <= i < j < |items| ==> items[i] != items[j]
  }

  /** What can be copied and then merged into its own copy: lists of strings have no
      duplicate, lists of named entries repeat no name; other lists may hold anything. */
  predicate SelfStable(v: Value)
  {
    match v
    case List(items) =>
      if NamedMaps(items) then NamesOnce(items) && forall i :: 0 <= i < |items| ==> SelfStable(items[i])
      else AllStrings(items) ==> NoDup(items)
    case Map(m) => forall k :: k in m ==> SelfStable(m[k])
    case _ => true
  }

  /** What can be merged into anything twice: as SelfStable, and also the named entries of
      other lists, which an operator's list of named entries would take in, are stable
      and repeat no name. */
  predicate Stable(v: Value)
  {
    match v
    case List(items) =>
      if AllStrings(items) then NoDup(items)
      else NamesOnce(items) && forall i :: 0 <= i < |items| && NameOf(items[i]) != "" ==> Stable(items[i])
    case Map(m) => forall k :: k in m ==> Stable(m[k])
    case _ => true
  }

  lemma {:induction false} StableIsSelfStable(v: Value)
    requires Stable(v)
    ensures SelfStable(v)
  {
    hide NameOf;
    if v.Map? {
      forall k | k in v.m ensures SelfStable(v.m[k]) { StableIsSelfStable(v.m[k]); }
    } else if v.List? && NamedMaps(v.items) {
      assert !v.items[0].Str?;
      forall i | 0 <= i < |v.items| ensures SelfStable(v.items[i]) { StableIsSelfStable(v.items[i]); }
    }
  }

  /** Each name once, each entry filed under its own name. */
  ghost predicate Proper(n: Named)
  {
    && (forall i, j :: 0 <= i < j < |n.order| ==> n.order[i] != n.order[j])
    && (forall x :: x in n.byName <==> x in n.order)
    && (forall x :: x in n.byName ==> x != "" && NameOf(Map(n.byName[x])) == x)
  }

  lemma MergeKeepsName(base: Config, overlay: Value)
    requires overlay.Map? && NameOf(Map(base)) != ""
    ensures NameOf(Map(Merged(base, overlay, DEFAULT))) == NameOf(Map(base))
  {
    hide Merged, MergedList, Text.TrimSpace;
    MergedAt(base, overlay, DEFAULT, "name");
  }

  lemma AddKeepsProper(n: Named, v: Value)
    requires Indexed(n) && Proper(n) && v.Map? && NameOf(v) != "" && NameOf(v) !in n.byName
    ensures Proper(AddNamed(n, v))
  {
    assert Map(v.m) == v;
  }

  lemma {:induction false} TakeBaseProper(items: seq<Value>)
    ensures Proper(TakeBase(items))
  {
    if items != [] {
      var n, v := TakeBase(items[..|items| - 1]), items[|items| - 1];
      TakeBaseProper(items[..|items| - 1]);
      if NameOf(v) != "" && NameOf(v) !in n.byName { AddKeepsProper(n, v); }
    }
  }

  lemma ReplaceKeepsProper(n: Named, x: string, c: Config)
    requires Indexed(n) && Proper(n) && x in n.byName && NameOf(Map(c)) == x
    ensures Proper(Named(n.order, n.byName[x := c]))
  {
    hide NameOf;
  }

  lemma TakeOverlayNone(n0: Named, overlay: Value, opts: Options)
    requires overlay.List? && Indexed(n0)
    ensures TakeOverlay(n0, overlay, 0, opts) == n0
  {
  }

  lemma TakeOverlayStep(n0: Named, overlay: Value, k: nat, opts: Options)
    requires overlay.List? && k < |overlay.items| && Indexed(n0)
    ensures TakeOverlay(n0, overlay, k + 1, opts) == TakeOne(TakeOverlay(n0, overlay, k, opts), overlay.items[k], opts)
  {
    hide TakeOne;
  }

  lemma TakeOneProper(n: Named, v: Value)
    requires Indexed(n) && Proper(n)
    ensures Proper(TakeOne(n, v, DEFAULT))
  {
    hide Proper, Merged, AddNamed;
    if NameOf(v) != "" {
      if NameOf(v) in n.byName {
        ProperName(n, NameOf(v));
        MergeKeepsName(n.byName[NameOf(v)], v);
        ReplaceKeepsProper(n, NameOf(v), Merged(n.byName[NameOf(v)], v, DEFAULT));
      } else {
        AddKeepsProper(n, v);
      }
    }
  }

  lemma ProperName(n: Named, x: string)
    requires Proper(n) && x in n.byName
    ensures x != "" && NameOf(Map(n.byName[x])) == x
  {
  }

  lemma {:induction false} TakeOverlayProper(n0: Named, overlay: Value, k: nat)
    requires overlay.List? && k <= |overlay.items| && Indexed(n0) && Proper(n0)
    ensures Proper(TakeOverlay(n0, overlay, k, DEFAULT))
    decreases k
  {
    hide Proper, Merged, AddNamed, NameOf, TakeOne;
    if k > 0 {
      TakeOverlayProper(n0, overlay, k - 1);
      TakeOverlayStep(n0, overlay, k - 1, DEFAULT);
      TakeOneProper(TakeOverlay(n0, overlay, k - 1, DEFAULT), overlay.items[k - 1]);
    }
  }

  /** The first `k` entries of an index, in order. */
  ghost function FirstNames(n: Named, k: nat): Named
    requires k <= |n.order|
  {
    Named(n.order[..k], map x | x in n.byName && x in n.order[..k] :: n.byName[x])
  }

  lemma FirstNamesStep(n: Named, k: nat)
    requires Indexed(n) && Proper(n) && k < |n.order|
    ensures var x := n.order[k]; var v := Map(n.byName[x]);
            && NameOf(v) == x != ""
            && x !in FirstNames(n, k).byName
            && FirstNames(n, k + 1) == Named(FirstNames(n, k).order + [x], FirstNames(n, k).byName[x := n.byName[x]])
  {
    hide NameOf;
    var x := n.order[k];
    ProperName(n, x);
    assert n.order[..k + 1] == n.order[..k] + [x];
    assert x !in n.order[..k];
    assert FirstNames(n, k + 1).byName == FirstNames(n, k).byName[x := n.byName[x]];
  }

  lemma TakeBaseNone()
    ensures TakeBase([]) == Named([], map[])
  {
  }

  lemma TakeBaseStep(items: seq<Value>, v: Value)
    requires v.Map? && NameOf(v) != "" && NameOf(v) !in TakeBase(items).byName
    ensures TakeBase(items + [v]) ==
            Named(TakeBase(items).order + [NameOf(v)], TakeBase(items).byName[NameOf(v) := v.m])
  {
    hide NameOf;
    assert (items + [v])[..|items + [v]| - 1] == items;
  }

  /** Re-reading an emitted index gives it back. */
  lemma {:induction false} TakeBaseEmit(n: Named, k: nat)
    requires Indexed(n) && Proper(n) && k <= |n.order|
    ensures TakeBase(Emit(n)[..k]) == FirstNames(n, k)
    decreases k
  {
    hide *;
    if k == 0 {
      FirstNamesNone(n);
    } else {
      TakeBaseEmit(n, k - 1);
      FirstNamesStep(n, k - 1);
      EmitStep(n, k - 1);
      TakeBaseStep(Emit(n)[..k - 1], Map(n.byName[n.order[k - 1]]));
    }
  }

  lemma FirstNamesNone(n: Named)
    requires Indexed(n)
    ensures TakeBase(Emit(n)[..0]) == FirstNames(n, 0)
  {
    assert FirstNames(n, 0).byName == map[];
  }

  lemma EmitStep(n: Named, k: nat)
    requires Indexed(n) && k < |n.order|
    ensures n.order[k] in n.byName
    ensures Emit(n)[..k + 1] == Emit(n)[..k] + [Map(n.byName[n.order[k]])]
  {
  }

  lemma EmitRoundTrip(n: Named)
    requires Indexed(n) && Proper(n)
    ensures TakeBase(Emit(n)) == n
  {
    hide TakeBase, NameOf;
    TakeBaseEmit(n, |n.order|);
    assert Emit(n)[..|n.order|] == Emit(n) && n.order[..|n.order|] == n.order;
    assert FirstNames(n, |n.order|).byName == n.byName;
  }

  // lists of strings

  lemma {:induction false} DistinctLaws(items: seq<Value>)
    ensures NoDup(Distinct(items))
    ensures forall x :: x in Distinct(items) <==> x in items
    ensures AllStrings(items) ==> AllStrings(Distinct(items))
  {
    if items != [] {
      DistinctLaws(items[..|items| - 1]);
      assert items == items[..|items| - 1] + [items[|items| - 1]];
    }
  }

  lemma {:induction false} DistinctIdentity(r: seq<Value>)
    requires NoDup(r)
    ensures Distinct(r) == r
  {
    if r != [] {
      DistinctIdentity(r[..|r| - 1]);
      assert r == r[..|r| - 1] + [r[|r| - 1]];
    }
  }

  /** A duplicate-free list absorbs what it already has. */
  lemma {:induction false} DistinctAbsorbs(r: seq<Value>, more: seq<Value>)
    requires NoDup(r) && forall i :: 0 <= i < |more| ==> more[i] in r
    ensures Distinct(r + more) == r
    decreases |more|
  {
    if more == [] {
      DistinctIdentity(r);
      assert r + more == r;
    } else {
      var m := |more| - 1;
      DistinctAbsorbs(r, more[..m]);
      DistinctStep(r + more[..m], more[m]);
      assert r + more == r + more[..m] + [more[m]];
    }
  }

  lemma DistinctStep(items: seq<Value>, v: Value)
    ensures Distinct(items + [v]) == if v in Distinct(items) then Distinct(items) else Distinct(items) + [v]
  {
    assert (items + [v])[..|items + [v]| - 1] == items;
  }

  // lists of named entries

  /** Merging `v` in again changes nothing. */
  ghost predicate Settled(n: Named, v: Value)
  {
    NameOf(v) != "" ==>
      NameOf(v) in n.byName && Merged(n.byName[NameOf(v)], v, DEFAULT) == n.byName[NameOf(v)]
  }

  lemma SettledOne(n: Named, v: Value)
    requires Indexed(n) && Settled(n, v)
    ensures TakeOne(n, v, DEFAULT) == n
  {
    hide Merged, NameOf, AddNamed;
    if NameOf(v) != "" { assert n.byName[NameOf(v) := n.byName[NameOf(v)]] == n.byName; }
  }

  lemma {:induction false} SettledAll(n: Named, overlay: Value, k: nat)
    requires overlay.List? && k <= |overlay.items| && Indexed(n)
    requires forall j :: 0 <= j < k ==> Settled(n, overlay.items[j])
    ensures TakeOverlay(n, overlay, k, DEFAULT) == n
    decreases k
  {
    hide TakeOverlay, TakeOne, Settled, NameOf, Indexed;
    TakeOverlayNone(n, overlay, DEFAULT);
    if k > 0 {
      SettledAll(n, overlay, k - 1);
      TakeOverlayStep(n, overlay, k - 1, DEFAULT);
      SettledOne(n, overlay.items[k - 1]);
    }
  }

  /** Taking a differently named entry leaves a settled one settled. */
  lemma SettledStays(n: Named, v: Value, w: Value)
    requires Indexed(n) && Settled(n, v) && (NameOf(v) == "" || NameOf(w) != NameOf(v))
    ensures Settled(TakeOne(n, w, DEFAULT), v)
  {
    hide Merged, NameOf;
  }

  lemma {:induction false} SettledSelf(n: Named, v: Value)
    requires Indexed(n) && Stable(v)
    ensures Settled(TakeOne(n, v, DEFAULT), v)
    decreases v, 4
  {
    hide Merged, MergedValue, NameOf, Stable, SelfStable;
    if NameOf(v) != "" {
      NamedIsMap(v);
      if NameOf(v) in n.byName {
        MergeTwice(n.byName[NameOf(v)], v);
      } else {
        StableIsSelfStable(v);
        SelfMerge(v);
      }
    }
  }

  lemma Unnamed(n: Named, v: Value)
    requires NameOf(v) == ""
    ensures Settled(n, v)
  {
  }

  lemma NamedIsMap(v: Value)
    requires NameOf(v) != ""
    ensures v.Map?
  {
  }

  /** After the first `k` entries of a stable example, all of them are settled. */
  lemma {:induction false} TakenIsSettled(n0: Named, overlay: Value, k: nat)
    requires overlay.List? && NamesOnce(overlay.items) && k <= |overlay.items| && Indexed(n0)
    requires forall i :: 0 <= i < |overlay.items| && NameOf(overlay.items[i]) != "" ==> Stable(overlay.items[i])
    ensures forall j :: 0 <= j < k ==> Settled(TakeOverlay(n0, overlay, k, DEFAULT), overlay.items[j])
    decreases overlay, 0, k
  {
    hide NameOf, Settled, TakeOverlay, TakeOne, Stable;
    if k > 0 {
      var n, w := TakeOverlay(n0, overlay, k - 1, DEFAULT), overlay.items[k - 1];
      TakenIsSettled(n0, overlay, k - 1);
      TakeOverlayStep(n0, overlay, k - 1, DEFAULT);
      if NameOf(w) != "" { SettledSelf(n, w); } else { Unnamed(TakeOne(n, w, DEFAULT), w); }
      forall j | 0 <= j < k - 1 ensures Settled(TakeOne(n, w, DEFAULT), overlay.items[j]) {
        SettledStays(n, overlay.items[j], w);
      }
    }
  }

  // one value merged with itself

  /** All entries are named, each name once: the index of the list is the list. */
  lemma {:induction false} TakeBaseAll(items: seq<Value>, k: nat)
    requires k <= |items| && forall i :: 0 <= i < |items| ==> NameOf(items[i]) != ""
    requires forall i, j :: 0 <= i < j < |items| ==> NameOf(items[i]) != NameOf(items[j])
    ensures var n := TakeBase(items[..k]);
            && |n.order| == k
            && (forall i :: 0 <= i < k ==> n.order[i] == NameOf(items[i]) && n.order[i] in n.byName && Map(n.byName[n.order[i]]) == items[i])
            && (forall x :: x in n.byName ==> x in n.order)
    decreases k
  {
    hide NameOf, TakeBase;
    if k > 0 {
      TakeBaseAll(items, k - 1);
      NamedIsMap(items[k - 1]);
      assert items[..k] == items[..k - 1] + [items[k - 1]];
      var n := TakeBase(items[..k - 1]);
      assert forall x :: x in n.byName ==> exists i :: 0 <= i < k - 1 && x == n.order[i];
      TakeBaseStep(items[..k - 1], items[k - 1]);
    } else {
      assert items[..0] == [];
      TakeBaseNone();
    }
  }

  /** Each named entry of an example is merged once into the entry of its name. */
  lemma {:induction false} TakenAt(n0: Named, overlay: Value, k: nat, i: nat, opts: Options)
    requires overlay.List? && NamesOnce(overlay.items) && k <= |overlay.items| && Indexed(n0)
    requires i < |overlay.items| && NameOf(overlay.items[i]) in n0.byName && NameOf(overlay.items[i]) != ""
    ensures var n, x := TakeOverlay(n0, overlay, k, opts), NameOf(overlay.items[i]);
            x in n.byName &&
            n.byName[x] == if i < k then Merged(n0.byName[x], overlay.items[i], opts) else n0.byName[x]
    decreases k
  {
    hide NameOf, TakeOverlay, Merged, AddNamed, Indexed;
    TakeOverlayNone(n0, overlay, opts);
    NamedIsMap(overlay.items[i]);
    if k > 0 {
      TakenAt(n0, overlay, k - 1, i, opts);
      TakeOverlayStep(n0, overlay, k - 1, opts);
      TakeOneAt(TakeOverlay(n0, overlay, k - 1, opts), overlay.items[k - 1], NameOf(overlay.items[i]), opts);
    }
  }

  lemma TakeOneAt(n: Named, v: Value, x: string, opts: Options)
    requires Indexed(n) && x in n.byName && x != ""
    ensures x in TakeOne(n, v, opts).byName
    ensures NameOf(v) != x ==> TakeOne(n, v, opts).byName[x] == n.byName[x]
    ensures NameOf(v) == x ==> v.Map? && TakeOne(n, v, opts).byName[x] == Merged(n.byName[x], v, opts)
  {
    hide Merged, Text.TrimSpace;
  }

  /** Names are appended, never moved. */
  lemma {:induction false} OrderGrows(n0: Named, overlay: Value, k: nat, opts: Options)
    requires overlay.List? && k <= |overlay.items| && Indexed(n0)
    ensures n0.order <= TakeOverlay(n0, overlay, k, opts).order
    decreases k
  {
    hide NameOf, TakeOverlay, Merged;
    TakeOverlayNone(n0, overlay, opts);
    if k > 0 {
      OrderGrows(n0, overlay, k - 1, opts);
      TakeOverlayStep(n0, overlay, k - 1, opts);
    }
  }

  /** An index leaves out what has no name. */
  lemma {:induction false} TakeBaseSkips(items: seq<Value>, i: nat)
    requires i < |items| && NameOf(items[i]) == ""
    ensures |TakeBase(items).order| < |items|
  {
    hide NameOf;
    var m := |items| - 1;
    if i < m { TakeBaseSkips(items[..m], i); } else { TakeBaseShort(items[..m]); }
  }

  /** When every name is known already, nothing is appended. */
  lemma {:induction false} NothingAppended(n0: Named, overlay: Value, k: nat)
    requires overlay.List? && k <= |overlay.items| && Indexed(n0)
    requires forall i :: 0 <= i < |overlay.items| && NameOf(overlay.items[i]) != "" ==> NameOf(overlay.items[i]) in n0.byName
    ensures var n := TakeOverlay(n0, overlay, k, DEFAULT);
            n.order == n0.order && n.byName.Keys == n0.byName.Keys
    decreases k
  {
    hide NameOf, TakeOverlay, Merged, AddNamed;
    TakeOverlayNone(n0, overlay, DEFAULT);
    if k > 0 {
      NothingAppended(n0, overlay, k - 1);
      TakeOverlayStep(n0, overlay, k - 1, DEFAULT);
    }
  }

  lemma {:induction false} TakeBaseHas(items: seq<Value>, i: nat)
    requires i < |items| && NameOf(items[i]) != ""
    ensures NameOf(items[i]) in TakeBase(items).byName
  {
    hide NameOf;
    if i < |items| - 1 { TakeBaseHas(items[..|items| - 1], i); }
  }

  /** An index has fewer entries than a list that repeats a name. */
  lemma {:induction false} TakeBaseShort(items: seq<Value>)
    ensures |TakeBase(items).order| <= |items|
    ensures !NamesOnce(items) ==> |TakeBase(items).order| < |items|
  {
    hide NameOf;
    if items != [] {
      var m := |items| - 1;
      TakeBaseShort(items[..m]);
      if !NamesOnce(items) && NamesOnce(items[..m]) {
        var i, j :| 0 <= i < j < |items| && NameOf(items[i]) != "" && NameOf(items[i]) == NameOf(items[j]);
        assert forall p :: 0 <= p < m ==> items[..m][p] == items[p];
        assert j == m;
        TakeBaseHas(items[..m], i);
      }
    }
  }

  lemma {:induction false} SelfMerge(v: Value)
    ensures MergedValue(v, v, DEFAULT) == v <==> SelfStable(v)
    ensures v.Map? ==> (Merged(v.m, v, DEFAULT) == v.m <==> SelfStable(v))
    decreases v, 3
  {
    if v.Map? {
      SelfMergeMap(v);
    } else if v.List? {
      SelfMergeList(v);
    }
  }

  lemma {:induction false} SelfMergeMap(v: Value)
    requires v.Map?
    ensures Merged(v.m, v, DEFAULT) == v.m <==> SelfStable(v)
    decreases v, 2
  {
    hide Merged, MergedValue;
    forall k | k in v.m
      ensures Merged(v.m, v, DEFAULT)[k] == v.m[k] <==> SelfStable(v.m[k])
    {
      SelfMerge(v.m[k]);
      MergedAt(v.m, v, DEFAULT, k);
    }
  }

  lemma {:induction false} SelfMergeList(v: Value)
    requires v.List?
    ensures MergedList(v.items, v, DEFAULT) == v.items <==> SelfStable(v)
    decreases v, 2
  {
    hide Merged, NameOf, TakeBase, TakeOverlay, Distinct, NoDup, NamesOnce;
    var items := v.items;
    if NamedMaps(items) {
      SelfMergeNamed(v);
    } else if AllStrings(items) {
      StringListStable(items);
    }
  }

  /** A list of strings merged with itself is unchanged exactly when it has no duplicate. */
  lemma StringListStable(items: seq<Value>)
    requires AllStrings(items)
    ensures Distinct(items + items) == items <==> NoDup(items)
  {
    hide Distinct;
    DistinctLaws(items + items);
    if NoDup(items) { DistinctAbsorbs(items, items); }
  }

  lemma {:induction false} SelfMergeNamed(v: Value)
    requires v.List? && NamedMaps(v.items)
    ensures Emit(TakeOverlay(TakeBase(v.items), v, |v.items|, DEFAULT)) == v.items <==>
            NamesOnce(v.items) && forall i :: 0 <= i < |v.items| ==> SelfStable(v.items[i])
    decreases v, 1
  {
    hide Merged, NameOf, TakeBase, TakeOverlay, SelfStable, NamesOnce;
    var items, n0 := v.items, TakeBase(v.items);
    var n := TakeOverlay(n0, v, |items|, DEFAULT);
    forall i | 0 <= i < |items| ensures NameOf(items[i]) in n0.byName { TakeBaseHas(items, i); }
    NothingAppended(n0, v, |items|);
    TakeBaseShort(items);
    if NamesOnce(items) {
      EntryMerged(v, 0);
      forall i | 0 <= i < |items| ensures Emit(n)[i] == items[i] <==> SelfStable(items[i]) {
        EntryMerged(v, i);
        SelfMerge(items[i]);
      }
    }
  }

  lemma EntryMerged(v: Value, i: nat)
    requires v.List? && NamedMaps(v.items) && NamesOnce(v.items) && i < |v.items|
    ensures var n := TakeOverlay(TakeBase(v.items), v, |v.items|, DEFAULT);
            |Emit(n)| == |v.items| && Emit(n)[i] == Map(Merged(v.items[i].m, v.items[i], DEFAULT))
  {
    hide Merged, NameOf, TakeBase, TakeOverlay;
    var items, n0 := v.items, TakeBase(v.items);
    assert items[..|items|] == items;
    TakeBaseAll(items, |items|);
    forall i | 0 <= i < |items| ensures NameOf(items[i]) in n0.byName { TakeBaseHas(items, i); }
    NothingAppended(n0, v, |items|);
    TakenAt(n0, v, |items|, i, DEFAULT);
    assert n0.order[i] == NameOf(items[i]);
  }

  /** A copied list of named entries that repeats a name loses an entry when the example is
      merged again. */
  lemma RepeatedNameCollapses(items: seq<Value>)
    requires NamedMaps(items) && !NamesOnce(items)
    ensures |MergedList(items, List(items), DEFAULT)| < |items|
  {
    hide Merged, NameOf, TakeBase, TakeOverlay, NamesOnce;
    forall i | 0 <= i < |items| ensures NameOf(items[i]) in TakeBase(items).byName { TakeBaseHas(items, i); }
    NothingAppended(TakeBase(items), List(items), |items|);
    TakeBaseShort(items);
  }

  /** A config that was empty: the example merged a second time changes nothing, if and only
      if the example is self-stable. */
  lemma MergeFreshTwice(overlay: Value)
    requires overlay.Map?
    ensures var once := Merged(map[], overlay, DEFAULT);
            Merged(once, overlay, DEFAULT) == once <==> SelfStable(overlay)
  {
    hide MergedValue, SelfStable;
    assert Merged(map[], overlay, DEFAULT) == overlay.m;
    SelfMerge(overlay);
  }

  // merging the same example twice

  /** Under the default policy, merging the same stable example a second time changes
      nothing, whatever the operator has. */
  lemma {:induction false} MergeTwice(base: Config, overlay: Value)
    requires overlay.Map? && Stable(overlay)
    ensures var once := Merged(base, overlay, DEFAULT); Merged(once, overlay, DEFAULT) == once
    decreases overlay, 2
  {
    hide Merged, MergedValue;
    var once := Merged(base, overlay, DEFAULT);
    forall k | k in once ensures Merged(once, overlay, DEFAULT)[k] == once[k] {
      MergedAt(base, overlay, DEFAULT, k);
      MergedAt(once, overlay, DEFAULT, k);
      if k in overlay.m {
        if k in base {
          MergeTwiceValue(base[k], overlay.m[k]);
        } else {
          StableIsSelfStable(overlay.m[k]);
          SelfMerge(overlay.m[k]);
        }
      }
    }
  }

  lemma {:induction false} MergeTwiceValue(base: Value, overlay: Value)
    requires Stable(overlay)
    ensures var once := MergedValue(base, overlay, DEFAULT); MergedValue(once, overlay, DEFAULT) == once
    decreases overlay, 3
  {
    hide Merged, MergedList, Stable, SelfStable;
    if base.Null? {
      StableIsSelfStable(overlay);
      SelfMerge(overlay);
    } else if base.Map? && overlay.Map? {
      MergeTwice(base.m, overlay);
    } else if base.List? && overlay.List? {
      MergeTwiceList(base.items, overlay);
    }
  }

  lemma {:induction false} MergeTwiceList(base: seq<Value>, overlay: Value)
    requires overlay.List? && Stable(overlay)
    ensures var once := MergedList(base, overlay, DEFAULT); MergedList(once, overlay, DEFAULT) == once
    decreases overlay, 2
  {
    hide Merged, NameOf, TakeBase, TakeOverlay, Stable;
    var more := overlay.items;
    if NamedMaps(base) || NamedMaps(more) {
      MergeTwiceNamed(base, overlay);
    } else if AllStrings(base) && AllStrings(more) {
      DistinctLaws(base + more);
      DistinctAbsorbs(Distinct(base + more), more);
      NoNamedStrings(Distinct(base + more));
    }
  }

  lemma NoNamedStrings(items: seq<Value>)
    requires AllStrings(items)
    ensures !NamedMaps(items)
  {
    assert items != [] ==> items[0].Str?;
  }

  lemma {:induction false} MergeTwiceNamed(base: seq<Value>, overlay: Value)
    requires overlay.List? && Stable(overlay) && (NamedMaps(base) || NamedMaps(overlay.items))
    ensures var once := Emit(TakeOverlay(TakeBase(base), overlay, |overlay.items|, DEFAULT));
            && (NamedMaps(once) || NamedMaps(overlay.items))
            && Emit(TakeOverlay(TakeBase(once), overlay, |overlay.items|, DEFAULT)) == once
    decreases overlay, 1
  {
    hide Merged, NameOf, TakeBase, TakeOverlay, Stable, Proper, Settled;
    StableEntries(overlay);
    var k := |overlay.items|;
    var n := TakeOverlay(TakeBase(base), overlay, k, DEFAULT);
    TakeBaseProper(base);
    TakeOverlayProper(TakeBase(base), overlay, k);
    EmitRoundTrip(n);
    TakenIsSettled(TakeBase(base), overlay, k);
    SettledAll(n, overlay, k);
    if NamedMaps(base) { EmitIsNamed(base, overlay, k); }
  }

  lemma StableEntries(v: Value)
    requires v.List? && Stable(v)
    ensures NamesOnce(v.items) && forall i :: 0 <= i < |v.items| && NameOf(v.items[i]) != "" ==> Stable(v.items[i])
  {
    hide Text.TrimSpace;
    assert AllStrings(v.items) ==> forall i :: 0 <= i < |v.items| ==> NameOf(v.items[i]) == "";
  }

  /** A list that starts with a named entry still does after taking an example. */
  lemma {:induction false} NeverShrinks(n0: Named, overlay: Value, k: nat)
    requires overlay.List? && k <= |overlay.items| && Indexed(n0)
    ensures |TakeOverlay(n0, overlay, k, DEFAULT).order| >= |n0.order|
    decreases k
  {
    hide TakeOverlay, TakeOne, NameOf, Indexed;
    TakeOverlayNone(n0, overlay, DEFAULT);
    if k > 0 {
      NeverShrinks(n0, overlay, k - 1);
      TakeOverlayStep(n0, overlay, k - 1, DEFAULT);
      OneNeverShrinks(TakeOverlay(n0, overlay, k - 1, DEFAULT), overlay.items[k - 1]);
    }
  }

  lemma OneNeverShrinks(n: Named, v: Value)
    requires Indexed(n)
    ensures |TakeOne(n, v, DEFAULT).order| >= |n.order|
  {
    hide NameOf, Merged, MergedValue;
  }

  lemma EmitIsNamed(base: seq<Value>, overlay: Value, k: nat)
    requires overlay.List? && k <= |overlay.items| && NamedMaps(base)
    ensures NamedMaps(Emit(TakeOverlay(TakeBase(base), overlay, k, DEFAULT)))
  {
    hide Merged, NameOf, TakeOverlay;
    var n := TakeOverlay(TakeBase(base), overlay, k, DEFAULT);
    TakeBaseProper(base);
    TakeOverlayProper(TakeBase(base), overlay, k);
    NeverShrinks(TakeBase(base), overlay, k);
    BaseNotEmpty(base);
    forall i | 0 <= i < |Emit(n)| ensures Emit(n)[i].Map? && NameOf(Emit(n)[i]) != "" {
      assert n.order[i] in n.byName;
    }
  }

  lemma {:induction false} BaseNotEmpty(base: seq<Value>)
    requires NamedMaps(base)
    ensures |TakeBase(base).order| > 0
  {
    if |base| > 1 {
      assert NamedMaps(base[..|base| - 1]);
      BaseNotEmpty(base[..|base| - 1]);
    } else {
      assert base[..0] == [] && TakeBase([]) == Named([], map[]);
    }
  }

  // exactly when

  /** Merging `v` into `base` twice is merging it once. */
  ghost predicate Twice(base: Value, v: Value)
  {
    var once := MergedValue(base, v, DEFAULT);
    MergedValue(once, v, DEFAULT) == once
  }

  /** A list that holds other things than named entries repeats no name, at any depth that
      merging reaches. */
  predicate SingleNames(v: Value)
  {
    match v
    case List(items) =>
      && (NamedMaps(items) || NamesOnce(items))
      && forall i :: 0 <= i < |items| && NameOf(items[i]) != "" ==> SingleNames(items[i])
    case Map(m) => forall k :: k in m ==> SingleNames(m[k])
    case _ => true
  }

  /** What is not stable changes something the operator could have. */
  lemma {:induction false} UnstableChanges(v: Value) returns (base: Value)
    requires !Stable(v) && SingleNames(v)
    ensures !Twice(base, v)
    decreases v
  {
    hide Merged, MergedList, Stable, SelfStable, NameOf, SingleNames;
    if v.Map? {
      var k;
      k, base := UnstableKey(v);
      base := Map(map[k := base]);
      KeyChanges(base.m, v, k);
    } else {
      NotStable(v);
      if SelfStable(v) {
        var i := UnstableEntry(v);
        NamedIsMap(v.items[i]);
        var k, b := UnstableKey(v.items[i]);
        base := EntryChanges(v, i, k, b);
      } else {
        base := Null;
        SelfMerge(v);
      }
    }
  }

  lemma {:induction false} UnstableKey(v: Value) returns (k: string, base: Value)
    requires v.Map? && !Stable(v) && SingleNames(v)
    ensures k in v.m && !v.m[k].Str? && !Twice(base, v.m[k])
    decreases v, 0
  {
    hide Merged, MergedValue, NameOf;
    k :| k in v.m && !Stable(v.m[k]);
    base := UnstableChanges(v.m[k]);
  }

  lemma NotStable(v: Value)
    requires !v.Map? && !Stable(v)
    ensures v.List?
  {
  }

  lemma UnstableEntry(v: Value) returns (i: nat)
    requires v.List? && !Stable(v) && SelfStable(v) && SingleNames(v)
    ensures i < |v.items| && NameOf(v.items[i]) != "" && !Stable(v.items[i]) && SingleNames(v.items[i])
    ensures NamesOnce(v.items)
  {
    hide NameOf;
    assert NamedMaps(v.items) ==> !v.items[0].Str?;
    i :| 0 <= i < |v.items| && NameOf(v.items[i]) != "" && !Stable(v.items[i]);
  }

  lemma KeyChanges(base: Config, v: Value, k: string)
    requires v.Map? && k in base && k in v.m && !Twice(base[k], v.m[k])
    ensures !Twice(Map(base), v)
    ensures Merged(Merged(base, v, DEFAULT), v, DEFAULT) != Merged(base, v, DEFAULT)
  {
    hide Merged, MergedList;
    MergedAt(base, v, DEFAULT, k);
    MergedAt(Merged(base, v, DEFAULT), v, DEFAULT, k);
  }

  /** An operator whose list has an entry of that name sees it change. */
  lemma EntryChanges(v: Value, i: nat, k: string, b: Value) returns (base: Value)
    requires v.List? && NamesOnce(v.items) && i < |v.items| && NameOf(v.items[i]) != "" && v.items[i].Map?
    requires k in v.items[i].m && !v.items[i].m[k].Str? && !Twice(b, v.items[i].m[k])
    ensures !Twice(base, v)
  {
    hide Merged, TakeBase, TakeOverlay, MergedValue, Proper, NamedMaps;
    var x, e := NameOf(v.items[i]), v.items[i];
    var b0: Config := map["name" := Str(x)][k := b];
    NameIsTrimmed(e, k);
    assert NameOf(Map(b0)) == x by { hide *; NameOfTrimmed(b0, x); }
    base := List([Map(b0)]);
    var m := |v.items|;
    var n1 := TakeOverlay(TakeBase([Map(b0)]), v, m, DEFAULT);
    OneNamed(b0, x);
    TakenAt(TakeBase([Map(b0)]), v, m, i, DEFAULT);
    TakeBaseProper([Map(b0)]);
    TakeOverlayProper(TakeBase([Map(b0)]), v, m);
    EmitIsNamed([Map(b0)], v, m);
    EmitRoundTrip(n1);
    var n2 := TakeOverlay(n1, v, m, DEFAULT);
    TakenAt(n1, v, m, i, DEFAULT);
    TakeOverlayProper(n1, v, m);
    EmitRoundTrip(n2);
    KeyChanges(b0, e, k);
    NamedListMerges([Map(b0)], v);
    NamedListMerges(Emit(n1), v);
    assert n1 != n2;
  }

  lemma NamedListMerges(items: seq<Value>, v: Value)
    requires v.List? && NamedMaps(items)
    ensures MergedValue(List(items), v, DEFAULT) == List(Emit(TakeOverlay(TakeBase(items), v, |v.items|, DEFAULT)))
  {
    hide TakeOverlay, TakeBase, NamedMaps;
  }

  lemma OneNamed(c: Config, x: string)
    requires NameOf(Map(c)) == x != ""
    ensures NamedMaps([Map(c)]) && TakeBase([Map(c)]) == Named([x], map[x := c])
  {
    hide NameOf;
    assert [Map(c)][..0] == [];
    TakeBaseNone();
  }

  lemma NameIsTrimmed(e: Value, k: string)
    requires NameOf(e) != "" && k in e.m && !e.m[k].Str?
    ensures k != "name" && Text.TrimSpace(NameOf(e)) == NameOf(e)
  {
    hide Text.TrimSpace;
  }

  lemma NameOfTrimmed(c: Config, x: string)
    requires "name" in c && c["name"] == Str(x) && Text.TrimSpace(x) == x
    ensures NameOf(Map(c)) == x
  {
  }

  /** For every operator config merging the same example twice is merging it once, if and
      only if the example is stable (for examples whose mixed lists repeat no name). */
  lemma MergeTwiceExactly(overlay: Value)
    requires overlay.Map? && SingleNames(overlay)
    ensures (forall base: Config ::
               Merged(Merged(base, overlay, DEFAULT), overlay, DEFAULT) == Merged(base, overlay, DEFAULT))
            <==> Stable(overlay)
  {
    hide Merged, MergedValue, Stable, SingleNames;
    if Stable(overlay) {
      forall base: Config
        ensures Merged(Merged(base, overlay, DEFAULT), overlay, DEFAULT) == Merged(base, overlay, DEFAULT)
      {
        MergeTwice(base, overlay);
      }
    } else {
      var k, b := UnstableKey(overlay);
      KeyChanges(map[k := b], overlay, k);
    }
  }
}
