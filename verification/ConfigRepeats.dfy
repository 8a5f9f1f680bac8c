/** Why the exact condition for merging twice speaks of names that do not repeat: entries
    that share a name can each be stable, and not be so together. */
module ConfigRepeats {
  import Text
  import opened ConfigMerge
  import opened ConfigLaws

  function NamedEntry(x: string): Value { Map(map["name" := Str(x)]) }

  function ListEntry(x: string, items: seq<Value>): Value { Map(map["name" := Str(x), "k" := List(items)]) }

  lemma PlainNames(x: string, items: seq<Value>)
    requires x in {"x", "y", "z"}
    ensures NameOf(NamedEntry(x)) == x && NameOf(ListEntry(x, items)) == x
  {
    assert Text.Trimmed(x);
  }

  /** Merging a list into one that holds no named entry, on either side, leaves it. */
  lemma MixedIsLeft(base: seq<Value>, more: seq<Value>, i: nat, j: nat)
    requires i < |base| && !base[i].Str? && NameOf(base[i]) == "" && j < |more| && NameOf(more[j]) == ""
    ensures MergedValue(List(base), List(more), DEFAULT) == List(base)
  {
    hide NameOf, Distinct, TakeBase, TakeOverlay;
  }

  lemma NamedListTaken(base: seq<Value>, more: seq<Value>)
    requires NamedMaps(base) || NamedMaps(more)
    ensures MergedValue(List(base), List(more), DEFAULT) ==
            List(Emit(TakeOverlay(TakeBase(base), List(more), |more|, DEFAULT)))
  {
    hide NameOf, TakeBase, TakeOverlay, NamedMaps;
  }

  const NUMBER := Other("!!int", "5")
  const Y := NamedEntry("y")
  const Z := NamedEntry("z")

  /** A plain list meets [5, y], then [z], and then both again: y comes in the second time. */
  lemma NamesComeLate()
    ensures MergedValue(List([NUMBER]), List([NUMBER, Y]), DEFAULT) == List([NUMBER])
    ensures MergedValue(List([NUMBER]), List([Z]), DEFAULT) == List([Z])
    ensures MergedValue(List([Z]), List([NUMBER, Y]), DEFAULT) == List([Z, Y])
    ensures MergedValue(List([Z, Y]), List([Z]), DEFAULT) == List([Z, Y])
  {
    hide NameOf, Merged, TakeBase, TakeOverlay, MergedValue;
    PlainNames("y", []);
    PlainNames("z", []);
    OthersHaveNoName();
    MixedIsLeft([NUMBER], [NUMBER, Y], 0, 0);
    NamedListTaken([NUMBER], [Z]);
    TakeSecond([NUMBER], [Z]);
    NamedListTaken([Z], [NUMBER, Y]);
    TakeTwo();
    NamedListTaken([Z, Y], [Z]);
    TakeAgain();
  }

  lemma OthersHaveNoName()
    ensures NameOf(NUMBER) == "" && NameOf(Str("s")) == ""
  {
  }

  lemma TakeSecond(base: seq<Value>, more: seq<Value>)
    requires base == [NUMBER] && more == [Z] && NameOf(Z) == "z" && NameOf(NUMBER) == ""
    ensures Emit(TakeOverlay(TakeBase(base), List(more), 1, DEFAULT)) == [Z]
  {
    hide NameOf, Merged;
    assert base[..0] == [] && TakeBase([]) == Named([], map[]);
    assert TakeBase(base) == Named([], map[]);
    assert TakeOverlay(Named([], map[]), List(more), 0, DEFAULT) == Named([], map[]);
  }

  lemma TakeTwo()
    requires NameOf(Z) == "z" && NameOf(Y) == "y" && NameOf(NUMBER) == ""
    ensures Emit(TakeOverlay(TakeBase([Z]), List([NUMBER, Y]), 2, DEFAULT)) == [Z, Y]
  {
    hide NameOf, Merged;
    OneNamed(Z.m, "z");
    var n0, more := Named(["z"], map["z" := Z.m]), List([NUMBER, Y]);
    assert TakeOverlay(n0, more, 0, DEFAULT) == n0;
    assert TakeOverlay(n0, more, 1, DEFAULT) == n0;
    assert TakeOverlay(n0, more, 2, DEFAULT) == Named(["z", "y"], map["z" := Z.m, "y" := Y.m]);
  }

  lemma TakeAgain()
    requires NameOf(Z) == "z" && NameOf(Y) == "y"
    ensures NamedMaps([Z, Y]) && Emit(TakeOverlay(TakeBase([Z, Y]), List([Z]), 1, DEFAULT)) == [Z, Y]
  {
    hide NameOf, Merged;
    OneNamed(Z.m, "z");
    assert [Z, Y] == [Z] + [Y];
    TakeBaseStep([Z], Y);
    var n0 := Named(["z", "y"], map["z" := Z.m, "y" := Y.m]);
    assert TakeBase([Z, Y]) == n0;
    assert TakeOverlay(n0, List([Z]), 0, DEFAULT) == n0;
    assert Merged(Z.m, Z, DEFAULT) == Z.m by { ZAlone(); }
    assert TakeOverlay(n0, List([Z]), 1, DEFAULT) == n0;
  }

  lemma ZAlone()
    ensures Merged(Z.m, Z, DEFAULT) == Z.m
  {
    assert SelfStable(Z);
    SelfMerge(Z);
  }

  /** Entries that share a name can each be stable and not be so together: the later one
      turns the operator's plain list into a list of named entries, which at the second
      merge takes in what the earlier one names. */
  lemma RepeatedNameChanges()
    ensures var one, two := ListEntry("x", [NUMBER, Y]), ListEntry("x", [Z]);
            var example, base := List([one, two, Str("s")]), List([ListEntry("x", [NUMBER])]);
            && Stable(one) && Stable(two) && !SingleNames(example) && !Twice(base, example)
  {
    hide Merged, TakeBase, TakeOverlay, MergedValue, NameOf, Stable, SingleNames;
    var one, two := ListEntry("x", [NUMBER, Y]), ListEntry("x", [Z]);
    var example := [one, two, Str("s")];
    forall items ensures NameOf(ListEntry("x", items)) == "x" { PlainNames("x", items); }
    PlainNames("y", []);
    PlainNames("z", []);
    OthersHaveNoName();
    RepeatIsStable();
    NamesComeLate();
    EntryMerges([NUMBER], [NUMBER, Y], [NUMBER]);
    EntryMerges([NUMBER], [Z], [Z]);
    EntryMerges([Z], [NUMBER, Y], [Z, Y]);
    EntryMerges([Z, Y], [Z], [Z, Y]);
    FoldTwo([NUMBER], example, one, two);
    FoldTwo([Z], example, one, two);
    NamedListTaken([ListEntry("x", [NUMBER])], example);
    NamedListTaken([ListEntry("x", [Z])], example);
    assert [Z, Y] != [Z] && ListEntry("x", [Z, Y]).m["k"] != ListEntry("x", [Z]).m["k"];
  }

  lemma EntryMerges(base: seq<Value>, more: seq<Value>, r: seq<Value>)
    requires MergedValue(List(base), List(more), DEFAULT) == List(r)
    ensures Merged(ListEntry("x", base).m, ListEntry("x", more), DEFAULT) == ListEntry("x", r).m
  {
    hide MergedList;
    var b, o := ListEntry("x", base).m, ListEntry("x", more);
    MergedAt(b, o, DEFAULT, "name");
    MergedAt(b, o, DEFAULT, "k");
  }

  lemma RepeatIsStable()
    requires NameOf(Y) == "y" && NameOf(Z) == "z" && NameOf(NUMBER) == ""
    requires forall items :: NameOf(ListEntry("x", items)) == "x"
    ensures var one, two := ListEntry("x", [NUMBER, Y]), ListEntry("x", [Z]);
            Stable(one) && Stable(two) && !SingleNames(List([one, two, Str("s")]))
  {
    hide NameOf;
    var one, two := ListEntry("x", [NUMBER, Y]), ListEntry("x", [Z]);
    assert Stable(Y) && Stable(Z);
    assert Stable(List([NUMBER, Y])) by { assert !([NUMBER, Y][0].Str?); }
    assert Stable(List([Z])) by { assert !([Z][0].Str?); }
    var example := [one, two, Str("s")];
    assert example[2].Str? && NameOf(example[0]) == NameOf(example[1]);
    assert !NamedMaps(example) && !NamesOnce(example);
  }

  /** An operator's entry takes in both entries of its name, one after the other. */
  lemma FoldTwo(items: seq<Value>, example: seq<Value>, one: Value, two: Value)
    requires one.Map? && two.Map? && example == [one, two, Str("s")] && NameOf(Str("s")) == ""
    requires NameOf(one) == NameOf(two) == NameOf(ListEntry("x", items)) == "x"
    ensures var b := ListEntry("x", items);
            && NamedMaps([b])
            && Emit(TakeOverlay(TakeBase([b]), List(example), 3, DEFAULT)) ==
               [Map(Merged(Merged(b.m, one, DEFAULT), two, DEFAULT))]
  {
    hide NameOf, Merged;
    var b, v := ListEntry("x", items), List(example);
    OneNamed(b.m, "x");
    var n0 := Named(["x"], map["x" := b.m]);
    var m1 := Merged(b.m, one, DEFAULT);
    var m2 := Merged(m1, two, DEFAULT);
    assert TakeOverlay(n0, v, 0, DEFAULT) == n0;
    assert TakeOverlay(n0, v, 1, DEFAULT) == Named(["x"], map["x" := m1]);
    assert TakeOverlay(n0, v, 2, DEFAULT) == Named(["x"], map["x" := m2]);
    assert TakeOverlay(n0, v, 3, DEFAULT) == Named(["x"], map["x" := m2]);
  }
}
