/** The change report: which dotted paths a merge added or changed. */
module ConfigReport {
  import opened Text
  import opened ConfigMerge
  import L = ConfigLaws

  /** `ks` leads, through mappings on both sides, to a key only `after` has. */
  ghost predicate AddedAt(before: Config, after: Config, ks: seq<string>)
    decreases |ks|
  {
    ks != [] && ks[0] in after &&
    (if |ks| == 1 then ks[0] !in before
     else ks[0] in before && before[ks[0]].Map? && after[ks[0]].Map? &&
          AddedAt(before[ks[0]].m, after[ks[0]].m, ks[1..]))
  }

  /** `ks` leads, through mappings on both sides, to a key whose values differ and are not
      both mappings. */
  ghost predicate ChangedAt(before: Config, after: Config, ks: seq<string>)
    decreases |ks|
  {
    ks != [] && ks[0] in before && ks[0] in after &&
    var b, a := before[ks[0]], after[ks[0]];
    if |ks| == 1 then !(b.Map? && a.Map?) && b != a
    else b.Map? && a.Map? && ChangedAt(b.m, a.m, ks[1..])
  }

  function PathOf(prefix: string, k: string): string
  {
    if prefix == "" then k else prefix + "." + k
  }

  /** A dotted path, built up as the walk descends. */
  function Dotted(prefix: string, ks: seq<string>): string
    decreases |ks|
  {
    if ks == [] then prefix else Dotted(PathOf(prefix, ks[0]), ks[1..])
  }

  /** `added` and `changed` list exactly the differences below the keys of `done`. */
  ghost predicate Reports(prefix: string, before: Config, after: Config, done: set<string>,
                          added: seq<string>, changed: seq<string>)
  {
    && (forall p :: p in added <==> exists ks :: AddedAt(before, after, ks) && ks[0] in done && Dotted(prefix, ks) == p)
    && (forall p :: p in changed <==> exists ks :: ChangedAt(before, after, ks) && ks[0] in done && Dotted(prefix, ks) == p)
  }

  /** sort.Strings on the union of the keys. */
  method SortedNames(keys: set<string>) returns (names: seq<string>)
    ensures Increasing(names) && forall k :: k in names <==> k in keys
  {
    names := [];
    var left := keys;
    while left != {}
      invariant left <= keys && Increasing(names)
      invariant forall k :: k in names <==> k in keys && k !in left
      invariant forall i, k :: 0 <= i < |names| && k in left ==> Less(names[i], k)
      decreases |left|
    {
      var k := Least(left);
      names, left := names + [k], left - {k};
    }
  }

  method Least(s: set<string>) returns (least: string)
    requires s != {}
    ensures least in s && forall k :: k in s && k != least ==> Less(least, k)
  {
    least :| least in s;
    var left := s - {least};
    while left != {}
      invariant left <= s && least in s && least !in left
      invariant forall k :: k in s && k !in left && k != least ==> Less(least, k)
      decreases |left|
    {
      var k :| k in left;
      LessTotal(least, k);
      if Less(k, least) {
        forall x | x in s && x !in left - {k} && x != k ensures Less(k, x) {
          if x != least { LessTransitive(k, least, x); }
        }
        least := k;
      }
      left := left - {k};
    }
  }

  /** diffMaps: the walk over the sorted keys of both sides. */
  method Diff(prefix: string, before: Config, after: Value) returns (added: seq<string>, changed: seq<string>)
    requires after.Map?
    ensures Reports(prefix, before, after.m, before.Keys + after.m.Keys, added, changed)
    decreases after
  {
    hide *;
    var names := SortedNames(before.Keys + after.m.Keys);
    added, changed := [], [];
    ghost var done: set<string> := {};
    NothingReported(prefix, before, after.m);
    for i := 0 to |names|
      invariant forall k :: k in done <==> k in names[..i]
      invariant Reports(prefix, before, after.m, done, added, changed)
    {
      var k := names[i];
      var path := PathOf(prefix, k);
      var more, diff := [], [];
      if k in after.m {
        if k !in before {
          more := [path];
          OnlyAfter(prefix, before, after.m, k);
        } else if before[k].Map? && after.m[k].Map? {
          more, diff := Diff(path, before[k].m, after.m[k]);
          BothMaps(prefix, before, after.m, k, more, diff);
        } else {
          if before[k] != after.m[k] { diff := [path]; }
          Leaf(prefix, before, after.m, k);
        }
      } else {
        OnlyBefore(prefix, before, after.m, k);
      }
      ReportUnion(prefix, before, after.m, done, k, added, changed, more, diff);
      added, changed := added + more, changed + diff;
      done := done + {k};
    }
    assert forall k :: k in done <==> k in before.Keys + after.m.Keys;
    assert done == before.Keys + after.m.Keys;
  }

  lemma NothingReported(prefix: string, before: Config, after: Config)
    ensures Reports(prefix, before, after, {}, [], [])
  {
  }

  lemma ReportUnion(prefix: string, before: Config, after: Config, done: set<string>, k: string,
                    added: seq<string>, changed: seq<string>, more: seq<string>, diff: seq<string>)
    requires Reports(prefix, before, after, done, added, changed)
    requires Reports(prefix, before, after, {k}, more, diff)
    ensures Reports(prefix, before, after, done + {k}, added + more, changed + diff)
  {
    hide AddedAt, ChangedAt, Dotted;
  }

  lemma OnlyBefore(prefix: string, before: Config, after: Config, k: string)
    requires k !in after
    ensures Reports(prefix, before, after, {k}, [], [])
  {
  }

  lemma OneKey(prefix: string, k: string)
    ensures Dotted(prefix, [k]) == PathOf(prefix, k)
  {
    assert [k][1..] == [];
  }

  lemma OnlyAfter(prefix: string, before: Config, after: Config, k: string)
    requires k in after && k !in before
    ensures Reports(prefix, before, after, {k}, [PathOf(prefix, k)], [])
  {
    OneKey(prefix, k);
    assert AddedAt(before, after, [k]);
    forall ks | AddedAt(before, after, ks) && ks[0] == k ensures ks == [k] {}
  }

  lemma Leaf(prefix: string, before: Config, after: Config, k: string)
    requires k in after && k in before && !(before[k].Map? && after[k].Map?)
    ensures Reports(prefix, before, after, {k}, [], if before[k] != after[k] then [PathOf(prefix, k)] else [])
  {
    OneKey(prefix, k);
    assert before[k] != after[k] ==> ChangedAt(before, after, [k]);
    forall ks | ChangedAt(before, after, ks) && ks[0] == k ensures ks == [k] && before[k] != after[k] {}
  }

  lemma BothMaps(prefix: string, before: Config, after: Config, k: string, more: seq<string>, diff: seq<string>)
    requires k in after && k in before && before[k].Map? && after[k].Map?
    requires Reports(PathOf(prefix, k), before[k].m, after[k].m, before[k].m.Keys + after[k].m.Keys, more, diff)
    ensures Reports(prefix, before, after, {k}, more, diff)
  {
    var b, a, sub := before[k].m, after[k].m, PathOf(prefix, k);
    forall p ensures p in more <==> exists ks :: AddedAt(before, after, ks) && ks[0] in {k} && Dotted(prefix, ks) == p {
      if p in more {
        var ks :| AddedAt(b, a, ks) && Dotted(sub, ks) == p;
        Descend(prefix, before, after, k, ks);
        assert AddedAt(before, after, [k] + ks) && ([k] + ks)[0] in {k} && Dotted(prefix, [k] + ks) == p;
      }
      if ks :| AddedAt(before, after, ks) && ks[0] in {k} && Dotted(prefix, ks) == p {
        assert AddedAt(b, a, ks[1..]) && Dotted(sub, ks[1..]) == p;
      }
    }
    forall p ensures p in diff <==> exists ks :: ChangedAt(before, after, ks) && ks[0] in {k} && Dotted(prefix, ks) == p {
      if p in diff {
        var ks :| ChangedAt(b, a, ks) && Dotted(sub, ks) == p;
        Descend(prefix, before, after, k, ks);
        assert ChangedAt(before, after, [k] + ks) && ([k] + ks)[0] in {k} && Dotted(prefix, [k] + ks) == p;
      }
      if ks :| ChangedAt(before, after, ks) && ks[0] in {k} && Dotted(prefix, ks) == p {
        assert ChangedAt(b, a, ks[1..]) && Dotted(sub, ks[1..]) == p;
      }
    }
  }

  lemma Descend(prefix: string, before: Config, after: Config, k: string, ks: seq<string>)
    requires k in after && k in before && before[k].Map? && after[k].Map? && ks != []
    ensures AddedAt(before, after, [k] + ks) <==> AddedAt(before[k].m, after[k].m, ks)
    ensures ChangedAt(before, after, [k] + ks) <==> ChangedAt(before[k].m, after[k].m, ks)
    ensures Dotted(prefix, [k] + ks) == Dotted(PathOf(prefix, k), ks)
  {
    assert ([k] + ks)[1..] == ks;
  }

  // ---------------------------------------------------- the report is exact

  /** `after` has every key of `before`, at every depth the walk reaches. */
  ghost predicate KeepsKeys(before: Value, after: Value)
    decreases before
  {
    before.Map? && after.Map? ==>
      before.m.Keys <= after.m.Keys &&
      forall k :: k in before.m ==> KeepsKeys(before.m[k], after.m[k])
  }

  /** The merge never drops a key from a mapping it merges into. */
  lemma {:induction false} MergeKeepsKeys(base: Config, overlay: Value, opts: Options)
    requires overlay.Map?
    ensures KeepsKeys(Map(base), Map(Merged(base, overlay, opts)))
    decreases overlay
  {
    var r := Merged(base, overlay, opts);
    forall k | k in base ensures KeepsKeys(base[k], r[k]) {
      MergedAt(base, overlay, opts, k);
      if k in overlay.m && base[k].Map? && overlay.m[k].Map? {
        MergeKeepsKeys(base[k].m, overlay.m[k], opts);
        SameKeepsKeys(base[k]);
      } else {
        SameKeepsKeys(base[k]);
      }
    }
  }

  lemma {:induction false} SameKeepsKeys(v: Value)
    ensures KeepsKeys(v, v)
  {
    if v.Map? { forall k | k in v.m ensures KeepsKeys(v.m[k], v.m[k]) { SameKeepsKeys(v.m[k]); } }
  }

  lemma {:induction false} NoDifference(before: Value, after: Value)
    requires before.Map? && after.Map? && KeepsKeys(before, after)
    requires forall ks :: !AddedAt(before.m, after.m, ks) && !ChangedAt(before.m, after.m, ks)
    ensures before == after
    decreases before
  {
    forall k | k in after.m ensures k in before.m && before.m[k] == after.m[k] {
      assert !AddedAt(before.m, after.m, [k]) && !ChangedAt(before.m, after.m, [k]);
      var b, a := before.m[k], after.m[k];
      if b.Map? && a.Map? {
        forall ks ensures !AddedAt(b.m, a.m, ks) && !ChangedAt(b.m, a.m, ks) {
          if ks != [] { Descend("", before.m, after.m, k, ks); }
        }
        NoDifference(b, a);
      }
    }
  }

  lemma {:induction false} SameHasNoDifference(c: Config, ks: seq<string>)
    ensures !AddedAt(c, c, ks) && !ChangedAt(c, c, ks)
    decreases |ks|
  {
    if |ks| > 1 && ks[0] in c && c[ks[0]].Map? { SameHasNoDifference(c[ks[0]].m, ks[1..]); }
  }

  lemma NoMembers(s: seq<string>)
    ensures s == [] <==> forall p :: p !in s
  {
    if s != [] { assert s[0] in s; }
  }

  /** For every operator config, example and option setting, a report of the merge has no
      added and no changed path exactly when the merged config is the original. */
  lemma ReportIsExact(base: Config, overlay: Value, opts: Options, added: seq<string>, changed: seq<string>)
    requires overlay.Map?
    requires var r := Merged(base, overlay, opts); Reports("", base, r, base.Keys + r.Keys, added, changed)
    ensures added == [] && changed == [] <==> Merged(base, overlay, opts) == base
  {
    hide Merged;
    var r := Merged(base, overlay, opts);
    if added == [] && changed == [] {
      forall ks ensures !AddedAt(base, r, ks) && !ChangedAt(base, r, ks) {
        assert AddedAt(base, r, ks) ==> Dotted("", ks) in added;
        assert ChangedAt(base, r, ks) ==> Dotted("", ks) in changed;
      }
      MergeKeepsKeys(base, overlay, opts);
      NoDifference(Map(base), Map(r));
    }
    if r == base {
      forall ks ensures !AddedAt(base, r, ks) && !ChangedAt(base, r, ks) { SameHasNoDifference(base, ks); }
      NoMembers(added);
      NoMembers(changed);
    }
  }

  // ---------------------------------------------------------------- dotted paths

  /** A path below a named key: one more key is one more dot. */
  lemma {:induction false} DottedMore(prefix: string, ks: seq<string>, k: string)
    requires prefix != ""
    ensures Dotted(prefix, ks + [k]) == Dotted(prefix, ks) + "." + k
    decreases |ks|
  {
    if ks == [] {
      assert [] + [k] == [k] && [k][1..] == [];
    } else {
      assert (ks + [k])[1..] == ks[1..] + [k];
      DottedMore(PathOf(prefix, ks[0]), ks[1..], k);
    }
  }

  /** From the top: `a`, `a.b`, `a.b.c` and so on. */
  lemma PathsAreDotted(a: string, ks: seq<string>, k: string)
    requires a != ""
    ensures Dotted("", [a]) == a
    ensures Dotted("", [a] + ks + [k]) == Dotted("", [a] + ks) + "." + k
  {
    assert [a][1..] == [] && ([a] + ks)[1..] == ks && ([a] + ks + [k])[1..] == ks + [k];
    DottedMore(a, ks, k);
  }

  // ------------------------------------------------------ added and changed, by path

  /** The path leads to a mapping, or is the config itself. */
  predicate AtMap(c: Config, ks: seq<string>)
  {
    ks == [] || (L.Follow(c, ks).At? && L.Follow(c, ks).value.Map?)
  }

  /** A path is added when it leads somewhere only afterwards, from a mapping on both sides;
      changed when it leads to different values that are not both mappings. */
  lemma {:induction false} ReportedExactly(before: Config, after: Config, ks: seq<string>)
    requires ks != []
    ensures var b, a := L.Follow(before, ks), L.Follow(after, ks);
            var up := ks[..|ks| - 1];
            && (AddedAt(before, after, ks) <==> a.At? && b.Absent? && AtMap(before, up) && AtMap(after, up))
            && (ChangedAt(before, after, ks) <==> a.At? && b.At? && a != b && !(a.value.Map? && b.value.Map?))
    decreases |ks|
  {
    if |ks| > 1 {
      var up, rest := ks[..|ks| - 1], ks[1..];
      assert up[0] == ks[0] && up[1..] == rest[..|rest| - 1];
      if ks[0] in before && ks[0] in after && before[ks[0]].Map? && after[ks[0]].Map? {
        ReportedExactly(before[ks[0]].m, after[ks[0]].m, rest);
      }
    }
  }
}
