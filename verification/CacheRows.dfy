/** The stores behind the cache, as values: the content-addressed blobs, the
    metadata rows with the upsert and listing rules of the SQL drivers, and the
    mutable pointers. */
module CacheRows {
  import opened Wrappers
  import opened Text

  type Digest = string
  newtype Byte = x: int | 0 <= x < 256
  type Bytes = seq<Byte>

  /** sha256, rendered as a digest; nothing is assumed of it. */
  type Hash = Bytes -> Digest

  /** Primary key of a metadata row. */
  datatype Key = Key(protocol: string, name: string, version: string)

  datatype Origin = Cached | Hosted

  /** One metadata row (artifact.CacheEntry plus the pin flag). */
  datatype Row = Row(key: Key, digest: Digest, size: nat, pinned: bool, origin: Origin, created: int)

  type Rows = map<Key, Row>

  ghost predicate WellKeyed(rows: Rows)
  {
    forall k :: k in rows ==> rows[k].key == k
  }

  /** Upsert of the drivers: the first creation time and the pin survive, and a
      hosted row stays hosted. */
  function Upsert(rows: Rows, row: Row): Rows
  {
    if row.key !in rows then rows[row.key := row.(pinned := false)]
    else
      var was := rows[row.key];
      rows[row.key := row.(pinned := was.pinned, created := was.created,
                           origin := if was.origin.Hosted? then Hosted else row.origin)]
  }

  // ------------------------------------------------------ the listing order

  predicate KeyLess(a: Key, b: Key)
  {
    Less(a.protocol, b.protocol) ||
    (a.protocol == b.protocol &&
     (Less(a.name, b.name) || (a.name == b.name && Less(a.version, b.version))))
  }

  /** Oldest first, ties broken by the whole primary key. */
  predicate Before(a: Row, b: Row)
  {
    a.created < b.created || (a.created == b.created && KeyLess(a.key, b.key))
  }

  /** Older, said of the fields: by creation time, then by protocol, name and version. */
  ghost predicate Older(a: Row, b: Row)
  {
    || a.created < b.created
    || (&& a.created == b.created
        && (|| Precedes(a.key.protocol, b.key.protocol)
            || (a.key.protocol == b.key.protocol && Precedes(a.key.name, b.key.name))
            || (a.key.protocol == b.key.protocol && a.key.name == b.key.name &&
                Precedes(a.key.version, b.key.version))))
  }

  lemma BeforeIsOlder(a: Row, b: Row)
    ensures Before(a, b) <==> Older(a, b)
  {
    hide Less, Precedes;
    LessIsLexicographic(a.key.protocol, b.key.protocol);
    LessIsLexicographic(a.key.name, b.key.name);
    LessIsLexicographic(a.key.version, b.key.version);
  }

  lemma KeyLessTransitive(a: Key, b: Key, c: Key)
    requires KeyLess(a, b) && KeyLess(b, c)
    ensures KeyLess(a, c)
  {
    if Less(a.protocol, b.protocol) && Less(b.protocol, c.protocol) {
      LessTransitive(a.protocol, b.protocol, c.protocol);
    } else if a.protocol == b.protocol == c.protocol {
      if Less(a.name, b.name) && Less(b.name, c.name) {
        LessTransitive(a.name, b.name, c.name);
      } else if a.name == b.name == c.name {
        LessTransitive(a.version, b.version, c.version);
      }
    }
  }

  lemma BeforeTransitive(a: Row, b: Row, c: Row)
    requires Before(a, b) && Before(b, c)
    ensures Before(a, c)
  {
    if a.created == b.created == c.created { KeyLessTransitive(a.key, b.key, c.key); }
  }

  lemma BeforeTotal(a: Row, b: Row)
    ensures a.key == b.key || Before(a, b) || Before(b, a)
  {
    LessTotal(a.key.protocol, b.key.protocol);
    LessTotal(a.key.name, b.key.name);
    LessTotal(a.key.version, b.key.version);
  }

  lemma BeforeIrreflexive(a: Row)
    ensures !Before(a, a)
  {
    LessIrreflexive(a.key.protocol);
    LessIrreflexive(a.key.name);
    LessIrreflexive(a.key.version);
  }

  /** No two rows of `s` share a primary key. */
  ghost predicate Keyed(s: set<Row>)
  {
    forall x, y :: x in s && y in s && x.key == y.key ==> x == y
  }

  predicate IsFirst(x: Row, s: set<Row>)
  {
    x in s && forall y :: y in s && y != x ==> Before(x, y)
  }

  lemma {:induction false} FirstExists(s: set<Row>)
    requires Keyed(s) && s != {}
    ensures exists x :: x in s && IsFirst(x, s)
    decreases |s|
  {
    var y :| y in s;
    if s == {y} {
      assert IsFirst(y, s);
    } else {
      assert s - {y} != {};
      FirstExists(s - {y});
      var x :| x in s - {y} && IsFirst(x, s - {y});
      BeforeTotal(x, y);
      if Before(x, y) {
        assert IsFirst(x, s);
      } else {
        forall z | z in s && z != y ensures Before(y, z) {
          if z != x { BeforeTransitive(y, x, z); }
        }
        assert IsFirst(y, s);
      }
    }
  }

  ghost function First(s: set<Row>): (x: Row)
    requires Keyed(s) && s != {}
    ensures IsFirst(x, s)
  {
    FirstExists(s);
    var x :| x in s && IsFirst(x, s); x
  }

  lemma FirstUnique(x: Row, s: set<Row>)
    requires Keyed(s) && IsFirst(x, s)
    ensures x == First(s)
  {
    var y := First(s);
    if x != y {
      BeforeTransitive(x, y, x);
      BeforeIrreflexive(x);
    }
  }

  /** The rows of `s`, oldest first. */
  ghost function Sorted(s: set<Row>): (r: seq<Row>)
    requires Keyed(s)
    ensures |r| == |s|
    decreases |s|
  {
    if s == {} then [] else
      var x := First(s);
      [x] + Sorted(s - {x})
  }

  lemma {:induction false} SortedMembers(s: set<Row>)
    requires Keyed(s)
    ensures forall x :: x in Sorted(s) <==> x in s
    decreases |s|
  {
    if s != {} { SortedMembers(s - {First(s)}); }
  }

  lemma {:induction false} SortedIncreases(s: set<Row>, i: nat, j: nat)
    requires Keyed(s) && i < j < |Sorted(s)|
    ensures Before(Sorted(s)[i], Sorted(s)[j]) && Older(Sorted(s)[i], Sorted(s)[j])
    decreases |s|
  {
    hide Before, Older;
    BeforeIsOlder(Sorted(s)[i], Sorted(s)[j]);
    var x := First(s);
    if i == 0 {
      assert Sorted(s)[j] == Sorted(s - {x})[j - 1];
      SortedMembers(s - {x});
      assert Sorted(s - {x})[j - 1] in s - {x};
    } else {
      SortedIncreases(s - {x}, i - 1, j - 1);
    }
  }

  lemma {:induction false} SortedSuffix(s: set<Row>, n: nat)
    requires Keyed(s) && n <= |Sorted(s)|
    ensures var t := set x | x in Sorted(s)[n..];
            Keyed(t) && t <= s && Sorted(s)[n..] == Sorted(t)
    decreases |s|
  {
    hide IsFirst, Before;
    if n == 0 {
      SortedMembers(s);
      assert (set x | x in Sorted(s)[0..]) == s;
    } else {
      SortedSuffix(s - {First(s)}, n - 1);
      assert Sorted(s)[n..] == Sorted(s - {First(s)})[n - 1..];
    }
  }

  /** `s` without the row keyed `k`. */
  ghost function Without(s: seq<Row>, k: Key): (r: seq<Row>)
    ensures |r| <= |s|
  {
    if s == [] then []
    else if s[0].key == k then Without(s[1..], k)
    else [s[0]] + Without(s[1..], k)
  }

  lemma {:induction false} WithoutMembers(s: seq<Row>, k: Key)
    ensures forall x :: x in Without(s, k) <==> x in s && x.key != k
  {
    if s != [] { WithoutMembers(s[1..], k); }
  }

  lemma {:induction false} WithoutConcat(a: seq<Row>, b: seq<Row>, k: Key)
    ensures Without(a + b, k) == Without(a, k) + Without(b, k)
  {
    hide Without;
    WithoutHead(a, k);
    WithoutHead(a + b, k);
    if a == [] {
      assert a + b == b;
    } else {
      WithoutConcat(a[1..], b, k);
      assert (a + b)[1..] == a[1..] + b;
    }
  }

  lemma WithoutHead(s: seq<Row>, k: Key)
    ensures s == [] ==> Without(s, k) == []
    ensures s != [] ==> Without(s, k) == (if s[0].key == k then [] else [s[0]]) + Without(s[1..], k)
  {
  }

  /** The rows of `s` not keyed `k`. */
  ghost function Except(s: set<Row>, k: Key): set<Row>
  {
    set x | x in s && x.key != k
  }

  lemma ExceptFirst(s: set<Row>, k: Key)
    requires Keyed(s) && s != {}
    ensures Keyed(Except(s, k))
    ensures var x := First(s);
            if x.key == k then Except(s, k) == Except(s - {x}, k)
            else Except(s, k) != {} && First(Except(s, k)) == x && Except(s, k) - {x} == Except(s - {x}, k)
  {
    hide IsFirst;
    var x := First(s);
    if x.key != k { FirstOfSubset(s, Except(s, k)); }
  }

  /** Leaving a row out commutes with sorting. */
  lemma {:induction false} WithoutSorted(s: set<Row>, k: Key)
    requires Keyed(s)
    ensures Keyed(Except(s, k)) && Without(Sorted(s), k) == Sorted(Except(s, k))
    decreases |s|
  {
    hide Without, Sorted, IsFirst, Except, Keyed;
    WithoutHead(Sorted(s), k);
    SortedHead(s);
    if s == {} {
      ExceptNone(k);
      SortedHead({});
    } else {
      var x := First(s);
      SubsetKeyed(s, s - {x});
      ExceptFirst(s, k);
      WithoutSorted(s - {x}, k);
      SortedHead(Except(s, k));
    }
  }

  lemma ExceptNone(k: Key)
    ensures Except({}, k) == {} && Keyed({})
  {
  }

  lemma SubsetKeyed(s: set<Row>, t: set<Row>)
    requires Keyed(s) && t <= s
    ensures Keyed(t)
  {
  }

  lemma SortedHead(s: set<Row>)
    requires Keyed(s)
    ensures s == {} ==> Sorted(s) == []
    ensures s != {} ==> Sorted(s) != [] && Sorted(s)[0] == First(s) && Sorted(s)[1..] == Sorted(s - {First(s)})
  {
    hide IsFirst;
  }

  lemma FirstOfSubset(s: set<Row>, t: set<Row>)
    requires Keyed(s) && s != {} && t <= s && First(s) in t
    ensures First(t) == First(s)
  {
    FirstUnique(First(s), t);
  }

  // ----------------------------------------------------------------- sizes

  ghost function SumSizes(s: seq<Row>): nat
  {
    if s == [] then 0 else s[0].size + SumSizes(s[1..])
  }

  lemma {:induction false} SumSizesConcat(a: seq<Row>, b: seq<Row>)
    ensures SumSizes(a + b) == SumSizes(a) + SumSizes(b)
  {
    if a == [] {
      assert a + b == b;
    } else {
      SumSizesConcat(a[1..], b);
      assert (a + b)[1..] == a[1..] + b;
    }
  }

  ghost function Total(s: set<Row>): nat
    requires Keyed(s)
  {
    SumSizes(Sorted(s))
  }

  lemma {:induction false} TotalRemove(s: set<Row>, x: Row)
    requires Keyed(s) && x in s
    ensures Total(s) == Total(s - {x}) + x.size
    decreases |s|
  {
    var f := First(s);
    if f != x {
      TotalRemove(s - {f}, x);
      assert s - {f} - {x} == s - {x} - {f};
      assert IsFirst(f, s - {x});
      FirstUnique(f, s - {x});
    }
  }

  // --------------------------------------------------------------- listings

  /** meta.EntryFilter together with the protocol argument; "" leaves a text
      field unconstrained. */
  datatype Filter = Filter(protocol: string, pinned: Option<bool>, origin: Option<Origin>, digest: Digest)

  predicate Matches(f: Filter, row: Row)
  {
    && (f.protocol != "" ==> row.key.protocol == f.protocol)
    && (f.pinned.Some? ==> row.pinned == f.pinned.value)
    && (f.origin.Some? ==> row.origin == f.origin.value)
    && (f.digest != "" ==> row.digest == f.digest)
  }

  function Select(rows: Rows, f: Filter): (s: set<Row>)
    ensures WellKeyed(rows) ==> Keyed(s)
  {
    set k | k in rows && Matches(f, rows[k]) :: rows[k]
  }

  /** Everything a filter matches, oldest first. */
  ghost function Listing(rows: Rows, f: Filter): seq<Row>
    requires WellKeyed(rows)
  {
    Sorted(Select(rows, f))
  }

  const CACHED := Filter("", None, Some(Cached), "")
  const EVICTABLE := Filter("", Some(false), Some(Cached), "")

  function NamedBy(digest: Digest): Filter { Filter("", None, None, digest) }

  /** Bytes counted against the ceiling: every pull-through row, pinned or not. */
  ghost function CachedBytes(rows: Rows): nat
    requires WellKeyed(rows)
  {
    Total(Select(rows, CACHED))
  }

  /** Some row names `d`. */
  ghost predicate Named(rows: Rows, d: Digest)
  {
    exists k :: k in rows && rows[k].digest == d
  }

  /** Oldest-first page: rows of the match, in order, and nothing left off that is older. */
  ghost predicate OldestOf(page: seq<Row>, rows: Rows, f: Filter)
  {
    && (forall i :: 0 <= i < |page| ==> page[i].key in rows && rows[page[i].key] == page[i] && Matches(f, page[i]))
    && (forall i, j :: 0 <= i < j < |page| ==> Older(page[i], page[j]))
    && (forall i, k :: 0 <= i < |page| && k in rows && Matches(f, rows[k]) && rows[k] !in page ==> Older(page[i], rows[k]))
  }

  lemma PageIsOldest(rows: Rows, f: Filter, n: nat)
    requires WellKeyed(rows) && n <= |Listing(rows, f)|
    ensures OldestOf(Listing(rows, f)[..n], rows, f)
  {
    hide Older, Matches, Sorted;
    var all, s := Listing(rows, f), Select(rows, f);
    SortedMembers(s);
    forall i, j | 0 <= i < j < |all| ensures Older(all[i], all[j]) { SortedIncreases(s, i, j); }
    forall i | 0 <= i < n ensures all[i].key in rows && rows[all[i].key] == all[i] && Matches(f, all[i]) {
      assert all[i] in s;
    }
    assert forall j :: 0 <= j < n ==> all[..n][j] == all[j] && all[..n][j] in all[..n];
    forall i, k | 0 <= i < n && k in rows && Matches(f, rows[k]) && rows[k] !in all[..n]
      ensures Older(all[i], rows[k])
    {
      assert rows[k] in s;
      var j :| 0 <= j < |all| && all[j] == rows[k];
    }
  }

  /** The bytes that count, row by row: nothing in an empty store, and each row adds its
      size if it is a pull-through one and nothing if it is hosted. */
  lemma BytesCounted(rows: Rows, k: Key)
    requires WellKeyed(rows)
    ensures CachedBytes(map[]) == 0
    ensures k in rows ==>
              CachedBytes(rows) == CachedBytes(rows - {k}) + if rows[k].origin == Cached then rows[k].size else 0
  {
    hide Sorted, IsFirst;
    assert Select(map[], CACHED) == {};
    NothingToSum();
    if k in rows {
      SelectRemove(rows, k, CACHED);
      if rows[k].origin == Cached {
        TotalRemove(Select(rows, CACHED), rows[k]);
      } else {
        assert rows[k] !in Select(rows, CACHED);
        assert Select(rows, CACHED) - {rows[k]} == Select(rows, CACHED);
      }
    }
  }

  lemma NothingToSum()
    ensures Keyed({}) && Total({}) == 0
  {
  }

  lemma SelectRemove(rows: Rows, k: Key, f: Filter)
    requires WellKeyed(rows) && k in rows
    ensures Select(rows - {k}, f) == Select(rows, f) - {rows[k]}
  {
    var rest := rows - {k};
    forall x ensures x in Select(rest, f) <==> x in Select(rows, f) - {rows[k]} {
      if x in Select(rows, f) && x != rows[k] {
        var j :| j in rows && rows[j] == x;
        assert j in rest && rest[j] == x;
      }
    }
  }

  lemma CachedBytesRemove(rows: Rows, k: Key)
    requires WellKeyed(rows) && k in rows && rows[k].origin == Cached
    ensures CachedBytes(rows - {k}) == CachedBytes(rows) - rows[k].size
  {
    SelectRemove(rows, k, CACHED);
    TotalRemove(Select(rows, CACHED), rows[k]);
  }
}
