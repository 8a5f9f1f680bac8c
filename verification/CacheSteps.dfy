/** Single durable writes of the cache, the write sequences of its operations, and
    what survives when the process stops between any two of them. */
module CacheSteps {
  import opened CacheRows

  /** artifact.MutableEntry: a tag pointer, or an inline payload when `digest` is "". */
  datatype Pointer = Pointer(digest: Digest, payload: Bytes, ttl: int, fetched: int)

  datatype State = State(blobs: map<Digest, Bytes>, rows: Rows, pointers: map<string, Pointer>)

  datatype Write =
    | PutBlob(digest: Digest, bytes: Bytes)
    | PutRow(row: Row)
    | PutPointer(name: string, pointer: Pointer)
    | DeleteRow(key: Key)
    | DeleteBlob(digest: Digest)
    | SetPinned(key: Key, on: bool)

  function Apply(st: State, w: Write): State
  {
    match w
    case PutBlob(d, bytes) => if d in st.blobs then st else st.(blobs := st.blobs[d := bytes])
    case PutRow(row) => st.(rows := Upsert(st.rows, row))
    case PutPointer(name, p) => st.(pointers := st.pointers[name := p])
    case DeleteRow(key) => st.(rows := st.rows - {key})
    case DeleteBlob(d) => st.(blobs := st.blobs - {d})
    case SetPinned(key, on) =>
      if key in st.rows then st.(rows := st.rows[key := st.rows[key].(pinned := on)]) else st
  }

  function Replay(st: State, ws: seq<Write>): State
    decreases |ws|
  {
    if ws == [] then st else Replay(Apply(st, ws[0]), ws[1..])
  }

  lemma {:induction false} ReplayConcat(st: State, a: seq<Write>, b: seq<Write>)
    ensures Replay(st, a + b) == Replay(Replay(st, a), b)
    decreases |a|
  {
    if a == [] {
      assert a + b == b;
    } else {
      ReplayConcat(Apply(st, a[0]), a[1..], b);
      assert (a + b)[1..] == a[1..] + b;
    }
  }

  // ------------------------------------------------------------- integrity

  /** Every metadata row's digest is present in the CAS. */
  ghost predicate Intact(st: State)
  {
    WellKeyed(st.rows) && forall k :: k in st.rows ==> st.rows[k].digest in st.blobs
  }

  /** The two writes that could strand a row are made only when they do not. */
  ghost predicate SafeAt(st: State, w: Write)
  {
    match w
    case PutRow(row) => row.digest in st.blobs
    case DeleteBlob(d) => !Named(st.rows, d)
    case _ => true
  }

  ghost predicate Safe(st: State, ws: seq<Write>)
    decreases |ws|
  {
    ws == [] || (SafeAt(st, ws[0]) && Safe(Apply(st, ws[0]), ws[1..]))
  }

  lemma {:induction false} SafeConcat(st: State, a: seq<Write>, b: seq<Write>)
    requires Safe(st, a) && Safe(Replay(st, a), b)
    ensures Safe(st, a + b)
    decreases |a|
  {
    if a == [] {
      assert a + b == b;
    } else {
      SafeConcat(Apply(st, a[0]), a[1..], b);
      assert (a + b)[1..] == a[1..] + b;
    }
  }

  lemma {:induction false} SafePrefix(st: State, ws: seq<Write>, n: nat)
    requires Safe(st, ws) && n <= |ws|
    ensures Safe(st, ws[..n])
    decreases n
  {
    if n > 0 {
      SafePrefix(Apply(st, ws[0]), ws[1..], n - 1);
      assert ws[..n][1..] == ws[1..][..n - 1];
    }
  }

  lemma SafeStepIntact(st: State, w: Write)
    requires Intact(st) && SafeAt(st, w)
    ensures Intact(Apply(st, w))
  {
  }

  lemma {:induction false} SafeIntact(st: State, ws: seq<Write>)
    requires Intact(st) && Safe(st, ws)
    ensures Intact(Replay(st, ws))
    decreases |ws|
  {
    if ws != [] {
      SafeStepIntact(st, ws[0]);
      SafeIntact(Apply(st, ws[0]), ws[1..]);
    }
  }

  // -------------------------------------------------------- eviction, as a spec

  /** How many of `cands`, taken from the front, it takes to free `need` bytes. */
  ghost function FirstFit(cands: seq<Row>, need: int): (n: nat)
    ensures n <= |cands|
  {
    if need <= 0 || cands == [] then 0 else 1 + FirstFit(cands[1..], need - cands[0].size)
  }

  /** FirstFit is the length of the shortest prefix that frees `need` bytes, and the
      whole sequence when no prefix does. */
  lemma {:induction false} FirstFitIsShortest(cands: seq<Row>, need: int, n: nat)
    requires n <= |cands|
    ensures SumSizes(cands[..n]) >= need ==> FirstFit(cands, need) <= n
    ensures n < FirstFit(cands, need) ==> SumSizes(cands[..n]) < need
    ensures n == FirstFit(cands, need) && n < |cands| ==> SumSizes(cands[..n]) >= need
  {
    if need > 0 && cands != [] && n > 0 {
      FirstFitIsShortest(cands[1..], need - cands[0].size, n - 1);
      assert cands[..n][1..] == cands[1..][..n - 1];
    } else {
      assert cands[..0] == [];
      assert SumSizes(cands[..n]) >= 0;
    }
  }

  /** Unpinned pull-through rows other than the protected one, oldest first. */
  ghost function Candidates(rows: Rows, protect: Key): seq<Row>
    requires WellKeyed(rows)
  {
    Without(Listing(rows, EVICTABLE), protect)
  }

  /** How many candidates a pass takes: drop oldest until it fits. A ceiling of zero or
      less is "unlimited". */
  ghost function VictimCount(rows: Rows, protect: Key, ceiling: int): (n: nat)
    requires WellKeyed(rows)
    ensures n <= |Candidates(rows, protect)|
  {
    if ceiling <= 0 then 0 else FirstFit(Candidates(rows, protect), CachedBytes(rows) - ceiling)
  }

  ghost function Victims(rows: Rows, protect: Key, ceiling: int): seq<Row>
    requires WellKeyed(rows)
  {
    Candidates(rows, protect)[..VictimCount(rows, protect, ceiling)]
  }

  /** One victim: the row goes; its blob follows when the digest is set, no other row
      names it and the (best-effort) reference count and blob delete both worked. */
  ghost function EvictOne(st: State, v: Row, skip: bool): (ws: seq<Write>)
  {
    var gone := Apply(st, DeleteRow(v.key));
    if v.digest != "" && !Named(gone.rows, v.digest) && !skip
    then [DeleteRow(v.key), DeleteBlob(v.digest)]
    else [DeleteRow(v.key)]
  }

  lemma EvictOneEffect(st: State, v: Row, skip: bool)
    ensures Safe(st, EvictOne(st, v, skip))
    ensures Replay(st, EvictOne(st, v, skip)) ==
            State(if v.digest != "" && !Named(st.rows - {v.key}, v.digest) && !skip
                  then st.blobs - {v.digest} else st.blobs,
                  st.rows - {v.key}, st.pointers)
  {
    var ws := EvictOne(st, v, skip);
    var gone := Apply(st, DeleteRow(v.key));
    assert Replay(gone, []) == gone;
    if |ws| == 2 {
      assert ws[1..] == [DeleteBlob(v.digest)];
      assert Replay(gone, ws[1..]) == Replay(Apply(gone, ws[1]), []);
    }
  }

  /** The writes of a pass over `victims`; `skips[i]` says that the best-effort release
      of the i-th victim's blob failed. */
  ghost function EvictWrites(st: State, victims: seq<Row>, skips: seq<bool>): seq<Write>
    requires |skips| == |victims|
    decreases |victims|
  {
    if victims == [] then [] else
      var n := |victims| - 1;
      var ws := EvictWrites(st, victims[..n], skips[..n]);
      ws + EvictOne(Replay(st, ws), victims[n], skips[n])
  }

  ghost function KeysOf(s: seq<Row>): set<Key>
  {
    set x | x in s :: x.key
  }

  ghost function DigestsOf(s: seq<Row>): set<Digest>
  {
    set x | x in s :: x.digest
  }

  /** `victims` are rows of the store, each once. */
  ghost predicate Present(rows: Rows, victims: seq<Row>)
  {
    && (forall v :: v in victims ==> v.key in rows && rows[v.key] == v)
    && (forall i, j :: 0 <= i < j < |victims| ==> victims[i].key != victims[j].key)
  }

  lemma PresentPrefix(rows: Rows, vs: seq<Row>, n: nat)
    requires Present(rows, vs) && n <= |vs|
    ensures Present(rows, vs[..n])
  {
  }

  lemma KeysOfLast(rows: Rows, vs: seq<Row>)
    requires vs != []
    ensures var n := |vs| - 1;
            && rows - KeysOf(vs) == rows - KeysOf(vs[..n]) - {vs[n].key}
            && DigestsOf(vs) == DigestsOf(vs[..n]) + {vs[n].digest}
  {
    var n := |vs| - 1;
    assert vs == vs[..n] + [vs[n]];
    assert KeysOf(vs) == KeysOf(vs[..n]) + {vs[n].key};
  }

  lemma LastPresent(rows: Rows, vs: seq<Row>)
    requires Present(rows, vs) && vs != []
    ensures var n := |vs| - 1;
            var left := rows - KeysOf(vs[..n]);
            vs[n].key in left && left[vs[n].key] == vs[n]
  {
    var n := |vs| - 1;
    assert vs[n] in vs;
  }

  lemma {:induction false} EvictSafe(st: State, victims: seq<Row>, skips: seq<bool>)
    requires |skips| == |victims|
    ensures Safe(st, EvictWrites(st, victims, skips))
    decreases |victims|
  {
    if victims != [] {
      var n := |victims| - 1;
      var ws := EvictWrites(st, victims[..n], skips[..n]);
      EvictSafe(st, victims[..n], skips[..n]);
      EvictOneEffect(Replay(st, ws), victims[n], skips[n]);
      SafeConcat(st, ws, EvictOne(Replay(st, ws), victims[n], skips[n]));
    }
  }

  lemma {:induction false} EvictRows(st: State, victims: seq<Row>, skips: seq<bool>)
    requires |skips| == |victims|
    ensures var r := Replay(st, EvictWrites(st, victims, skips));
            r.rows == st.rows - KeysOf(victims) && r.pointers == st.pointers
    decreases |victims|
  {
    if victims == [] {
      assert st.rows - KeysOf(victims) == st.rows;
    } else {
      var n := |victims| - 1;
      var ws := EvictWrites(st, victims[..n], skips[..n]);
      EvictRows(st, victims[..n], skips[..n]);
      EvictOneEffect(Replay(st, ws), victims[n], skips[n]);
      ReplayConcat(st, ws, EvictOne(Replay(st, ws), victims[n], skips[n]));
      KeysOfLast(st.rows, victims);
    }
  }

  /** Deleting one row changes which rows name `d` only if that row did. */
  lemma NamedAfterDelete(rows: Rows, v: Row, d: Digest)
    requires v.key in rows && rows[v.key] == v
    ensures Named(rows - {v.key}, d) ==> Named(rows, d)
    ensures v.digest != d && Named(rows, d) ==> Named(rows - {v.key}, d)
  {
    if v.digest != d && Named(rows, d) {
      var k :| k in rows && rows[k].digest == d;
      assert k in rows - {v.key};
    }
  }

  /** A pass loses no digest that a surviving row names and none outside the victims';
      and when nothing was skipped, an evicted digest stays exactly when a surviving
      row, of any origin or pin state, still names it. */
  lemma {:induction false} EvictBlob(st: State, victims: seq<Row>, skips: seq<bool>, d: Digest)
    requires |skips| == |victims| && Present(st.rows, victims)
    ensures var r := Replay(st, EvictWrites(st, victims, skips));
            && (d in r.blobs ==> d in st.blobs && r.blobs[d] == st.blobs[d])
            && (d in st.blobs && d !in r.blobs ==>
                  d in DigestsOf(victims) && d != "" && !Named(r.rows, d))
            && (d in DigestsOf(victims) && d != "" && true !in skips ==>
                  (d in r.blobs <==> d in st.blobs && Named(r.rows, d)))
    decreases |victims|
  {
    if victims != [] {
      var n := |victims| - 1;
      var v, skip := victims[n], skips[n];
      var ws := EvictWrites(st, victims[..n], skips[..n]);
      var mid := Replay(st, ws);
      PresentPrefix(st.rows, victims, n);
      EvictBlob(st, victims[..n], skips[..n], d);
      EvictRows(st, victims[..n], skips[..n]);
      EvictOneEffect(mid, v, skip);
      ReplayConcat(st, ws, EvictOne(mid, v, skip));
      LastPresent(st.rows, victims);
      KeysOfLast(st.rows, victims);
      NamedAfterDelete(mid.rows, v, d);
    }
  }

  /** A pass that stops early has made a prefix of the writes of the whole pass. */
  lemma {:induction false} EvictPrefix(st: State, vs: seq<Row>, skips: seq<bool>, n: nat)
    requires |skips| == |vs| && n <= |vs|
    ensures EvictWrites(st, vs[..n], skips[..n]) <= EvictWrites(st, vs, skips)
    decreases |vs|
  {
    if n == |vs| {
      assert vs[..n] == vs && skips[..n] == skips;
    } else {
      var m := |vs| - 1;
      EvictPrefix(st, vs[..m], skips[..m], n);
      assert vs[..m][..n] == vs[..n] && skips[..m][..n] == skips[..n];
    }
  }

  // -------------------------------------------- what a pass achieves, in bytes

  lemma CandidatesSorted(rows: Rows, protect: Key)
    requires WellKeyed(rows)
    ensures var t := set x | x in Select(rows, EVICTABLE) && x.key != protect;
            Keyed(t) && Candidates(rows, protect) == Sorted(t)
            && forall x :: x in Candidates(rows, protect) <==> x in t
  {
    var t := set x | x in Select(rows, EVICTABLE) && x.key != protect;
    WithoutSorted(Select(rows, EVICTABLE), protect);
    assert t == Except(Select(rows, EVICTABLE), protect);
    SortedMembers(t);
  }

  lemma CandidatesDistinct(rows: Rows, protect: Key, i: nat, j: nat)
    requires WellKeyed(rows) && i < j < |Candidates(rows, protect)|
    ensures Candidates(rows, protect)[i].key != Candidates(rows, protect)[j].key
  {
    var cands := Candidates(rows, protect);
    CandidatesSorted(rows, protect);
    var t := set x | x in Select(rows, EVICTABLE) && x.key != protect;
    SortedIncreases(t, i, j);
    BeforeIrreflexive(cands[i]);
    assert cands[i] in cands && cands[j] in cands;
  }

  lemma CandidatesPresent(rows: Rows, protect: Key)
    requires WellKeyed(rows)
    ensures Present(rows, Candidates(rows, protect))
    ensures protect !in KeysOf(Candidates(rows, protect))
    ensures forall v :: v in Candidates(rows, protect) ==> v.origin == Cached && !v.pinned
  {
    var cands := Candidates(rows, protect);
    CandidatesSorted(rows, protect);
    forall i, j | 0 <= i < j < |cands| ensures cands[i].key != cands[j].key {
      CandidatesDistinct(rows, protect, i, j);
    }
  }

  /** With the first `n` of `cands` deleted, exactly the others are still there. */
  lemma LeftOver(rows: Rows, cands: seq<Row>, n: nat, x: Row)
    requires Present(rows, cands) && n <= |cands| && x in cands
    ensures x in cands[n..] <==> x.key !in KeysOf(cands[..n])
  {
    var j :| 0 <= j < |cands| && cands[j] == x;
    if j < n {
      assert cands[..n][j] == x;
      forall i | n <= i < |cands| ensures cands[i] != x {}
    } else {
      assert cands[n..][j - n] == x;
      forall i | 0 <= i < n ensures cands[..n][i].key != x.key {}
    }
  }

  lemma EvictableAfter(rows: Rows, gone: set<Key>, x: Row)
    requires WellKeyed(rows)
    ensures x in Select(rows - gone, EVICTABLE) <==> x in Select(rows, EVICTABLE) && x.key !in gone
  {
    var left := rows - gone;
    if x in Select(rows, EVICTABLE) && x.key !in gone {
      assert x.key in left && left[x.key] == x;
    }
  }

  lemma CandidateSetAfter(rows: Rows, protect: Key, n: nat)
    requires WellKeyed(rows) && n <= |Candidates(rows, protect)|
    ensures var cands := Candidates(rows, protect);
            (set x | x in Select(rows - KeysOf(cands[..n]), EVICTABLE) && x.key != protect) ==
            (set x | x in cands[n..])
  {
    var cands := Candidates(rows, protect);
    var gone := KeysOf(cands[..n]);
    CandidatesSorted(rows, protect);
    CandidatesPresent(rows, protect);
    forall x
      ensures x in Select(rows - gone, EVICTABLE) && x.key != protect <==> x in cands[n..]
    {
      EvictableAfter(rows, gone, x);
      if x in cands { LeftOver(rows, cands, n, x); }
      assert x in cands[n..] ==> x in cands;
    }
  }

  /** Deleting the first `n` candidates leaves the rest, in the same order. */
  lemma CandidatesAfter(rows: Rows, protect: Key, n: nat)
    requires WellKeyed(rows) && n <= |Candidates(rows, protect)|
    ensures var cands := Candidates(rows, protect);
            var left := rows - KeysOf(cands[..n]);
            WellKeyed(left) && Candidates(left, protect) == cands[n..]
  {
    CandidatesSorted(rows, protect);
    CandidateSetAfter(rows, protect, n);
    CandidatesSorted(rows - KeysOf(Candidates(rows, protect)[..n]), protect);
    SortedSuffix((set x | x in Select(rows, EVICTABLE) && x.key != protect), n);
  }

  lemma SumSizesLast(vs: seq<Row>)
    requires vs != []
    ensures var n := |vs| - 1; SumSizes(vs) == SumSizes(vs[..n]) + vs[n].size
  {
    var n := |vs| - 1;
    SumSizesConcat(vs[..n], [vs[n]]);
    assert vs == vs[..n] + [vs[n]];
    assert SumSizes([vs[n]]) == vs[n].size + SumSizes([]);
  }

  lemma {:induction false} BytesAfter(rows: Rows, vs: seq<Row>)
    requires WellKeyed(rows) && Present(rows, vs)
    requires forall v :: v in vs ==> v.origin == Cached
    ensures WellKeyed(rows - KeysOf(vs))
    ensures CachedBytes(rows - KeysOf(vs)) == CachedBytes(rows) - SumSizes(vs)
    decreases |vs|
  {
    if vs == [] {
      assert rows - KeysOf(vs) == rows;
    } else {
      var n := |vs| - 1;
      PresentPrefix(rows, vs, n);
      BytesAfter(rows, vs[..n]);
      LastPresent(rows, vs);
      KeysOfLast(rows, vs);
      CachedBytesRemove(rows - KeysOf(vs[..n]), vs[n].key);
      SumSizesLast(vs);
    }
  }

  lemma BytesAfterPrefix(rows: Rows, protect: Key, n: nat)
    requires WellKeyed(rows) && n <= |Candidates(rows, protect)|
    ensures var gone := KeysOf(Candidates(rows, protect)[..n]);
            && WellKeyed(rows - gone)
            && CachedBytes(rows - gone) == CachedBytes(rows) - SumSizes(Candidates(rows, protect)[..n])
  {
    CandidatesPresent(rows, protect);
    PresentPrefix(rows, Candidates(rows, protect), n);
    BytesAfter(rows, Candidates(rows, protect)[..n]);
  }

  lemma VictimsFreeEnough(rows: Rows, protect: Key, ceiling: int)
    requires WellKeyed(rows) && 0 < ceiling && VictimCount(rows, protect, ceiling) < |Candidates(rows, protect)|
    ensures SumSizes(Victims(rows, protect, ceiling)) >= CachedBytes(rows) - ceiling
  {
    FirstFitIsShortest(Candidates(rows, protect), CachedBytes(rows) - ceiling, VictimCount(rows, protect, ceiling));
  }

  lemma BytesAfterVictims(rows: Rows, protect: Key, ceiling: int)
    requires WellKeyed(rows)
    ensures var left := rows - KeysOf(Victims(rows, protect, ceiling));
            WellKeyed(left) &&
            CachedBytes(left) == CachedBytes(rows) - SumSizes(Victims(rows, protect, ceiling))
  {
    BytesAfterPrefix(rows, protect, VictimCount(rows, protect, ceiling));
  }

  lemma StopsAtCeiling(rows: Rows, protect: Key, ceiling: int)
    requires WellKeyed(rows) && 0 < ceiling && VictimCount(rows, protect, ceiling) < |Candidates(rows, protect)|
    ensures var left := rows - KeysOf(Victims(rows, protect, ceiling));
            WellKeyed(left) && CachedBytes(left) <= ceiling
  {
    VictimsFreeEnough(rows, protect, ceiling);
    BytesAfterVictims(rows, protect, ceiling);
  }

  lemma StopsWhenExhausted(rows: Rows, protect: Key, ceiling: int)
    requires WellKeyed(rows) && VictimCount(rows, protect, ceiling) == |Candidates(rows, protect)|
    ensures var left := rows - KeysOf(Victims(rows, protect, ceiling));
            WellKeyed(left) && Candidates(left, protect) == []
  {
    CandidatesAfter(rows, protect, VictimCount(rows, protect, ceiling));
  }

  /** A complete pass under a positive ceiling takes candidates oldest first and ends
      at or under the ceiling, or with no candidate but the protected row. */
  lemma EvictionReachesCeiling(rows: Rows, protect: Key, ceiling: int)
    requires WellKeyed(rows) && ceiling > 0
    ensures var left := rows - KeysOf(Victims(rows, protect, ceiling));
            && WellKeyed(left)
            && (CachedBytes(left) <= ceiling || Candidates(left, protect) == [])
  {
    if VictimCount(rows, protect, ceiling) < |Candidates(rows, protect)| {
      StopsAtCeiling(rows, protect, ceiling);
    } else {
      StopsWhenExhausted(rows, protect, ceiling);
    }
  }

  /** No pinned, hosted or protected row goes. */
  lemma EvictionSpares(rows: Rows, protect: Key, ceiling: int, k: Key)
    requires WellKeyed(rows) && k in rows
    requires k == protect || rows[k].pinned || rows[k].origin == Hosted
    ensures k !in KeysOf(Victims(rows, protect, ceiling))
  {
    CandidatesPresent(rows, protect);
    forall v | v in Victims(rows, protect, ceiling) ensures v.key != k {
      assert v in Candidates(rows, protect);
    }
  }

  /** ... and it evicts no more than it has to: after any shorter oldest-first prefix
      the bytes are still over the ceiling. */
  lemma EvictionIsShortest(rows: Rows, protect: Key, ceiling: int, n: nat)
    requires WellKeyed(rows) && ceiling > 0 && n < VictimCount(rows, protect, ceiling)
    ensures var left := rows - KeysOf(Candidates(rows, protect)[..n]);
            WellKeyed(left) && CachedBytes(left) > ceiling
  {
    hide FirstFit, Candidates, CachedBytes, KeysOf, SumSizes;
    BytesAfterPrefix(rows, protect, n);
    FirstFitIsShortest(Candidates(rows, protect), CachedBytes(rows) - ceiling, n);
  }

  // ---------------------------------------------- what a pass takes, row by row

  /** What could go: every row that is pull-through, not pinned and not protected. */
  ghost predicate MayGo(rows: Rows, protect: Key, x: Row)
  {
    x.key in rows && rows[x.key] == x && x.origin == Cached && !x.pinned && x.key != protect
  }

  lemma CandidatesAre(rows: Rows, protect: Key)
    requires WellKeyed(rows)
    ensures forall x :: x in Candidates(rows, protect) <==> MayGo(rows, protect, x)
  {
    CandidatesSorted(rows, protect);
  }

  /** A pass takes the oldest: a row that goes is older than every row that could have gone
      and stays, and the rows go in order of age. */
  lemma EvictsOldest(rows: Rows, protect: Key, ceiling: int, i: nat)
    requires WellKeyed(rows) && i < |Victims(rows, protect, ceiling)|
    ensures var vs := Victims(rows, protect, ceiling);
            && MayGo(rows, protect, vs[i])
            && (forall j :: i < j < |vs| ==> Older(vs[i], vs[j]))
            && (forall x :: MayGo(rows, protect, x) && x.key !in KeysOf(vs) ==> Older(vs[i], x))
  {
    hide Older, MayGo, Candidates, VictimCount;
    var cands, n := Candidates(rows, protect), VictimCount(rows, protect, ceiling);
    CandidatesAre(rows, protect);
    assert forall j :: 0 <= j < n ==> cands[..n][j] == cands[j] && cands[..n][j] in cands[..n];
    forall j | i < j < |cands| ensures Older(cands[i], cands[j]) { CandidatesAge(rows, protect, i, j); }
    assert cands[i] in cands;
    forall x | MayGo(rows, protect, x) && x.key !in KeysOf(cands[..n]) ensures Older(cands[i], x) {
      var j :| 0 <= j < |cands| && cands[j] == x;
    }
  }

  lemma CandidatesAge(rows: Rows, protect: Key, i: nat, j: nat)
    requires WellKeyed(rows) && i < j < |Candidates(rows, protect)|
    ensures Older(Candidates(rows, protect)[i], Candidates(rows, protect)[j])
  {
    hide Older, Candidates;
    CandidatesSorted(rows, protect);
    var t := set x | x in Select(rows, EVICTABLE) && x.key != protect;
    SortedIncreases(t, i, j);
  }

  /** A pass that cannot reach the ceiling has taken everything that could go. */
  lemma OverCeilingNothingLeft(rows: Rows, protect: Key, ceiling: int)
    requires WellKeyed(rows) && ceiling > 0
    ensures var left := rows - KeysOf(Victims(rows, protect, ceiling));
            CachedBytes(left) > ceiling ==>
              forall k :: k in left && left[k].origin == Cached && !left[k].pinned ==> k == protect
  {
    hide Candidates, Victims, CachedBytes;
    var left := rows - KeysOf(Victims(rows, protect, ceiling));
    EvictionReachesCeiling(rows, protect, ceiling);
    if CachedBytes(left) > ceiling {
      CandidatesAre(left, protect);
      assert forall k :: k in left ==>
               (MayGo(left, protect, left[k]) <==> left[k].origin == Cached && !left[k].pinned && k != protect);
    }
  }

  /** One write, store by store: a blob that is there is not replaced, and pinning a row
      that is not there does nothing. */
  lemma WritesAre(st: State, w: Write)
    ensures var r := Apply(st, w);
            && r.blobs == (if w.PutBlob? && w.digest !in st.blobs then st.blobs[w.digest := w.bytes]
                           else if w.DeleteBlob? then st.blobs - {w.digest} else st.blobs)
            && r.pointers == (if w.PutPointer? then st.pointers[w.name := w.pointer] else st.pointers)
            && r.rows.Keys == (if w.PutRow? then st.rows.Keys + {w.row.key}
                               else if w.DeleteRow? then st.rows.Keys - {w.key} else st.rows.Keys)
            && (forall k :: k in r.rows && k in st.rows && !(w.PutRow? && k == w.row.key) ==>
                  r.rows[k] == if w == SetPinned(k, true) then st.rows[k].(pinned := true)
                               else if w == SetPinned(k, false) then st.rows[k].(pinned := false)
                               else st.rows[k])
  {
  }
}
