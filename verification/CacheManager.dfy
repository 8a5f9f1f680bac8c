/** The cache manager itself: a class over its stores, every store call of which may
    fail, proved to make exactly the writes that module CacheRuns reasons about. */
module CacheManager {
  import opened CacheRows
  import opened CacheSteps
  import opened CacheRuns
  import opened SoftExpiry

  const EVICT_BATCH := 64

  /** The oldest `limit` rows of `s`, or all of them. */
  method Oldest(s: set<Row>, limit: nat) returns (page: seq<Row>)
    requires Keyed(s)
    ensures page == Sorted(s)[..if limit < |s| then limit else |s|]
  {
    hide Sorted, IsFirst;
    var left := s;
    page := [];
    while |page| < limit && left != {}
      invariant left <= s && Keyed(left) && page + Sorted(left) == Sorted(s)
      invariant |page| <= limit && |page| + |left| == |s|
      decreases |left|
    {
      FirstExists(left);
      var x :| x in left && IsFirst(x, left);
      SortedFirst(x, left);
      page, left := page + [x], left - {x};
    }
  }

  class Manager {
    var blobs: map<Digest, Bytes>
    var rows: Rows
    var pointers: map<string, Pointer>
    var maxBytes: int
    const driver: Driver

    /** Every durable write so far, in order. */
    ghost var log: seq<Write>

    /** How many store calls have failed so far. */
    ghost var faults: nat

    ghost function View(): State
      reads this
    {
      State(blobs, rows, pointers)
    }

    constructor (n: int, driver: Driver)
      ensures this.driver == driver
      ensures View() == State(map[], map[], map[]) && log == [] && faults == 0
      ensures maxBytes == if n < 0 then 0 else n
    {
      this.driver := driver;
      blobs, rows, pointers, log, faults := map[], map[], map[], [], 0;
      maxBytes := if n < 0 then 0 else n;
    }

    method SetMaxBytes(n: int)
      modifies this`maxBytes
      ensures maxBytes == if n < 0 then 0 else n
    {
      maxBytes := if n < 0 then 0 else n;
    }

    // ------------------------------------------ the stores; any call may fail

    /** One write was made, or (on failure) none. */
    twostate predicate Wrote(w: Write, ok: bool)
      reads this
    {
      && View() == (if ok then Apply(old(View()), w) else old(View()))
      && log == (if ok then old(log) + [w] else old(log))
      && faults == (if ok then old(faults) else old(faults) + 1)
      && maxBytes == old(maxBytes)
    }

    /** A digest that is stored already is left as it is; bytes the driver refuses are not
        stored at all. */
    method BlobPut(art: Artifact) returns (ok: bool)
      modifies this
      ensures !Refuses(driver, old(View()), art) ==> Wrote(PutBlob(art.digest, art.bytes), ok)
      ensures Refuses(driver, old(View()), art) ==>
                !ok && View() == old(View()) && log == old(log) && maxBytes == old(maxBytes) && faults >= old(faults)
    {
      if * { faults := faults + 1; return false; }
      if art.digest !in blobs {
        if |art.bytes| != art.size { return false; }
        if driver.hashes && driver.sha(art.bytes) != art.digest { return false; }
        blobs := blobs[art.digest := art.bytes];
      }
      log := log + [PutBlob(art.digest, art.bytes)];
      return true;
    }

    method BlobDelete(digest: Digest) returns (ok: bool)
      modifies this
      ensures Wrote(DeleteBlob(digest), ok)
    {
      if * { faults := faults + 1; return false; }
      blobs := blobs - {digest};
      log := log + [DeleteBlob(digest)];
      return true;
    }

    method MetaPut(row: Row) returns (ok: bool)
      modifies this
      ensures Wrote(PutRow(row), ok)
    {
      if * { faults := faults + 1; return false; }
      rows := Upsert(rows, row);
      log := log + [PutRow(row)];
      return true;
    }

    method MetaDelete(key: Key) returns (ok: bool)
      modifies this
      ensures Wrote(DeleteRow(key), ok)
    {
      if * { faults := faults + 1; return false; }
      rows := rows - {key};
      log := log + [DeleteRow(key)];
      return true;
    }

    method MetaPutMutable(name: string, p: Pointer) returns (ok: bool)
      modifies this
      ensures Wrote(PutPointer(name, p), ok)
    {
      if * { faults := faults + 1; return false; }
      pointers := pointers[name := p];
      log := log + [PutPointer(name, p)];
      return true;
    }

    /** One page of the rows a filter matches, oldest first, and the size of the whole
        match. */
    method ListEntries(f: Filter, limit: nat) returns (ok: bool, page: seq<Row>, total: nat)
      requires WellKeyed(rows)
      modifies this`faults
      ensures faults == if ok then old(faults) else old(faults) + 1
      ensures ok ==> total == |Listing(rows, f)| &&
                     page == Listing(rows, f)[..if limit < total then limit else total]
      ensures ok ==> OldestOf(page, rows, f)
    {
      if * { faults := faults + 1; return false, [], 0; }
      var found := Select(rows, f);
      page := Oldest(found, limit);
      PageIsOldest(rows, f, |page|);
      return true, page, |found|;
    }

    /** SUM(size) over the pull-through rows. */
    method CacheSizeByOrigin() returns (ok: bool, total: nat)
      requires WellKeyed(rows)
      modifies this`faults
      ensures faults == if ok then old(faults) else old(faults) + 1
      ensures ok ==> total == CachedBytes(rows)
    {
      if * { faults := faults + 1; return false, 0; }
      var left := Select(rows, CACHED);
      total := 0;
      while left != {}
        invariant Keyed(left) && total + Total(left) == CachedBytes(rows) && faults == old(faults)
        decreases |left|
      {
        var x :| x in left;
        TotalRemove(left, x);
        total, left := total + x.size, left - {x};
      }
      return true, total;
    }

    /** Whether an immutable ref is found; a failed lookup finds nothing. */
    method Finds(ref: Ref) returns (ok: bool, hit: bool)
      modifies this`faults
      ensures faults == if ok then old(faults) else old(faults) + 1
      ensures hit <==> ok && LookupImmutable(View(), ref).Hit?
    {
      if * { faults := faults + 1; return false, false; }
      return true, LookupImmutable(State(blobs, rows, pointers), ref).Hit?;
    }

    // ---------------------------------------------------------------- eviction

    /** No remaining row names the digest. On any error the answer is no: keeping an
        unreferenced object only wastes space. */
    method BlobIsUnreferenced(digest: Digest) returns (unreferenced: bool)
      requires WellKeyed(rows) && digest != ""
      modifies this`faults
      ensures faults == old(faults) || (faults == old(faults) + 1 && !unreferenced)
      ensures faults == old(faults) ==> (unreferenced <==> !Named(rows, digest))
    {
      var ok, page, total := ListEntries(NamedBy(digest), 1);
      if !ok { return false; }
      SelectNamed(rows, digest);
      return total == 0;
    }

    /** Evicts one row and, best effort, its blob; `skipped` when a failure kept the blob. */
    method EvictRow(e: Row) returns (ok: bool, ghost skipped: bool)
      requires WellKeyed(rows)
      modifies this
      ensures !ok ==> View() == old(View()) && log == old(log) && !skipped
      ensures ok ==>
                && log == old(log) + EvictOne(old(View()), e, skipped)
                && View() == Replay(old(View()), EvictOne(old(View()), e, skipped))
      ensures faults >= old(faults) && (!ok || skipped ==> faults > old(faults))
      ensures maxBytes == old(maxBytes)
    {
      skipped := false;
      EvictOneEffect(View(), e, false);
      EvictOneEffect(View(), e, true);
      ok := MetaDelete(e.key);
      if !ok { return; }
      if e.digest != "" {
        var unreferenced := BlobIsUnreferenced(e.digest);
        if unreferenced {
          var deleted := BlobDelete(e.digest);
          skipped := !deleted;
        } else {
          skipped := faults > old(faults);
        }
      }
    }

    ghost predicate At(pass: Sweep, n: nat, skips: seq<bool>, need: int)
      reads this
    {
      && Reached(pass, View(), log, n, skips, need)
      && maxBytes == pass.ceiling
      && faults >= pass.faults && (true in skips ==> faults > pass.faults)
    }

    /** The next candidate of the pass, which must be `e`, is evicted; or nothing changes. */
    method EvictNext(e: Row, ghost pass: Sweep, ghost n: nat, ghost skips: seq<bool>, ghost need: int)
      returns (ok: bool, ghost skipped: bool)
      requires At(pass, n, skips, need) && n < |pass.cands| && e == pass.cands[n] && need > 0
      modifies this
      ensures ok ==> At(pass, n + 1, skips + [skipped], need - e.size)
      ensures !ok ==> At(pass, n, skips, need) && faults > pass.faults
    {
      ghost var before, logged := View(), log;
      ok, skipped := EvictRow(e);
      PassStep(pass, before, logged, n, skips, need, skipped);
    }

    /** One page of the pass: evicts its rows in order, except `protect`, until nothing
        more is needed. */
    method EvictPage(page: seq<Row>, protect: Key, need: int, ghost pass: Sweep, ghost n: nat,
                     ghost skips: seq<bool>, ghost all: seq<Row>)
      returns (ok: bool, left: int, progress: bool, ghost m: nat, ghost skips': seq<bool>)
      requires At(pass, n, skips, need) && need > 0
      requires n <= |pass.cands| && page <= all && Without(all, protect) == pass.cands[n..]
      modifies this
      ensures At(pass, m, skips', left)
      ensures !ok ==> faults > pass.faults
      ensures m >= n && (progress <==> m > n)
      ensures ok && !progress ==> left == need && Without(page, protect) == []
    {
      hide *;
      ok, left, progress, m, skips' := true, need, false, n, skips;
      var i := 0;
      assert Without(all[..0], protect) == [];
      while i < |page|
        invariant i <= |page| && At(pass, m, skips', left)
        invariant m == n + |Without(all[..i], protect)|
        invariant progress <==> m > n
        invariant !progress ==> left == need
      {
        if left <= 0 { break; }
        var e := page[i];
        PageStep(all, protect, i, pass.cands, n);
        if e.key != protect {
          ghost var skipped;
          ok, skipped := EvictNext(e, pass, m, skips', left);
          if !ok { return; }
          m, skips' := m + 1, skips' + [skipped];
          left := left - e.size;
          progress := true;
        }
        i := i + 1;
      }
      assert i == |page| ==> all[..i] == page;
    }

    /** The oldest |skips| victims of state `st` have gone, and nothing else was written. */
    ghost predicate Evicted(st: State, was: seq<Write>, protect: Key, skips: seq<bool>)
      requires WellKeyed(st.rows)
      reads this
    {
      && |skips| <= |Victims(st.rows, protect, maxBytes)|
      && var ws := EvictWrites(st, Victims(st.rows, protect, maxBytes)[..|skips|], skips);
         log == was + ws && View() == Replay(st, ws)
    }

    /** The paged loop of a pass, entered over the ceiling. */
    method EvictPages(protect: Key, excess: int, ghost pass: Sweep) returns (ok: bool, ghost skips: seq<bool>, ghost need: int)
      requires WellKeyed(pass.st.rows) && pass.cands == Candidates(pass.st.rows, protect)
      requires At(pass, 0, [], excess)
      modifies this
      ensures At(pass, |skips|, skips, need)
      ensures if ok then need <= 0 || pass.cands[|skips|..] == [] else faults > pass.faults
    {
      hide EvictWrites, Replay, FirstFit, KeysOf;
      ghost var n := 0;
      var left := excess;
      skips, need := [], excess;
      while left > 0
        invariant At(pass, n, skips, left) && need == left
        decreases |pass.cands| - n
      {
        var listed, page, _ := ListEntries(EVICTABLE, EVICT_BATCH);
        if !listed { return false, skips, need; }
        CandidatesAfter(pass.st.rows, protect, n);
        ghost var before := rows;
        if |page| == 0 {
          NothingLeft(before, protect, 0);
          break;
        }
        var worked, progress;
        ghost var m;
        worked, left, progress, m, skips := EvictPage(page, protect, left, pass, n, skips, Listing(rows, EVICTABLE));
        need := left;
        if !worked { return false, skips, need; }
        if !progress {
          NothingLeft(before, protect, |page|);
          break;
        }
        n := m;
      }
      return true, skips, need;
    }

    /** Evicts the oldest unpinned pull-through rows, a page at a time and never
        `protect`, until the pull-through bytes fit under the ceiling. */
    method EnforceCapacity(protect: Key) returns (ok: bool, ghost skips: seq<bool>)
      requires WellKeyed(rows)
      modifies this
      ensures maxBytes == old(maxBytes) && faults >= old(faults)
      ensures Evicted(old(View()), old(log), protect, skips)
      ensures ok ==> |skips| == |Victims(old(rows), protect, maxBytes)|
      ensures !ok || true in skips ==> faults > old(faults)
    {
      hide EvictWrites, Replay, FirstFit, Candidates, CachedBytes, Without, KeysOf;
      skips := [];
      ghost var pass := Sweep(View(), log, Candidates(rows, protect), VictimCount(rows, protect, maxBytes), maxBytes, faults);
      PassStart(pass, protect);
      if maxBytes <= 0 { return true, []; }
      var counted, total := CacheSizeByOrigin();
      if !counted { return false, []; }
      if total <= maxBytes { return true, []; }
      ghost var need;
      ok, skips, need := EvictPages(protect, total - maxBytes, pass);
      PassSoFar(pass, protect, |skips|, need);
    }

    // ------------------------------------------------------------------- store

    /** The store operation has made the first `cut` of its writes. */
    ghost predicate StoredUpTo(st: State, was: seq<Write>, ref: Ref, art: Artifact, verdict: Verdict,
                               now: int, skips: seq<bool>, cut: nat)
      requires WellKeyed(st.rows)
      reads this
    {
      var ws := StoreWrites(st, ref, art, verdict, now, maxBytes, skips);
      cut <= |ws| && log == was + ws[..cut] && View() == Replay(st, ws[..cut])
    }

    /** Verify, then promote blob, row and pointer in that order, then enforce the ceiling,
        whose failures do not fail the store. */
    method StoreOnce(ref: Ref, art: Artifact, verdict: Verdict, now: int)
      returns (r: StoreResult, ghost cut: nat, ghost skips: seq<bool>)
      requires WellKeyed(rows)
      modifies this
      ensures maxBytes == old(maxBytes) && faults >= old(faults)
      ensures StoredUpTo(old(View()), old(log), ref, art, verdict, now, skips, cut)
      ensures !Promotes(verdict) ==> r == (if verdict.ChainError? then StoreFailed else Rejected(verdict.status))
      ensures Promotes(verdict) ==> r == if cut < |Promotion(ref, art, now)| then StoreFailed else Stored(RowFor(ref, art, now))
      ensures Promotes(verdict) && Refuses(driver, old(View()), art) ==> cut == 0
      ensures faults == old(faults) && !(Promotes(verdict) && Refuses(driver, old(View()), art)) ==>
                cut == |StoreWrites(old(View()), ref, art, verdict, now, maxBytes, skips)| && true !in skips
    {
      hide EvictWrites, Victims, Replay;
      cut, skips := 0, [];
      ghost var st, was := View(), log;
      StoreStart(st, was, ref, art, verdict, now, maxBytes);
      if verdict.ChainError? { return StoreFailed, 0, []; }
      if verdict.status == Fail { return Rejected(Fail), 0, []; }
      var readable := OpenFile();
      if !readable { return StoreFailed, 0, []; }
      var put := BlobPut(art);
      if !put { return StoreFailed, 0, []; }
      var entry := RowFor(ref, art, now);
      put := MetaPut(entry);
      if !put { return StoreFailed, 1, []; }
      if ref.mutable {
        put := MetaPutMutable(MutableKey(ref.key), Pointer(art.digest, [], ALWAYS_REVALIDATE, now));
        if !put { return StoreFailed, 2, []; }
      }
      StorePromoted(st, was, ref, art, now);
      ghost var enforced;
      ghost var after := View();
      enforced, skips := EnforceCapacity(ref.key);
      cut := StoreSwept(st, was, ref, art, verdict, now, maxBytes, skips);
      r := Stored(entry);
    }

    /** Some work on a local file, which may fail. */
    method OpenFile() returns (ok: bool)
      modifies this`faults
      ensures faults == if ok then old(faults) else old(faults) + 1
    {
      if * { faults := faults + 1; return false; }
      return true;
    }
  }

  datatype StoreResult = Stored(entry: Row) | Rejected(status: Status) | StoreFailed

  /** The states in which a store can be cut off before its eviction pass. */
  lemma StoreStart(st: State, was: seq<Write>, ref: Ref, art: Artifact, verdict: Verdict, now: int, ceiling: int)
    requires WellKeyed(st.rows)
    ensures var ws := StoreWrites(st, ref, art, verdict, now, ceiling, []);
            && ws[..0] == [] && was + [] == was && Replay(st, []) == st
            && (!Promotes(verdict) ==> ws == [])
            && (Promotes(verdict) ==>
                  && |ws| >= |Promotion(ref, art, now)|
                  && ws[..1] == [PutBlob(art.digest, art.bytes)]
                  && ws[..2] == [PutBlob(art.digest, art.bytes), PutRow(RowFor(ref, art, now))]
                  && Replay(st, ws[..1]) == Apply(st, ws[0])
                  && Replay(st, ws[..2]) == Apply(Apply(st, ws[0]), ws[1]))
    ensures forall a, b: Write :: was + [a, b] == was + [a] + [b]
  {
    if Promotes(verdict) {
      var blob, row := PutBlob(art.digest, art.bytes), PutRow(RowFor(ref, art, now));
      OneWrite(st, blob);
      TwoWrites(st, blob, row);
    }
  }

  lemma StorePromoted(st: State, was: seq<Write>, ref: Ref, art: Artifact, now: int)
    requires WellKeyed(st.rows)
    ensures Replay(st, Promotion(ref, art, now)) ==
            var s := Apply(Apply(st, PutBlob(art.digest, art.bytes)), PutRow(RowFor(ref, art, now)));
            if ref.mutable
            then Apply(s, PutPointer(MutableKey(ref.key), Pointer(art.digest, [], ALWAYS_REVALIDATE, now))) else s
    ensures WellKeyed(Replay(st, Promotion(ref, art, now)).rows)
    ensures was + Promotion(ref, art, now) ==
            var l := was + [PutBlob(art.digest, art.bytes)] + [PutRow(RowFor(ref, art, now))];
            if ref.mutable
            then l + [PutPointer(MutableKey(ref.key), Pointer(art.digest, [], ALWAYS_REVALIDATE, now))] else l
  {
    PromotionEffect(st, ref, art, now);
  }

  /** After the eviction pass, complete or not. */
  lemma StoreSwept(st: State, was: seq<Write>, ref: Ref, art: Artifact, verdict: Verdict, now: int,
                   ceiling: int, skips: seq<bool>) returns (cut: nat)
    requires WellKeyed(st.rows) && Promotes(verdict)
    requires WellKeyed(Replay(st, Promotion(ref, art, now)).rows)
    requires |skips| <= |Victims(Replay(st, Promotion(ref, art, now)).rows, ref.key, ceiling)|
    ensures var put := Promotion(ref, art, now);
            var after := Replay(st, put);
            var victims := Victims(after.rows, ref.key, ceiling);
            var ws := StoreWrites(st, ref, art, verdict, now, ceiling, skips);
            var ev := EvictWrites(after, victims[..|skips|], skips);
            && |put| <= cut <= |ws|
            && was + ws[..cut] == was + put + ev
            && Replay(st, ws[..cut]) == Replay(after, ev)
            && (|skips| == |victims| ==> cut == |ws|)
  {
    hide EvictWrites, Victims, Replay, Promotion;
    var put := Promotion(ref, art, now);
    var after := Replay(st, put);
    var victims := Victims(after.rows, ref.key, ceiling);
    var fit := Fit(skips, |victims|);
    var ev := EvictWrites(after, victims[..|skips|], skips);
    assert fit[..|skips|] == skips;
    EvictPrefix(after, victims, fit, |skips|);
    cut := |put| + |ev|;
    assert StoreWrites(st, ref, art, verdict, now, ceiling, skips)[..cut] == put + ev;
    ReplayConcat(st, put, ev);
    if |skips| == |victims| { assert victims[..|skips|] == victims; }
  }

  /** A pass: the state and log it started from, its candidates, how many of them the
      ceiling takes, the ceiling, and the failures before it. */
  datatype Sweep = Sweep(st: State, was: seq<Write>, cands: seq<Row>, count: nat, ceiling: int, faults: nat)

  /** The pass has evicted the first `n` of its candidates and still needs `need` bytes. */
  ghost predicate Reached(pass: Sweep, view: State, log: seq<Write>, n: nat, skips: seq<bool>, need: int)
  {
    && n == |skips| && n <= |pass.cands| && WellKeyed(view.rows)
    && log == pass.was + EvictWrites(pass.st, pass.cands[..n], skips)
    && view == Replay(pass.st, EvictWrites(pass.st, pass.cands[..n], skips))
    && view.rows == pass.st.rows - KeysOf(pass.cands[..n])
    && pass.count == n + FirstFit(pass.cands[n..], need)
  }

  lemma PassStart(pass: Sweep, protect: Key)
    requires WellKeyed(pass.st.rows) && pass.cands == Candidates(pass.st.rows, protect)
    requires pass.count == VictimCount(pass.st.rows, protect, pass.ceiling)
    ensures Victims(pass.st.rows, protect, pass.ceiling)[..0] == []
    ensures EvictWrites(pass.st, [], []) == [] && Replay(pass.st, []) == pass.st
    ensures pass.was + [] == pass.was
    ensures pass.ceiling <= 0 || CachedBytes(pass.st.rows) <= pass.ceiling ==>
              |Victims(pass.st.rows, protect, pass.ceiling)| == 0
    ensures pass.ceiling > 0 ==>
              Reached(pass, pass.st, pass.was, 0, [], CachedBytes(pass.st.rows) - pass.ceiling)
  {
    assert pass.cands[0..] == pass.cands && pass.cands[..0] == [];
    assert pass.st.rows - KeysOf([]) == pass.st.rows;
  }

  /** After `n` evictions the pass has taken the first `n` victims, and all of them once
      it needs nothing or has no candidate left. */
  lemma PassSoFar(pass: Sweep, protect: Key, n: nat, need: int)
    requires WellKeyed(pass.st.rows) && pass.cands == Candidates(pass.st.rows, protect)
    requires pass.count == VictimCount(pass.st.rows, protect, pass.ceiling)
    requires n <= |pass.cands| && pass.count == n + FirstFit(pass.cands[n..], need)
    ensures n <= |Victims(pass.st.rows, protect, pass.ceiling)|
    ensures Victims(pass.st.rows, protect, pass.ceiling)[..n] == pass.cands[..n]
    ensures need <= 0 || pass.cands[n..] == [] ==> n == |Victims(pass.st.rows, protect, pass.ceiling)|
  {
  }

  lemma SortedFirst(x: Row, s: set<Row>)
    requires Keyed(s) && IsFirst(x, s)
    ensures Sorted(s) == [x] + Sorted(s - {x})
  {
    FirstUnique(x, s);
  }

  lemma SelectNamed(rows: Rows, digest: Digest)
    requires WellKeyed(rows) && digest != ""
    ensures |Listing(rows, NamedBy(digest))| == 0 <==> !Named(rows, digest)
  {
    if Named(rows, digest) {
      var k :| k in rows && rows[k].digest == digest;
      assert rows[k] in Select(rows, NamedBy(digest));
    } else {
      assert Select(rows, NamedBy(digest)) == {};
    }
  }

  /** The next row of a page that is not protected is the next candidate. */
  lemma PageStep(all: seq<Row>, protect: Key, i: nat, cands: seq<Row>, n: nat)
    requires i < |all| && n <= |cands| && Without(all, protect) == cands[n..]
    ensures all[i].key == protect ==> |Without(all[..i + 1], protect)| == |Without(all[..i], protect)|
    ensures all[i].key != protect ==>
              && |Without(all[..i + 1], protect)| == |Without(all[..i], protect)| + 1
              && n + |Without(all[..i], protect)| < |cands|
              && cands[n + |Without(all[..i], protect)|] == all[i]
  {
    assert all[..i + 1] == all[..i] + [all[i]];
    assert all == all[..i + 1] + all[i + 1..];
    WithoutConcat(all[..i], [all[i]], protect);
    WithoutConcat(all[..i + 1], all[i + 1..], protect);
    assert [all[i]][1..] == [] && Without([], protect) == [];
    if all[i].key != protect {
      assert Without(all, protect)[|Without(all[..i], protect)|] == all[i];
    }
  }

  lemma PassStep(pass: Sweep, view: State, log: seq<Write>, n: nat, skips: seq<bool>, need: int, skipped: bool)
    requires Reached(pass, view, log, n, skips, need) && n < |pass.cands| && need > 0
    ensures var ws := EvictOne(view, pass.cands[n], skipped);
            Reached(pass, Replay(view, ws), log + ws, n + 1, skips + [skipped], need - pass.cands[n].size)
    ensures true in skips + [skipped] ==> true in skips || skipped
  {
    var st, cands := pass.st, pass.cands;
    EvictOneEffect(view, cands[n], skipped);
    assert cands[..n + 1][..n] == cands[..n] && (skips + [skipped])[..n] == skips;
    assert cands[n..][1..] == cands[n + 1..];
    var ws, one := EvictWrites(st, cands[..n], skips), EvictOne(view, cands[n], skipped);
    assert EvictWrites(st, cands[..n + 1], skips + [skipped]) == ws + one;
    assert pass.was + ws + one == pass.was + (ws + one);
    ReplayConcat(st, ws, one);
    EvictRows(st, cands[..n + 1], skips + [skipped]);
  }

  /** A page that holds nothing but the protected row is the whole listing, because a
      page holds at least two rows when there are two. */
  lemma NothingLeft(rows: Rows, protect: Key, m: nat)
    requires WellKeyed(rows)
    requires var all := Listing(rows, EVICTABLE);
             m <= |all| && (m == |all| || m >= 2) && Without(all[..m], protect) == []
    ensures Candidates(rows, protect) == []
  {
    var all := Listing(rows, EVICTABLE);
    WithoutMembers(all[..m], protect);
    assert forall i :: 0 <= i < m ==> all[..m][i].key == protect;
    if m >= 2 {
      SortedMembers(Select(rows, EVICTABLE));
      assert all[0] in all && all[1] in all && all[..m][0] == all[0] && all[..m][1] == all[1];
      BeforeIrreflexive(all[0]);
      SortedIncreases(Select(rows, EVICTABLE), 0, 1);
    } else {
      assert all[..m] == all;
    }
  }
}
