/** What callers of the cache may rely on, in every reachable state. */
module CacheTheorems {
  import opened CacheRows
  import opened CacheSteps
  import opened CacheRuns
  import opened SoftExpiry

  // -------------------------------------------------------- store then lookup

  /** `w` removes a blob or a row other than `k`. */
  predicate RemovesOther(w: Write, k: Key)
  {
    w.DeleteBlob? || (w.DeleteRow? && w.key != k)
  }

  lemma {:induction false} RowUntouched(st: State, ws: seq<Write>, k: Key)
    requires k in st.rows && forall i :: 0 <= i < |ws| ==> RemovesOther(ws[i], k)
    ensures k in Replay(st, ws).rows && Replay(st, ws).rows[k] == st.rows[k]
    ensures Replay(st, ws).pointers == st.pointers
    decreases |ws|
  {
    if ws != [] {
      assert RemovesOther(ws[0], k);
      RowUntouched(Apply(st, ws[0]), ws[1..], k);
    }
  }

  lemma PassSparesProtected(st: State, protect: Key, ceiling: int, skips: seq<bool>, m: nat)
    requires WellKeyed(st.rows) && protect in st.rows
    requires |skips| == |Victims(st.rows, protect, ceiling)|
    requires m <= |EvictWrites(st, Victims(st.rows, protect, ceiling), skips)|
    ensures var end := Replay(st, EvictWrites(st, Victims(st.rows, protect, ceiling), skips)[..m]);
            protect in end.rows && end.rows[protect] == st.rows[protect] && end.pointers == st.pointers
  {
    var victims := Victims(st.rows, protect, ceiling);
    var ws := EvictWrites(st, victims, skips);
    EvictionSpares(st.rows, protect, ceiling, protect);
    forall i | 0 <= i < m ensures RemovesOther(ws[..m][i], protect) {
      assert ws[..m][i] in ws;
      EvictWritesShape(st, victims, skips, ws[..m][i]);
    }
    RowUntouched(st, ws[..m], protect);
  }

  lemma StoredRow(st: State, ref: Ref, art: Artifact, verdict: Verdict, now: int, ceiling: int,
                  skips: seq<bool>, n: nat)
    requires Intact(st) && Promotes(verdict)
    requires |Promotion(ref, art, now)| <= n <= |StoreWrites(st, ref, art, verdict, now, ceiling, skips)|
    ensures var end := Replay(st, StoreWrites(st, ref, art, verdict, now, ceiling, skips)[..n]);
            && ref.key in end.rows && end.rows[ref.key].digest == art.digest && art.digest in end.blobs
            && (ref.mutable ==>
                  && MutableKey(ref.key) in end.pointers
                  && end.pointers[MutableKey(ref.key)] == Pointer(art.digest, [], ALWAYS_REVALIDATE, now))
  {
    hide EvictWrites, Victims, Replay, Safe;
    var put := Promotion(ref, art, now);
    var after := Replay(st, put);
    PromotionEffect(st, ref, art, now);
    var victims := Victims(after.rows, ref.key, ceiling);
    var fit := Fit(skips, |victims|);
    var ev := EvictWrites(after, victims, fit);
    var all := StoreWrites(st, ref, art, verdict, now, ceiling, skips);
    var m := n - |put|;
    assert all == put + ev;
    assert all[..n] == put + ev[..m];
    ReplayConcat(st, put, ev[..m]);
    PassSparesProtected(after, ref.key, ceiling, fit, m);
    StoreSafe(st, ref, art, verdict, now, ceiling, skips);
    SafePrefix(st, all, n);
    SafeIntact(st, all[..n]);
  }

  /** After the storeOnce that ran for `ref`, wherever its eviction pass stopped: an
      immutable ref is a hit. A mutable one was given an always-revalidate pointer, so
      Lookup misses and only LookupStale hits. */
  lemma StoreThenLookup(st: State, ref: Ref, art: Artifact, verdict: Verdict, now: int, ceiling: int,
                        skips: seq<bool>, n: nat, at: Moment)
    requires Intact(st) && Promotes(verdict) && (ref.digest == "" || ref.digest == art.digest)
    requires |Promotion(ref, art, now)| <= n <= |StoreWrites(st, ref, art, verdict, now, ceiling, skips)|
    ensures var end := Replay(st, StoreWrites(st, ref, art, verdict, now, ceiling, skips)[..n]);
            var hit := Hit(Entry(ref, art.digest, false));
            if ref.mutable then Lookup(end, ref, at) == Miss && LookupStale(end, ref, at) == hit
            else Lookup(end, ref, at) == hit
  {
    StoredRow(st, ref, art, verdict, now, ceiling, skips, n);
  }

  // ------------------------------------------------------------- stale lookups

  /** At the same instant and state, whatever Lookup answers for a mutable ref,
      LookupStale answers too, up to the SoftExpired flag; and a hit that Lookup
      reports not soft-expired is one that XFetch calls fresh. */
  lemma StaleCoversLookup(st: State, ref: Ref, at: Moment)
    requires ref.mutable && LogLike(at.ln)
    ensures var fast, stale := Lookup(st, ref, at), LookupStale(st, ref, at);
            && (fast.PinMismatch? ==> stale == fast)
            && (fast.Hit? ==> stale == Hit(fast.entry.(softExpired := false)))
            && (stale == Miss ==> fast == Miss)
            && (fast == Miss && stale != Miss <==>
                  stale != Miss && HardExpired(st.pointers[MutableKey(ref.key)], at))
            && (fast.Hit? && !fast.entry.softExpired <==>
                  stale.Hit? && Fresh(st.pointers[MutableKey(ref.key)], at))
  {
    if MutableKey(ref.key) in st.pointers {
      var p := st.pointers[MutableKey(ref.key)];
      ExpiryIsFinal(p.fetched as real, p.ttl, at.now as real, at.now as real, at.draw, at.draw, at.ln);
    }
  }

  // -------------------------------------------------------------- dangling rows

  /** In ANY state, intact or not, a lookup never hands out an entry whose blob is gone,
      and an entry whose blob has gone since is served as a miss. */
  lemma DanglingIsMiss(st: State, ref: Ref, at: Moment, entry: Entry, offset: int, length: int)
    ensures Lookup(st, ref, at).Hit? && Lookup(st, ref, at).entry.digest != "" ==>
              Lookup(st, ref, at).entry.digest in st.blobs
    ensures !ref.mutable && ref.key in st.rows && st.rows[ref.key].digest !in st.blobs ==>
              Lookup(st, ref, at) == Miss
    ensures entry.digest != "" ==>
              (ServeEntry(st, entry, offset, length).Bytes? <==> entry.digest in st.blobs)
  {
  }

  /** Sub-step interleaving: another Store's eviction pass runs between this Store's blob
      put and its row put. Integrity survives exactly when the pass did not evict the
      digest, or some row other than the new one still names it. */
  lemma InterleavedStore(st: State, ref: Ref, art: Artifact, now: int, victims: seq<Row>, skips: seq<bool>)
    requires Intact(st) && |skips| == |victims| && true !in skips && Present(st.rows, victims)
    requires art.digest != ""
    ensures var mid := Apply(st, PutBlob(art.digest, art.bytes));
            var swept := Replay(mid, EvictWrites(mid, victims, skips));
            var end := Apply(swept, PutRow(RowFor(ref, art, now)));
            && (Intact(end) <==>
                  art.digest !in DigestsOf(victims) || Named(st.rows - KeysOf(victims), art.digest))
            && (!Intact(end) ==> forall at :: Lookup(end, Ref(ref.key, "", false), at) == Miss)
  {
    var mid := Apply(st, PutBlob(art.digest, art.bytes));
    var ws := EvictWrites(mid, victims, skips);
    var swept := Replay(mid, ws);
    assert Intact(mid);
    EvictRows(mid, victims, skips);
    EvictSafe(mid, victims, skips);
    SafeIntact(mid, ws);
    EvictBlob(mid, victims, skips, art.digest);
    var end := Apply(swept, PutRow(RowFor(ref, art, now)));
    assert end.rows[ref.key].digest == art.digest;
    if art.digest in swept.blobs {
      SafeStepIntact(swept, PutRow(RowFor(ref, art, now)));
    }
  }

  /** The other race: a pass has deleted a row, counted no other row that names its digest,
      and is about to delete the blob; a whole Store comes in between (its own pass waits
      for this one). Its blob put finds the digest stored and does nothing, so the row it
      puts is stranded exactly when it is for that digest; fresh or stale, it is then a
      miss. */
  lemma RacingStore(st: State, victim: Row, ref: Ref, art: Artifact, now: int)
    requires Intact(st) && victim.key in st.rows && st.rows[victim.key] == victim && victim.digest != ""
    requires !Named(Apply(st, DeleteRow(victim.key)).rows, victim.digest)
    ensures var gone := Apply(st, DeleteRow(victim.key));
            var stored := Replay(gone, Promotion(ref, art, now));
            var end := Apply(stored, DeleteBlob(victim.digest));
            && (art.digest == victim.digest ==> stored.blobs == st.blobs)
            && (Intact(end) <==> art.digest != victim.digest)
            && (!Intact(end) ==> forall at, pin ::
                  && Lookup(end, Ref(ref.key, pin, false), at) == Miss
                  && (ref.mutable ==> LookupStale(end, Ref(ref.key, pin, true), at) == Miss))
  {
    var gone := Apply(st, DeleteRow(victim.key));
    var stored := Replay(gone, Promotion(ref, art, now));
    var end := Apply(stored, DeleteBlob(victim.digest));
    PromotionEffect(gone, ref, art, now);
    assert Intact(gone);
    SafeIntact(gone, Promotion(ref, art, now));
    assert end.rows[ref.key].digest == art.digest;
    if art.digest != victim.digest {
      forall k | k in end.rows ensures end.rows[k].digest != victim.digest { assert k != ref.key ==> k in gone.rows; }
    }
  }

  // ------------------------------------------------------------- authenticity

  /** `op` puts `bytes` under `d` after a verification that did not fail. */
  predicate Vouches(op: Op, d: Digest, bytes: Bytes)
  {
    (op.Store? && Promotes(op.verdict) && op.art.digest == d && op.art.bytes == bytes) ||
    (op.ImportObject? && Promotes(op.verdict) && op.digest == d && op.body == bytes)
  }

  lemma {:induction false} BlobComesFrom(st: State, ws: seq<Write>, d: Digest)
    requires d in Replay(st, ws).blobs
    ensures (d in st.blobs && st.blobs[d] == Replay(st, ws).blobs[d]) ||
            PutBlob(d, Replay(st, ws).blobs[d]) in ws
    decreases |ws|
  {
    if ws != [] { BlobComesFrom(Apply(st, ws[0]), ws[1..], d); }
  }

  lemma StorePuts(st: State, ref: Ref, art: Artifact, verdict: Verdict, now: int, ceiling: int,
                  skips: seq<bool>, w: Write)
    requires WellKeyed(st.rows) && w.PutBlob?
    requires w in StoreWrites(st, ref, art, verdict, now, ceiling, skips)
    ensures Promotes(verdict) && w == PutBlob(art.digest, art.bytes)
  {
    hide EvictWrites, Victims, Replay;
    var put := Promotion(ref, art, now);
    PromotionEffect(st, ref, art, now);
    var after := Replay(st, put);
    var victims := Victims(after.rows, ref.key, ceiling);
    var fit := Fit(skips, |victims|);
    if w in EvictWrites(after, victims, fit) { EvictWritesShape(after, victims, fit, w); }
    assert w in put;
  }

  lemma WritesVouched(st: State, op: Op, w: Write)
    requires WellKeyed(st.rows) && w.PutBlob? && w in Writes(st, op)
    ensures Vouches(op, w.digest, w.bytes)
  {
    match op
    case Store(ref, art, verdict, now, ceiling, skips) =>
      StorePuts(st, ref, art, verdict, now, ceiling, skips, w);
    case ImportObject(name, digest, body, looked, listed, verdict, now, ceiling, skips) =>
      StorePuts(st, ObjectRef(name, digest), Artifact(body, digest, |body|), verdict, now, ceiling, skips, w);
    case _ =>
  }

  ghost predicate VouchedIn(run: seq<Step>, d: Digest, bytes: Bytes)
  {
    exists i :: 0 <= i < |run| && Vouches(run[i].op, d, bytes)
  }

  /** Every CAS blob of a reachable state was there at the start or was put by an
      operation of the run whose verification passed on exactly those bytes. */
  lemma {:induction false} BlobsAreVouched(st: State, run: seq<Step>, end: State, d: Digest)
    requires RunFrom(st, run, end) && d in end.blobs
    ensures (d in st.blobs && st.blobs[d] == end.blobs[d]) || VouchedIn(run, d, end.blobs[d])
    decreases |run|
  {
    if run != [] {
      var ws := Take(Writes(st, run[0].op), run[0].cut);
      var mid := Replay(st, ws);
      BlobsAreVouched(mid, run[1..], end, d);
      if VouchedIn(run[1..], d, end.blobs[d]) {
        var i :| 0 <= i < |run| - 1 && Vouches(run[1..][i].op, d, end.blobs[d]);
        assert Vouches(run[i + 1].op, d, end.blobs[d]);
      } else {
        BlobComesFrom(st, ws, d);
        if PutBlob(d, mid.blobs[d]) in ws {
          WritesVouched(st, run[0].op, PutBlob(d, mid.blobs[d]));
          assert Vouches(run[0].op, d, end.blobs[d]);
        }
      }
    }
  }

  // ------------------------------------------------------------- rows with bytes

  /** A row whose blob is there keeps both through safe removals of other rows. */
  lemma {:induction false} BackedRowKept(st: State, ws: seq<Write>, k: Key)
    requires k in st.rows && st.rows[k].digest in st.blobs
    requires Safe(st, ws) && forall i :: 0 <= i < |ws| ==> RemovesOther(ws[i], k)
    ensures var end := Replay(st, ws);
            k in end.rows && end.rows[k] == st.rows[k] && end.rows[k].digest in end.blobs
    decreases |ws|
  {
    if ws != [] {
      assert RemovesOther(ws[0], k);
      BackedRowKept(Apply(st, ws[0]), ws[1..], k);
    }
  }

  lemma {:induction false} ReplayWellKeyed(st: State, ws: seq<Write>)
    requires WellKeyed(st.rows)
    ensures WellKeyed(Replay(st, ws).rows)
    decreases |ws|
  {
    if ws != [] { ReplayWellKeyed(Apply(st, ws[0]), ws[1..]); }
  }

  lemma UpsertNames(rows: Rows, row: Row)
    ensures row.key in Upsert(rows, row) && Upsert(rows, row)[row.key].digest == row.digest
  {
  }
}
