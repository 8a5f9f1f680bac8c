/** The cache's operations as write sequences, its lookups, and what holds in every
    state a run can reach when each operation may be cut off after any write. */
module CacheRuns {
  import opened Wrappers
  import opened CacheRows
  import opened CacheSteps
  import opened SoftExpiry

  /** artifact.ArtifactRef: `digest` is the caller's optional pin, not part of the key. */
  datatype Ref = Ref(key: Key, digest: Digest, mutable: bool)

  /** A quarantined artifact: the file's bytes, and what was recorded while streaming. */
  datatype Artifact = Artifact(bytes: Bytes, digest: Digest, size: nat)

  datatype Status = Pass | Warn | Fail | Skip

  /** What the verification chain answered. */
  datatype Verdict = ChainError | Ruled(status: Status)

  predicate Promotes(v: Verdict) { v.Ruled? && v.status != Fail }

  function MutableKey(k: Key): string
  {
    k.protocol + ":" + k.name + ":" + k.version
  }

  // --------------------------------------------------------------- lookups

  datatype Entry = Entry(ref: Ref, digest: Digest, softExpired: bool)

  datatype LookupResult =
    | Miss
    | Hit(entry: Entry)
    | PinMismatch(want: Digest, got: Digest)

  function CheckPin(ref: Ref, entry: Entry): LookupResult
  {
    if ref.digest == "" || ref.digest == entry.digest then Hit(entry)
    else PinMismatch(ref.digest, entry.digest)
  }

  function LookupImmutable(st: State, ref: Ref): LookupResult
  {
    if ref.key !in st.rows then Miss
    else if st.rows[ref.key].digest !in st.blobs then Miss
    else CheckPin(ref, Entry(ref, st.rows[ref.key].digest, false))
  }

  /** The instant and the random draw of one request. */
  datatype Moment = Moment(now: int, draw: real, ln: Log)

  predicate HardExpired(p: Pointer, at: Moment)
  {
    IsHardExpired(p.fetched as real, p.ttl, at.now as real)
  }

  predicate Fresh(p: Pointer, at: Moment)
  {
    IsFresh(p.fetched as real, p.ttl, at.now as real, at.draw, at.ln)
  }

  function LookupMutable(st: State, ref: Ref, allowStale: bool, at: Moment): LookupResult
  {
    var name := MutableKey(ref.key);
    if name !in st.pointers then Miss
    else
      var p := st.pointers[name];
      if !allowStale && HardExpired(p, at) then Miss
      else if p.digest != "" && p.digest !in st.blobs then Miss
      else CheckPin(ref, Entry(ref, p.digest, !allowStale && !Fresh(p, at)))
  }

  function Lookup(st: State, ref: Ref, at: Moment): LookupResult
  {
    if ref.mutable then LookupMutable(st, ref, false, at) else LookupImmutable(st, ref)
  }

  function LookupStale(st: State, ref: Ref, at: Moment): LookupResult
  {
    LookupMutable(st, ref, true, at)
  }

  datatype Served = ServeMiss | Bytes(bytes: Bytes)

  /** Bytes [offset, offset+length) of `data`, clamped the way serveMutablePayload does;
      a negative length reads to the end. */
  function Slice(data: Bytes, offset: int, length: int): Bytes
  {
    var from := if offset < 0 then 0 else if offset > |data| then |data| else offset;
    var tail := data[from..];
    if 0 <= length < |tail| then tail[..length] else tail
  }

  function ServeEntry(st: State, entry: Entry, offset: int, length: int): Served
  {
    if entry.digest == "" then
      var name := MutableKey(entry.ref.key);
      if name !in st.pointers || st.pointers[name].payload == [] then ServeMiss
      else Bytes(Slice(st.pointers[name].payload, offset, length))
    else if entry.digest !in st.blobs then ServeMiss
    else Bytes(Slice(st.blobs[entry.digest], offset, length))
  }

  // ------------------------------------------------------------ operations

  function RowFor(ref: Ref, art: Artifact, now: int): Row
  {
    Row(ref.key, art.digest, art.size, false, Cached, now)
  }

  /** Blob first, metadata after, then the tag pointer. */
  function Promotion(ref: Ref, art: Artifact, now: int): seq<Write>
  {
    [PutBlob(art.digest, art.bytes), PutRow(RowFor(ref, art, now))] +
    if ref.mutable
    then [PutPointer(MutableKey(ref.key), Pointer(art.digest, [], ALWAYS_REVALIDATE, now))]
    else []
  }

  /** A blob store. Both drivers compare the size of what they are given; the local one also
      hashes it, the S3 one does not. */
  datatype Driver = Driver(hashes: bool, sha: Hash)

  /** Put returns an error, having stored nothing. A digest that is already stored is not
      looked at again. */
  predicate Refuses(driver: Driver, st: State, art: Artifact)
  {
    art.digest !in st.blobs &&
    (|art.bytes| != art.size || (driver.hashes && driver.sha(art.bytes) != art.digest))
  }

  datatype Op =
    | Store(ref: Ref, art: Artifact, verdict: Verdict, now: int, ceiling: int, skips: seq<bool>)
    | ImportObject(name: string, digest: Digest, body: Bytes, looked: bool, listed: bool,
                   verdict: Verdict, now: int, ceiling: int, skips: seq<bool>)
    | ImportTag(name: string, pointer: Pointer)
    | AdminDelete(key: Key)
    | AdminPin(key: Key, on: bool)

  /** As many best-effort failures as there are victims, padded with "no failure". */
  function Fit(skips: seq<bool>, n: nat): (r: seq<bool>)
    ensures |r| == n
    ensures |skips| == n ==> r == skips
  {
    seq(n, i requires 0 <= i => i < |skips| && skips[i])
  }

  ghost function StoreWrites(st: State, ref: Ref, art: Artifact, verdict: Verdict, now: int,
                             ceiling: int, skips: seq<bool>): seq<Write>
    requires WellKeyed(st.rows)
  {
    if !Promotes(verdict) then [] else
      var put := Promotion(ref, art, now);
      var after := Replay(st, put);
      PromotionEffect(st, ref, art, now);
      var victims := Victims(after.rows, ref.key, ceiling);
      put + EvictWrites(after, victims, Fit(skips, |victims|))
  }

  function ObjectRef(name: string, digest: Digest): Ref
  {
    Ref(Key("oci", name, digest), digest, false)
  }

  const ANY_NAME: Digest -> Filter := (d: Digest) => Filter("oci", None, Some(Cached), d)

  /** writeObject: nothing on a hit, one adopted row when a pull-through oci row already
      names the digest, a Store otherwise. A lookup or a listing that failed finds
      nothing. */
  ghost function ObjectWrites(st: State, name: string, digest: Digest, body: Bytes, looked: bool, listed: bool,
                              verdict: Verdict, now: int, ceiling: int, skips: seq<bool>): seq<Write>
    requires WellKeyed(st.rows)
  {
    var ref := ObjectRef(name, digest);
    var same := Listing(st.rows, ANY_NAME(digest));
    if looked && LookupImmutable(st, ref).Hit? then []
    else if listed && same != [] then [PutRow(same[0].(key := ref.key, origin := Cached))]
    else StoreWrites(st, ref, Artifact(body, digest, |body|), verdict, now, ceiling, skips)
  }

  ghost function Writes(st: State, op: Op): seq<Write>
    requires WellKeyed(st.rows)
  {
    match op
    case Store(ref, art, verdict, now, ceiling, skips) =>
      StoreWrites(st, ref, art, verdict, now, ceiling, skips)
    case ImportObject(name, digest, body, looked, listed, verdict, now, ceiling, skips) =>
      ObjectWrites(st, name, digest, body, looked, listed, verdict, now, ceiling, skips)
    case ImportTag(name, p) => [PutPointer(name, p)]
    case AdminDelete(key) => [DeleteRow(key)]
    case AdminPin(key, on) => [SetPinned(key, on)]
  }

  /** The artifact an operation offers to the blob store, if it gets that far. */
  ghost function Offered(st: State, op: Op): Option<Artifact>
    requires WellKeyed(st.rows)
  {
    match op
    case Store(_, art, verdict, _, _, _) => if Promotes(verdict) then Some(art) else None
    case ImportObject(name, digest, body, looked, listed, verdict, _, _, _) =>
      if (looked && LookupImmutable(st, ObjectRef(name, digest)).Hit?) ||
         (listed && Listing(st.rows, ANY_NAME(digest)) != []) || !Promotes(verdict)
      then None else Some(Artifact(body, digest, |body|))
    case _ => None
  }

  lemma PromotionEffect(st: State, ref: Ref, art: Artifact, now: int)
    ensures var after := Replay(st, Promotion(ref, art, now));
            && Safe(st, Promotion(ref, art, now))
            && after.rows == Upsert(st.rows, RowFor(ref, art, now))
            && after.blobs == (if art.digest in st.blobs then st.blobs else st.blobs[art.digest := art.bytes])
            && after.pointers == (if ref.mutable
                 then st.pointers[MutableKey(ref.key) := Pointer(art.digest, [], ALWAYS_REVALIDATE, now)]
                 else st.pointers)
            && (WellKeyed(st.rows) ==> WellKeyed(after.rows))
  {
    var blob, row := PutBlob(art.digest, art.bytes), PutRow(RowFor(ref, art, now));
    var s2 := Apply(Apply(st, blob), row);
    TwoWrites(st, blob, row);
    if ref.mutable {
      var ptr := PutPointer(MutableKey(ref.key), Pointer(art.digest, [], ALWAYS_REVALIDATE, now));
      OneWrite(s2, ptr);
      ReplayConcat(st, [blob, row], [ptr]);
      SafeConcat(st, [blob, row], [ptr]);
    } else {
      assert Promotion(ref, art, now) == [blob, row];
    }
  }

  lemma OneWrite(st: State, w: Write)
    ensures Replay(st, [w]) == Apply(st, w)
    ensures SafeAt(st, w) ==> Safe(st, [w])
  {
    assert [w][1..] == [];
    assert Replay(st, [w]) == Replay(Apply(st, w), []);
  }

  lemma TwoWrites(st: State, v: Write, w: Write)
    ensures Replay(st, [v, w]) == Apply(Apply(st, v), w)
    ensures SafeAt(st, v) && SafeAt(Apply(st, v), w) ==> Safe(st, [v, w])
  {
    OneWrite(Apply(st, v), w);
    assert [v, w][1..] == [w];
    assert Replay(st, [v, w]) == Replay(Apply(st, v), [w]);
  }

  lemma StoreSafe(st: State, ref: Ref, art: Artifact, verdict: Verdict, now: int, ceiling: int, skips: seq<bool>)
    requires WellKeyed(st.rows)
    ensures Safe(st, StoreWrites(st, ref, art, verdict, now, ceiling, skips))
  {
    if Promotes(verdict) {
      var put := Promotion(ref, art, now);
      PromotionEffect(st, ref, art, now);
      var after := Replay(st, put);
      var victims := Victims(after.rows, ref.key, ceiling);
      EvictSafe(after, victims, Fit(skips, |victims|));
      SafeConcat(st, put, EvictWrites(after, victims, Fit(skips, |victims|)));
    }
  }

  lemma ListingMember(rows: Rows, f: Filter)
    requires WellKeyed(rows) && Listing(rows, f) != []
    ensures var r := Listing(rows, f)[0]; r.key in rows && rows[r.key] == r && Matches(f, r)
  {
    SortedMembers(Select(rows, f));
    assert Listing(rows, f)[0] in Select(rows, f);
  }

  /** Adopting a row is safe because the adopted row is itself backed by a blob. */
  lemma WritesSafe(st: State, op: Op)
    requires Intact(st)
    ensures Safe(st, Writes(st, op))
  {
    match op
    case Store(ref, art, verdict, now, ceiling, skips) =>
      StoreSafe(st, ref, art, verdict, now, ceiling, skips);
    case ImportObject(name, digest, body, looked, listed, verdict, now, ceiling, skips) =>
      var ref := ObjectRef(name, digest);
      if !(looked && LookupImmutable(st, ref).Hit?) {
        if listed && Listing(st.rows, ANY_NAME(digest)) != [] {
          ListingMember(st.rows, ANY_NAME(digest));
        } else {
          StoreSafe(st, ref, Artifact(body, digest, |body|), verdict, now, ceiling, skips);
        }
      }
    case _ =>
  }

  // ------------------------------------------------------------------ runs

  /** An operation and the number of its writes that were made before it returned,
      failed, or the process stopped. */
  datatype Step = Step(op: Op, cut: nat)

  function Take(ws: seq<Write>, n: nat): seq<Write>
  {
    if n <= |ws| then ws[..n] else ws
  }

  ghost predicate RunFrom(st: State, run: seq<Step>, end: State)
    decreases |run|
  {
    if run == [] then end == st
    else WellKeyed(st.rows) && RunFrom(Replay(st, Take(Writes(st, run[0].op), run[0].cut)), run[1..], end)
  }

  /** Rows imply blobs in every state reachable by operations that do not interleave,
      each cut off after any number of its writes. */
  lemma {:induction false} ReachableIntact(st: State, run: seq<Step>, end: State)
    requires Intact(st) && RunFrom(st, run, end)
    ensures Intact(end)
    decreases |run|
  {
    if run != [] {
      var ws := Writes(st, run[0].op);
      WritesSafe(st, run[0].op);
      if run[0].cut <= |ws| { SafePrefix(st, ws, run[0].cut); }
      SafeIntact(st, Take(ws, run[0].cut));
      ReachableIntact(Replay(st, Take(ws, run[0].cut)), run[1..], end);
    }
  }

  // --------------------------------- rows that are not evicted stay, with bytes

  /** `w` neither deletes nor unpins `k`. */
  predicate Keeps(w: Write, k: Key)
  {
    w != DeleteRow(k) && w != SetPinned(k, false)
  }

  ghost predicate AllKeep(ws: seq<Write>, k: Key)
  {
    forall i :: 0 <= i < |ws| ==> Keeps(ws[i], k)
  }

  /** Exempt from eviction. */
  predicate Exempt(rows: Rows, k: Key)
  {
    k in rows && (rows[k].pinned || rows[k].origin == Hosted)
  }

  lemma {:induction false} KeptByReplay(st: State, ws: seq<Write>, k: Key)
    requires AllKeep(ws, k)
    ensures k in st.rows ==> k in Replay(st, ws).rows
    ensures Exempt(st.rows, k) ==> Exempt(Replay(st, ws).rows, k)
    decreases |ws|
  {
    if ws != [] {
      assert Keeps(ws[0], k);
      KeptByReplay(Apply(st, ws[0]), ws[1..], k);
    }
  }

  lemma {:induction false} EvictWritesShape(st: State, victims: seq<Row>, skips: seq<bool>, w: Write)
    requires |skips| == |victims| && w in EvictWrites(st, victims, skips)
    ensures w.DeleteBlob? || (w.DeleteRow? && w.key in KeysOf(victims))
    decreases |victims|
  {
    var n := |victims| - 1;
    var ws := EvictWrites(st, victims[..n], skips[..n]);
    if w in ws {
      EvictWritesShape(st, victims[..n], skips[..n], w);
      assert w.DeleteRow? ==> exists v :: v in victims[..n] && v.key == w.key;
    } else {
      assert w in EvictOne(Replay(st, ws), victims[n], skips[n]);
    }
  }

  lemma EvictKeeps(st: State, protect: Key, ceiling: int, skips: seq<bool>, k: Key)
    requires WellKeyed(st.rows) && k in st.rows && (k == protect || Exempt(st.rows, k))
    requires |skips| == |Victims(st.rows, protect, ceiling)|
    ensures AllKeep(EvictWrites(st, Victims(st.rows, protect, ceiling), skips), k)
  {
    var victims := Victims(st.rows, protect, ceiling);
    EvictionSpares(st.rows, protect, ceiling, k);
    forall i | 0 <= i < |EvictWrites(st, victims, skips)|
      ensures Keeps(EvictWrites(st, victims, skips)[i], k)
    {
      EvictWritesShape(st, victims, skips, EvictWrites(st, victims, skips)[i]);
    }
  }

  lemma KeepConcat(a: seq<Write>, b: seq<Write>, k: Key)
    requires AllKeep(a, k) && AllKeep(b, k)
    ensures AllKeep(a + b, k)
  {
    forall i | 0 <= i < |a + b| ensures Keeps((a + b)[i], k) {
      assert (a + b)[i] == if i < |a| then a[i] else b[i - |a|];
    }
  }

  lemma PromotionKeeps(st: State, ref: Ref, art: Artifact, now: int, k: Key)
    requires WellKeyed(st.rows) && (k == ref.key || Exempt(st.rows, k))
    ensures var after := Replay(st, Promotion(ref, art, now));
            && WellKeyed(after.rows) && k in after.rows
            && (k == ref.key || Exempt(after.rows, k))
    ensures AllKeep(Promotion(ref, art, now), k)
  {
    PromotionEffect(st, ref, art, now);
  }

  lemma StoreKeeps(st: State, ref: Ref, art: Artifact, verdict: Verdict, now: int, ceiling: int,
                   skips: seq<bool>, k: Key)
    requires WellKeyed(st.rows) && (k == ref.key || Exempt(st.rows, k))
    ensures AllKeep(StoreWrites(st, ref, art, verdict, now, ceiling, skips), k)
  {
    if Promotes(verdict) {
      PromotionKeeps(st, ref, art, now, k);
      var after := Replay(st, Promotion(ref, art, now));
      var victims := Victims(after.rows, ref.key, ceiling);
      EvictKeeps(after, ref.key, ceiling, Fit(skips, |victims|), k);
      KeepConcat(Promotion(ref, art, now), EvictWrites(after, victims, Fit(skips, |victims|)), k);
    }
  }

  /** The operator asked for `k` to go, or to lose its pin. */
  predicate Asks(op: Op, k: Key)
  {
    op == AdminDelete(k) || op == AdminPin(k, false)
  }

  lemma WritesKeep(st: State, op: Op, k: Key)
    requires WellKeyed(st.rows) && Exempt(st.rows, k) && !Asks(op, k)
    ensures AllKeep(Writes(st, op), k)
  {
    match op
    case Store(ref, art, verdict, now, ceiling, skips) =>
      StoreKeeps(st, ref, art, verdict, now, ceiling, skips, k);
    case ImportObject(name, digest, body, looked, listed, verdict, now, ceiling, skips) =>
      var ref := ObjectRef(name, digest);
      StoreKeeps(st, ref, Artifact(body, digest, |body|), verdict, now, ceiling, skips, k);
    case _ =>
  }

  /** A pinned or hosted row is never removed, and never loses its bytes, in any run in
      which the operator does not delete or unpin it. */
  lemma {:induction false} ExemptRowSurvives(st: State, run: seq<Step>, end: State, k: Key)
    requires Intact(st) && RunFrom(st, run, end) && Exempt(st.rows, k)
    requires forall i :: 0 <= i < |run| ==> !Asks(run[i].op, k)
    ensures Exempt(end.rows, k) && end.rows[k].digest in end.blobs
    decreases |run|
  {
    ReachableIntact(st, run, end);
    if run != [] {
      var ws := Writes(st, run[0].op);
      WritesKeep(st, run[0].op, k);
      KeptByReplay(st, Take(ws, run[0].cut), k);
      ReachableIntact(st, run[..1], Replay(st, Take(ws, run[0].cut)));
      ExemptRowSurvives(Replay(st, Take(ws, run[0].cut)), run[1..], end, k);
    }
  }
}
