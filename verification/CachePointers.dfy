/** One pointer per tag: what a store or an import of one tag does to the others, what is
    served of an inline payload, and what part of it. */
module CachePointers {
  import opened Wrappers
  import opened CacheRows
  import opened CacheSteps
  import opened CacheRuns
  import opened CacheTheorems
  import opened SoftExpiry

  // ------------------------------------------------------------------ pointer names

  /** `x:y` reads as `x'`, a colon and `y'` too, because `x'` runs into `y`. */
  ghost predicate Overlap(x: string, y: string, x': string, y': string)
  {
    exists s :: OverlapBy(x, y, x', y', s)
  }

  predicate OverlapBy(x: string, y: string, x': string, y': string, s: string)
  {
    x' == x + ":" + s && y == s + ":" + y'
  }

  lemma JoinedAlike(x: string, y: string, x': string, y': string)
    ensures x + ":" + y == x' + ":" + y' <==>
            (x == x' && y == y') || Overlap(x, y, x', y') || Overlap(x', y', x, y)
  {
    var p, q := x + ":" + y, x' + ":" + y';
    if p == q {
      if |x| == |x'| {
        assert x == p[..|x|] == q[..|x'|] == x';
        assert y == p[|x| + 1..] == q[|x'| + 1..] == y';
      } else if |x| < |x'| {
        RunsInto(x, y, x', y');
      } else {
        RunsInto(x', y', x, y);
      }
    }
    if s :| OverlapBy(x, y, x', y', s) { assert p == x + ":" + s + ":" + y'; }
    if s :| OverlapBy(x', y', x, y, s) { assert q == x' + ":" + s + ":" + y; }
  }

  lemma RunsInto(x: string, y: string, x': string, y': string)
    requires x + ":" + y == x' + ":" + y' && |x| < |x'|
    ensures Overlap(x, y, x', y')
  {
    var p := x + ":" + y;
    assert p[|x|] == ':' && x'[|x|] == p[|x|];
    var s := x'[|x| + 1..];
    assert x == p[..|x|] == x'[..|x|];
    assert x' == x + ":" + s;
    assert y == p[|x| + 1..] == s + ":" + y';
    assert OverlapBy(x, y, x', y', s);
  }

  /** Two keys share a pointer exactly when they are the same key, or a colon in one's name
      plays the part of the one before the other's version. (No protocol has a colon.) */
  lemma SamePointerExactly(a: Key, b: Key)
    requires ':' !in a.protocol && ':' !in b.protocol
    ensures MutableKey(a) == MutableKey(b) <==>
            && a.protocol == b.protocol
            && (|| a == b
                || Overlap(a.name, a.version, b.name, b.version)
                || Overlap(b.name, b.version, a.name, a.version))
  {
    var x, y := a.name + ":" + a.version, b.name + ":" + b.version;
    assert MutableKey(a) == a.protocol + ":" + x && MutableKey(b) == b.protocol + ":" + y;
    JoinedAlike(a.protocol, x, b.protocol, y);
    NoOverlap(a.protocol, x, b.protocol, y);
    NoOverlap(b.protocol, y, a.protocol, x);
    JoinedAlike(a.name, a.version, b.name, b.version);
  }

  lemma NoOverlap(x: string, y: string, x': string, y': string)
    requires ':' !in x'
    ensures !Overlap(x, y, x', y')
  {
    forall s ensures !OverlapBy(x, y, x', y', s) { assert (x + ":" + s)[|x|] == ':'; }
  }

  /** In particular tags without a colon have a pointer each. */
  lemma OnePointerPerTag(a: Key, b: Key)
    requires ':' !in a.protocol && ':' !in b.protocol && ':' !in a.version && ':' !in b.version
    ensures MutableKey(a) == MutableKey(b) <==> a == b
  {
    SamePointerExactly(a, b);
    NoColonNoOverlap(a.name, a.version, b.name, b.version);
    NoColonNoOverlap(b.name, b.version, a.name, a.version);
  }

  lemma NoColonNoOverlap(x: string, y: string, x': string, y': string)
    requires ':' !in y
    ensures !Overlap(x, y, x', y')
  {
    forall s ensures !OverlapBy(x, y, x', y', s) { assert (s + ":" + y')[|s|] == ':'; }
  }

  /** And two versions of one name always have. */
  lemma VersionsHaveTheirOwn(k: Key, v: string)
    ensures MutableKey(k) == MutableKey(k.(version := v)) <==> v == k.version
  {
    var p := k.protocol + ":" + k.name + ":";
    assert MutableKey(k) == p + k.version && MutableKey(k.(version := v)) == p + v;
    if p + k.version == p + v { assert k.version == (p + k.version)[|p|..] == (p + v)[|p|..] == v; }
  }

  // ------------------------------------------------------------------- other tags

  /** The pointer an operation is about. */
  function Moves(op: Op): Option<string>
  {
    match op
    case Store(ref, _, _, _, _, _) => if ref.mutable then Some(MutableKey(ref.key)) else None
    case ImportTag(name, _) => Some(name)
    case _ => None
  }

  lemma {:induction false} PointerKept(st: State, ws: seq<Write>, name: string)
    requires forall w :: w in ws && w.PutPointer? ==> w.name != name
    ensures name in Replay(st, ws).pointers <==> name in st.pointers
    ensures name in st.pointers ==> Replay(st, ws).pointers[name] == st.pointers[name]
    decreases |ws|
  {
    if ws != [] { PointerKept(Apply(st, ws[0]), ws[1..], name); }
  }

  lemma PointerWrites(st: State, op: Op, w: Write)
    requires WellKeyed(st.rows) && w in Writes(st, op) && w.PutPointer?
    ensures Moves(op) == Some(w.name)
  {
    hide EvictWrites, Victims, Replay, Listing;
    match op
    case Store(ref, art, verdict, now, ceiling, skips) =>
      NoPointerInPass(st, ref, art, verdict, now, ceiling, skips, w);
    case ImportObject(name, digest, body, looked, listed, verdict, now, ceiling, skips) =>
      var ref := ObjectRef(name, digest);
      if w in StoreWrites(st, ref, Artifact(body, digest, |body|), verdict, now, ceiling, skips) {
        NoPointerInPass(st, ref, Artifact(body, digest, |body|), verdict, now, ceiling, skips, w);
      }
    case _ =>
  }

  lemma NoPointerInPass(st: State, ref: Ref, art: Artifact, verdict: Verdict, now: int, ceiling: int, skips: seq<bool>, w: Write)
    requires WellKeyed(st.rows) && w in StoreWrites(st, ref, art, verdict, now, ceiling, skips) && w.PutPointer?
    ensures w in Promotion(ref, art, now)
  {
    hide EvictWrites, Victims, Replay;
    var put := Promotion(ref, art, now);
    PromotionEffect(st, ref, art, now);
    var after := Replay(st, put);
    var victims := Victims(after.rows, ref.key, ceiling);
    var fit := Fit(skips, |victims|);
    if w in EvictWrites(after, victims, fit) { EvictWritesShape(after, victims, fit, w); }
  }

  /** An operation, cut off anywhere, leaves every other tag's pointer as it is; and lookups
      of that tag, fresh or stale, answer as before unless its blob has come or gone. */
  lemma OtherTagsAnswerAsBefore(st: State, step: Step, ref: Ref, at: Moment)
    requires WellKeyed(st.rows) && ref.mutable && Moves(step.op) != Some(MutableKey(ref.key))
    ensures var end := Replay(st, Take(Writes(st, step.op), step.cut));
            var name := MutableKey(ref.key);
            && (name in end.pointers <==> name in st.pointers)
            && (name in st.pointers ==> end.pointers[name] == st.pointers[name])
            && (name !in st.pointers ==> Lookup(end, ref, at) == LookupStale(end, ref, at) == Miss)
            && (name in st.pointers && (st.pointers[name].digest in end.blobs <==> st.pointers[name].digest in st.blobs) ==>
                  Lookup(end, ref, at) == Lookup(st, ref, at) && LookupStale(end, ref, at) == LookupStale(st, ref, at))
  {
    hide Writes, Replay, HardExpired, Fresh;
    var ws := Take(Writes(st, step.op), step.cut);
    forall w | w in ws && w.PutPointer? ensures w.name != MutableKey(ref.key) {
      assert w in Writes(st, step.op);
      PointerWrites(st, step.op, w);
    }
    PointerKept(st, ws, MutableKey(ref.key));
  }

  /** So a store of one version of a name says nothing of another version. */
  lemma StoreOfOneTag(st: State, ref: Ref, art: Artifact, verdict: Verdict, now: int, ceiling: int, skips: seq<bool>,
                      cut: nat, version: string, at: Moment)
    requires WellKeyed(st.rows) && ref.mutable && version != ref.key.version
    requires MutableKey(ref.key.(version := version)) !in st.pointers
    ensures var end := Replay(st, Take(StoreWrites(st, ref, art, verdict, now, ceiling, skips), cut));
            LookupStale(end, Ref(ref.key.(version := version), "", true), at) == Miss
  {
    VersionsHaveTheirOwn(ref.key, version);
    var op := Store(ref, art, verdict, now, ceiling, skips);
    OtherTagsAnswerAsBefore(st, Step(op, cut), Ref(ref.key.(version := version), "", true), at);
  }

  // --------------------------------------------------------------- inline payloads

  /** A pointer without a digest serves the payload it carries, if it carries one, and
      bytes of the CAS never; one with a digest serves the blob and never a payload. */
  lemma WhatIsServed(st: State, entry: Entry, offset: int, length: int)
    ensures var r, name := ServeEntry(st, entry, offset, length), MutableKey(entry.ref.key);
            if entry.digest == "" then
              r == if name in st.pointers && st.pointers[name].payload != []
                   then Bytes(Slice(st.pointers[name].payload, offset, length)) else ServeMiss
            else
              r == if entry.digest in st.blobs then Bytes(Slice(st.blobs[entry.digest], offset, length)) else ServeMiss
  {
  }

  /** The requested part, byte by byte: from the offset on, no further than the length or
      the end; a negative length reads to the end. */
  lemma SliceIs(data: Bytes, offset: int, length: int)
    ensures var from := if offset < 0 then 0 else offset;
            var r := Slice(data, offset, length);
            && |r| == (if from >= |data| then 0
                       else if length < 0 || length > |data| - from then |data| - from else length)
            && forall i :: 0 <= i < |r| ==> r[i] == data[from + i]
  {
  }

  // ------------------------------------------------------------------- what is found

  /** Only FAIL and an error keep an artifact out. */
  lemma WhatIsPromoted(v: Verdict)
    ensures Promotes(v) <==> v in {Ruled(Pass), Ruled(Warn), Ruled(Skip)}
  {
  }

  /** An immutable ref is found exactly when its row is there, the row's blob is there, and
      the pin, if any, is the row's digest; what is found is that digest. */
  lemma FoundExactly(st: State, ref: Ref, at: Moment)
    requires !ref.mutable
    ensures Lookup(st, ref, at).Hit? <==>
              ref.key in st.rows && st.rows[ref.key].digest in st.blobs && ref.digest in {"", st.rows[ref.key].digest}
    ensures Lookup(st, ref, at).Hit? ==> Lookup(st, ref, at).entry == Entry(ref, st.rows[ref.key].digest, false)
    ensures Lookup(st, ref, at).PinMismatch? <==>
              ref.key in st.rows && st.rows[ref.key].digest in st.blobs && ref.digest !in {"", st.rows[ref.key].digest}
  {
  }

  /** A mutable ref is found stale exactly when its pointer is there, with its blob if it
      names one, and the pin agrees; how old it is does not matter. Lookup then differs by
      the hard expiry alone, and says whether the entry is still fresh. */
  lemma FoundByPointer(st: State, ref: Ref, at: Moment)
    requires ref.mutable
    ensures var name := MutableKey(ref.key);
            && (LookupStale(st, ref, at) == Miss <==>
                  name !in st.pointers || (st.pointers[name].digest != "" && st.pointers[name].digest !in st.blobs))
            && (LookupStale(st, ref, at) != Miss ==>
                  var p := st.pointers[name];
                  && LookupStale(st, ref, at) ==
                     (if ref.digest in {"", p.digest} then Hit(Entry(ref, p.digest, false)) else PinMismatch(ref.digest, p.digest))
                  && Lookup(st, ref, at) ==
                     (if IsHardExpired(p.fetched as real, p.ttl, at.now as real) then Miss
                      else if ref.digest !in {"", p.digest} then PinMismatch(ref.digest, p.digest)
                      else Hit(Entry(ref, p.digest, !IsFresh(p.fetched as real, p.ttl, at.now as real, at.draw, at.ln)))))
  {
    hide IsHardExpired, IsFresh;
  }

  /** What a store records: the artifact's digest and size, as pull-through content; over an
      earlier row the first creation time, the pin and a hosted origin stay. */
  lemma WhatIsRecorded(rows: Rows, ref: Ref, art: Artifact, now: int)
    ensures var r := Upsert(rows, RowFor(ref, art, now));
            && r.Keys == rows.Keys + {ref.key}
            && (forall k :: k in rows && k != ref.key ==> r[k] == rows[k])
            && r[ref.key].key == ref.key && r[ref.key].digest == art.digest && r[ref.key].size == art.size
            && (ref.key !in rows ==> !r[ref.key].pinned && r[ref.key].origin == Cached && r[ref.key].created == now)
            && (ref.key in rows ==>
                  r[ref.key].pinned == rows[ref.key].pinned && r[ref.key].origin == rows[ref.key].origin &&
                  r[ref.key].created == rows[ref.key].created)
  {
  }

  /** What the blob stores turn down: of digests they do not have yet, bytes of another size
      than announced, and, where they hash, bytes of another hash. */
  lemma WhatIsRefused(driver: Driver, st: State, art: Artifact)
    ensures art.digest in st.blobs ==> !Refuses(driver, st, art)
    ensures art.digest !in st.blobs && |art.bytes| != art.size ==> Refuses(driver, st, art)
    ensures art.digest !in st.blobs && |art.bytes| == art.size ==>
              (Refuses(driver, st, art) <==> driver.hashes && driver.sha(art.bytes) != art.digest)
  {
  }
}
