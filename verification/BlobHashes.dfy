/** Whether every CAS blob hashes to its key. A driver that hashes what it stores sees to
    it by itself; with one that does not, it is up to what the operations offer. */
module BlobHashes {
  import opened Wrappers
  import opened CacheRows
  import opened CacheSteps
  import opened CacheRuns
  import opened CacheTheorems
  import Q = Quarantine

  ghost predicate HashKeyed(st: State, sha: Hash)
  {
    forall d :: d in st.blobs ==> sha(st.blobs[d]) == d
  }

  function After(st: State, ws: seq<Write>, cut: nat): State
  {
    Replay(st, Take(ws, cut))
  }

  /** The step stores bytes that do not hash to the digest it files them under. */
  ghost predicate Corrupts(st: State, step: Step, sha: Hash)
    requires WellKeyed(st.rows)
  {
    var offered := Offered(st, step.op);
    && step.cut > 0 && offered.Some?
    && offered.value.digest !in st.blobs && sha(offered.value.bytes) != offered.value.digest
  }

  // ------------------------------------------------------------------ one step

  /** Once its first write is made, a store's blob stays to its end: its row is protected
      from its own eviction pass. */
  lemma PutStays(st: State, ref: Ref, art: Artifact, verdict: Verdict, now: int, ceiling: int,
                 skips: seq<bool>, n: nat)
    requires WellKeyed(st.rows) && Promotes(verdict)
    requires 1 <= n <= |StoreWrites(st, ref, art, verdict, now, ceiling, skips)|
    ensures art.digest in Replay(st, StoreWrites(st, ref, art, verdict, now, ceiling, skips)[..n]).blobs
  {
    hide EvictWrites, Victims, Replay, Safe, Upsert;
    var put := Promotion(ref, art, now);
    PromotionEffect(st, ref, art, now);
    var after := Replay(st, put);
    var victims := Victims(after.rows, ref.key, ceiling);
    var fit := Fit(skips, |victims|);
    var ev := EvictWrites(after, victims, fit);
    var ws := StoreWrites(st, ref, art, verdict, now, ceiling, skips);
    assert ws == put + ev;
    if n < |put| {
      PutEarly(st, ref, art, now, n);
      assert ws[..n] == put[..n];
    } else {
      var m := n - |put|;
      assert ws[..n] == put + ev[..m];
      ReplayConcat(st, put, ev[..m]);
      UpsertNames(st.rows, RowFor(ref, art, now));
      EvictSafe(after, victims, fit);
      SafePrefix(after, ev, m);
      EvictionSpares(after.rows, ref.key, ceiling, ref.key);
      forall i | 0 <= i < m ensures RemovesOther(ev[..m][i], ref.key) {
        assert ev[..m][i] in ev;
        EvictWritesShape(after, victims, fit, ev[..m][i]);
      }
      BackedRowKept(after, ev[..m], ref.key);
    }
  }

  lemma PutEarly(st: State, ref: Ref, art: Artifact, now: int, n: nat)
    requires 1 <= n < |Promotion(ref, art, now)|
    ensures art.digest in Replay(st, Promotion(ref, art, now)[..n]).blobs
  {
    var blob, row := PutBlob(art.digest, art.bytes), PutRow(RowFor(ref, art, now));
    OneWrite(st, blob);
    TwoWrites(st, blob, row);
    assert Promotion(ref, art, now)[..1] == [blob] && Promotion(ref, art, now)[..2] == [blob, row];
  }

  /** An operation that offers an artifact is the store of it. */
  lemma OfferedIsStored(st: State, op: Op) returns (ref: Ref, verdict: Verdict, now: int, ceiling: int, skips: seq<bool>)
    requires WellKeyed(st.rows) && Offered(st, op).Some?
    ensures Promotes(verdict) && Writes(st, op) == StoreWrites(st, ref, Offered(st, op).value, verdict, now, ceiling, skips)
  {
    hide StoreWrites, Listing;
    match op
    case Store(r, _, v, n, c, s) => return r, v, n, c, s;
    case ImportObject(name, digest, _, _, _, v, n, c, s) => return ObjectRef(name, digest), v, n, c, s;
  }

  /** The only blob an operation puts is the one it offers. */
  lemma OnlyOfferedIsPut(st: State, op: Op, w: Write)
    requires WellKeyed(st.rows) && w in Writes(st, op) && w.PutBlob?
    ensures Offered(st, op).Some? && w == PutBlob(Offered(st, op).value.digest, Offered(st, op).value.bytes)
  {
    hide StoreWrites, Listing;
    WritesVouched(st, op, w);
  }

  /** A step keeps every blob under its hash exactly when it does not store bytes under a
      digest that is not theirs. */
  lemma StepKeepsHashKeyed(st: State, step: Step, sha: Hash)
    requires WellKeyed(st.rows) && HashKeyed(st, sha)
    ensures HashKeyed(After(st, Writes(st, step.op), step.cut), sha) <==> !Corrupts(st, step, sha)
  {
    hide Writes, Replay, StoreWrites, Offered, Promotes;
    var all := Writes(st, step.op);
    var ws := Take(all, step.cut);
    var end := Replay(st, ws);
    if Corrupts(st, step, sha) {
      var art := Offered(st, step.op).value;
      var ref, verdict, now, ceiling, skips := OfferedIsStored(st, step.op);
      StoreIsNotEmpty(st, ref, art, verdict, now, ceiling, skips);
      assert ws == all[..|ws|];
      PutStays(st, ref, art, verdict, now, ceiling, skips, |ws|);
      BlobComesFrom(st, ws, art.digest);
      OnlyOfferedIsPut(st, step.op, PutBlob(art.digest, end.blobs[art.digest]));
      assert end.blobs[art.digest] == art.bytes;
    } else {
      forall d | d in end.blobs ensures sha(end.blobs[d]) == d {
        BlobComesFrom(st, ws, d);
        if d in st.blobs {
          StoredBlobKept(st, step, d);
        } else {
          var w := PutBlob(d, end.blobs[d]);
          assert w in ws && |ws| <= step.cut && w in all;
          OnlyOfferedIsPut(st, step.op, w);
        }
      }
    }
  }

  /** A blob goes first or not at all. */
  lemma PutsFirst(st: State, op: Op, i: nat)
    requires WellKeyed(st.rows) && 0 < i < |Writes(st, op)|
    ensures !Writes(st, op)[i].PutBlob?
  {
    hide Listing, EvictWrites, Victims, Replay;
    if Offered(st, op).Some? {
      var ref, verdict, now, ceiling, skips := OfferedIsStored(st, op);
      var art := Offered(st, op).value;
      var put := Promotion(ref, art, now);
      PromotionEffect(st, ref, art, now);
      var after := Replay(st, put);
      var victims := Victims(after.rows, ref.key, ceiling);
      var ev := EvictWrites(after, victims, Fit(skips, |victims|));
      if i >= |put| {
        assert Writes(st, op)[i] == ev[i - |put|];
        EvictWritesShape(after, victims, Fit(skips, |victims|), ev[i - |put|]);
      }
    }
  }

  /** Bytes that are stored are never replaced. */
  lemma StoredBlobKept(st: State, step: Step, d: Digest)
    requires WellKeyed(st.rows) && d in st.blobs && d in After(st, Writes(st, step.op), step.cut).blobs
    ensures After(st, Writes(st, step.op), step.cut).blobs[d] == st.blobs[d]
  {
    hide Writes, Offered;
    var all := Writes(st, step.op);
    var ws := Take(all, step.cut);
    if ws != [] {
      var next := Apply(st, ws[0]);
      assert Replay(st, ws) == Replay(next, ws[1..]);
      BlobComesFrom(next, ws[1..], d);
      forall i | 0 <= i < |ws[1..]| ensures !ws[1..][i].PutBlob? {
        PutsFirst(st, step.op, i + 1);
        assert ws[1..][i] == all[i + 1];
      }
    }
  }

  lemma StoreIsNotEmpty(st: State, ref: Ref, art: Artifact, verdict: Verdict, now: int, ceiling: int, skips: seq<bool>)
    requires WellKeyed(st.rows) && Promotes(verdict)
    ensures |StoreWrites(st, ref, art, verdict, now, ceiling, skips)| >= 2
  {
  }

  // ------------------------------------------------------------------ whole runs

  /** Every blob of every state of the run hashes to its key. */
  ghost predicate AlwaysHashKeyed(st: State, run: seq<Step>, sha: Hash)
    decreases |run|
  {
    HashKeyed(st, sha) &&
    (run != [] ==> WellKeyed(st.rows) && AlwaysHashKeyed(After(st, Writes(st, run[0].op), run[0].cut), run[1..], sha))
  }

  /** No step of the run stores bytes under a digest that is not theirs. */
  ghost predicate Honest(st: State, run: seq<Step>, sha: Hash)
    decreases |run|
  {
    run == [] ||
    (&& WellKeyed(st.rows) && !Corrupts(st, run[0], sha)
     && Honest(After(st, Writes(st, run[0].op), run[0].cut), run[1..], sha))
  }

  /** The driver refuses what it refuses: such a step has made no write. */
  ghost predicate ByDriver(driver: Driver, st: State, run: seq<Step>)
    decreases |run|
  {
    run == [] ||
    (&& WellKeyed(st.rows)
     && (Offered(st, run[0].op).Some? && Refuses(driver, st, Offered(st, run[0].op).value) ==> run[0].cut == 0)
     && ByDriver(driver, After(st, Writes(st, run[0].op), run[0].cut), run[1..]))
  }

  lemma {:induction false} HonestExactly(st: State, run: seq<Step>, end: State, sha: Hash)
    requires HashKeyed(st, sha) && RunFrom(st, run, end)
    ensures AlwaysHashKeyed(st, run, sha) <==> Honest(st, run, sha)
    ensures AlwaysHashKeyed(st, run, sha) ==> HashKeyed(end, sha)
    decreases |run|
  {
    hide HashKeyed, Corrupts, Writes, Replay;
    if run != [] {
      StepKeepsHashKeyed(st, run[0], sha);
      var next := After(st, Writes(st, run[0].op), run[0].cut);
      if !Corrupts(st, run[0], sha) {
        HonestExactly(next, run[1..], end, sha);
      } else {
        NotKeyed(next, run[1..], sha);
      }
    }
  }

  lemma NotKeyed(st: State, run: seq<Step>, sha: Hash)
    requires !HashKeyed(st, sha)
    ensures !AlwaysHashKeyed(st, run, sha)
  {
  }

  /** A driver that hashes what it is given makes every run honest, whatever is stored or
      imported and whatever verification says of it. */
  lemma {:induction false} HashingDriverIsHonest(driver: Driver, st: State, run: seq<Step>)
    requires driver.hashes && ByDriver(driver, st, run)
    ensures Honest(st, run, driver.sha)
    decreases |run|
  {
    hide Writes, Replay, Offered;
    if run != [] {
      HashingDriverIsHonest(driver, After(st, Writes(st, run[0].op), run[0].cut), run[1..]);
    }
  }

  /** The artifact is what a quarantine copy left behind and reported. */
  ghost predicate FromQuarantine(art: Artifact, sha: Hash)
  {
    exists partial, turns, closes ::
      Q.Copy(partial, partial, turns, closes, sha) == Q.Result(art.bytes, Q.Completed(art.digest, art.size))
  }

  lemma QuarantinedIsGenuine(art: Artifact, sha: Hash)
    requires FromQuarantine(art, sha)
    ensures sha(art.bytes) == art.digest && |art.bytes| == art.size
  {
    var partial, turns, closes :|
      Q.Copy(partial, partial, turns, closes, sha) == Q.Result(art.bytes, Q.Completed(art.digest, art.size));
    Q.DigestMatchesFile(partial, turns, closes, sha);
  }

  /** An import step stores no new blob, or one whose declared digest is its hash. */
  ghost predicate ImportsHonest(st: State, run: seq<Step>, sha: Hash)
    decreases |run|
  {
    run == [] ||
    (&& WellKeyed(st.rows)
     && (var op := run[0].op;
         op.ImportObject? && run[0].cut > 0 && Offered(st, op).Some? && op.digest !in st.blobs ==> sha(op.body) == op.digest)
     && ImportsHonest(After(st, Writes(st, run[0].op), run[0].cut), run[1..], sha))
  }

  /** With a driver that does not hash, artifacts out of quarantine are safe, and what is
      left to go wrong are imports. */
  lemma {:induction false} OnlyImportsCorrupt(st: State, run: seq<Step>, sha: Hash)
    requires forall i :: 0 <= i < |run| && run[i].op.Store? ==> FromQuarantine(run[i].op.art, sha)
    ensures Honest(st, run, sha) <==> ImportsHonest(st, run, sha)
    decreases |run|
  {
    hide Writes, Replay, Listing, FromQuarantine;
    if run != [] && WellKeyed(st.rows) {
      assert run[0].op.Store? ==> FromQuarantine(run[0].op.art, sha);
      if run[0].op.Store? { QuarantinedIsGenuine(run[0].op.art, sha); }
      OnlyImportsCorrupt(After(st, Writes(st, run[0].op), run[0].cut), run[1..], sha);
    }
  }

  /** Every blob of every reachable state hashes to its key: with a driver that hashes,
      always; with one that does not, and artifacts out of quarantine, if and only if no
      import stores a body under a digest that is not its hash. */
  lemma ReachableHashKeyed(driver: Driver, st: State, run: seq<Step>, end: State)
    requires HashKeyed(st, driver.sha) && RunFrom(st, run, end) && ByDriver(driver, st, run)
    ensures driver.hashes ==> AlwaysHashKeyed(st, run, driver.sha) && HashKeyed(end, driver.sha)
    ensures (forall i :: 0 <= i < |run| && run[i].op.Store? ==> FromQuarantine(run[i].op.art, driver.sha)) ==>
              (AlwaysHashKeyed(st, run, driver.sha) <==> ImportsHonest(st, run, driver.sha))
    ensures AlwaysHashKeyed(st, run, driver.sha) ==> HashKeyed(end, driver.sha)
  {
    hide HashKeyed, AlwaysHashKeyed, Honest, ImportsHonest, RunFrom, ByDriver, FromQuarantine;
    HonestExactly(st, run, end, driver.sha);
    if driver.hashes { HashingDriverIsHonest(driver, st, run); }
    if forall i :: 0 <= i < |run| && run[i].op.Store? ==> FromQuarantine(run[i].op.art, driver.sha) {
      OnlyImportsCorrupt(st, run, driver.sha);
    }
  }

  // --------------------------------------------------------------------- serving

  /** Serve is Lookup followed by ServeEntry. */
  function Serve(st: State, ref: Ref, at: Moment, offset: int, length: int): Served
  {
    var r := Lookup(st, ref, at);
    if r.Hit? then ServeEntry(st, r.entry, offset, length) else ServeMiss
  }

  /** The same on the stale path. */
  function ServeStale(st: State, ref: Ref, at: Moment, offset: int, length: int): Served
  {
    var r := LookupStale(st, ref, at);
    if r.Hit? then ServeEntry(st, r.entry, offset, length) else ServeMiss
  }

  /** A digest-pinned ref is only ever answered, fresh or stale, with the requested part of
      a blob that hashes to the pin and that a non-FAIL verification passed in this run. */
  lemma PinnedBytesAreGenuine(st: State, run: seq<Step>, end: State, sha: Hash,
                              ref: Ref, at: Moment, offset: int, length: int)
    requires st.blobs == map[] && RunFrom(st, run, end) && ref.digest != "" && Honest(st, run, sha)
    ensures forall r :: r in {Serve(end, ref, at, offset, length), ServeStale(end, ref, at, offset, length)} && r.Bytes? ==>
              && ref.digest in end.blobs
              && sha(end.blobs[ref.digest]) == ref.digest
              && VouchedIn(run, ref.digest, end.blobs[ref.digest])
              && r.bytes == Slice(end.blobs[ref.digest], offset, length)
  {
    hide Honest, AlwaysHashKeyed, RunFrom, Slice, VouchedIn;
    HonestExactly(st, run, end, sha);
    if ref.digest in end.blobs { BlobsAreVouched(st, run, end, ref.digest); }
  }

  /** What the importer does with a driver that does not hash: its verification compares
      the declared digest with itself, so tampered bytes pass, are stored, and are served
      to whoever pins the digest. */
  lemma TamperedImportIsServed(name: string, d: Digest, body: Bytes, now: int, sha: Hash, at: Moment)
    requires sha(body) != d && d != ""
    ensures var st := State(map[], map[], map[]);
            var step := Step(ImportObject(name, d, body, true, true, Ruled(Pass), now, 0, []), 2);
            var end := After(st, Writes(st, step.op), step.cut);
            && ByDriver(Driver(false, sha), st, [step]) && RunFrom(st, [step], end)
            && HashKeyed(st, sha) && !HashKeyed(end, sha)
            && Serve(end, ObjectRef(name, d), at, 0, -1) == Bytes(body)
  {
    hide Listing, EvictWrites;
    var st := State(map[], map[], map[]);
    var op := ImportObject(name, d, body, true, true, Ruled(Pass), now, 0, []);
    var step := Step(op, 2);
    var end := After(st, Writes(st, op), 2);
    NothingListed(ANY_NAME(d));
    ImportedAlone(name, d, body, now);
    assert [step][1..] == [];
    assert !HashKeyed(end, sha) by { assert d in end.blobs; }
    assert ByDriver(Driver(false, sha), end, []);
    assert Offered(st, op) == Some(Artifact(body, d, |body|));
    assert ByDriver(Driver(false, sha), st, [step]);
    assert RunFrom(end, [], end);
    assert RunFrom(st, [step], end);
    assert body[0..] == body;
    assert Lookup(end, ObjectRef(name, d), at) == Hit(Entry(ObjectRef(name, d), d, false));
    assert ServeEntry(end, Entry(ObjectRef(name, d), d, false), 0, -1) == Bytes(body);
  }

  lemma NothingListed(f: Filter)
    ensures Listing(map[], f) == []
  {
    assert Select(map[], f) == {};
  }

  lemma ImportedAlone(name: string, d: Digest, body: Bytes, now: int)
    ensures var st := State(map[], map[], map[]);
            var op := ImportObject(name, d, body, true, true, Ruled(Pass), now, 0, []);
            var row := RowFor(ObjectRef(name, d), Artifact(body, d, |body|), now);
            After(st, Writes(st, op), 2) == State(map[d := body], map[row.key := row], map[])
  {
    var st := State(map[], map[], map[]);
    var op := ImportObject(name, d, body, true, true, Ruled(Pass), now, 0, []);
    var ref, art := ObjectRef(name, d), Artifact(body, d, |body|);
    NothingListed(ANY_NAME(d));
    TwoWrites(st, PutBlob(d, body), PutRow(RowFor(ref, art, now)));
    StoreIsNotEmpty(st, ref, art, Ruled(Pass), now, 0, []);
    assert Take(Writes(st, op), 2) == [PutBlob(d, body), PutRow(RowFor(ref, art, now))];
  }
}
