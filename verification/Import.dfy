/** Seeding the cache from an image layout: each object of the manifest graph is written
    under the target name, and the tag pointer is the last write. */
module Import {
  import opened Wrappers
  import opened CacheRows
  import opened CacheSteps
  import opened CacheRuns
  import opened CacheTheorems
  import opened CacheManager
  import opened BlobHashes
  import opened CachePointers
  import opened ImageRef
  import opened ImportWalk

  const SEED_TAG_TTL := 30 * 24 * 3600

  // ---------------------------------------------------------------- one object

  /** How writing one object went: whether the lookup and the listing worked, how many
      writes were made, and the eviction failures. */
  datatype Trace = Trace(looked: bool, listed: bool, cut: nat, skips: seq<bool>)

  ghost function TraceWrites(st: State, name: string, v: Visit, verdict: Verdict, now: int,
                             ceiling: int, tr: Trace): seq<Write>
    requires WellKeyed(st.rows)
  {
    ObjectWrites(st, name, v.digest, v.body, tr.looked, tr.listed, verdict, now, ceiling, tr.skips)
  }

  ghost predicate Adopts(st: State, name: string, d: Digest, tr: Trace)
    requires WellKeyed(st.rows)
  {
    !(tr.looked && LookupImmutable(st, ObjectRef(name, d)).Hit?) && tr.listed && Listing(st.rows, ANY_NAME(d)) != []
  }

  ghost predicate Stores(st: State, name: string, d: Digest, tr: Trace)
    requires WellKeyed(st.rows)
  {
    !(tr.looked && LookupImmutable(st, ObjectRef(name, d)).Hit?) && !(tr.listed && Listing(st.rows, ANY_NAME(d)) != [])
  }

  /** Enough writes were made for writeObject to report success. */
  ghost predicate Succeeds(st: State, name: string, v: Visit, verdict: Verdict, now: int, ceiling: int, tr: Trace)
    requires WellKeyed(st.rows)
  {
    && (Adopts(st, name, v.digest, tr) ==> tr.cut == 1)
    && (Stores(st, name, v.digest, tr) ==> Promotes(verdict) && tr.cut >= 2)
  }

  /** State and log are those after the trace. */
  ghost predicate Traced(st: State, was: seq<Write>, name: string, v: Visit, verdict: Verdict, now: int,
                         ceiling: int, tr: Trace, end: State, log: seq<Write>)
    requires WellKeyed(st.rows)
  {
    var ws := TraceWrites(st, name, v, verdict, now, ceiling, tr);
    tr.cut <= |ws| && end == Replay(st, ws[..tr.cut]) && log == was + ws[..tr.cut]
  }

  function ArtifactOf(v: Visit): Artifact { Artifact(v.body, v.digest, |v.body|) }

  /** The object is offered to a driver that refuses it. */
  ghost predicate Offers(driver: Driver, st: State, name: string, v: Visit, verdict: Verdict, tr: Trace)
    requires WellKeyed(st.rows)
  {
    Stores(st, name, v.digest, tr) && Promotes(verdict) && Refuses(driver, st, ArtifactOf(v))
  }

  method WriteObject(m: Manager, name: string, v: Visit, hasMeta: bool, verdict: Verdict, now: int)
    returns (ok: bool, already: bool, ghost tr: Trace)
    requires WellKeyed(m.rows)
    modifies m
    ensures m.maxBytes == old(m.maxBytes) && m.faults >= old(m.faults)
    ensures Traced(old(m.View()), old(m.log), name, v, verdict, now, m.maxBytes, tr, m.View(), m.log)
    ensures ok <==> Succeeds(old(m.View()), name, v, verdict, now, m.maxBytes, tr)
    ensures already <==> ok && !Stores(old(m.View()), name, v.digest, tr)
    ensures Offers(m.driver, old(m.View()), name, v, verdict, tr) ==> tr.cut == 0 && !ok
    ensures m.faults == old(m.faults) && Promotes(verdict) && !Refuses(m.driver, old(m.View()), ArtifactOf(v)) ==> ok
  {
    hide StoreWrites, Replay, Listing, LookupImmutable, Promotion, RowFor, Refuses, Promotes;
    ghost var st := m.View();
    NoWrites(st, m.log);
    var ref := ObjectRef(name, v.digest);
    var looked, hit := m.Finds(ref);
    tr := Trace(looked, false, 0, []);
    if hit { return true, true, tr; }
    if hasMeta {
      var found, put;
      found, put, tr := Adopt(m, name, v, verdict, now, looked);
      if found { return put, put, tr; }
    }
    var spooled := m.OpenFile();
    if !spooled { return false, false, tr; }
    var r;
    ghost var cut, skips;
    r, cut, skips := m.StoreOnce(ref, ArtifactOf(v), verdict, now);
    RefusedIsNotPromoted(verdict);
    tr := tr.(cut := cut, skips := skips);
    StoreSized(st, ref, ArtifactOf(v), verdict, now, m.maxBytes, skips);
    return r.Stored?, false, tr;
  }

  /** The bytes may be in the CAS under another name: then recording a row is the whole job. */
  method Adopt(m: Manager, name: string, v: Visit, verdict: Verdict, now: int, looked: bool)
    returns (found: bool, put: bool, ghost tr: Trace)
    requires WellKeyed(m.rows) && !(looked && LookupImmutable(m.View(), ObjectRef(name, v.digest)).Hit?)
    modifies m
    ensures m.maxBytes == old(m.maxBytes) && m.faults >= old(m.faults) && tr.looked == looked && tr.skips == []
    ensures found ==> Adopts(old(m.View()), name, v.digest, tr)
    ensures found ==> Traced(old(m.View()), old(m.log), name, v, verdict, now, m.maxBytes, tr, m.View(), m.log)
    ensures found ==> tr.cut == (if put then 1 else 0) && (m.faults == old(m.faults) ==> put)
    ensures !found ==> Stores(old(m.View()), name, v.digest, tr) && tr.cut == 0 && m.View() == old(m.View()) && m.log == old(m.log)
  {
    hide StoreWrites, Replay, Listing, LookupImmutable, Apply, OldestOf;
    ghost var st := m.View();
    NoWrites(st, m.log);
    var listed, page, _ := m.ListEntries(ANY_NAME(v.digest), 1);
    tr := Trace(looked, listed, 0, []);
    if !listed || |page| == 0 { return false, false, tr; }
    AdoptOne(st, name, v, verdict, now, m.maxBytes, tr);
    put := m.MetaPut(page[0].(key := ObjectRef(name, v.digest).key, origin := Cached));
    tr := Trace(looked, true, if put then 1 else 0, []);
    found := true;
  }

  lemma RefusedIsNotPromoted(verdict: Verdict)
    ensures verdict.ChainError? || verdict == Ruled(Fail) <==> !Promotes(verdict)
  {
  }

  lemma NoWrites(st: State, was: seq<Write>)
    ensures Replay(st, []) == st && was + [] == was
  {
  }

  lemma StoreSized(st: State, ref: Ref, art: Artifact, verdict: Verdict, now: int, ceiling: int, skips: seq<bool>)
    requires WellKeyed(st.rows)
    ensures Promotes(verdict) ==> |StoreWrites(st, ref, art, verdict, now, ceiling, skips)| >= |Promotion(ref, art, now)| == if ref.mutable then 3 else 2
  {
  }

  lemma AdoptOne(st: State, name: string, v: Visit, verdict: Verdict, now: int, ceiling: int, tr: Trace)
    requires WellKeyed(st.rows) && Adopts(st, name, v.digest, tr)
    ensures var w := PutRow(Listing(st.rows, ANY_NAME(v.digest))[0].(key := ObjectRef(name, v.digest).key, origin := Cached));
            var ws := TraceWrites(st, name, v, verdict, now, ceiling, tr);
            && ws == [w] && ws[..1] == [w] && Replay(st, [w]) == Apply(st, w)
  {
    var w := PutRow(Listing(st.rows, ANY_NAME(v.digest))[0].(key := ObjectRef(name, v.digest).key, origin := Cached));
    OneWrite(st, w);
  }

  // ------------------------------------------------------- what an object leaves

  /** The object is found under the target name. */
  predicate Serves(st: State, name: string, d: Digest)
  {
    LookupImmutable(st, ObjectRef(name, d)).Hit?
  }

  /** `w` adds an object of the image, and takes nothing away. */
  predicate Adds(w: Write, name: string)
  {
    w.PutBlob? || (w.PutRow? && w.row.key == ObjectRef(name, w.row.digest).key)
  }

  lemma AddKeeps(st: State, w: Write, name: string, x: Digest)
    requires x != "" && Adds(w, name) && Serves(st, name, x)
    ensures Serves(Apply(st, w), name, x)
  {
  }

  lemma {:induction false} AddsKeep(st: State, ws: seq<Write>, name: string, x: Digest)
    requires forall i :: 0 <= i < |ws| ==> Adds(ws[i], name)
    requires x != "" && Serves(st, name, x)
    ensures Serves(Replay(st, ws), name, x)
    decreases |ws|
  {
    hide Serves, Adds;
    if ws != [] {
      assert Adds(ws[0], name);
      AddKeeps(st, ws[0], name, x);
      AddsKeep(Apply(st, ws[0]), ws[1..], name, x);
    }
  }

  lemma {:induction false} PointersKept(st: State, ws: seq<Write>)
    requires forall i :: 0 <= i < |ws| ==> !ws[i].PutPointer?
    ensures Replay(st, ws).pointers == st.pointers
    decreases |ws|
  {
    if ws != [] { PointersKept(Apply(st, ws[0]), ws[1..]); }
  }

  lemma ObjectWrite(st: State, name: string, v: Visit, verdict: Verdict, now: int, ceiling: int, tr: Trace, w: Write)
    requires WellKeyed(st.rows) && v.digest != "" && w in TraceWrites(st, name, v, verdict, now, ceiling, tr)
    ensures !w.PutPointer? && (ceiling <= 0 ==> Adds(w, name))
  {
    hide Listing, Replay, Candidates, FirstFit, CachedBytes;
    var ref := ObjectRef(name, v.digest);
    if Adopts(st, name, v.digest, tr) {
      ListingMember(st.rows, ANY_NAME(v.digest));
    } else if Stores(st, name, v.digest, tr) && Promotes(verdict) {
      var art := Artifact(v.body, v.digest, |v.body|);
      PromotionEffect(st, ref, art, now);
      var after := Replay(st, Promotion(ref, art, now));
      var victims := Victims(after.rows, ref.key, ceiling);
      if w in EvictWrites(after, victims, Fit(tr.skips, |victims|)) {
        EvictWritesShape(after, victims, Fit(tr.skips, |victims|), w);
      }
    }
  }

  /** Whatever happens to an object: rows keep implying blobs, no pointer moves, and with
      no ceiling nothing of the image is lost. */
  lemma ObjectEffect(st: State, was: seq<Write>, name: string, v: Visit, verdict: Verdict, now: int,
                     ceiling: int, tr: Trace, end: State, log: seq<Write>)
    requires WellKeyed(st.rows) && v.digest != ""
    requires Traced(st, was, name, v, verdict, now, ceiling, tr, end, log)
    ensures end.pointers == st.pointers && WellKeyed(end.rows)
    ensures Intact(st) ==> Intact(end)
    ensures ceiling <= 0 ==> forall x :: x != "" && Serves(st, name, x) ==> Serves(end, name, x)
  {
    hide TraceWrites, Serves, Adds, Intact;
    var ws := TraceWrites(st, name, v, verdict, now, ceiling, tr);
    forall i | 0 <= i < tr.cut
      ensures !ws[..tr.cut][i].PutPointer? && (ceiling <= 0 ==> Adds(ws[..tr.cut][i], name))
    {
      ObjectWrite(st, name, v, verdict, now, ceiling, tr, ws[i]);
    }
    PointersKept(st, ws[..tr.cut]);
    ReplayWellKeyed(st, ws[..tr.cut]);
    if Intact(st) { ObjectIntact(st, name, v, verdict, now, ceiling, tr); }
    if ceiling <= 0 {
      forall x | x != "" && Serves(st, name, x) ensures Serves(end, name, x) { AddsKeep(st, ws[..tr.cut], name, x); }
    }
  }

  lemma ObjectIntact(st: State, name: string, v: Visit, verdict: Verdict, now: int, ceiling: int, tr: Trace)
    requires Intact(st) && tr.cut <= |TraceWrites(st, name, v, verdict, now, ceiling, tr)|
    ensures Intact(Replay(st, TraceWrites(st, name, v, verdict, now, ceiling, tr)[..tr.cut]))
  {
    hide ObjectWrites, Replay, Safe;
    var ws := TraceWrites(st, name, v, verdict, now, ceiling, tr);
    var op := ImportObject(name, v.digest, v.body, tr.looked, tr.listed, verdict, now, ceiling, tr.skips);
    WritesSafe(st, op);
    assert Writes(st, op) == ws;
    SafePrefix(st, ws, tr.cut);
    SafeIntact(st, ws[..tr.cut]);
  }

  lemma StoreLands(st: State, name: string, v: Visit, verdict: Verdict, now: int, ceiling: int, tr: Trace)
    requires WellKeyed(st.rows) && v.digest != "" && Promotes(verdict) && Stores(st, name, v.digest, tr)
    requires 2 <= tr.cut <= |TraceWrites(st, name, v, verdict, now, ceiling, tr)|
    ensures Serves(Replay(st, TraceWrites(st, name, v, verdict, now, ceiling, tr)[..tr.cut]), name, v.digest)
  {
    hide EvictWrites, Victims, Listing, Replay, Safe, Upsert;
    var ref, art := ObjectRef(name, v.digest), Artifact(v.body, v.digest, |v.body|);
    var put := Promotion(ref, art, now);
    PromotionEffect(st, ref, art, now);
    var after := Replay(st, put);
    UpsertNames(st.rows, RowFor(ref, art, now));
    var victims := Victims(after.rows, ref.key, ceiling);
    var fit := Fit(tr.skips, |victims|);
    var ev, n := EvictWrites(after, victims, fit), tr.cut - 2;
    var ws := TraceWrites(st, name, v, verdict, now, ceiling, tr);
    assert ws == put + ev && ws[..tr.cut] == put + ev[..n];
    ReplayConcat(st, put, ev[..n]);
    EvictSafe(after, victims, fit);
    SafePrefix(after, ev, n);
    EvictionSpares(after.rows, ref.key, ceiling, ref.key);
    forall i | 0 <= i < n ensures RemovesOther(ev[..n][i], ref.key) {
      assert ev[..n][i] in ev;
      EvictWritesShape(after, victims, fit, ev[..n][i]);
    }
    BackedRowKept(after, ev[..n], ref.key);
  }

  /** An object reported as written is found under the target name, unless all that was
      written is a row adopted from one whose bytes had already gone from the CAS. */
  lemma ObjectLands(st: State, name: string, v: Visit, verdict: Verdict, now: int, ceiling: int, tr: Trace)
    requires WellKeyed(st.rows) && v.digest != ""
    requires tr.cut <= |TraceWrites(st, name, v, verdict, now, ceiling, tr)|
    requires Succeeds(st, name, v, verdict, now, ceiling, tr)
    ensures var end := Replay(st, TraceWrites(st, name, v, verdict, now, ceiling, tr)[..tr.cut]);
            && (Serves(end, name, v.digest) <==> (Adopts(st, name, v.digest, tr) ==> v.digest in st.blobs))
            && (Intact(st) ==> Serves(end, name, v.digest))
  {
    hide EvictWrites, Victims, Listing, StoreWrites;
    var ref := ObjectRef(name, v.digest);
    if Adopts(st, name, v.digest, tr) {
      ListingMember(st.rows, ANY_NAME(v.digest));
      AdoptOne(st, name, v, verdict, now, ceiling, tr);
    } else if Stores(st, name, v.digest, tr) {
      StoreLands(st, name, v, verdict, now, ceiling, tr);
    } else {
      NoWrites(st, []);
    }
  }

  // --------------------------------------------------------------- the whole run

  datatype Report = Report(name: string, tag: string, manifest: Digest,
                           manifests: nat, blobs: nat, bytes: nat, already: nat)

  /** Untagged: the objects are in, the pointer is not, and the run is an error. */
  datatype Outcome = Imported(report: Report) | Untagged(report: Report) | Failed

  /** What an import of a layout under a target is to do. */
  datatype Plan = Plan(name: string, tag: string, root: Descriptor)

  function PlanFor(l: Layout, target: string): Option<Plan>
  {
    match ParseTarget(target)
    case TargetError => None
    case Target(name, tag, digest) =>
      match PickManifest(l.index, tag, digest)
      case None => None
      case Some(root) => Some(Plan(name, tag, root))
  }

  function PlanTrip(l: Layout, plan: Plan): Trip { Walk(l, [plan.root], {}) }

  /** The report of a run that made all of `visits`. */
  function ReportOf(plan: Plan, visits: seq<Visit>, already: nat): Report
  {
    Report(plan.name, plan.tag, plan.root.digest, Manifests(visits), Blobs(visits), Size(visits), already)
  }

  function TagKey(plan: Plan): string { MutableKey(Key("oci", plan.name, plan.tag)) }

  function TagPointer(plan: Plan, ttl: int, now: int): Pointer
  {
    Pointer(plan.root.digest, [], if ttl == 0 then SEED_TAG_TTL else ttl, now)
  }

  /** The import of `done` has got `start` to `view`; `kept` when nothing is evicted or
      left unwritten on the way. */
  ghost predicate Seeding(start: State, view: State, name: string, done: seq<Visit>, kept: bool, driver: Driver)
  {
    && WellKeyed(view.rows)
    && view.pointers == start.pointers
    && (Intact(start) ==> Intact(view))
    && (driver.hashes && HashKeyed(start, driver.sha) ==> HashKeyed(view, driver.sha))
    && (Intact(start) && kept ==> forall v :: v in done ==> v.digest != "" && Serves(view, name, v.digest))
  }

  lemma SeedStep(start: State, st: State, was: seq<Write>, name: string, done: seq<Visit>, v: Visit,
                 verdict: Verdict, now: int, ceiling: int, tr: Trace, end: State, log: seq<Write>, driver: Driver)
    requires Seeding(start, st, name, done, ceiling <= 0, driver) && v.digest != ""
    requires Traced(st, was, name, v, verdict, now, ceiling, tr, end, log)
    requires Offers(driver, st, name, v, verdict, tr) ==> tr.cut == 0
    ensures Seeding(start, end, name, done, ceiling <= 0, driver)
    ensures Succeeds(st, name, v, verdict, now, ceiling, tr) ==> Seeding(start, end, name, done + [v], ceiling <= 0, driver)
  {
    hide Serves, Intact, Replay, TraceWrites, Succeeds, HashKeyed, Offers;
    ObjectEffect(st, was, name, v, verdict, now, ceiling, tr, end, log);
    if driver.hashes && HashKeyed(st, driver.sha) { ObjectHashKeyed(st, name, v, verdict, now, ceiling, tr, driver); }
    if Succeeds(st, name, v, verdict, now, ceiling, tr) {
      ObjectLands(st, name, v, verdict, now, ceiling, tr);
    }
  }

  /** A driver that hashes keeps every blob under its hash, whatever the layout holds. */
  lemma ObjectHashKeyed(st: State, name: string, v: Visit, verdict: Verdict, now: int, ceiling: int, tr: Trace, driver: Driver)
    requires WellKeyed(st.rows) && driver.hashes && HashKeyed(st, driver.sha)
    requires tr.cut <= |TraceWrites(st, name, v, verdict, now, ceiling, tr)|
    requires Offers(driver, st, name, v, verdict, tr) ==> tr.cut == 0
    ensures HashKeyed(Replay(st, TraceWrites(st, name, v, verdict, now, ceiling, tr)[..tr.cut]), driver.sha)
  {
    hide ObjectWrites, HashKeyed, Replay, LookupImmutable, Listing;
    var op := ImportObject(name, v.digest, v.body, tr.looked, tr.listed, verdict, now, ceiling, tr.skips);
    assert Writes(st, op) == TraceWrites(st, name, v, verdict, now, ceiling, tr);
    StepKeepsHashKeyed(st, Step(op, tr.cut), driver.sha);
  }

  /** Nothing the driver would refuse. */
  predicate Genuine(driver: Driver, v: Visit) { driver.hashes ==> driver.sha(v.body) == v.digest }

  /** How many blobs were put. */
  function BlobPuts(ws: seq<Write>): nat
  {
    if ws == [] then 0 else BlobPuts(ws[..|ws| - 1]) + if ws[|ws| - 1].PutBlob? then 1 else 0
  }

  lemma {:induction false} BlobPutsConcat(a: seq<Write>, b: seq<Write>)
    ensures BlobPuts(a + b) == BlobPuts(a) + BlobPuts(b)
    decreases |b|
  {
    if b == [] {
      assert a + b == a;
    } else {
      BlobPutsConcat(a, b[..|b| - 1]);
      assert (a + b)[..|a + b| - 1] == a + b[..|b| - 1];
    }
  }

  lemma {:induction false} NoBlobPuts(ws: seq<Write>)
    requires forall i :: 0 <= i < |ws| ==> !ws[i].PutBlob?
    ensures BlobPuts(ws) == 0
  {
    if ws != [] { NoBlobPuts(ws[..|ws| - 1]); }
  }

  /** A written object costs one blob put, and one that was already present none. */
  lemma ObjectPuts(st: State, was: seq<Write>, name: string, v: Visit, verdict: Verdict, now: int, ceiling: int,
                   tr: Trace, end: State, log: seq<Write>)
    requires WellKeyed(st.rows) && Traced(st, was, name, v, verdict, now, ceiling, tr, end, log)
    requires Succeeds(st, name, v, verdict, now, ceiling, tr)
    ensures BlobPuts(log) == BlobPuts(was) + if Stores(st, name, v.digest, tr) then 1 else 0
  {
    hide Replay, Listing, LookupImmutable, StoreWrites, BlobPuts;
    var op := ImportObject(name, v.digest, v.body, tr.looked, tr.listed, verdict, now, ceiling, tr.skips);
    var all := Writes(st, op);
    var ws := all[..tr.cut];
    assert all == TraceWrites(st, name, v, verdict, now, ceiling, tr);
    BlobPutsConcat(was, ws);
    if Stores(st, name, v.digest, tr) {
      assert ws == [ws[0]] + ws[1..];
      BlobPutsConcat([ws[0]], ws[1..]);
      forall i | 0 <= i < |ws[1..]| ensures !ws[1..][i].PutBlob? { PutsFirst(st, op, i + 1); }
      NoBlobPuts(ws[1..]);
      StoreBegins(st, ObjectRef(name, v.digest), ArtifactOf(v), verdict, now, ceiling, tr.skips);
      OneBlobPut(ws[0]);
    } else {
      if Adopts(st, name, v.digest, tr) { AdoptOne(st, name, v, verdict, now, ceiling, tr); }
      NoBlobPuts(ws);
    }
  }

  lemma StoreBegins(st: State, ref: Ref, art: Artifact, verdict: Verdict, now: int, ceiling: int, skips: seq<bool>)
    requires WellKeyed(st.rows) && Promotes(verdict)
    ensures var ws := StoreWrites(st, ref, art, verdict, now, ceiling, skips); ws != [] && ws[0].PutBlob?
  {
  }

  lemma OneBlobPut(w: Write)
    ensures BlobPuts([w]) == if w.PutBlob? then 1 else 0
  {
    assert [w][..0] == [];
  }

  /** One object of the walk: nothing to do on a dry run. */
  method Land(m: Manager, name: string, v: Visit, hasMeta: bool, dryRun: bool, verdict: Verdict, now: int,
              ghost start: State, ghost done: seq<Visit>) returns (ok: bool, present: bool)
    requires Seeding(start, m.View(), name, done, !dryRun && m.maxBytes <= 0, m.driver) && v.digest != ""
    modifies m
    ensures m.maxBytes == old(m.maxBytes) && m.faults >= old(m.faults)
    ensures Seeding(start, m.View(), name, if ok then done + [v] else done, !dryRun && m.maxBytes <= 0, m.driver)
    ensures dryRun ==> ok && !present && m.View() == old(m.View()) && m.log == old(m.log)
    ensures ok && !dryRun ==> BlobPuts(m.log) == BlobPuts(old(m.log)) + if present then 0 else 1
    ensures m.faults == old(m.faults) && Promotes(verdict) && Genuine(m.driver, v) ==> ok
  {
    hide Traced, Offers, Succeeds, Stores, Serves, Intact, Promotes, BlobPuts, Adopts;
    if dryRun { return true, false; }
    ghost var st, was, tr := m.View(), m.log, Trace(true, true, 0, []);
    ok, present, tr := WriteObject(m, name, v, hasMeta, verdict, now);
    SeedStep(start, st, was, name, done, v, verdict, now, m.maxBytes, tr, m.View(), m.log, m.driver);
    if ok { ObjectPuts(st, was, name, v, verdict, now, m.maxBytes, tr, m.View(), m.log); }
  }

  /** `done` is what the walk has visited, and `queue` and `seen` where it stands. */
  ghost predicate Midway(l: Layout, trip: Trip, done: seq<Visit>, queue: seq<Descriptor>, seen: set<Digest>)
  {
    var rest := Walk(l, queue, seen);
    trip.visits == done + rest.visits && trip.complete == rest.complete
  }

  lemma MidwayStep(l: Layout, trip: Trip, done: seq<Visit>, queue: seq<Descriptor>, seen: set<Digest>)
    requires Midway(l, trip, done, queue, seen) && queue != []
    ensures var d := queue[0];
            if d.digest in seen then Midway(l, trip, done, queue[1..], seen)
            else if !Readable(l, d.digest) || (IsManifestMediaType(d.mediaType) && l.parse(l.blobs[d.digest]).None?)
            then !trip.complete && trip.visits == done
            else
              && d.digest != ""
              && |l.blobs.Keys - (seen + {d.digest})| < |l.blobs.Keys - seen|
              && VisitOf(l, d) in trip.visits
              && Midway(l, trip, done + [VisitOf(l, d)],
                        if IsManifestMediaType(d.mediaType)
                        then queue[1..] + ChildDescriptors(l.parse(l.blobs[d.digest]).value) else queue[1..],
                        seen + {d.digest})
  {
    hide ChildDescriptors, IsManifestMediaType;
    var d := queue[0];
    if d.digest !in seen && Expand(l, d).Some? {
      Readables(l, d);
      Shrinks(l.blobs.Keys, seen, d.digest);
      var v := VisitOf(l, d);
      var rest := Walk(l, queue[1..] + Expand(l, d).value, seen + {d.digest});
      assert done + ([v] + rest.visits) == done + [v] + rest.visits;
      assert queue[1..] + [] == queue[1..];
    }
  }

  /** The report after one more object. */
  function Tally(was: Report, v: Visit, present: bool): Report
  {
    was.(manifests := if v.manifest then was.manifests + 1 else was.manifests,
         blobs := if v.manifest then was.blobs else was.blobs + 1,
         bytes := was.bytes + |v.body|,
         already := if present then was.already + 1 else was.already)
  }

  lemma TallyOne(plan: Plan, visits: seq<Visit>, v: Visit, already: nat, present: bool)
    ensures var after := Tally(ReportOf(plan, visits, already), v, present);
            && after == ReportOf(plan, visits + [v], after.already)
            && after.already == already + if present then 1 else 0
  {
    assert (visits + [v])[..|visits|] == visits;
  }

  /** What a run promises of the state it leaves and of its report. Real or dry, the
      report is that of the whole walk; the tag pointer moves only when a real run
      succeeds; rows keep implying blobs; a driver that hashes keeps every blob under its
      hash; and with no ceiling everything visited is found under the target name. */
  ghost predicate Delivers(l: Layout, plan: Plan, dryRun: bool, ttl: int, now: int, ceiling: int,
                           start: State, end: State, r: Outcome, driver: Driver)
  {
    var trip := PlanTrip(l, plan);
    && (!trip.complete ==> r == Failed)
    && (!r.Failed? ==> r.report == ReportOf(plan, trip.visits, r.report.already))
    && (dryRun ==> end == start && (trip.complete ==> r == Imported(ReportOf(plan, trip.visits, 0))))
    && end.pointers == (if r.Imported? && !dryRun && plan.tag != ""
                        then start.pointers[TagKey(plan) := TagPointer(plan, ttl, now)] else start.pointers)
    && (Intact(start) ==> Intact(end))
    && (driver.hashes && HashKeyed(start, driver.sha) ==> HashKeyed(end, driver.sha))
    && (Intact(start) && ceiling <= 0 && !dryRun && !r.Failed? ==>
          forall v :: v in trip.visits ==> Serves(end, plan.name, v.digest))
  }

  lemma SeedDelivers(l: Layout, plan: Plan, dryRun: bool, ttl: int, now: int, ceiling: int,
                     start: State, view: State, done: seq<Visit>, r: Outcome, driver: Driver)
    requires Seeding(start, view, plan.name, done, !dryRun && ceiling <= 0, driver) && (dryRun ==> view == start)
    requires r.Failed? || (PlanTrip(l, plan) == Trip(done, true) && r.report == ReportOf(plan, done, r.report.already))
    requires r.Failed? ==> !dryRun || !PlanTrip(l, plan).complete
    requires dryRun && !r.Failed? ==> r.Imported? && r.report.already == 0
    ensures r.Imported? && !dryRun && plan.tag != "" ==>
              Delivers(l, plan, dryRun, ttl, now, ceiling, start, Apply(view, PutPointer(TagKey(plan), TagPointer(plan, ttl, now))), r, driver)
    ensures !(r.Imported? && !dryRun && plan.tag != "") ==>
              Delivers(l, plan, dryRun, ttl, now, ceiling, start, view, r, driver)
  {
    hide PlanTrip, TagKey, TagPointer, ReportOf;
  }

  /** The tag pointer: without it a pull by tag still asks upstream. */
  method Tag(m: Manager, plan: Plan, report: Report, hasMeta: bool, ttl: int, now: int) returns (r: Outcome)
    modifies m
    ensures r == Imported(report) || (r == Untagged(report) && plan.tag != "")
    ensures m.View() == if r.Imported? && plan.tag != ""
                        then Apply(old(m.View()), PutPointer(TagKey(plan), TagPointer(plan, ttl, now)))
                        else old(m.View())
    ensures m.maxBytes == old(m.maxBytes) && m.faults >= old(m.faults)
    ensures hasMeta && m.faults == old(m.faults) ==> r.Imported?
    ensures BlobPuts(m.log) == BlobPuts(old(m.log))
  {
    hide BlobPuts;
    if plan.tag != "" {
      if !hasMeta { return Untagged(report); }
      ghost var w := PutPointer(TagKey(plan), TagPointer(plan, ttl, now));
      BlobPutsConcat(m.log, [w]);
      OneBlobPut(w);
      var put := m.MetaPutMutable(TagKey(plan), TagPointer(plan, ttl, now));
      if !put { return Untagged(report); }
    }
    return Imported(report);
  }

  /** Neither verification nor the driver refuses any of the objects. */
  ghost predicate Passes(chain: Digest -> Verdict, driver: Driver, visits: seq<Visit>)
  {
    forall v :: v in visits ==> Promotes(chain(v.digest)) && Genuine(driver, v)
  }

  /** The worklist: every object of the walk, each once. */
  method SeedAll(m: Manager, l: Layout, plan: Plan, hasMeta: bool, dryRun: bool, chain: Digest -> Verdict, now: int)
    returns (ok: bool, report: Report, ghost done: seq<Visit>)
    requires WellKeyed(m.rows)
    modifies m
    ensures Seeding(old(m.View()), m.View(), plan.name, done, !dryRun && m.maxBytes <= 0, m.driver)
    ensures ok ==> PlanTrip(l, plan) == Trip(done, true) && report == ReportOf(plan, done, report.already)
    ensures !ok ==> !PlanTrip(l, plan).complete || m.faults > old(m.faults) || !Passes(chain, m.driver, PlanTrip(l, plan).visits)
    ensures dryRun ==> m.View() == old(m.View()) && m.log == old(m.log) && (ok <==> PlanTrip(l, plan).complete)
    ensures dryRun && ok ==> report.already == 0
    ensures ok && !dryRun ==> BlobPuts(m.log) + report.already == BlobPuts(old(m.log)) + |done|
    ensures m.maxBytes == old(m.maxBytes) && m.faults >= old(m.faults)
  {
    hide Walk, Seeding, PlanTrip, Promotes, ReportOf, Tally, BlobPuts, ChildDescriptors, IsManifestMediaType, Midway;
    ghost var start, trip := m.View(), PlanTrip(l, plan);
    report := Report(plan.name, plan.tag, plan.root.digest, 0, 0, 0, 0);
    var queue: seq<Descriptor>, seen: set<Digest> := [plan.root], {};
    done := [];
    RunStart(l, plan, start, !dryRun && m.maxBytes <= 0, m.driver);
    while queue != []
      invariant Midway(l, trip, done, queue, seen)
      invariant report == ReportOf(plan, done, report.already)
      invariant Seeding(start, m.View(), plan.name, done, !dryRun && m.maxBytes <= 0, m.driver)
      invariant dryRun ==> m.View() == start && m.log == old(m.log) && report.already == 0
      invariant !dryRun ==> BlobPuts(m.log) + report.already == BlobPuts(old(m.log)) + |done|
      invariant m.maxBytes == old(m.maxBytes) && m.faults >= old(m.faults)
      decreases |l.blobs.Keys - seen|, |queue|
    {
      MidwayStep(l, trip, done, queue, seen);
      var d := queue[0];
      queue := queue[1..];
      if d.digest in seen { continue; }
      seen := seen + {d.digest};
      if !Readable(l, d.digest) { return false, report, done; }
      var v := VisitOf(l, d);
      if v.manifest {
        var doc := l.parse(v.body);
        if doc.None? { return false, report, done; }
        queue := queue + ChildDescriptors(doc.value);
      }
      var landed, present := Land(m, plan.name, v, hasMeta, dryRun, chain(d.digest), now, start, done);
      if !landed { return false, report, done; }
      TallyOne(plan, done, v, report.already, present);
      report := Tally(report, v, present);
      done := done + [v];
    }
    RunEnd(l, trip, done, seen);
    ok := true;
  }

  /** Imports a layout so that pulls of `target` hit the cache. `chain` is what
      verification says of each object, and `hasMeta` whether there is a metadata store
      to record rows and the tag in. Nothing but a failing store or a refused object
      stands between a sound layout and success. */
  method Run(m: Manager, l: Layout, target: string, hasMeta: bool, dryRun: bool, ttl: int,
             chain: Digest -> Verdict, now: int) returns (r: Outcome)
    requires WellKeyed(m.rows)
    modifies m
    ensures match PlanFor(l, target)
            case None => r == Failed && m.View() == old(m.View())
            case Some(plan) =>
              && Delivers(l, plan, dryRun, ttl, now, m.maxBytes, old(m.View()), m.View(), r, m.driver)
              && ((hasMeta && m.faults == old(m.faults) && PlanTrip(l, plan).complete &&
                   Passes(chain, m.driver, PlanTrip(l, plan).visits)) ==> r.Imported?)
    ensures dryRun ==> m.log == old(m.log)
    ensures !r.Failed? && !dryRun ==>
              BlobPuts(m.log) + r.report.already ==
              BlobPuts(old(m.log)) + |PlanTrip(l, PlanFor(l, target).value).visits|
    ensures m.maxBytes == old(m.maxBytes) && m.faults >= old(m.faults)
  {
    hide BlobPuts, Seeding, Delivers, PlanFor, PlanTrip, ReportOf, TagKey, TagPointer, Passes, Apply;
    var planned := PlanFor(l, target);
    if planned.None? { return Failed; }
    var plan := planned.value;
    ghost var start := m.View();
    var ok, report;
    ghost var done;
    ok, report, done := SeedAll(m, l, plan, hasMeta, dryRun, chain, now);
    ghost var view := m.View();
    if !ok { r := Failed; }
    else if dryRun { r := Imported(report); }
    else { r := Tag(m, plan, report, hasMeta, ttl, now); }
    SeedDelivers(l, plan, dryRun, ttl, now, m.maxBytes, start, view, done, r, m.driver);
  }

  lemma RunStart(l: Layout, plan: Plan, start: State, kept: bool, driver: Driver)
    requires WellKeyed(start.rows)
    ensures Midway(l, PlanTrip(l, plan), [], [plan.root], {}) && Seeding(start, start, plan.name, [], kept, driver)
    ensures ReportOf(plan, [], 0) == Report(plan.name, plan.tag, plan.root.digest, 0, 0, 0, 0)
  {
  }

  lemma RunEnd(l: Layout, trip: Trip, done: seq<Visit>, seen: set<Digest>)
    requires Midway(l, trip, done, [], seen)
    ensures trip == Trip(done, true)
  {
  }

  // ----------------------------------------------------------- what pulls then find

  /** After an import that succeeded with no ceiling, from a state in which rows imply
      blobs: everything reachable from the chosen manifest is found under the target
      name, the report counts exactly that, and the tag resolves to the manifest until
      it expires (and, served stale, after). */
  lemma ImportedImageIsServed(l: Layout, plan: Plan, ttl: int, now: int, ceiling: int,
                              start: State, end: State, r: Outcome, driver: Driver, kind: Kind, at: Moment)
    requires Delivers(l, plan, false, ttl, now, ceiling, start, end, r, driver) && r.Imported?
    requires Intact(start) && ceiling <= 0 && ByDigest(l, plan.root, kind)
    ensures forall d :: Reachable(l, kind, plan.root.digest, d) ==>
              Lookup(end, ObjectRef(plan.name, d), at) == Hit(Entry(ObjectRef(plan.name, d), d, false))
    ensures exists all: set<Digest> ::
              && (forall d :: d in all <==> Reachable(l, kind, plan.root.digest, d))
              && r.report.manifests + r.report.blobs == |all|
    ensures var ref := Ref(Key("oci", plan.name, plan.tag), "", true);
            plan.tag != "" ==>
              && LookupStale(end, ref, at) == Hit(Entry(ref, plan.root.digest, false))
              && (Lookup(end, ref, at) == Miss <==> HardExpired(TagPointer(plan, ttl, now), at))
              && (Lookup(end, ref, at) != Miss ==>
                    Lookup(end, ref, at) ==
                    Hit(Entry(ref, plan.root.digest, !Fresh(TagPointer(plan, ttl, now), at))))
  {
    hide ByDigest, Reachable, Walk, Manifests, Blobs, HardExpired, Fresh;
    var trip := PlanTrip(l, plan);
    WalkIsExact(l, plan.root, kind);
    VisitsAreDistinct(l, [plan.root], {});
    assert r.report.manifests + r.report.blobs == |Digests(trip.visits)|;
    forall d | Reachable(l, kind, plan.root.digest, d)
      ensures d != "" && d in end.blobs
      ensures Lookup(end, ObjectRef(plan.name, d), at) == Hit(Entry(ObjectRef(plan.name, d), d, false))
    {
      assert d in Digests(trip.visits);
      var v :| v in trip.visits && v.digest == d;
      assert Serves(end, plan.name, v.digest);
    }
    RootReachable(l, plan.root, kind);
  }

  lemma RootReachable(l: Layout, root: Descriptor, kind: Kind)
    ensures Reachable(l, kind, root.digest, root.digest)
  {
    assert Leads(l, kind, [root.digest], root.digest, root.digest);
  }

  /** Why rows must imply blobs to begin with: an object whose bytes are gone but which a
      pull-through row still names is adopted, reported as already present, and missed. */
  lemma DanglingAdoptionMisses(st: State, name: string, v: Visit, verdict: Verdict, now: int, ceiling: int, at: Moment)
    requires WellKeyed(st.rows) && v.digest != "" && v.digest !in st.blobs
    requires Listing(st.rows, ANY_NAME(v.digest)) != []
    ensures var tr := Trace(true, true, 1, []);
            && Adopts(st, name, v.digest, tr)
            && Succeeds(st, name, v, verdict, now, ceiling, tr)
            && |TraceWrites(st, name, v, verdict, now, ceiling, tr)| == 1
            && Lookup(Replay(st, TraceWrites(st, name, v, verdict, now, ceiling, tr)), ObjectRef(name, v.digest), at) == Miss
  {
    hide Listing;
    var tr := Trace(true, true, 1, []);
    ListingMember(st.rows, ANY_NAME(v.digest));
    AdoptOne(st, name, v, verdict, now, ceiling, tr);
  }

  /** An import moves one tag: every other tag of the image keeps its pointer. */
  lemma ImportMovesOneTag(l: Layout, plan: Plan, dryRun: bool, ttl: int, now: int, ceiling: int,
                          start: State, end: State, r: Outcome, driver: Driver, tag: string)
    requires Delivers(l, plan, dryRun, ttl, now, ceiling, start, end, r, driver) && tag != plan.tag
    ensures var name := MutableKey(Key("oci", plan.name, tag));
            && (name in end.pointers <==> name in start.pointers)
            && (name in start.pointers ==> end.pointers[name] == start.pointers[name])
  {
    hide PlanTrip, ReportOf, MutableKey;
    VersionsHaveTheirOwn(Key("oci", plan.name, plan.tag), tag);
  }

  /** Adoption is of pull-through content only: exactly when some oci row of that origin
      names the digest, and what is adopted is the oldest such row. */
  lemma AdoptsFromCacheOnly(st: State, name: string, d: Digest, tr: Trace)
    requires WellKeyed(st.rows) && d != ""
    ensures Adopts(st, name, d, tr) <==>
            && !(tr.looked && LookupImmutable(st, ObjectRef(name, d)).Hit?) && tr.listed
            && exists k :: k in st.rows && Shareable(st.rows, k, d)
    ensures Adopts(st, name, d, tr) ==>
              var row := Listing(st.rows, ANY_NAME(d))[0];
              && row.key in st.rows && st.rows[row.key] == row && Shareable(st.rows, row.key, d)
              && (forall k :: k in st.rows && Shareable(st.rows, k, d) && k != row.key ==> Older(row, st.rows[k]))
              && forall v: Visit, verdict, now, ceiling :: v.digest == d ==>
                   TraceWrites(st, name, v, verdict, now, ceiling, tr) ==
                   [PutRow(Row(Key("oci", name, d), d, row.size, row.pinned, Cached, row.created))]
  {
    hide Older, LookupImmutable, Sorted;
    var f := ANY_NAME(d);
    var s := Select(st.rows, f);
    assert forall k :: k in st.rows ==> (Matches(f, st.rows[k]) <==> Shareable(st.rows, k, d));
    SortedMembers(s);
    if Listing(st.rows, f) != [] {
      ListingMember(st.rows, f);
      PageIsOldest(st.rows, f, 1);
      var row := Listing(st.rows, f)[0];
      assert Listing(st.rows, f)[..1] == [row] && [row][0] == row;
    } else {
      assert forall k :: k in st.rows && Matches(f, st.rows[k]) ==> st.rows[k] in s;
    }
  }

  /** A pull-through oci row of the digest. */
  predicate Shareable(rows: Rows, k: Key, d: Digest)
    requires k in rows
  {
    k.protocol == "oci" && rows[k].key == k && rows[k].origin == Cached && rows[k].digest == d
  }

  /** The tag points at the chosen manifest for the TTL that was asked for, from now on; for
      thirty days when none was. */
  lemma TagPointerIs(plan: Plan, ttl: int, now: int)
    ensures var p := TagPointer(plan, ttl, now);
            && p.digest == plan.root.digest && p.payload == [] && p.fetched == now
            && (ttl != 0 ==> p.ttl == ttl) && (ttl == 0 ==> p.ttl == 2_592_000)
    ensures TagKey(plan) == "oci:" + plan.name + ":" + plan.tag
  {
  }

  /** The plan is the target's own name and tag, with the manifest the layout has for it. */
  lemma PlanIs(l: Layout, target: string, name: string, tag: string, root: Descriptor)
    ensures PlanFor(l, target) == Some(Plan(name, tag, root)) <==>
            exists digest :: ParseTarget(target) == Target(name, tag, digest) && PickManifest(l.index, tag, digest) == Some(root)
  {
    hide ParseTarget, PickManifest;
  }

  /** The report names what was imported and counts the whole walk. */
  lemma ReportIs(plan: Plan, visits: seq<Visit>, already: nat, v: Visit)
    ensures ReportOf(plan, [], already) == Report(plan.name, plan.tag, plan.root.digest, 0, 0, 0, already)
    ensures var was, now := ReportOf(plan, visits, already), ReportOf(plan, visits + [v], already);
            now == was.(manifests := was.manifests + if v.manifest then 1 else 0,
                        blobs := was.blobs + if v.manifest then 0 else 1,
                        bytes := was.bytes + |v.body|)
  {
    assert (visits + [v])[..|visits|] == visits;
  }
}
