/** Reading an OCI image layout: which manifest to import, and the worklist over the
    manifest graph, which may have cycles. */
module ImportWalk {
  import opened Wrappers
  import opened CacheRows

  datatype Descriptor = Descriptor(mediaType: string, digest: Digest, refName: string)

  /** A manifest or an index, as parsed. */
  datatype ManifestDoc = ManifestDoc(manifests: seq<Descriptor>, config: Descriptor,
                                     layers: seq<Descriptor>, subject: Option<Descriptor>)

  /** The blobs of a layout by digest, and how a body parses (None when it does not). */
  datatype Layout = Layout(index: seq<Descriptor>, blobs: map<Digest, Bytes>, parse: Bytes -> Option<ManifestDoc>)

  predicate IsManifestMediaType(mt: string)
  {
    mt == "application/vnd.oci.image.index.v1+json" ||
    mt == "application/vnd.oci.image.manifest.v1+json" ||
    mt == "application/vnd.docker.distribution.manifest.list.v2+json" ||
    mt == "application/vnd.docker.distribution.manifest.v2+json"
  }

  /** Everything a manifest or index points at. */
  function ChildDescriptors(doc: ManifestDoc): seq<Descriptor>
  {
    doc.manifests +
    (if doc.config.digest != "" then [doc.config] else []) +
    doc.layers +
    (if doc.subject.Some? && doc.subject.value.digest != "" then [doc.subject.value] else [])
  }

  /** A digest without an algorithm names no file. */
  predicate Readable(l: Layout, d: Digest) { ':' in d && d in l.blobs }

  predicate HasSuffix(s: string, suffix: string)
  {
    |suffix| <= |s| && s[|s| - |suffix|..] == suffix
  }

  /** A digest target wants that digest. A tag wants its annotation, unless the layout
      holds one manifest only. */
  predicate Wanted(d: Descriptor, only: bool, tag: string, digest: Digest)
  {
    if digest != "" then d.digest == digest
    else only || (d.refName != "" && (d.refName == tag || HasSuffix(d.refName, ":" + tag)))
  }

  /** The first manifest the target wants, and an error only when it wants none. */
  function PickManifest(index: seq<Descriptor>, tag: string, digest: Digest): (r: Option<Descriptor>)
    ensures match r
            case None => forall i :: 0 <= i < |index| ==> !Wanted(index[i], |index| == 1, tag, digest)
            case Some(d) =>
              exists i :: 0 <= i < |index| && index[i] == d && Wanted(d, |index| == 1, tag, digest) &&
                forall j :: 0 <= j < i ==> !Wanted(index[j], |index| == 1, tag, digest)
  {
    if digest != "" then First(index, (d: Descriptor) => d.digest == digest)
    else if |index| == 1 then Some(index[0])
    else First(index, (d: Descriptor) => d.refName != "" && (d.refName == tag || HasSuffix(d.refName, ":" + tag)))
  }

  function First(s: seq<Descriptor>, p: Descriptor -> bool): (r: Option<Descriptor>)
    ensures match r
            case None => forall i :: 0 <= i < |s| ==> !p(s[i])
            case Some(d) => exists i :: 0 <= i < |s| && s[i] == d && p(d) && forall j :: 0 <= j < i ==> !p(s[j])
  {
    if s == [] then None
    else if p(s[0]) then Some(s[0])
    else
      var r := First(s[1..], p);
      assert r.Some? ==> forall i :: 0 <= i < |s| - 1 ==> s[1..][i] == s[i + 1];
      r
  }

  // --------------------------------------------------------------- the worklist

  /** One object taken off the queue for the first time. */
  datatype Visit = Visit(digest: Digest, manifest: bool, body: Bytes)

  /** The objects visited, and whether the walk got to the end. */
  datatype Trip = Trip(visits: seq<Visit>, complete: bool)

  /** What an unseen descriptor leads to: nothing when it cannot be read or parsed. */
  function Expand(l: Layout, d: Descriptor): Option<seq<Descriptor>>
  {
    if !Readable(l, d.digest) then None
    else if !IsManifestMediaType(d.mediaType) then Some([])
    else match l.parse(l.blobs[d.digest])
      case None => None
      case Some(doc) => Some(ChildDescriptors(doc))
  }

  function VisitOf(l: Layout, d: Descriptor): Visit
    requires Readable(l, d.digest)
  {
    Visit(d.digest, IsManifestMediaType(d.mediaType), l.blobs[d.digest])
  }

  function Cons(v: Visit, t: Trip): Trip { Trip([v] + t.visits, t.complete) }

  /** Breadth first, each digest once. It ends on every layout: a digest that is not
      seen yet is one of finitely many that can be read. */
  function Walk(l: Layout, queue: seq<Descriptor>, seen: set<Digest>): Trip
    decreases |l.blobs.Keys - seen|, |queue|
  {
    if queue == [] then Trip([], true)
    else
      var d := queue[0];
      if d.digest in seen then Walk(l, queue[1..], seen)
      else
        var next := Expand(l, d);
        if next.None? then Trip([], false)
        else
          Shrinks(l.blobs.Keys, seen, d.digest);
          Cons(VisitOf(l, d), Walk(l, queue[1..] + next.value, seen + {d.digest}))
  }

  lemma Shrinks(all: set<Digest>, seen: set<Digest>, d: Digest)
    requires d in all && d !in seen
    ensures |all - (seen + {d})| < |all - seen|
  {
    assert all - (seen + {d}) == (all - seen) - {d};
  }

  function Manifests(vs: seq<Visit>): nat
  {
    if vs == [] then 0 else (if vs[|vs| - 1].manifest then 1 else 0) + Manifests(vs[..|vs| - 1])
  }

  function Blobs(vs: seq<Visit>): nat
  {
    if vs == [] then 0 else (if vs[|vs| - 1].manifest then 0 else 1) + Blobs(vs[..|vs| - 1])
  }

  function Size(vs: seq<Visit>): nat
  {
    if vs == [] then 0 else |vs[|vs| - 1].body| + Size(vs[..|vs| - 1])
  }

  function Digests(vs: seq<Visit>): set<Digest>
  {
    set v | v in vs :: v.digest
  }

  /** Every visit reads the blob its digest names, each digest at most once and none that
      was seen before. */
  lemma {:induction false} VisitsAreDistinct(l: Layout, queue: seq<Descriptor>, seen: set<Digest>)
    ensures var vs := Walk(l, queue, seen).visits;
            && Digests(vs) !! seen && |Digests(vs)| == |vs|
            && forall v :: v in vs ==> Readable(l, v.digest) && v.body == l.blobs[v.digest]
    decreases |l.blobs.Keys - seen|, |queue|
  {
    hide Expand, Digests;
    DigestsCons(Walk(l, queue, seen).visits);
    if queue != [] {
      var d := queue[0];
      if d.digest in seen {
        VisitsAreDistinct(l, queue[1..], seen);
      } else if Expand(l, d).Some? {
        Readables(l, d);
        Shrinks(l.blobs.Keys, seen, d.digest);
        VisitsAreDistinct(l, queue[1..] + Expand(l, d).value, seen + {d.digest});
      }
    }
  }

  lemma {:induction false} CountsAddUp(vs: seq<Visit>)
    ensures Manifests(vs) + Blobs(vs) == |vs|
  {
    if vs != [] { CountsAddUp(vs[..|vs| - 1]); }
  }

  // ----------------------------------------------------------- reachability

  type Kind = Digest -> bool

  /** What the object with digest `d` points at when `kind` says which digests are
      manifests. */
  function Children(l: Layout, kind: Kind, d: Digest): seq<Descriptor>
  {
    if kind(d) && Readable(l, d) && l.parse(l.blobs[d]).Some?
    then ChildDescriptors(l.parse(l.blobs[d]).value) else []
  }

  ghost predicate Lists(ds: seq<Descriptor>, x: Digest)
  {
    exists i :: 0 <= i < |ds| && ds[i].digest == x
  }

  /** What a manifest or index names, field by field: an index's manifests, an image's
      config and layers, and the subject of a referrer. */
  ghost predicate Names(doc: ManifestDoc, x: Digest)
  {
    || (exists i :: 0 <= i < |doc.manifests| && doc.manifests[i].digest == x)
    || (exists i :: 0 <= i < |doc.layers| && doc.layers[i].digest == x)
    || (x != "" && doc.config.digest == x)
    || (x != "" && doc.subject.Some? && doc.subject.value.digest == x)
  }

  lemma ChildrenAreNamed(doc: ManifestDoc, x: Digest)
    ensures Lists(ChildDescriptors(doc), x) <==> Names(doc, x)
  {
    var config := if doc.config.digest != "" then [doc.config] else [];
    var subject := if doc.subject.Some? && doc.subject.value.digest != "" then [doc.subject.value] else [];
    ListsConcat(doc.manifests + config + doc.layers, subject, x);
    ListsConcat(doc.manifests + config, doc.layers, x);
    ListsConcat(doc.manifests, config, x);
    OneListed(doc.config, x);
    if subject != [] { OneListed(doc.subject.value, x); }
  }

  lemma OneListed(d: Descriptor, x: Digest)
    ensures Lists([d], x) <==> d.digest == x
    ensures !Lists([], x)
  {
    assert [d][0] == d;
  }

  /** The object `d` is a manifest that can be read and parsed, and names `x`. */
  ghost predicate Edge(l: Layout, kind: Kind, d: Digest, x: Digest)
  {
    kind(d) && ':' in d && d in l.blobs && l.parse(l.blobs[d]).Some? && Names(l.parse(l.blobs[d]).value, x)
  }

  lemma EdgeIsListed(l: Layout, kind: Kind, d: Digest, x: Digest)
    ensures Edge(l, kind, d, x) <==> Lists(Children(l, kind, d), x)
  {
    hide ChildDescriptors, Names, Lists;
    if kind(d) && Readable(l, d) && l.parse(l.blobs[d]).Some? {
      ChildrenAreNamed(l.parse(l.blobs[d]).value, x);
    } else {
      OneListed(Descriptor("", "", ""), x);
    }
  }

  /** A path of edges, both ends included. */
  ghost predicate Path(l: Layout, kind: Kind, path: seq<Digest>)
  {
    forall i :: 0 < i < |path| ==> Edge(l, kind, path[i - 1], path[i])
  }

  ghost predicate Leads(l: Layout, kind: Kind, path: seq<Digest>, from: Digest, to: Digest)
  {
    path != [] && path[0] == from && path[|path| - 1] == to && Path(l, kind, path)
  }

  ghost predicate Reachable(l: Layout, kind: Kind, from: Digest, to: Digest)
  {
    exists path :: Leads(l, kind, path, from, to)
  }

  /** Whether a reachable object is a manifest depends on its digest alone: every
      descriptor of it says the same. */
  ghost predicate ByDigest(l: Layout, root: Descriptor, kind: Kind)
  {
    && IsManifestMediaType(root.mediaType) == kind(root.digest)
    && forall d :: Reachable(l, kind, root.digest, d) ==> Kinded(Children(l, kind, d), kind)
  }

  ghost predicate Kinded(ds: seq<Descriptor>, kind: Kind)
  {
    forall i :: 0 <= i < |ds| ==> IsManifestMediaType(ds[i].mediaType) == kind(ds[i].digest)
  }

  /** The object can be read, and parsed when it is a manifest. */
  predicate Sound(l: Layout, kind: Kind, d: Digest)
  {
    ':' in d && d in l.blobs && (kind(d) ==> l.parse(l.blobs[d]).Some?)
  }

  lemma ReachableStep(l: Layout, kind: Kind, from: Digest, d: Digest, x: Digest)
    requires Reachable(l, kind, from, d) && Lists(Children(l, kind, d), x)
    ensures Reachable(l, kind, from, x)
  {
    hide Edge, Lists, Children;
    EdgeIsListed(l, kind, d, x);
    var path :| Leads(l, kind, path, from, d);
    assert Leads(l, kind, path + [x], from, x);
  }

  /** Queued descriptors are reachable, and agree with `kind`. */
  ghost predicate Pending(l: Layout, root: Descriptor, kind: Kind, queue: seq<Descriptor>)
  {
    Kinded(queue, kind) && forall i :: 0 <= i < |queue| ==> Reachable(l, kind, root.digest, queue[i].digest)
  }

  lemma PendingStep(l: Layout, root: Descriptor, kind: Kind, queue: seq<Descriptor>)
    requires ByDigest(l, root, kind) && Pending(l, root, kind, queue) && queue != []
    ensures Pending(l, root, kind, queue[1..])
    ensures var next := Expand(l, queue[0]);
            && (next.Some? <==> Sound(l, kind, queue[0].digest))
            && (next.Some? ==> next.value == Children(l, kind, queue[0].digest) &&
                               Pending(l, root, kind, queue[1..] + next.value))
  {
    hide Reachable, ChildDescriptors, IsManifestMediaType, Readable;
    var d := queue[0];
    ExpandIsChildren(l, kind, d);
    var cs := Children(l, kind, d.digest);
    PendingChildren(l, root, kind, d);
    PendingConcat(l, root, kind, queue[1..], cs);
  }

  lemma ExpandIsChildren(l: Layout, kind: Kind, d: Descriptor)
    requires IsManifestMediaType(d.mediaType) == kind(d.digest)
    ensures Expand(l, d).Some? <==> Sound(l, kind, d.digest)
    ensures Expand(l, d).Some? ==> Expand(l, d).value == Children(l, kind, d.digest)
  {
    hide IsManifestMediaType, ChildDescriptors;
  }

  lemma PendingChildren(l: Layout, root: Descriptor, kind: Kind, d: Descriptor)
    requires ByDigest(l, root, kind) && Reachable(l, kind, root.digest, d.digest)
    ensures Pending(l, root, kind, Children(l, kind, d.digest))
  {
    hide Reachable, Children, IsManifestMediaType;
    var cs := Children(l, kind, d.digest);
    forall i | 0 <= i < |cs| ensures Reachable(l, kind, root.digest, cs[i].digest) {
      ReachableStep(l, kind, root.digest, d.digest, cs[i].digest);
    }
  }

  lemma PendingConcat(l: Layout, root: Descriptor, kind: Kind, a: seq<Descriptor>, b: seq<Descriptor>)
    requires Pending(l, root, kind, a) && Pending(l, root, kind, b)
    ensures Pending(l, root, kind, a + b)
  {
    hide Reachable, IsManifestMediaType;
    forall i | 0 <= i < |a + b|
      ensures Reachable(l, kind, root.digest, (a + b)[i].digest)
      ensures IsManifestMediaType((a + b)[i].mediaType) == kind((a + b)[i].digest)
    {
      assert (a + b)[i] == if i < |a| then a[i] else b[i - |a|];
    }
  }

  ghost predicate Stuck(l: Layout, root: Descriptor, kind: Kind)
  {
    exists d :: Reachable(l, kind, root.digest, d) && !Sound(l, kind, d)
  }

  /** Only reachable objects are visited, each as the kind it is, and the walk stops
      early only at a reachable object that cannot be read or parsed. */
  lemma {:induction false} WalkStaysReachable(l: Layout, root: Descriptor, kind: Kind,
                                              queue: seq<Descriptor>, seen: set<Digest>)
    requires ByDigest(l, root, kind) && Pending(l, root, kind, queue)
    ensures var t := Walk(l, queue, seen);
            && (!t.complete ==> Stuck(l, root, kind))
            && forall v :: v in t.visits ==>
                 Reachable(l, kind, root.digest, v.digest) && Sound(l, kind, v.digest) && v.manifest == kind(v.digest)
    decreases |l.blobs.Keys - seen|, |queue|
  {
    hide Reachable, ByDigest, Expand, Children, Sound, IsManifestMediaType;
    if queue != [] {
      var d := queue[0];
      PendingStep(l, root, kind, queue);
      if d.digest in seen {
        WalkStaysReachable(l, root, kind, queue[1..], seen);
      } else if Expand(l, d).Some? {
        Readables(l, d);
        Shrinks(l.blobs.Keys, seen, d.digest);
        WalkStaysReachable(l, root, kind, queue[1..] + Expand(l, d).value, seen + {d.digest});
      }
    }
  }

  lemma Readables(l: Layout, d: Descriptor)
    requires Expand(l, d).Some?
    ensures Readable(l, d.digest) && d.digest in l.blobs
  {
  }

  /** Every child of an object in `done` is in `done` or listed in `queue`. */
  ghost predicate Frontier(l: Layout, kind: Kind, done: set<Digest>, queue: seq<Descriptor>)
  {
    forall d, x :: d in done && Lists(Children(l, kind, d), x) ==> x in done || Lists(queue, x)
  }

  lemma FrontierSkip(l: Layout, kind: Kind, done: set<Digest>, queue: seq<Descriptor>)
    requires Frontier(l, kind, done, queue) && queue != [] && queue[0].digest in done
    ensures Frontier(l, kind, done, queue[1..])
  {
    forall d, x | d in done && Lists(Children(l, kind, d), x) ensures x in done || Lists(queue[1..], x) {
      if x !in done { ListsTail(queue, x); }
    }
  }

  lemma FrontierVisit(l: Layout, kind: Kind, done: set<Digest>, queue: seq<Descriptor>)
    requires Frontier(l, kind, done, queue) && queue != []
    ensures Frontier(l, kind, done + {queue[0].digest}, queue[1..] + Children(l, kind, queue[0].digest))
  {
    hide Children;
    var e := queue[0].digest;
    var cs := Children(l, kind, e);
    forall d, x | d in done + {e} && Lists(Children(l, kind, d), x)
      ensures x in done + {e} || Lists(queue[1..] + cs, x)
    {
      ListsConcat(queue[1..], cs, x);
      if d in done && x !in done && x != e { ListsTail(queue, x); }
    }
  }

  lemma ListsTail(ds: seq<Descriptor>, x: Digest)
    requires Lists(ds, x) && ds[0].digest != x
    ensures Lists(ds[1..], x)
  {
    var i :| 0 <= i < |ds| && ds[i].digest == x;
    assert ds[1..][i - 1] == ds[i];
  }

  lemma ListsConcat(a: seq<Descriptor>, b: seq<Descriptor>, x: Digest)
    ensures Lists(a + b, x) <==> Lists(a, x) || Lists(b, x)
  {
    if Lists(a, x) {
      var i :| 0 <= i < |a| && a[i].digest == x;
      assert (a + b)[i] == a[i];
    }
    if Lists(b, x) {
      var i :| 0 <= i < |b| && b[i].digest == x;
      assert (a + b)[|a| + i] == b[i];
    }
  }

  /** Every visit took its object as the kind that `kind` says. */
  ghost predicate TakenAs(visits: seq<Visit>, kind: Kind)
  {
    forall v :: v in visits ==> v.manifest == kind(v.digest)
  }

  lemma VisitTakenAs(l: Layout, d: Descriptor, t: Trip, kind: Kind)
    requires Expand(l, d).Some? && Readable(l, d.digest) && TakenAs(Cons(VisitOf(l, d), t).visits, kind)
    ensures Expand(l, d).value == Children(l, kind, d.digest) && TakenAs(t.visits, kind)
  {
    hide ChildDescriptors, IsManifestMediaType;
    assert VisitOf(l, d) in Cons(VisitOf(l, d), t).visits;
    ExpandIsChildren(l, kind, d);
  }

  /** A walk that gets to the end has taken in everything it was told of. */
  lemma {:induction false} WalkCloses(l: Layout, kind: Kind, queue: seq<Descriptor>, seen: set<Digest>)
    requires TakenAs(Walk(l, queue, seen).visits, kind) && Frontier(l, kind, seen, queue)
    requires Walk(l, queue, seen).complete
    ensures var done := seen + Digests(Walk(l, queue, seen).visits);
            && Frontier(l, kind, done, [])
            && forall x :: Lists(queue, x) ==> x in done
    decreases |l.blobs.Keys - seen|, |queue|
  {
    hide Expand, Children, IsManifestMediaType, Frontier, Digests, Lists, TakenAs;
    DigestsCons(Walk(l, queue, seen).visits);
    if queue != [] {
      var d := queue[0];
      if d.digest in seen {
        FrontierSkip(l, kind, seen, queue);
        WalkCloses(l, kind, queue[1..], seen);
        forall x | Lists(queue, x) ensures x == d.digest || Lists(queue[1..], x) { ListsHead(queue, x); }
      } else {
        Readables(l, d);
        Shrinks(l.blobs.Keys, seen, d.digest);
        VisitTakenAs(l, d, Walk(l, queue[1..] + Expand(l, d).value, seen + {d.digest}), kind);
        FrontierVisit(l, kind, seen, queue);
        var next := queue[1..] + Children(l, kind, d.digest);
        WalkCloses(l, kind, next, seen + {d.digest});
        forall x | Lists(queue, x) ensures x == d.digest || Lists(next, x) {
          ListsHead(queue, x);
          ListsConcat(queue[1..], Children(l, kind, d.digest), x);
        }
        CloseVisit(l, d, Walk(l, next, seen + {d.digest}), seen);
      }
    } else {
      NoneListed();
      assert seen + Digests([]) == seen;
    }
  }

  lemma NoneListed()
    ensures forall x :: !Lists([], x)
  {
  }

  lemma DigestsCons(vs: seq<Visit>)
    ensures vs == [] ==> Digests(vs) == {}
    ensures vs != [] ==> Digests(vs) == {vs[0].digest} + Digests(vs[1..])
  {
    if vs != [] { assert vs == [vs[0]] + vs[1..]; }
  }

  lemma CloseVisit(l: Layout, d: Descriptor, t: Trip, seen: set<Digest>)
    requires Readable(l, d.digest)
    ensures seen + Digests(Cons(VisitOf(l, d), t).visits) == seen + {d.digest} + Digests(t.visits)
  {
    DigestsCons(Cons(VisitOf(l, d), t).visits);
  }

  lemma ListsHead(ds: seq<Descriptor>, x: Digest)
    requires Lists(ds, x)
    ensures ds[0].digest == x || Lists(ds[1..], x)
  {
    if ds[0].digest != x { ListsTail(ds, x); }
  }

  lemma {:induction false} ClosedHoldsPath(l: Layout, kind: Kind, done: set<Digest>, path: seq<Digest>, i: nat)
    requires Frontier(l, kind, done, []) && Path(l, kind, path) && i < |path| && path[0] in done
    ensures path[i] in done
  {
    hide Children, Edge, Lists;
    if i > 0 {
      ClosedHoldsPath(l, kind, done, path, i - 1);
      EdgeIsListed(l, kind, path[i - 1], path[i]);
      NoneListed();
    }
  }

  /** The walk from a manifest gets to the end exactly when everything reachable from it
      can be read and parsed, and then it has visited exactly the reachable digests, each
      once and as the kind it is: manifests and blobs add up to their number. */
  lemma WalkIsExact(l: Layout, root: Descriptor, kind: Kind)
    requires ByDigest(l, root, kind)
    ensures var t := Walk(l, [root], {});
            && (t.complete <==> forall d :: Reachable(l, kind, root.digest, d) ==> Sound(l, kind, d))
            && (t.complete ==> forall d :: d in Digests(t.visits) <==> Reachable(l, kind, root.digest, d))
            && (forall v :: v in t.visits ==> v.manifest == kind(v.digest))
            && Manifests(t.visits) + Blobs(t.visits) == |Digests(t.visits)|
            && Manifests(t.visits) == |set d | d in Digests(t.visits) && kind(d)|
            && Blobs(t.visits) == |set d | d in Digests(t.visits) && !kind(d)|
  {
    hide ByDigest, Sound, Children, IsManifestMediaType, Digests, Frontier, Path;
    var t := Walk(l, [root], {});
    RootPending(l, root, kind);
    WalkStaysReachable(l, root, kind, [root], {});
    VisitsAreDistinct(l, [root], {});
    CountsAddUp(t.visits);
    InDigests(t.visits);
    CountsByKind(t.visits, kind);
    if t.complete {
      ReachableIsVisited(l, root, kind);
    }
  }

  /** A walk that gets to the end visits everything reachable under the kinds it took. */
  lemma ReachableIsVisited(l: Layout, root: Descriptor, kind: Kind)
    requires Walk(l, [root], {}).complete && TakenAs(Walk(l, [root], {}).visits, kind)
    ensures forall d :: Reachable(l, kind, root.digest, d) ==> d in Digests(Walk(l, [root], {}).visits)
  {
    hide Walk, Digests, Frontier, Path, Children;
    RootListed(l, root, kind);
    WalkCloses(l, kind, [root], {});
    var done := {} + Digests(Walk(l, [root], {}).visits);
    forall d | Reachable(l, kind, root.digest, d) ensures d in Digests(Walk(l, [root], {}).visits) {
      var path :| Leads(l, kind, path, root.digest, d);
      ClosedHoldsPath(l, kind, done, path, |path| - 1);
    }
  }

  lemma RootListed(l: Layout, root: Descriptor, kind: Kind)
    ensures Reachable(l, kind, root.digest, root.digest) && Frontier(l, kind, {}, [root]) && Lists([root], root.digest)
  {
    assert Leads(l, kind, [root.digest], root.digest, root.digest);
    assert [root][0] == root;
  }

  lemma InDigests(vs: seq<Visit>)
    ensures forall d :: d in Digests(vs) <==> exists v :: v in vs && v.digest == d
  {
  }

  lemma RootPending(l: Layout, root: Descriptor, kind: Kind)
    requires ByDigest(l, root, kind)
    ensures Pending(l, root, kind, [root])
  {
    RootListed(l, root, kind);
  }

  // ------------------------------------------------- when media types disagree

  /** Every descriptor taken off the queue, in order, those of seen objects included. */
  function Met(l: Layout, queue: seq<Descriptor>, seen: set<Digest>): seq<Descriptor>
    decreases |l.blobs.Keys - seen|, |queue|
  {
    if queue == [] then []
    else
      var d := queue[0];
      if d.digest in seen then [d] + Met(l, queue[1..], seen)
      else
        var next := Expand(l, d);
        if next.None? then [d]
        else
          Shrinks(l.blobs.Keys, seen, d.digest);
          [d] + Met(l, queue[1..] + next.value, seen + {d.digest})
  }

  /** `met[i]` is the first descriptor of its digest, and the visit was made by it. */
  predicate MadeBy(v: Visit, met: seq<Descriptor>, i: int)
  {
    && 0 <= i < |met| && met[i].digest == v.digest && v.manifest == IsManifestMediaType(met[i].mediaType)
    && forall j :: 0 <= j < i ==> met[j].digest != v.digest
  }

  ghost predicate FirstMade(v: Visit, met: seq<Descriptor>) { exists i :: MadeBy(v, met, i) }

  lemma MadeByLater(v: Visit, d: Descriptor, met: seq<Descriptor>, i: int)
    requires MadeBy(v, met, i) && d.digest != v.digest
    ensures MadeBy(v, [d] + met, i + 1)
  {
  }

  /** The first descriptor met of a digest decides as what its object is taken. */
  lemma {:induction false} FirstMetDecides(l: Layout, queue: seq<Descriptor>, seen: set<Digest>, v: Visit)
    requires v in Walk(l, queue, seen).visits
    ensures v.digest !in seen && FirstMade(v, Met(l, queue, seen))
    decreases |l.blobs.Keys - seen|, |queue|
  {
    hide Expand, IsManifestMediaType, MadeBy;
    var d := queue[0];
    if d.digest in seen {
      assert Met(l, queue, seen) == [d] + Met(l, queue[1..], seen);
      FirstMetDecides(l, queue[1..], seen, v);
      var i :| MadeBy(v, Met(l, queue[1..], seen), i);
      MadeByLater(v, d, Met(l, queue[1..], seen), i);
    } else {
      Readables(l, d);
      Shrinks(l.blobs.Keys, seen, d.digest);
      var queue', seen' := queue[1..] + Expand(l, d).value, seen + {d.digest};
      var rest := Met(l, queue', seen');
      assert Met(l, queue, seen) == [d] + rest;
      if v == VisitOf(l, d) {
        MadeByFirst(l, d, rest);
      } else {
        FirstMetDecides(l, queue', seen', v);
        var i :| MadeBy(v, rest, i);
        MadeByLater(v, d, rest, i);
      }
    }
  }

  lemma MadeByFirst(l: Layout, d: Descriptor, met: seq<Descriptor>)
    requires Readable(l, d.digest)
    ensures MadeBy(VisitOf(l, d), [d] + met, 0)
  {
  }

  /** The kinds a walk took its objects as. */
  ghost function KindMet(visits: seq<Visit>): Kind
  {
    d => exists i :: 0 <= i < |visits| && visits[i].digest == d && visits[i].manifest
  }

  lemma KindMetIsTaken(l: Layout, queue: seq<Descriptor>, seen: set<Digest>)
    ensures var vs := Walk(l, queue, seen).visits; TakenAs(vs, KindMet(vs))
  {
    hide Walk, Met, IsManifestMediaType;
    var vs, met := Walk(l, queue, seen).visits, Met(l, queue, seen);
    forall v, w | v in vs && w in vs && v.digest == w.digest ensures v.manifest == w.manifest {
      FirstMetDecides(l, queue, seen, v);
      FirstMetDecides(l, queue, seen, w);
      var i :| MadeBy(v, met, i);
      var j :| MadeBy(w, met, j);
      assert i == j;
    }
    forall v | v in vs ensures v.manifest == KindMet(vs)(v.digest) {
      var i :| 0 <= i < |vs| && vs[i] == v;
    }
  }

  /** Visits stay within what is reachable under the kinds the walk took. */
  lemma {:induction false} WalkReaches(l: Layout, from: Digest, kind: Kind, queue: seq<Descriptor>, seen: set<Digest>)
    requires TakenAs(Walk(l, queue, seen).visits, kind)
    requires forall i :: 0 <= i < |queue| ==> Reachable(l, kind, from, queue[i].digest)
    ensures forall v :: v in Walk(l, queue, seen).visits ==> Reachable(l, kind, from, v.digest)
    decreases |l.blobs.Keys - seen|, |queue|
  {
    hide Reachable, Expand, Children, TakenAs, IsManifestMediaType;
    if queue != [] {
      var d := queue[0];
      if d.digest in seen {
        WalkReaches(l, from, kind, queue[1..], seen);
      } else if Expand(l, d).Some? {
        Readables(l, d);
        Shrinks(l.blobs.Keys, seen, d.digest);
        VisitTakenAs(l, d, Walk(l, queue[1..] + Expand(l, d).value, seen + {d.digest}), kind);
        var cs := Children(l, kind, d.digest);
        QueueReaches(l, from, kind, queue);
        WalkReaches(l, from, kind, queue[1..] + cs, seen + {d.digest});
      }
    }
  }

  lemma QueueReaches(l: Layout, from: Digest, kind: Kind, queue: seq<Descriptor>)
    requires queue != [] && forall i :: 0 <= i < |queue| ==> Reachable(l, kind, from, queue[i].digest)
    ensures var q := queue[1..] + Children(l, kind, queue[0].digest);
            forall i :: 0 <= i < |q| ==> Reachable(l, kind, from, q[i].digest)
  {
    hide Reachable, Children;
    var cs := Children(l, kind, queue[0].digest);
    var q := queue[1..] + cs;
    forall i | 0 <= i < |q| ensures Reachable(l, kind, from, q[i].digest) {
      if i < |queue| - 1 {
        assert q[i] == queue[i + 1];
      } else {
        assert q[i] == cs[i - (|queue| - 1)];
        ChildReachable(l, kind, from, queue[0].digest, i - (|queue| - 1));
      }
    }
  }

  lemma ChildReachable(l: Layout, kind: Kind, from: Digest, d: Digest, i: nat)
    requires Reachable(l, kind, from, d) && i < |Children(l, kind, d)|
    ensures Reachable(l, kind, from, Children(l, kind, d)[i].digest)
  {
    hide Children;
    ReachableStep(l, kind, from, d, Children(l, kind, d)[i].digest);
  }

  /** On every layout, media types in agreement or not: a walk that gets to the end has
      visited exactly what is reachable when each object is what the first descriptor met
      of it says. */
  lemma WalkFollowsFirstMet(l: Layout, root: Descriptor)
    requires Walk(l, [root], {}).complete
    ensures var vs := Walk(l, [root], {}).visits;
            && (forall d :: d in Digests(vs) <==> Reachable(l, KindMet(vs), root.digest, d))
            && (forall v :: v in vs ==> FirstMade(v, Met(l, [root], {})))
            && Manifests(vs) + Blobs(vs) == |Digests(vs)|
  {
    hide Walk, Met, Reachable, Digests, FirstMade, KindMet;
    var vs := Walk(l, [root], {}).visits;
    KindMetIsTaken(l, [root], {});
    RootListed(l, root, KindMet(vs));
    WalkReaches(l, root.digest, KindMet(vs), [root], {});
    ReachableIsVisited(l, root, KindMet(vs));
    InDigests(vs);
    VisitsAreDistinct(l, [root], {});
    CountsAddUp(vs);
    forall v | v in vs ensures FirstMade(v, Met(l, [root], {})) { FirstMetDecides(l, [root], {}, v); }
  }

  const MANIFEST := "application/vnd.oci.image.manifest.v1+json"

  /** A root that lists "x:1" first as a layer and then as a manifest; "x:1" lists "x:2". */
  const TwoFaced: Layout :=
    Layout([Descriptor(MANIFEST, "x:0", "")], map["x:0" := [0], "x:1" := [1], "x:2" := [2]],
           (body: Bytes) =>
             if body == [0] then
               Some(ManifestDoc([], Descriptor("", "", ""),
                                [Descriptor("layer", "x:1", ""), Descriptor(MANIFEST, "x:1", "")], None))
             else if body == [1] then
               Some(ManifestDoc([], Descriptor("", "", ""), [Descriptor("layer", "x:2", "")], None))
             else None)

  /** The media type must depend on the digest: otherwise the first descriptor met decides,
      and what the object lists as a manifest is never visited. */
  lemma FirstDescriptorDecides()
    ensures var t := Walk(TwoFaced, TwoFaced.index, {});
            t.complete && Digests(t.visits) == {"x:0", "x:1"}
    ensures Reachable(TwoFaced, d => d == "x:0" || d == "x:1", "x:0", "x:2")
  {
    var l, layer, again := TwoFaced, Descriptor("layer", "x:1", ""), Descriptor(MANIFEST, "x:1", "");
    var root := l.index[0];
    TwoFacedWalk(root, layer, again);
    DigestsCons([VisitOf(l, root), VisitOf(l, layer)]);
    DigestsCons([VisitOf(l, layer)]);
    DigestsCons([]);
    TwoFacedPath(d => d == "x:0" || d == "x:1");
  }

  lemma TwoFacedWalk(root: Descriptor, layer: Descriptor, again: Descriptor)
    requires root == TwoFaced.index[0] && layer == Descriptor("layer", "x:1", "") && again == Descriptor(MANIFEST, "x:1", "")
    ensures Readable(TwoFaced, root.digest) && Readable(TwoFaced, layer.digest)
    ensures Walk(TwoFaced, [root], {}) == Trip([VisitOf(TwoFaced, root), VisitOf(TwoFaced, layer)], true)
  {
    var l := TwoFaced;
    assert Expand(l, root).value == [layer, again];
    assert Expand(l, layer).value == [];
    WalkVisits(l, root, [], {}, [layer, again]);
    WalkVisits(l, layer, [again], {"x:0"}, []);
    assert [root] + [] == [root] && [] + [layer, again] == [layer] + [again] && [again] + [] == [again];
    assert {} + {"x:0"} == {"x:0"} && {"x:0"} + {"x:1"} == {"x:0", "x:1"};
    assert [again][1..] == [];
    assert Walk(l, [again], {"x:0", "x:1"}) == Walk(l, [], {"x:0", "x:1"});
  }

  lemma WalkVisits(l: Layout, d: Descriptor, rest: seq<Descriptor>, seen: set<Digest>, next: seq<Descriptor>)
    requires d.digest !in seen && Expand(l, d) == Some(next)
    ensures Readable(l, d.digest)
    ensures Walk(l, [d] + rest, seen) == Cons(VisitOf(l, d), Walk(l, rest + next, seen + {d.digest}))
  {
    assert ([d] + rest)[1..] == rest;
  }

  lemma TwoFacedPath(kind: Kind)
    requires kind("x:0") && kind("x:1")
    ensures Reachable(TwoFaced, kind, "x:0", "x:2")
  {
    var l := TwoFaced;
    assert Names(l.parse([0]).value, "x:1") by { assert l.parse([0]).value.layers[0].digest == "x:1"; }
    assert Names(l.parse([1]).value, "x:2") by { assert l.parse([1]).value.layers[0].digest == "x:2"; }
    assert Edge(l, kind, "x:0", "x:1") && Edge(l, kind, "x:1", "x:2");
    assert Leads(l, kind, ["x:0", "x:1", "x:2"], "x:0", "x:2");
  }

  /** The kinds of object that are followed: OCI and Docker, single image and index. */
  lemma ManifestKinds(mt: string)
    ensures IsManifestMediaType(mt) <==>
            mt in {"application/vnd.oci.image.index.v1+json", "application/vnd.oci.image.manifest.v1+json",
                   "application/vnd.docker.distribution.manifest.list.v2+json",
                   "application/vnd.docker.distribution.manifest.v2+json"}
  {
  }

  /** Of visits to different digests, as many are to manifests as there are manifests. */
  lemma {:induction false} CountsByKind(vs: seq<Visit>, kind: Kind)
    requires TakenAs(vs, kind) && |Digests(vs)| == |vs|
    ensures Manifests(vs) == |set d | d in Digests(vs) && kind(d)|
    ensures Blobs(vs) == |set d | d in Digests(vs) && !kind(d)|
  {
    hide Digests, Manifests, Blobs;
    if vs == [] {
      DigestsCons(vs);
      NoneCounted();
    } else {
      var m := |vs| - 1;
      var rest, v := vs[..m], vs[m];
      LastDigest(vs);
      CountsByKind(rest, kind);
      LastCounted(vs);
      assert v in vs && v.manifest == kind(v.digest);
      OneMore(Digests(rest), v.digest, kind);
    }
  }

  lemma OneMore(ds: set<Digest>, e: Digest, kind: Kind)
    requires e !in ds
    ensures |set d | d in ds + {e} && kind(d)| == |set d | d in ds && kind(d)| + (if kind(e) then 1 else 0)
    ensures |set d | d in ds + {e} && !kind(d)| == |set d | d in ds && !kind(d)| + (if kind(e) then 0 else 1)
  {
    var a, b := set d | d in ds && kind(d), set d | d in ds && !kind(d);
    if kind(e) {
      assert (set d | d in ds + {e} && kind(d)) == a + {e} && (set d | d in ds + {e} && !kind(d)) == b;
    } else {
      assert (set d | d in ds + {e} && !kind(d)) == b + {e} && (set d | d in ds + {e} && kind(d)) == a;
    }
  }

  lemma NoneCounted()
    ensures Manifests([]) == Blobs([]) == Size([]) == 0
  {
  }

  lemma LastCounted(vs: seq<Visit>)
    requires vs != []
    ensures var v, rest := vs[|vs| - 1], vs[..|vs| - 1];
            && Manifests(vs) == Manifests(rest) + (if v.manifest then 1 else 0)
            && Blobs(vs) == Blobs(rest) + (if v.manifest then 0 else 1)
            && Size(vs) == Size(rest) + |v.body|
  {
  }

  lemma LastDigest(vs: seq<Visit>)
    requires vs != [] && |Digests(vs)| == |vs|
    ensures var v, rest := vs[|vs| - 1], vs[..|vs| - 1];
            Digests(vs) == Digests(rest) + {v.digest} && v.digest !in Digests(rest) && |Digests(rest)| == |rest|
  {
    var v, rest := vs[|vs| - 1], vs[..|vs| - 1];
    assert vs == rest + [v];
    assert Digests(vs) == Digests(rest) + {v.digest};
    DigestsBounded(rest);
  }

  lemma {:induction false} DigestsBounded(vs: seq<Visit>)
    ensures |Digests(vs)| <= |vs|
  {
    DigestsCons(vs);
    if vs != [] { DigestsBounded(vs[1..]); }
  }

  /** A layout of one manifest is asked no questions; in one of several a tag takes the first
      annotation that is the tag or ends in a colon and the tag; a digest always decides. */
  lemma WhatIsPicked(index: seq<Descriptor>, tag: string, digest: Digest)
    ensures digest == "" && |index| == 1 ==> PickManifest(index, tag, digest) == Some(index[0])
    ensures digest != "" && PickManifest(index, tag, digest).Some? ==> PickManifest(index, tag, digest).value.digest == digest
    ensures digest == "" && |index| != 1 && PickManifest(index, tag, digest).Some? ==>
              AnnotatedFor(PickManifest(index, tag, digest).value.refName, tag)
    ensures PickManifest(index, tag, digest).None? ==> forall i :: 0 <= i < |index| ==>
              (digest == "" ==> !AnnotatedFor(index[i].refName, tag)) && (digest != "" ==> index[i].digest != digest)
  {
    forall d: Descriptor ensures Wanted(d, false, tag, "") <==> AnnotatedFor(d.refName, tag) { AnnotationIs(d, tag); }
  }

  ghost predicate AnnotatedFor(refName: string, tag: string)
  {
    refName != "" && (refName == tag || exists before: string :: refName == before + ":" + tag)
  }

  lemma AnnotationIs(d: Descriptor, tag: string)
    ensures Wanted(d, false, tag, "") <==> AnnotatedFor(d.refName, tag)
  {
    var s, suffix := d.refName, ":" + tag;
    if HasSuffix(s, suffix) { assert s == s[..|s| - |suffix|] + ":" + tag; }
    if before: string :| s == before + ":" + tag {
      assert s == before + suffix;
      assert s[|s| - |suffix|..] == suffix;
    }
  }

  /** Breadth first: what is queued is met, in its order, before anything it leads to. */
  lemma {:induction false} QueueIsMetFirst(l: Layout, queue: seq<Descriptor>, seen: set<Digest>)
    requires Walk(l, queue, seen).complete
    ensures queue <= Met(l, queue, seen)
    decreases |l.blobs.Keys - seen|, |queue|
  {
    hide Expand;
    if queue != [] {
      var d := queue[0];
      if d.digest in seen {
        QueueIsMetFirst(l, queue[1..], seen);
        assert Met(l, queue, seen) == [d] + Met(l, queue[1..], seen);
      } else {
        Readables(l, d);
        Shrinks(l.blobs.Keys, seen, d.digest);
        var queue', seen' := queue[1..] + Expand(l, d).value, seen + {d.digest};
        QueueIsMetFirst(l, queue', seen');
        assert Met(l, queue, seen) == [d] + Met(l, queue', seen');
        assert queue[1..] <= queue';
      }
      assert queue == [d] + queue[1..];
    }
  }
}
