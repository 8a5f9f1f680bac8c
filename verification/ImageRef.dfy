/** Two parsers of image references: the one that warms the cache through the mirror and
    the one that seeds it from a layout. They must name the same cache key. */
module ImageRef {
  import opened Text

  const HUB := "docker.io/"
  const INDEX_HUB := "index.docker.io/"
  const LIBRARY := "library/"

  // --------------------------------------------------------- the prefetch parser

  datatype Warm = Warm(path: string, tag: string) | WarmError

  function FirstSegment(s: string): string
  {
    var i := Index(s, '/');
    if i >= 0 then s[..i] else s
  }

  /** Hosts carry a dot or a port, organisation names do not. */
  predicate IsRegistryHost(seg: string) { '.' in seg || ':' in seg }

  /** strings.Split(s, "/") */
  function Segments(s: string): (r: seq<string>)
    ensures |r| >= 1 && r[0] == FirstSegment(s)
    ensures |r| >= 2 <==> '/' in s
  {
    var i := Index(s, '/');
    if i < 0 then [s] else [s[..i]] + Segments(s[i + 1..])
  }

  predicate HasBlank(segs: seq<string>)
  {
    exists i :: 0 <= i < |segs| && TrimSpace(segs[i]) == ""
  }

  /** The repository and tag before any host is dropped. */
  function SplitTag(ref: string): (r: (string, string))
  {
    var i := LastIndex(ref, ':');
    if i > 0 && '/' !in ref[i + 1..] && ('/' in ref[..i] || '.' !in ref[..i])
    then (ref[..i], ref[i + 1..]) else (ref, "latest")
  }

  /** Docker Hub is the one host that is dropped, and only once. */
  function DropHub(repo: string): string
  {
    var i := Index(repo, '/');
    if i >= 0 && (repo[..i] == "docker.io" || repo[..i] == "index.docker.io") then repo[i + 1..] else repo
  }

  function ParseImageRef(ref: string): Warm
  {
    if TrimSpace(ref) == "" then WarmError
    else
      var (whole, tag) := SplitTag(ref);
      var dropped := DropHub(whole);
      var repo := if !IsRegistryHost(FirstSegment(dropped)) && '/' !in dropped then LIBRARY + dropped else dropped;
      var segs := Segments(repo);
      if HasBlank(segs) then WarmError
      else if IsRegistryHost(segs[0]) && |segs| < 2 then WarmError
      else if repo == "" || tag == "" then WarmError
      else Warm(repo, tag)
  }

  // ----------------------------------------------------------- the import parser

  datatype Target = Target(name: string, tag: string, digest: string) | TargetError

  function ParseTarget(target: string): Target
  {
    var t := TrimSpace(target);
    if t == "" then TargetError
    else
      var at := Index(t, '@');
      if at >= 0 then
        if ':' !in t[at + 1..] then TargetError else NameTarget(t[..at], "", t[at + 1..])
      else
        var colon := LastIndex(t, ':');
        if colon > LastIndex(t, '/') then NameTarget(t[..colon], t[colon + 1..], "")
        else NameTarget(t, "latest", "")
  }

  function NameTarget(raw: string, tag: string, digest: string): Target
  {
    var name := TrimPrefix(TrimPrefix(raw, HUB), INDEX_HUB);
    if name == "" then TargetError
    else Target(if '/' in name then name else LIBRARY + name, tag, digest)
  }

  // -------------------------------------------------------------- agreement

  /** Both parsers split off the same tag, whenever the warm-up goes on to succeed. */
  lemma SameSplit(t: string)
    requires '@' !in t && Trimmed(t) && ParseImageRef(t).Warm?
    ensures var (whole, tag) := SplitTag(t);
            ParseTarget(t) == NameTarget(whole, tag, "") && tag != "" && (whole == t || t == whole + ":" + tag)
            && (whole == t || '/' !in tag)
  {
    hide NameTarget, LastIndex, ParseImageRef, ParseTarget;
    var i := LastIndex(t, ':');
    WarmHasTag(t);
    TargetSplit(t);
    SlashAfterColon(t);
    assert i >= 0 ==> t == t[..i] + ":" + t[i + 1..];
    if i >= 0 && '/' !in t[i + 1..] && !(i > 0 && ('/' in t[..i] || '.' !in t[..i])) {
      HostAlone(t, i);
    }
  }

  lemma WarmHasTag(t: string)
    requires Trimmed(t) && ParseImageRef(t).Warm?
    ensures t != "" && SplitTag(t).1 != ""
  {
    hide Segments, DropHub, LastIndex, IsRegistryHost, TrimSpace;
  }

  lemma TargetSplit(t: string)
    requires '@' !in t && Trimmed(t) && t != ""
    ensures var colon := LastIndex(t, ':');
            ParseTarget(t) ==
            if colon > LastIndex(t, '/') then NameTarget(t[..colon], t[colon + 1..], "") else NameTarget(t, "latest", "")
  {
    hide NameTarget, LastIndex, TrimSpace, Index;
  }

  lemma SlashAfterColon(t: string)
    ensures var i := LastIndex(t, ':'); i >= 0 ==> (LastIndex(t, '/') < i <==> '/' !in t[i + 1..])
    ensures LastIndex(t, ':') < 0 ==> LastIndex(t, ':') <= LastIndex(t, '/')
  {
    hide LastIndex;
    var i, slash := LastIndex(t, ':'), LastIndex(t, '/');
    if i >= 0 && slash >= 0 {
      assert t[slash] == '/' && t[i] == ':';
      assert slash > i ==> t[i + 1..][slash - i - 1] == '/';
      assert forall j :: slash < j < |t| ==> t[slash + 1..][j - slash - 1] == t[j] && t[j] != '/';
    }
  }

  /** What looks like a host with a port and no repository is refused. */
  lemma HostAlone(t: string, i: nat)
    requires i < |t| && t[i] == ':' && '/' !in t[i + 1..] && (i == 0 || '/' !in t[..i])
    requires SplitTag(t) == (t, "latest")
    ensures ParseImageRef(t) == WarmError
  {
    assert t == t[..i] + [':'] + t[i + 1..];
    assert '/' !in t;
    assert Index(t, '/') < 0 && DropHub(t) == t && FirstSegment(t) == t;
  }

  lemma PrefixIsFirst(s: string, host: string)
    requires '/' !in host
    ensures HasPrefix(s, host + "/") <==> Index(s, '/') >= 0 && s[..Index(s, '/')] == host
    ensures HasPrefix(s, host + "/") ==> s[Index(s, '/') + 1..] == s[|host| + 1..]
  {
    var i := Index(s, '/');
    assert i >= 0 ==> s == s[..i] + "/" + s[i + 1..];
    assert i >= 0 ==> forall j :: 0 <= j < i ==> s[..i][j] != '/';
    assert forall j :: 0 <= j < |host| ==> host[j] != '/';
    if HasPrefix(s, host + "/") {
      assert s[|host|] == '/' && s[..|host|] == host;
      assert forall j :: 0 <= j < |host| ==> s[j] == s[..|host|][j];
    }
  }

  lemma DropAgrees(whole: string)
    ensures var twice := HasPrefix(whole, HUB + INDEX_HUB);
            TrimPrefix(TrimPrefix(whole, HUB), INDEX_HUB) ==
            if twice then whole[|HUB| + |INDEX_HUB|..] else DropHub(whole)
    ensures HasPrefix(whole, HUB + INDEX_HUB) ==>
              DropHub(whole) == INDEX_HUB + whole[|HUB| + |INDEX_HUB|..]
  {
    hide Index;
    PrefixIsFirst(whole, "docker.io");
    PrefixIsFirst(whole, "index.docker.io");
    assert "docker.io" + "/" == HUB && "index.docker.io" + "/" == INDEX_HUB;
    if HasPrefix(whole, HUB + INDEX_HUB) {
      assert whole == HUB + INDEX_HUB + whole[|HUB| + |INDEX_HUB|..];
      assert HUB <= whole;
      assert whole[|HUB|..] == INDEX_HUB + whole[|HUB| + |INDEX_HUB|..];
    } else if HUB <= whole {
      assert whole == HUB + whole[|HUB|..];
      assert !(INDEX_HUB <= whole[|HUB|..]);
    } else if INDEX_HUB <= whole {
      assert whole[0] == 'i';
    }
  }

  /** A reference that can be warmed is seeded under the same repository and tag exactly
      when it carries no digest and does not name Docker Hub twice over. */
  lemma WarmedAndSeededAgree(raw: string)
    requires ParseImageRef(TrimSpace(raw)).Warm?
    ensures var t := TrimSpace(raw);
            var w := ParseImageRef(t);
            ParseTarget(raw) == Target(w.path, w.tag, "") <==>
            '@' !in t && !HasPrefix(t, HUB + INDEX_HUB)
  {
    hide Index, LastIndex, Segments, TrimSpace, TrimPrefix;
    var t := TrimSpace(raw);
    TrimTwice(raw);
    if '@' in t {
      DigestHasNoTag(raw);
    } else {
      SameSplit(t);
      var (whole, tag) := SplitTag(t);
      DropAgrees(whole);
      PrefixOfWhole(t, whole, tag);
      WarmShape(t);
    }
  }

  lemma TrimTwice(raw: string)
    ensures TrimSpace(TrimSpace(raw)) == TrimSpace(raw) && Trimmed(TrimSpace(raw))
    ensures ParseTarget(TrimSpace(raw)) == ParseTarget(raw)
  {
    hide TrimSpace, Index, LastIndex, NameTarget;
    assert TrimSpace(TrimSpace(raw)) == TrimSpace(raw);
  }

  lemma DigestHasNoTag(raw: string)
    requires '@' in TrimSpace(raw) && ParseImageRef(TrimSpace(raw)).Warm?
    ensures var w := ParseImageRef(TrimSpace(raw)); ParseTarget(raw) != Target(w.path, w.tag, "")
  {
    hide TrimSpace, Segments;
  }

  lemma PrefixOfWhole(t: string, whole: string, tag: string)
    requires whole == t || (t == whole + ":" + tag && '/' !in tag)
    ensures HasPrefix(t, HUB + INDEX_HUB) <==> HasPrefix(whole, HUB + INDEX_HUB)
  {
    var p := HUB + INDEX_HUB;
    assert p[|p| - 1] == '/';
    if whole != t {
      assert forall j :: |whole| < j < |t| ==> t[j] == tag[j - |whole| - 1] && t[j] != '/';
      assert t[|whole|] == ':';
    }
  }

  /** What a successful warm-up found, in terms of the repository with the hub dropped. */
  lemma WarmShape(t: string)
    requires ParseImageRef(t).Warm?
    ensures var dropped := DropHub(SplitTag(t).0);
            && dropped != ""
            && ParseImageRef(t).path == (if '/' in dropped then dropped else LIBRARY + dropped)
            && ParseImageRef(t).tag == SplitTag(t).1
  {
    hide Index, LastIndex, TrimSpace, HasBlank, DropHub, SplitTag;
    var dropped := DropHub(SplitTag(t).0);
    if dropped == "" { EmptyRepo(dropped); }
  }

  lemma EmptyRepo(s: string)
    requires s == ""
    ensures HasBlank(Segments(LIBRARY + s))
    ensures !IsRegistryHost(FirstSegment(s))
  {
    hide TrimLeft, TrimRight;
    var r := LIBRARY + s;
    assert r == LIBRARY && r[7] == '/' && '/' !in r[..7];
    assert Index(r, '/') == 7;
    assert r[8..] == "";
    assert Index("", '/') < 0;
    var segs := Segments(r);
    assert segs == [r[..7]] + Segments(r[8..]);
    assert segs[1] == Segments("")[0] == "";
    assert TrimSpace(segs[1]) == "";
  }

  // ------------------------------------------------------- what a target names

  /** Docker Hub goes, once under each of its names, and a bare name is a library image. */
  predicate NamesRepo(raw: string, name: string)
  {
    var a := if HasPrefix(raw, "docker.io/") then raw[10..] else raw;
    var b := if HasPrefix(a, "index.docker.io/") then a[16..] else a;
    b != "" && name == if '/' in b then b else "library/" + b
  }

  /** A target is `repository@digest`, cut at the first '@', with a colon in the digest; or
      `repository:tag`, cut at the last colon if no slash follows it; or a repository alone,
      whose tag is then "latest". Nothing else is one. */
  lemma TargetMeans(target: string, name: string, tag: string, digest: string)
    ensures ParseTarget(target) == Target(name, tag, digest) <==>
            || DigestForm(TrimSpace(target), name, tag, digest)
            || TagForm(TrimSpace(target), name, tag, digest)
            || BareForm(TrimSpace(target), name, tag, digest)
  {
    hide *;
    var t := TrimSpace(target);
    TargetCases(target, t);
    if t == "" {
      EmptyNames(name, tag, digest);
    } else if '@' in t {
      WithDigest(t, name, tag, digest);
    } else if LastIndex(t, ':') > LastIndex(t, '/') {
      WithTag(t, name, tag, digest);
    } else {
      WithNeither(t, name, tag, digest);
    }
  }

  /** The branches of ParseTarget. */
  lemma TargetCases(target: string, t: string)
    requires t == TrimSpace(target)
    ensures t == "" ==> ParseTarget(target) == TargetError
    ensures '@' in t ==>
              var at := Index(t, '@');
              at >= 0 &&
              ParseTarget(target) == if ':' in t[at + 1..] then NameTarget(t[..at], "", t[at + 1..]) else TargetError
    ensures t != "" && '@' !in t ==>
              var colon := LastIndex(t, ':');
              ParseTarget(target) ==
              if colon > LastIndex(t, '/') then NameTarget(t[..colon], t[colon + 1..], "") else NameTarget(t, "latest", "")
  {
    hide TrimSpace, Index, LastIndex, NameTarget;
  }

  lemma NameTargetIs(raw: string, t: string, d: string, name: string, tag: string, digest: string)
    ensures NameTarget(raw, t, d) == Target(name, tag, digest) <==> t == tag && d == digest && NamesRepo(raw, name)
  {
    assert |HUB| == 10 && |INDEX_HUB| == 16;
  }

  lemma EmptyNames(name: string, tag: string, digest: string)
    ensures !DigestForm("", name, tag, digest) && !TagForm("", name, tag, digest) && !BareForm("", name, tag, digest)
  {
    forall raw, c, b ensures !CutAt("", c, raw, b) { assert |raw + [c] + b| > 0; }
  }

  lemma NoDigestForm(t: string, name: string, tag: string, digest: string)
    requires '@' !in t
    ensures !DigestForm(t, name, tag, digest)
  {
    forall raw ensures !CutAt(t, '@', raw, digest) { assert (raw + ['@'] + digest)[|raw|] == '@'; }
  }

  lemma WithDigest(t: string, name: string, tag: string, digest: string)
    requires '@' in t
    ensures var at := Index(t, '@');
            && at >= 0
            && (':' in t[at + 1..] && NameTarget(t[..at], "", t[at + 1..]) == Target(name, tag, digest) <==>
                  DigestForm(t, name, tag, digest))
    ensures !TagForm(t, name, tag, digest) && !BareForm(t, name, tag, digest)
  {
    hide Index, NameTarget, NamesRepo, DigestOf, CutAt;
    var at := Index(t, '@');
    NameTargetIs(t[..at], "", t[at + 1..], name, tag, digest);
    CutHere(t, '@', at);
    DigestOfIs(t[..at], name, tag, t[at + 1..]);
    if raw :| CutAt(t, '@', raw, digest) && DigestOf(raw, name, tag, digest) {
      DigestOfIs(raw, name, tag, digest);
      FirstCut(t, '@', raw, digest);
    }
  }

  lemma CutHere(t: string, c: char, i: nat)
    requires i < |t| && t[i] == c
    ensures CutAt(t, c, t[..i], t[i + 1..])
  {
  }

  lemma DigestOfIs(raw: string, name: string, tag: string, digest: string)
    ensures DigestOf(raw, name, tag, digest) <==> '@' !in raw && ':' in digest && tag == "" && NamesRepo(raw, name)
  {
  }

  lemma WithTag(t: string, name: string, tag: string, digest: string)
    requires '@' !in t && LastIndex(t, ':') > LastIndex(t, '/')
    ensures var colon := LastIndex(t, ':');
            && NameTarget(t[..colon], t[colon + 1..], "") == Target(name, tag, digest) <==> TagForm(t, name, tag, digest)
    ensures !BareForm(t, name, tag, digest) && !DigestForm(t, name, tag, digest)
  {
    hide LastIndex, NameTarget, NamesRepo, TagOf, CutAt, DigestForm;
    NoDigestForm(t, name, tag, digest);
    var colon := LastIndex(t, ':');
    SlashAfterColon(t);
    NameTargetIs(t[..colon], t[colon + 1..], "", name, tag, digest);
    CutHere(t, ':', colon);
    TagOfIs(t, t[..colon], name, t[colon + 1..], digest);
    if raw :| CutAt(t, ':', raw, tag) && TagOf(t, raw, name, tag, digest) {
      TagOfIs(t, raw, name, tag, digest);
      LastCut(t, ':', raw, tag);
    }
  }

  lemma TagOfIs(t: string, raw: string, name: string, tag: string, digest: string)
    ensures TagOf(t, raw, name, tag, digest) <==>
            '@' !in t && ':' !in tag && '/' !in tag && digest == "" && NamesRepo(raw, name)
  {
  }

  lemma WithNeither(t: string, name: string, tag: string, digest: string)
    requires '@' !in t && LastIndex(t, ':') <= LastIndex(t, '/')
    ensures NameTarget(t, "latest", "") == Target(name, tag, digest) <==> BareForm(t, name, tag, digest)
    ensures !TagForm(t, name, tag, digest) && !DigestForm(t, name, tag, digest)
  {
    hide LastIndex, NamesRepo, NameTarget, DigestForm;
    NameTargetIs(t, "latest", "", name, tag, digest);
    NoDigestForm(t, name, tag, digest);
    SlashAfterColon(t);
    forall a, b | CutAt(t, ':', a, b) && ':' !in b ensures '/' in b { LastCut(t, ':', a, b); }
  }

  /** `t` is `a`, the character and `b`. */
  predicate CutAt(t: string, c: char, a: string, b: string) { t == a + [c] + b }

  predicate DigestOf(raw: string, name: string, tag: string, digest: string)
  {
    '@' !in raw && ':' in digest && tag == "" && NamesRepo(raw, name)
  }

  ghost predicate DigestForm(t: string, name: string, tag: string, digest: string)
  {
    exists raw :: CutAt(t, '@', raw, digest) && DigestOf(raw, name, tag, digest)
  }

  predicate TagOf(t: string, raw: string, name: string, tag: string, digest: string)
  {
    '@' !in t && ':' !in tag && '/' !in tag && digest == "" && NamesRepo(raw, name)
  }

  ghost predicate TagForm(t: string, name: string, tag: string, digest: string)
  {
    exists raw :: CutAt(t, ':', raw, tag) && TagOf(t, raw, name, tag, digest)
  }

  /** No colon, or a slash after the last one, which is then a port's. */
  ghost predicate BareForm(t: string, name: string, tag: string, digest: string)
  {
    && '@' !in t && tag == "latest" && digest == "" && NamesRepo(t, name)
    && forall a, b :: CutAt(t, ':', a, b) && ':' !in b ==> '/' in b
  }

  lemma FirstCut(t: string, c: char, a: string, b: string)
    requires CutAt(t, c, a, b) && c !in a
    ensures Index(t, c) == |a| && t[..|a|] == a && t[|a| + 1..] == b
  {
    hide Index;
    var i := Index(t, c);
    assert t[|a|] == c;
    assert forall q :: 0 <= q < i ==> t[q] == t[..i][q] && t[..i][q] in t[..i];
    assert forall q :: 0 <= q < |a| ==> t[q] == a[q] && a[q] in a;
  }

  lemma LastCut(t: string, c: char, a: string, b: string)
    requires CutAt(t, c, a, b) && c !in b
    ensures LastIndex(t, c) == |a| && t[..|a|] == a && t[|a| + 1..] == b
  {
    hide LastIndex;
    var i := LastIndex(t, c);
    assert t[|a|] == c;
    assert forall q :: i < q < |t| ==> t[q] == t[i + 1..][q - i - 1] && t[q] in t[i + 1..];
    assert forall q :: |a| < q < |t| ==> t[q] == b[q - |a| - 1] && t[q] in b;
  }
}
