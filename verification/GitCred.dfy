/** The git-credential protocol: attributes printed one per line in a fixed order, and
    read back until a blank line. Characters stand for bytes. */
module GitCred {
  import opened Wrappers
  import opened Text

  type Attrs = map<string, string>

  // ------------------------------------------------------------------- the reader

  /** The scanner gives up on a line that does not fit its buffer with its terminator. */
  const MAX_LINE := 65536

  function DropCR(line: string): string
  {
    if line != "" && line[|line| - 1] == '\r' then line[..|line| - 1] else line
  }

  /** One line's effect: cut at the first '='; a line without one is skipped. */
  function Read(out: Attrs, line: string): Attrs
  {
    var i := Index(line, '=');
    if i < 0 then out else out[line[..i] := line[i + 1..]]
  }

  /** What reading `text` adds to `out`; None when a line is too long. */
  function Parse(text: string, out: Attrs): Option<Attrs>
    decreases |text|
  {
    if text == "" then Some(out)
    else
      var i := Index(text, '\n');
      var raw := if i < 0 then text else text[..i];
      if |raw| >= MAX_LINE then None
      else if DropCR(raw) == "" then Some(out)
      else Parse(if i < 0 then "" else text[i + 1..], Read(out, DropCR(raw)))
  }

  method ParseAttrs(text: string) returns (r: Option<Attrs>)
    ensures r == Parse(text, map[])
  {
    var out: Attrs := map[];
    var rest := text;
    while rest != ""
      invariant Parse(text, map[]) == Parse(rest, out)
      decreases |rest|
    {
      var i := Index(rest, '\n');
      var raw := if i < 0 then rest else rest[..i];
      rest := if i < 0 then "" else rest[i + 1..];
      if |raw| >= MAX_LINE { return None; }
      var line := DropCR(raw);
      if line == "" { break; }
      var cut := Index(line, '=');
      if cut >= 0 { out := out[line[..cut] := line[cut + 1..]]; }
    }
    return Some(out);
  }

  // ------------------------------------------------------------------- the writer

  const FIRST := ["protocol", "host", "path", "username", "password"]

  /** The well-known keys that are set, in protocol order. */
  function Known(attrs: Attrs, order: seq<string>): seq<string>
  {
    if order == [] then [] else
      var n := |order| - 1;
      if order[n] in attrs then Known(attrs, order[..n]) + [order[n]] else Known(attrs, order[..n])
  }

  /** The well-known keys first, the others alphabetically. */
  ghost predicate InOrder(attrs: Attrs, keys: seq<string>)
  {
    exists rest :: Increasing(rest) && keys == Known(attrs, FIRST) + rest && IsRest(attrs, rest)
  }

  ghost predicate IsRest(attrs: Attrs, rest: seq<string>)
  {
    forall k :: k in rest <==> k in attrs && k !in FIRST
  }

  function Get(attrs: Attrs, k: string): string { if k in attrs then attrs[k] else "" }

  function Line(attrs: Attrs, k: string): string { k + "=" + Get(attrs, k) }

  function Lines(attrs: Attrs, keys: seq<string>): string
  {
    if keys == [] then "" else Lines(attrs, keys[..|keys| - 1]) + Line(attrs, keys[|keys| - 1]) + "\n"
  }

  function Print(attrs: Attrs, keys: seq<string>): string { Lines(attrs, keys) + "\n" }

  /** No element is less than one before it. */
  ghost predicate Ascending(s: seq<string>)
  {
    forall p, q :: 0 <= p < q < |s| ==> !Less(s[q], s[p])
  }

  /** The exchange sort, in place. */
  method ExchangeSort(a: array<string>)
    modifies a
    ensures Ascending(a[..]) && multiset(a[..]) == multiset(old(a[..]))
  {
    var i := 0;
    while i < a.Length
      invariant 0 <= i <= a.Length
      invariant Placed(a[..], i)
      invariant multiset(a[..]) == multiset(old(a[..]))
    {
      var j := i + 1;
      while j < a.Length
        invariant i < j <= a.Length
        invariant Placed(a[..], i) && LeastOf(a[..], i, j)
        invariant multiset(a[..]) == multiset(old(a[..]))
      {
        LeastGrows(a[..], i, j);
        if Less(a[j], a[i]) {
          ghost var was := a[..];
          a[i], a[j] := a[j], a[i];
          assert a[..] == was[i := was[j]][j := was[i]];
          SwapPermutes(was, i, j);
          SwapKeeps(was, i, j);
        }
        j := j + 1;
      }
      PlacedGrows(a[..], i);
      i := i + 1;
    }
  }

  /** The first `i` elements are in their final places. */
  ghost predicate Placed(s: seq<string>, i: nat)
  {
    i <= |s| && forall p, q :: 0 <= p < i && p < q < |s| ==> !Less(s[q], s[p])
  }

  /** No element between `i` and `j` is less than the one at `i`. */
  ghost predicate LeastOf(s: seq<string>, i: nat, j: nat)
  {
    i < |s| && j <= |s| && forall q :: i < q < j ==> !Less(s[q], s[i])
  }

  lemma LeastGrows(s: seq<string>, i: nat, j: nat)
    requires LeastOf(s, i, j) && i < j < |s|
    ensures !Less(s[j], s[i]) ==> LeastOf(s, i, j + 1)
  {
  }

  lemma PlacedGrows(s: seq<string>, i: nat)
    requires Placed(s, i) && LeastOf(s, i, |s|)
    ensures Placed(s, i + 1)
  {
  }

  lemma SwapPermutes(s: seq<string>, i: nat, j: nat)
    requires i < j < |s|
    ensures multiset(s[i := s[j]][j := s[i]]) == multiset(s)
  {
  }

  lemma SwapKeeps(s: seq<string>, i: nat, j: nat)
    requires i < j < |s| && Placed(s, i) && LeastOf(s, i, j) && Less(s[j], s[i])
    ensures Placed(s[i := s[j]][j := s[i]], i) && LeastOf(s[i := s[j]][j := s[i]], i, j + 1)
  {
    var t := s[i := s[j]][j := s[i]];
    forall q | i < q < j + 1 ensures !Less(t[q], t[i]) {
      if Less(t[q], s[j]) {
        LessTransitive(t[q], s[j], s[i]);
        LessIrreflexive(s[i]);
      }
    }
  }

  /** The keys in some order: a map's iteration order is not fixed. */
  method Enumerate(keys: set<string>) returns (s: seq<string>)
    ensures Distinct(s) && forall k :: k in s <==> k in keys
  {
    s := [];
    var left := keys;
    while left != {}
      invariant left <= keys && Distinct(s) && forall k :: k in s <==> k in keys && k !in left
      decreases |left|
    {
      var k :| k in left;
      DistinctMore(s, k);
      s, left := s + [k], left - {k};
    }
  }

  ghost predicate Distinct(s: seq<string>)
  {
    forall k :: multiset(s)[k] <= 1
  }

  lemma DistinctMore(s: seq<string>, k: string)
    requires Distinct(s) && k !in s
    ensures Distinct(s + [k])
  {
    assert multiset(s + [k]) == multiset(s) + multiset{k};
    assert multiset(s)[k] == 0;
  }

  /** A sorted sequence without repetitions increases strictly. */
  lemma SortedIncreases(s: seq<string>)
    requires Ascending(s) && Distinct(s)
    ensures Increasing(s)
  {
    forall p, q | 0 <= p < q < |s| ensures Less(s[p], s[q]) {
      LessTotal(s[p], s[q]);
      if s[p] == s[q] { Repeats(s, p, q); }
    }
  }

  lemma Repeats(s: seq<string>, p: nat, q: nat)
    requires p < q < |s| && s[p] == s[q]
    ensures multiset(s)[s[p]] >= 2
  {
    assert s == s[..q] + s[q..];
    assert s[..q][p] == s[p] && s[q..][0] == s[p];
    assert multiset(s) == multiset(s[..q]) + multiset(s[q..]);
  }

  lemma SameMembers(s: seq<string>, t: seq<string>, k: string)
    requires multiset(s) == multiset(t)
    ensures k in s <==> k in t
  {
    assert k in multiset(s) <==> k in s;
    assert k in multiset(t) <==> k in t;
  }

  lemma {:induction false} KnownMembers(attrs: Attrs, order: seq<string>, k: string)
    ensures k in Known(attrs, order) <==> k in attrs && k in order
  {
    if order != [] {
      var n := |order| - 1;
      KnownMembers(attrs, order[..n], k);
      assert order == order[..n] + [order[n]];
    }
  }

  method PrintKnown(attrs: Attrs, order: seq<string>) returns (text: string, seen: set<string>)
    ensures text == Lines(attrs, Known(attrs, order))
    ensures forall k :: k in seen <==> k in attrs && k in order
  {
    text, seen := "", {};
    for n := 0 to |order|
      invariant text == Lines(attrs, Known(attrs, order[..n]))
      invariant forall k :: k in seen <==> k in attrs && k in order[..n]
    {
      var k := order[n];
      assert order[..n + 1] == order[..n] + [k];
      assert order[..n + 1][..n] == order[..n];
      if k in attrs {
        LinesMore(attrs, Known(attrs, order[..n]), k);
        text := text + Line(attrs, k) + "\n";
        seen := seen + {k};
      }
    }
    assert order[..|order|] == order;
  }

  /** The remaining keys, sorted. */
  method SortedRest(keys: set<string>) returns (r: seq<string>)
    ensures Increasing(r) && forall k :: k in r <==> k in keys
  {
    hide Less, Ascending, Increasing;
    var rest := Enumerate(keys);
    var a := new string[|rest|](i requires 0 <= i < |rest| => rest[i]);
    assert a[..] == rest;
    ExchangeSort(a);
    r := a[..];
    forall k ensures k in r <==> k in keys { SameMembers(r, rest, k); }
    SortedIncreases(r);
  }

  /** Prints the attributes, whichever order the map enumerates its keys in; what it
      prints reads back as the same attributes exactly when they are clean. */
  method WriteAttrs(attrs: Attrs) returns (text: string)
    ensures exists keys :: InOrder(attrs, keys) && text == Print(attrs, keys)
    ensures Parse(text, map[]) == Some(attrs) <==> Clean(attrs)
  {
    hide Less, Increasing, Lines, Line, Known, Parse, Clean;
    var seen;
    text, seen := PrintKnown(attrs, FIRST);
    var rest := SortedRest(attrs.Keys - seen);
    ghost var known := Known(attrs, FIRST);
    assert known + rest[..0] == known;
    for i := 0 to |rest|
      invariant text == Lines(attrs, known + rest[..i])
    {
      LinesMore(attrs, known + rest[..i], rest[i]);
      assert known + rest[..i] + [rest[i]] == known + rest[..i + 1];
      text := text + Line(attrs, rest[i]) + "\n";
    }
    assert rest[..|rest|] == rest;
    text := text + "\n";
    assert IsRest(attrs, rest);
    assert InOrder(attrs, known + rest) && text == Print(attrs, known + rest);
    RoundTrip(attrs, known + rest);
  }

  lemma LinesNone(attrs: Attrs)
    ensures Lines(attrs, []) == ""
  {
  }

  lemma LinesMore(attrs: Attrs, keys: seq<string>, k: string)
    ensures Lines(attrs, keys + [k]) == Lines(attrs, keys) + Line(attrs, k) + "\n"
  {
    assert (keys + [k])[..|keys|] == keys;
  }

  /** The printed text does not depend on the order of enumeration: there is one listing. */
  lemma OneListing(attrs: Attrs, keys: seq<string>, others: seq<string>)
    requires InOrder(attrs, keys) && InOrder(attrs, others)
    ensures keys == others
  {
    var r :| Increasing(r) && keys == Known(attrs, FIRST) + r && IsRest(attrs, r);
    var s :| Increasing(s) && others == Known(attrs, FIRST) + s && IsRest(attrs, s);
    IncreasingUnique(r, s);
  }

  /** A listing has every key. */
  lemma ListingMembers(attrs: Attrs, keys: seq<string>)
    requires InOrder(attrs, keys)
    ensures forall k :: k in keys <==> k in attrs
  {
    var r :| Increasing(r) && keys == Known(attrs, FIRST) + r && IsRest(attrs, r);
    forall k ensures k in keys <==> k in attrs {
      KnownMembers(attrs, FIRST, k);
    }
  }

  // ------------------------------------------------------------------ round trip

  predicate CleanKey(k: string) { '=' !in k && '\n' !in k }

  predicate CleanValue(v: string) { '\n' !in v && (v == "" || v[|v| - 1] != '\r') }

  /** What the protocol can carry. */
  predicate Clean(attrs: Attrs)
  {
    forall k :: k in attrs ==> CleanKey(k) && CleanValue(attrs[k]) && |k| + 1 + |attrs[k]| < MAX_LINE
  }

  lemma {:induction false} LinesConcat(attrs: Attrs, a: seq<string>, b: seq<string>)
    ensures Lines(attrs, a + b) == Lines(attrs, a) + Lines(attrs, b)
    decreases |b|
  {
    hide Lines, Line;
    if b == [] {
      assert a + b == a;
      LinesNone(attrs);
    } else {
      var n := |b| - 1;
      LinesConcat(attrs, a, b[..n]);
      LinesMore(attrs, b[..n], b[n]);
      LinesMore(attrs, a + b[..n], b[n]);
      assert b == b[..n] + [b[n]];
      assert a + b == a + b[..n] + [b[n]];
    }
  }

  lemma PrintHead(attrs: Attrs, keys: seq<string>)
    requires keys != []
    ensures Print(attrs, keys) == Line(attrs, keys[0]) + "\n" + Print(attrs, keys[1..])
  {
    assert keys == [keys[0]] + keys[1..];
    LinesConcat(attrs, [keys[0]], keys[1..]);
    assert [keys[0]][..0] == [];
    assert Lines(attrs, [keys[0]]) == Line(attrs, keys[0]) + "\n";
  }

  lemma {:induction false} IndexOf(a: string, c: char, rest: string)
    requires c !in a
    ensures Index(a + [c] + rest, c) == |a|
  {
    var s := a + [c] + rest;
    var i := Index(s, c);
    assert s[|a|] == c;
    assert forall q :: 0 <= q < i ==> s[q] == s[..i][q] && s[..i][q] in s[..i];
    assert forall q :: 0 <= q < |a| ==> s[q] == a[q] && a[q] in a;
  }

  /** Reading one complete line. */
  lemma ParseLine(raw: string, rest: string, out: Attrs)
    requires '\n' !in raw
    ensures Parse(raw + "\n" + rest, out) ==
            if |raw| >= MAX_LINE then None
            else if DropCR(raw) == "" then Some(out)
            else Parse(rest, Read(out, DropCR(raw)))
  {
    IndexOf(raw, '\n', rest);
    var text := raw + "\n" + rest;
    assert text[..|raw|] == raw && text[|raw| + 1..] == rest;
  }

  /** The line of a key reads back as that key with its value less one trailing CR. */
  lemma ReadLine(attrs: Attrs, k: string, out: Attrs)
    requires '=' !in k
    ensures DropCR(Line(attrs, k)) != ""
    ensures Read(out, DropCR(Line(attrs, k))) == out[k := DropCR(Get(attrs, k))]
  {
    var v := Get(attrs, k);
    var line := DropCR(Line(attrs, k));
    if v != "" { assert Line(attrs, k)[|k| + |v|] == v[|v| - 1]; }
    assert line == k + "=" + DropCR(v);
    IndexOf(k, '=', DropCR(v));
    assert line[..|k|] == k && line[|k| + 1..] == DropCR(v);
  }

  /** `out` after the lines of `keys`. */
  function ReadBack(attrs: Attrs, keys: seq<string>, out: Attrs): Attrs
  {
    if keys == [] then out else ReadBack(attrs, keys[1..], out[keys[0] := DropCR(Get(attrs, keys[0]))])
  }

  ghost predicate Fits(attrs: Attrs, keys: seq<string>)
  {
    forall i :: 0 <= i < |keys| ==> |Line(attrs, keys[i])| < MAX_LINE
  }

  ghost predicate OneLineEach(attrs: Attrs, keys: seq<string>)
  {
    forall i :: 0 <= i < |keys| ==> CleanKey(keys[i]) && '\n' !in Get(attrs, keys[i])
  }

  lemma {:induction false} ParsePrinted(attrs: Attrs, keys: seq<string>, out: Attrs)
    requires OneLineEach(attrs, keys)
    ensures Parse(Print(attrs, keys), out) == if Fits(attrs, keys) then Some(ReadBack(attrs, keys, out)) else None
    decreases |keys|
  {
    hide Parse, Print, DropCR, Read, Index;
    if keys == [] {
      PrintNone(attrs);
      ParseLine("", "", out);
      BlankLine();
    } else {
      var k := keys[0];
      assert CleanKey(keys[0]) && '\n' !in Get(attrs, keys[0]);
      PrintHead(attrs, keys);
      ParseLine(Line(attrs, k), Print(attrs, keys[1..]), out);
      ReadLine(attrs, k, out);
      FitsHead(attrs, keys);
      ParsePrinted(attrs, keys[1..], out[k := DropCR(Get(attrs, k))]);
    }
  }

  lemma PrintNone(attrs: Attrs)
    ensures Print(attrs, []) == "" + "\n" + ""
  {
  }

  lemma BlankLine()
    ensures DropCR("") == ""
  {
  }

  lemma FitsHead(attrs: Attrs, keys: seq<string>)
    requires keys != []
    ensures Fits(attrs, keys) <==> |Line(attrs, keys[0])| < MAX_LINE && Fits(attrs, keys[1..])
  {
    hide Line;
    assert keys == [keys[0]] + keys[1..];
    if |Line(attrs, keys[0])| < MAX_LINE && Fits(attrs, keys[1..]) {
      forall i | 0 <= i < |keys| ensures |Line(attrs, keys[i])| < MAX_LINE {
        if i > 0 { assert keys[i] == keys[1..][i - 1]; }
      }
    }
  }

  lemma {:induction false} ReadBackHas(attrs: Attrs, keys: seq<string>, out: Attrs, k: string)
    ensures k in ReadBack(attrs, keys, out) <==> k in keys || k in out
    ensures k in ReadBack(attrs, keys, out) ==>
              ReadBack(attrs, keys, out)[k] == if k in keys then DropCR(Get(attrs, k)) else out[k]
    decreases |keys|
  {
    if keys != [] { ReadBackHas(attrs, keys[1..], out[keys[0] := DropCR(Get(attrs, keys[0]))], k); }
  }

  /** No text reads as a key with '=' or a newline, or a value with a newline. */
  lemma {:induction false} ParsedIsClean(text: string, out: Attrs, k: string)
    requires Parse(text, out).Some? && k in Parse(text, out).value
    ensures var v := Parse(text, out).value[k];
            (k in out && out[k] == v) || (CleanKey(k) && '\n' !in v)
    decreases |text|
  {
    hide Read, Index, CleanKey;
    if text != "" {
      var i := Index(text, '\n');
      var raw := if i < 0 then text else text[..i];
      var line := DropCR(raw);
      if |raw| < MAX_LINE && line != "" {
        assert '\n' !in line;
        ParsedIsClean(if i < 0 then "" else text[i + 1..], Read(out, line), k);
        if k in Read(out, line) { ReadIsClean(out, line, k); }
      }
    }
  }

  lemma ReadIsClean(out: Attrs, line: string, k: string)
    requires '\n' !in line && k in Read(out, line)
    ensures (k in out && out[k] == Read(out, line)[k]) || (CleanKey(k) && '\n' !in Read(out, line)[k])
  {
    var i := Index(line, '=');
    if i >= 0 {
      assert forall c :: c in line[..i] ==> c in line;
      assert forall c :: c in line[i + 1..] ==> c in line;
    }
  }

  /** Reading what was printed gives the same attributes back exactly when no key has '='
      or a newline, no value has a newline or ends in CR, and every line fits. */
  lemma RoundTrip(attrs: Attrs, keys: seq<string>)
    requires InOrder(attrs, keys)
    ensures Parse(Print(attrs, keys), map[]) == Some(attrs) <==> Clean(attrs)
  {
    hide Parse, Print, InOrder, DropCR;
    ListingMembers(attrs, keys);
    var r := Parse(Print(attrs, keys), map[]);
    if r == Some(attrs) {
      forall k | k in attrs ensures CleanKey(k) && '\n' !in attrs[k] {
        ParsedIsClean(Print(attrs, keys), map[], k);
      }
    }
    if OneLineEach(attrs, keys) {
      ParsePrinted(attrs, keys, map[]);
      forall k { ReadBackHas(attrs, keys, map[], k); }
      forall k | k in attrs ensures DropCR(attrs[k]) == attrs[k] <==> attrs[k] == "" || attrs[k][|attrs[k]| - 1] != '\r' {
        DroppedCR(attrs[k]);
      }
      FitsAll(attrs, keys);
      if Clean(attrs) { assert ReadBack(attrs, keys, map[]) == attrs; }
    }
  }

  lemma DroppedCR(v: string)
    ensures DropCR(v) == v <==> v == "" || v[|v| - 1] != '\r'
  {
  }

  lemma FitsAll(attrs: Attrs, keys: seq<string>)
    requires forall k :: k in keys <==> k in attrs
    ensures Fits(attrs, keys) <==> forall k :: k in attrs ==> |k| + 1 + |attrs[k]| < MAX_LINE
  {
    forall k | k in attrs ensures |Line(attrs, k)| == |k| + 1 + |attrs[k]| {
    }
    if Fits(attrs, keys) {
      forall k | k in attrs ensures |k| + 1 + |attrs[k]| < MAX_LINE {
        var i :| 0 <= i < |keys| && keys[i] == k;
        assert |Line(attrs, keys[i])| < MAX_LINE;
      }
    }
  }

  // --------------------------------------------------------- the order and the lines

  /** Where a key comes: the five well-known ones in the order of the protocol. */
  function Place(k: string): nat
  {
    if k == "protocol" then 0
    else if k == "host" then 1
    else if k == "path" then 2
    else if k == "username" then 3
    else if k == "password" then 4
    else 5
  }

  /** Keys are listed by place, and the others after them by byte-wise order; each once. */
  lemma ListedByPlace(attrs: Attrs, keys: seq<string>, i: nat, j: nat)
    requires InOrder(attrs, keys) && i < j < |keys|
    ensures Place(keys[i]) < Place(keys[j]) || (Place(keys[i]) == Place(keys[j]) == 5 && Precedes(keys[i], keys[j]))
  {
    hide Less, Precedes, Place, Known;
    var known := Known(attrs, FIRST);
    var rest :| Increasing(rest) && keys == known + rest && IsRest(attrs, rest);
    KnownPlaces(attrs);
    assert i < |known| ==> keys[i] == known[i];
    assert j < |known| ==> keys[j] == known[j];
    if |known| <= j {
      assert keys[j] == rest[j - |known|] && keys[j] in rest;
      PlaceOfRest(keys[j]);
    }
    if |known| <= i {
      assert keys[i] == rest[i - |known|] && keys[i] in rest;
      PlaceOfRest(keys[i]);
      assert Less(rest[i - |known|], rest[j - |known|]);
      LessIsLexicographic(keys[i], keys[j]);
    } else if |known| <= j {
      assert Place(known[i]) < 5;
    } else {
      assert Place(known[i]) < Place(known[j]);
    }
  }

  lemma KnownPlaces(attrs: Attrs)
    ensures forall i :: 0 <= i < |Known(attrs, FIRST)| ==> Place(Known(attrs, FIRST)[i]) < 5
    ensures forall i, j :: 0 <= i < j < |Known(attrs, FIRST)| ==>
              Place(Known(attrs, FIRST)[i]) < Place(Known(attrs, FIRST)[j])
  {
    hide Place, Known;
    forall n | 0 <= n < |FIRST| ensures Place(FIRST[n]) == n { PlaceOfFirst(n); }
    KnownByPlace(attrs, FIRST);
    assert |FIRST| == 5;
  }

  lemma {:induction false} KnownByPlace(attrs: Attrs, order: seq<string>)
    requires forall i :: 0 <= i < |order| ==> Place(order[i]) == i
    ensures var r := Known(attrs, order);
            && (forall i :: 0 <= i < |r| ==> Place(r[i]) < |order|)
            && (forall i, j :: 0 <= i < j < |r| ==> Place(r[i]) < Place(r[j]))
  {
    hide Place;
    if order != [] {
      var n := |order| - 1;
      KnownByPlace(attrs, order[..n]);
      assert Place(order[n]) == n;
      assert Known(attrs, order) == Known(attrs, order[..n]) + if order[n] in attrs then [order[n]] else [];
    }
  }

  lemma PlaceOfFirst(n: nat)
    requires n < |FIRST|
    ensures Place(FIRST[n]) == n
  {
    assert n == 0 || n == 1 || n == 2 || n == 3 || n == 4;
  }

  lemma PlaceOfRest(k: string)
    requires k !in FIRST
    ensures Place(k) == 5
  {
    assert FIRST[0] != k && FIRST[1] != k && FIRST[2] != k && FIRST[3] != k && FIRST[4] != k;
  }

  /** A line as it is printed, and all of them with the blank line at the end. */
  lemma PrintedText(attrs: Attrs, keys: seq<string>)
    ensures keys == [] ==> Print(attrs, keys) == "\n"
    ensures keys != [] && keys[0] in attrs ==>
              Print(attrs, keys) == keys[0] + "=" + attrs[keys[0]] + "\n" + Print(attrs, keys[1..])
  {
    if keys != [] { PrintHead(attrs, keys); }
  }

  /** Reading, line by line: too long a line is an error, an empty one ends the input, with
      or without its CR; a line with an '=' sets what is before the first one to what is
      after it, over any earlier value; any other line is skipped. */
  lemma ReadText(raw: string, rest: string, out: Attrs)
    requires '\n' !in raw
    ensures |raw| >= 65536 ==> Parse(raw + "\n" + rest, out) == None
    ensures raw in {"", "\r"} ==> Parse(raw + "\n" + rest, out) == Some(out)
    ensures forall k, v :: |raw| < 65536 && '=' !in k && NotCR(v) && raw in {k + "=" + v, k + "=" + v + "\r"} ==>
              Parse(raw + "\n" + rest, out) == Parse(rest, out[k := v])
    ensures |raw| < 65536 && '=' !in raw && raw !in {"", "\r"} ==> Parse(raw + "\n" + rest, out) == Parse(rest, out)
    ensures Parse("", out) == Some(out)
  {
    hide Parse, Read;
    ParseLine(raw, rest, out);
    ParseNothing(out);
    forall k, v | '=' !in k && NotCR(v) && raw in {k + "=" + v, k + "=" + v + "\r"}
      ensures DropCR(raw) == k + "=" + v && Read(out, k + "=" + v) == out[k := v]
    {
      if raw == k + "=" + v && v != "" { assert raw[|raw| - 1] == v[|v| - 1]; }
      if raw == k + "=" + v + "\r" { assert raw[..|raw| - 1] == k + "=" + v; }
      ReadPair(k, v, out);
    }
    if '=' !in raw {
      assert |raw| == 1 ==> raw == [raw[0]];
      ReadOther(DropCR(raw), out);
    }
  }

  predicate NotCR(v: string) { v == "" || v[|v| - 1] != '\r' }

  lemma ParseNothing(out: Attrs)
    ensures Parse("", out) == Some(out)
  {
  }

  lemma ReadPair(k: string, v: string, out: Attrs)
    requires '=' !in k
    ensures Read(out, k + "=" + v) == out[k := v]
  {
    IndexOf(k, '=', v);
    assert (k + "=" + v)[..|k|] == k && (k + "=" + v)[|k| + 1..] == v;
  }

  lemma ReadOther(line: string, out: Attrs)
    requires '=' !in line
    ensures Read(out, line) == out
  {
  }
}
