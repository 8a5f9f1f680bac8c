/** String primitives shared by the models: the byte-wise order that SQL and Go's
    `<` use on keys, and the parts of Go's `strings` package the sources call. */
module Text {

  // ---------------------------------------------------------------- ordering

  /** Lexicographic strict order. */
  predicate Less(a: string, b: string)
  {
    b != "" && (a == "" || a[0] < b[0] || (a[0] == b[0] && Less(a[1..], b[1..])))
  }

  /** The same, said of positions: the first difference decides, and a proper prefix comes
      first. */
  ghost predicate Precedes(a: string, b: string)
  {
    exists n :: DiffersAt(a, b, n)
  }

  predicate DiffersAt(a: string, b: string, n: int)
  {
    && 0 <= n <= |a| && n < |b|
    && (forall i :: 0 <= i < n ==> a[i] == b[i])
    && (n == |a| || a[n] < b[n])
  }

  lemma {:induction false} LessIsLexicographic(a: string, b: string)
    ensures Less(a, b) <==> Precedes(a, b)
  {
    if a == "" || b == "" || a[0] != b[0] {
      assert a == "" && b != "" ==> DiffersAt(a, b, 0);
      assert a != "" && b != "" && a[0] < b[0] ==> DiffersAt(a, b, 0);
    } else {
      LessIsLexicographic(a[1..], b[1..]);
      if Precedes(a[1..], b[1..]) {
        var n :| DiffersAt(a[1..], b[1..], n);
        forall i | 0 <= i < n + 1 ensures a[i] == b[i] {
          if i > 0 { assert a[1..][i - 1] == b[1..][i - 1]; }
        }
        assert DiffersAt(a, b, n + 1);
      }
      if Precedes(a, b) {
        var n :| DiffersAt(a, b, n);
        assert n > 0;
        assert DiffersAt(a[1..], b[1..], n - 1);
      }
    }
  }

  lemma {:induction false} LessIrreflexive(a: string)
    ensures !Less(a, a)
  {
    if a != "" { LessIrreflexive(a[1..]); }
  }

  lemma {:induction false} LessTransitive(a: string, b: string, c: string)
    requires Less(a, b) && Less(b, c)
    ensures Less(a, c)
  {
    if a != "" && a[0] == b[0] == c[0] { LessTransitive(a[1..], b[1..], c[1..]); }
  }

  lemma {:induction false} LessTotal(a: string, b: string)
    ensures a == b || Less(a, b) || Less(b, a)
  {
    if a != "" && b != "" && a[0] == b[0] {
      LessTotal(a[1..], b[1..]);
      if a[1..] == b[1..] { assert a == [a[0]] + a[1..] == [b[0]] + b[1..] == b; }
    }
  }

  /** Strictly increasing under `Less`. */
  ghost predicate Increasing(s: seq<string>)
  {
    forall i, j :: 0 <= i < j < |s| ==> Less(s[i], s[j])
  }

  /** A strictly increasing sequence is determined by its elements, so the order
      in which a map or a set was enumerated cannot show in a sorted result. */
  lemma {:induction false} IncreasingUnique(a: seq<string>, b: seq<string>)
    requires Increasing(a) && Increasing(b)
    requires forall x :: x in a <==> x in b
    ensures a == b
  {
    if a == [] {
      assert forall i :: 0 <= i < |b| ==> b[i] in b;
    } else {
      assert a[0] in b;
      assert b != [];
      assert b[0] in a;
      var i :| 0 <= i < |b| && b[i] == a[0];
      var j :| 0 <= j < |a| && a[j] == b[0];
      if i > 0 && j > 0 {
        LessTransitive(a[0], a[j], a[0]);
        LessIrreflexive(a[0]);
      }
      assert a[0] == b[0];
      forall x ensures x in a[1..] <==> x in b[1..] {
        TailMembers(a, x);
        TailMembers(b, x);
      }
      IncreasingUnique(a[1..], b[1..]);
      assert a == [a[0]] + a[1..];
    }
  }

  lemma TailMembers(a: seq<string>, x: string)
    requires a != [] && Increasing(a)
    ensures x in a[1..] <==> x in a && x != a[0]
  {
    LessIrreflexive(a[0]);
    if x in a && x != a[0] {
      var i :| 0 <= i < |a| && a[i] == x;
      assert a[1..][i - 1] == x;
    }
  }

  // ---------------------------------------------------------------- searching

  /** `strings.HasPrefix` */
  predicate HasPrefix(s: string, p: string) { p <= s }

  /** `strings.TrimPrefix` */
  function TrimPrefix(s: string, p: string): (r: string)
    ensures if p <= s then s == p + r else r == s
  {
    if p <= s then s[|p|..] else s
  }

  /** `strings.Index` for one character: -1 when absent. */
  function Index(s: string, c: char): (i: int)
    ensures -1 <= i < |s|
    ensures i < 0 ==> c !in s
    ensures i >= 0 ==> s[i] == c && c !in s[..i]
  {
    if s == "" then -1
    else if s[0] == c then 0
    else
      var t := Index(s[1..], c);
      assert t >= 0 ==> s[..t + 1] == [s[0]] + s[1..][..t];
      assert s == [s[0]] + s[1..];
      if t < 0 then -1 else t + 1
  }

  /** `strings.LastIndex` for one character: -1 when absent. */
  function LastIndex(s: string, c: char): (i: int)
    ensures -1 <= i < |s|
    ensures i < 0 ==> c !in s
    ensures i >= 0 ==> s[i] == c && c !in s[i + 1..]
  {
    if s == "" then -1
    else if s[|s| - 1] == c then |s| - 1
    else
      var t := LastIndex(s[..|s| - 1], c);
      assert t >= 0 ==> s[t + 1..] == s[..|s| - 1][t + 1..] + [s[|s| - 1]];
      assert s == s[..|s| - 1] + [s[|s| - 1]];
      t
  }

  // ------------------------------------------------------------- white space

  /** `unicode.IsSpace` */
  predicate IsSpace(c: char)
  {
    '\t' <= c <= '\r' || c == ' ' || c == '\U{85}' || c == '\U{A0}' || c == '\U{1680}' ||
    '\U{2000}' <= c <= '\U{200A}' || c == '\U{2028}' || c == '\U{2029}' || c == '\U{202F}' ||
    c == '\U{205F}' || c == '\U{3000}'
  }

  function TrimLeft(s: string): (r: string)
    ensures |r| <= |s| && r == s[|s| - |r|..]
    ensures r != "" ==> !IsSpace(r[0])
    ensures forall i :: 0 <= i < |s| - |r| ==> IsSpace(s[i])
  {
    if s == "" || !IsSpace(s[0]) then s else TrimLeft(s[1..])
  }

  function TrimRight(s: string): (r: string)
    ensures r <= s
    ensures r != "" ==> !IsSpace(r[|r| - 1])
    ensures forall i :: |r| <= i < |s| ==> IsSpace(s[i])
  {
    if s == "" || !IsSpace(s[|s| - 1]) then s else TrimRight(s[..|s| - 1])
  }

  /** `strings.TrimSpace` */
  function TrimSpace(s: string): (r: string)
    ensures Trimmed(r)
    ensures Trimmed(s) ==> r == s
    ensures |r| <= |s|
  {
    TrimRight(TrimLeft(s))
  }

  /** What is trimmed off is white space, and nothing else goes. */
  lemma TrimSpaceIs(s: string) returns (left: string, right: string)
    ensures s == left + TrimSpace(s) + right
    ensures forall i :: 0 <= i < |left| ==> IsSpace(left[i])
    ensures forall i :: 0 <= i < |right| ==> IsSpace(right[i])
    ensures Trimmed(TrimSpace(s))
  {
    hide IsSpace, TrimLeft, TrimRight, Trimmed;
    var t := TrimLeft(s);
    var r := TrimRight(t);
    left, right := s[..|s| - |t|], t[|r|..];
    assert t == r + right && s == left + t;
    assert s == left + (r + right) == left + r + right;
  }

  predicate Trimmed(s: string)
  {
    s == "" || (!IsSpace(s[0]) && !IsSpace(s[|s| - 1]))
  }

  /** The white space of Unicode's White_Space property. */
  lemma WhiteSpace(c: char)
    ensures IsSpace(c) <==>
            c in {'\t', '\n', '\U{0B}', '\U{0C}', '\r', ' ', '\U{85}', '\U{A0}', '\U{1680}', '\U{2000}', '\U{2001}', '\U{2002}',
                  '\U{2003}', '\U{2004}', '\U{2005}', '\U{2006}', '\U{2007}', '\U{2008}', '\U{2009}', '\U{200A}', '\U{2028}',
                  '\U{2029}', '\U{202F}', '\U{205F}', '\U{3000}'}
  {
  }
}
