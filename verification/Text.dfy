/** The string operations the components share, as the Go standard library defines them. */
module Text {
  import opened Listing

  /** White space as `unicode.IsSpace` knows it. */
  predicate IsSpace(c: char) {
    || c == ' ' || c == '\t' || c == '\n' || c == '\r'
    || c == '\U{000B}' || c == '\U{000C}' || c == '\U{0085}' || c == '\U{00A0}' || c == '\U{1680}'
    || c == '\U{2028}' || c == '\U{2029}' || c == '\U{202F}' || c == '\U{205F}' || c == '\U{3000}'
    || '\U{2000}' <= c <= '\U{200A}'
  }

  /** White space by its code points. */
  lemma SpacesByCode(c: char)
    ensures IsSpace(c) <==>
            var n := c as int;
            || 9 <= n <= 13 || n == 32 || n == 133 || n == 160 || n == 5760 || 8192 <= n <= 8202
            || n == 8232 || n == 8233 || n == 8239 || n == 8287 || n == 12288
  {
    assert ' ' as int == 32 && '\t' as int == 9 && '\n' as int == 10 && '\r' as int == 13;
    assert '\U{000B}' as int == 11 && '\U{000C}' as int == 12 && '\U{0085}' as int == 133;
    assert '\U{00A0}' as int == 160 && '\U{1680}' as int == 5760 && '\U{3000}' as int == 12288;
    assert '\U{2028}' as int == 8232 && '\U{2029}' as int == 8233 && '\U{202F}' as int == 8239;
    assert '\U{205F}' as int == 8287 && '\U{2000}' as int == 8192 && '\U{200A}' as int == 8202;
    SameCode(c, ' ');
    SameCode(c, '\t');
    SameCode(c, '\n');
    SameCode(c, '\r');
    SameCode(c, '\U{000B}');
    SameCode(c, '\U{000C}');
    SameCode(c, '\U{0085}');
    SameCode(c, '\U{00A0}');
    SameCode(c, '\U{1680}');
    SameCode(c, '\U{3000}');
    SameCode(c, '\U{2028}');
    SameCode(c, '\U{2029}');
    SameCode(c, '\U{202F}');
    SameCode(c, '\U{205F}');
  }

  lemma SameCode(a: char, b: char)
    ensures a as int == b as int <==> a == b
  {}

  /** `strings.TrimSpace`: the longest middle of s that neither starts nor ends in white space. */
  function Trim(s: string): (t: string)
    ensures t == "" || (!IsSpace(t[0]) && !IsSpace(t[|t| - 1]))
    ensures t == s <==> s == "" || (!IsSpace(s[0]) && !IsSpace(s[|s| - 1]))
    ensures |t| <= |s|
  {
    if s == "" then ""
    else if IsSpace(s[0]) then Trim(s[1..])
    else if IsSpace(s[|s| - 1]) then Trim(s[..|s| - 1])
    else s
  }

  /** The ends of s outside [i, j) are white space. */
  ghost predicate BlankOutside(s: string, i: nat, j: nat)
    requires i <= j <= |s|
  {
    forall k :: 0 <= k < |s| && !(i <= k < j) ==> IsSpace(s[k])
  }

  lemma BlankInFront(s: string, i: nat, j: nat)
    requires s != "" && IsSpace(s[0]) && i <= j <= |s| - 1 && BlankOutside(s[1..], i, j)
    ensures BlankOutside(s, i + 1, j + 1) && s[i + 1..j + 1] == s[1..][i..j]
  {
    forall k | 0 <= k < |s| && !(i + 1 <= k < j + 1) ensures IsSpace(s[k]) {
      assert k > 0 ==> s[k] == s[1..][k - 1];
    }
  }

  lemma BlankBehind(s: string, i: nat, j: nat)
    requires s != "" && IsSpace(s[|s| - 1]) && i <= j <= |s| - 1 && BlankOutside(s[..|s| - 1], i, j)
    ensures BlankOutside(s, i, j) && s[i..j] == s[..|s| - 1][i..j]
  {
    forall k | 0 <= k < |s| && !(i <= k < j) ensures IsSpace(s[k]) {
      assert k < |s| - 1 ==> s[k] == s[..|s| - 1][k];
    }
  }

  /** Trimming takes away white space at both ends, all of it and nothing else. */
  lemma {:induction false} TrimExactly(s: string) returns (i: nat, j: nat)
    ensures i <= j <= |s| && Trim(s) == s[i..j] && BlankOutside(s, i, j)
    decreases |s|
  {
    if s == "" {
      i, j := 0, 0;
    } else if IsSpace(s[0]) {
      i, j := TrimExactly(s[1..]);
      BlankInFront(s, i, j);
      i, j := i + 1, j + 1;
    } else if IsSpace(s[|s| - 1]) {
      i, j := TrimExactly(s[..|s| - 1]);
      BlankBehind(s, i, j);
    } else {
      i, j := 0, |s|;
      assert s[i..j] == s;
    }
  }

  /** `strings.IndexByte`: the first position of c in s, or -1. */
  function IndexOf(s: string, c: char): (i: int)
    ensures -1 <= i < |s|
    ensures i >= 0 ==> s[i] == c && forall j :: 0 <= j < i ==> s[j] != c
    ensures i < 0 <==> c !in s
  {
    IndexFrom(s, c, 0)
  }

  /** The first position of c in s from `from` on, or -1. */
  function IndexFrom(s: string, c: char, from: nat): (i: int)
    requires from <= |s|
    ensures -1 <= i < |s| && (i < 0 || from <= i)
    ensures i >= 0 ==> s[i] == c && forall j :: from <= j < i ==> s[j] != c
    ensures i < 0 ==> forall j :: from <= j < |s| ==> s[j] != c
    decreases |s| - from
  {
    if from == |s| then -1
    else if s[from] == c then from
    else IndexFrom(s, c, from + 1)
  }

  /** The order of `sort.Strings`: the first difference decides, a prefix comes first. */
  predicate Precedes(a: string, b: string) {
    if a == "" then true
    else if b == "" then false
    else if a[0] != b[0] then a[0] < b[0]
    else Precedes(a[1..], b[1..])
  }

  /** The strings agree before position k and a has the lesser character there. */
  ghost predicate LessAt(a: string, b: string, k: nat) {
    k < |a| && k < |b| && a[..k] == b[..k] && a[k] < b[k]
  }

  /** Dictionary order: a prefix comes first, otherwise the first difference decides. */
  lemma {:induction false} PrecedesExactly(a: string, b: string)
    ensures Precedes(a, b) <==> a <= b || exists k: nat :: LessAt(a, b, k)
    decreases |a|
  {
    forall k: nat | k > 0 && LessAt(a, b, k) ensures a[0] == b[0] {
      assert a[0] == a[..k][0] && b[0] == b[..k][0];
    }
    if a != "" && b != "" && a[0] == b[0] {
      var x, y := a[1..], b[1..];
      PrecedesExactly(x, y);
      assert a == [a[0]] + x && b == [b[0]] + y;
      if k: nat :| LessAt(x, y, k) {
        assert a[..k + 1] == [a[0]] + x[..k] && b[..k + 1] == [b[0]] + y[..k];
        assert LessAt(a, b, k + 1);
      }
      if k: nat :| LessAt(a, b, k) {
        assert x[..k - 1] == a[..k][1..] && y[..k - 1] == b[..k][1..];
        assert LessAt(x, y, k - 1);
      }
    } else if a != "" && b != "" {
      assert a[..0] == b[..0];
      assert a[0] < b[0] ==> LessAt(a, b, 0);
    }
  }

  lemma {:induction false} PrecedesTransitive(a: string, b: string, c: string)
    requires Precedes(a, b) && Precedes(b, c)
    ensures Precedes(a, c)
    decreases |a|
  {
    if a != "" && a[0] == b[0] && b[0] == c[0] {
      PrecedesTransitive(a[1..], b[1..], c[1..]);
    }
  }

  lemma {:induction false} PrecedesTotal(a: string, b: string)
    ensures Precedes(a, b) || Precedes(b, a)
    decreases |a|
  {
    if a != "" && b != "" && a[0] == b[0] {
      PrecedesTotal(a[1..], b[1..]);
    }
  }

  predicate IsFirst(x: string, names: set<string>) {
    x in names && forall y :: y in names ==> Precedes(x, y)
  }

  /** A non-empty set of names has a first one. */
  lemma {:induction false} HasFirst(names: set<string>) returns (x: string)
    requires names != {}
    ensures IsFirst(x, names)
    decreases |names|
  {
    var y :| y in names;
    PrecedesTotal(y, y);
    if names == {y} {
      x := y;
    } else {
      var rest := names - {y};
      assert names == rest + {y};
      var z := HasFirst(rest);
      PrecedesTotal(z, y);
      x := if Precedes(z, y) then z else y;
      forall w | w in names ensures Precedes(x, w) {
        if w != y && x == y { PrecedesTransitive(y, z, w); }
      }
    }
  }

  predicate Before(a: string, b: string) { a != b && Precedes(a, b) }

  predicate PairBefore(a: (string, string), b: (string, string)) {
    if a.0 == b.0 then Before(a.1, b.1) else Before(a.0, b.0)
  }

  lemma {:induction false} PrecedesBothWays(a: string, b: string)
    requires Precedes(a, b) && Precedes(b, a)
    ensures a == b
    decreases |a|
  {
    if a != "" && b != "" {
      PrecedesBothWays(a[1..], b[1..]);
      assert a == [a[0]] + a[1..] && b == [b[0]] + b[1..];
    }
  }

  /** Names, and pairs of names, are listed in one order only. */
  lemma NamesAreOrdered()
    ensures StrictOrder(Before) && StrictOrder(PairBefore) && Total(Before) && Total(PairBefore)
  {
    forall a, b | a != b ensures Before(a, b) || Before(b, a) {
      PrecedesTotal(a, b);
    }
    forall a, b | Before(a, b) ensures !Before(b, a) {
      if Before(b, a) { PrecedesBothWays(a, b); }
    }
    forall a, b, c | Before(a, b) && Before(b, c) ensures Before(a, c) {
      PrecedesTransitive(a, b, c);
      if a == c { PrecedesBothWays(a, b); }
    }
  }
}
