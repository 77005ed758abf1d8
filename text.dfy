/** JavaScript string primitives used by the request handlers and the
    recommendation view: the whitespace class shared by `String.prototype.trim`
    and the regular-expression class `\s`, `trim`, `split` on a one-character
    separator, and the inverse of that split. */
module Text {

  /** The ECMAScript LineTerminator code points. */
  predicate IsLineTerminator(c: char) {
    c == '\n' || c == '\r' || c == '\U{2028}' || c == '\U{2029}'
  }

  /** ECMAScript WhiteSpace or LineTerminator: what `trim` strips and what `\s` matches. */
  predicate IsSpace(c: char) {
    c == '\t' || c == '\U{000B}' || c == '\U{000C}' || c == ' ' || c == '\U{00A0}' || c == '\U{FEFF}'
    || c == '\U{1680}' || ('\U{2000}' <= c <= '\U{200A}') || c == '\U{202F}' || c == '\U{205F}'
    || c == '\U{3000}' || IsLineTerminator(c)
  }

  /** The regular-expression class `\d`: ASCII digits only. */
  predicate IsDigit(c: char) {
    '0' <= c <= '9'
  }

  predicate AllSpace(s: string) {
    forall i :: 0 <= i < |s| ==> IsSpace(s[i])
  }

  predicate AllDigits(s: string) {
    forall i :: 0 <= i < |s| ==> IsDigit(s[i])
  }

  /** `trimStart`: drops the leading whitespace. */
  function TrimStart(s: string): string
  {
    if s != [] && IsSpace(s[0]) then TrimStart(s[1..]) else s
  }

  /** `trimEnd`: drops the trailing whitespace. */
  function TrimEnd(s: string): string
  {
    if s != [] && IsSpace(s[|s| - 1]) then TrimEnd(s[..|s| - 1]) else s
  }

  /** `String.prototype.trim`. */
  function Trim(s: string): string
  {
    TrimEnd(TrimStart(s))
  }

  /** `trimStart` keeps a suffix, drops only whitespace, and leaves no
      whitespace in front. */
  lemma {:induction false} TrimStartShape(s: string)
    ensures var r := TrimStart(s);
      |r| <= |s| && r == s[|s| - |r|..] && AllSpace(s[..|s| - |r|]) && (r == [] || !IsSpace(r[0]))
    decreases |s|
  {
    if s != [] && IsSpace(s[0]) {
      TrimStartShape(s[1..]);
      var r := TrimStart(s);
      assert s[1..][|s| - 1 - |r|..] == s[|s| - |r|..];
      assert s[..|s| - |r|] == [s[0]] + s[1..][..|s| - 1 - |r|];
    }
  }

  /** `trimEnd` keeps a prefix, drops only whitespace, and leaves no
      whitespace at the end. */
  lemma {:induction false} TrimEndShape(s: string)
    ensures var r := TrimEnd(s);
      |r| <= |s| && r == s[..|r|] && AllSpace(s[|r|..]) && (r == [] || !IsSpace(r[|r| - 1]))
    decreases |s|
  {
    if s != [] && IsSpace(s[|s| - 1]) {
      var init := s[..|s| - 1];
      TrimEndShape(init);
      var r := TrimEnd(s);
      assert init[..|r|] == s[..|r|];
      assert s[|r|..] == init[|r|..] + [s[|s| - 1]];
    }
  }

  /** Number of whitespace characters `trimStart` removes. */
  function LeadingSpaces(s: string): (n: nat)
    ensures n <= |s| && AllSpace(s[..n])
    ensures n == |s| || !IsSpace(s[n])
  {
    TrimStartShape(s);
    |s| - |TrimStart(s)|
  }

  /** Trim keeps a contiguous piece of its input, drops only whitespace around
      it, and leaves no whitespace at either end. */
  lemma TrimIsSpaceBoundedInfix(s: string)
    ensures var a, r := LeadingSpaces(s), Trim(s);
      a + |r| <= |s| && s[a..a + |r|] == r && AllSpace(s[..a]) && AllSpace(s[a + |r|..])
    ensures Trim(s) == [] || (!IsSpace(Trim(s)[0]) && !IsSpace(Trim(s)[|Trim(s)| - 1]))
  {
    TrimInfix(s);
    TrimDropsSpaceAfter(s);
    TrimEndsWithoutSpace(s);
  }

  lemma TrimInfix(s: string)
    ensures var a, r := LeadingSpaces(s), Trim(s);
      a + |r| <= |s| && s[a..a + |r|] == r && s[a + |r|..] == TrimStart(s)[|r|..]
  {
    var u, a, r := TrimStart(s), LeadingSpaces(s), Trim(s);
    TrimStartIsSuffix(s);
    TrimEndIsPrefix(u);
    assert a == |s| - |u| && r == TrimEnd(u);
    PrefixOfSuffix(s, a, u, r);
  }

  lemma TrimStartIsSuffix(s: string)
    ensures |TrimStart(s)| <= |s| && TrimStart(s) == s[|s| - |TrimStart(s)|..]
  {
    TrimStartShape(s);
  }

  lemma TrimEndIsPrefix(s: string)
    ensures |TrimEnd(s)| <= |s| && TrimEnd(s) == s[..|TrimEnd(s)|]
  {
    TrimEndShape(s);
  }

  lemma TrimDropsSpaceAfter(s: string)
    ensures var a, r := LeadingSpaces(s), Trim(s);
      a + |r| <= |s| && AllSpace(s[a + |r|..])
  {
    var a, r := LeadingSpaces(s), Trim(s);
    TrimInfix(s);
    TrimEndShape(TrimStart(s));
    SpaceSuffix(s[a + |r|..], TrimStart(s)[|r|..]);
  }

  lemma SpaceSuffix(s: string, t: string)
    requires s == t && AllSpace(t)
    ensures AllSpace(s)
  {
  }

  lemma TrimEndsWithoutSpace(s: string)
    ensures Trim(s) == [] || (!IsSpace(Trim(s)[0]) && !IsSpace(Trim(s)[|Trim(s)| - 1]))
  {
    var u := TrimStart(s);
    var r := TrimEnd(u);
    TrimStartShape(s);
    TrimEndShape(u);
    if r != [] {
      assert r[0] == u[0];
    }
  }

  /** A prefix `r` of the suffix `u` of `s` that starts at `a`. */
  lemma PrefixOfSuffix(s: string, a: nat, u: string, r: string)
    requires a <= |s| && s[a..] == u && |r| <= |u| && r == u[..|r|]
    ensures a + |r| <= |s| && s[a..a + |r|] == r && s[a + |r|..] == u[|r|..]
  {
    assert s[a..a + |r|] == s[a..][..|r|];
    assert s[a + |r|..] == s[a..][|r|..];
  }

  /** Trim is empty exactly on all-whitespace strings. */
  lemma {:induction false} TrimEmptyIffAllSpace(s: string)
    ensures Trim(s) == [] <==> AllSpace(s)
  {
    var u := TrimStart(s);
    TrimStartShape(s);
    TrimEndShape(u);
    if u != [] {
      assert !IsSpace(s[|s| - |u|]);
      assert TrimEnd(u) != [] by {
        assert u == u[..|u|];
      }
    }
  }

  /** A string without whitespace at either end is its own trim. */
  lemma TrimOfTrimmed(s: string)
    requires s == [] || (!IsSpace(s[0]) && !IsSpace(s[|s| - 1]))
    ensures Trim(s) == s
  {
  }

  /** Trim is idempotent. */
  lemma TrimIdempotent(s: string)
    ensures Trim(Trim(s)) == Trim(s)
  {
    TrimIsSpaceBoundedInfix(s);
    TrimOfTrimmed(Trim(s));
  }

  /** Trim removes whitespace appended after a trimmed string. */
  lemma {:induction false} TrimDropsTrailingSpace(s: string, w: string)
    requires s == [] || (!IsSpace(s[0]) && !IsSpace(s[|s| - 1]))
    requires AllSpace(w)
    ensures Trim(s + w) == s
  {
    if s == [] {
      TrimEmptyIffAllSpace(w);
      assert s + w == w;
    } else {
      assert TrimStart(s + w) == s + w;
      TrimEndOfSpaceSuffix(s, w);
    }
  }

  lemma {:induction false} TrimEndOfSpaceSuffix(s: string, w: string)
    requires s != [] && !IsSpace(s[|s| - 1])
    requires AllSpace(w)
    ensures TrimEnd(s + w) == s
    decreases |w|
  {
    if w == [] {
      assert s + w == s;
    } else {
      var w' := w[..|w| - 1];
      assert (s + w)[..|s + w| - 1] == s + w';
      TrimEndOfSpaceSuffix(s, w');
    }
  }

  /** Joins parts with the separator between consecutive parts
      (`Array.prototype.join`); the inverse of `Split`. */
  function Join(parts: seq<string>, sep: char): (s: string)
    requires |parts| >= 1
    decreases |parts|
  {
    if |parts| == 1 then parts[0] else parts[0] + [sep] + Join(parts[1..], sep)
  }

  /** `String.prototype.split` with a one-character separator: the pieces
      between separators, always at least one (an empty string gives `[""]`). */
  function Split(s: string, sep: char): (parts: seq<string>)
    ensures |parts| >= 1
    ensures forall i :: 0 <= i < |parts| ==> sep !in parts[i]
    ensures Join(parts, sep) == s
  {
    if s == [] then [""]
    else if s[0] == sep then [""] + Split(s[1..], sep)
    else
      var rest := Split(s[1..], sep);
      assert Join(rest, sep) == s[1..];
      assert [s[0]] + s[1..] == s;
      [[s[0]] + rest[0]] + rest[1..]
  }

  /** Split undoes Join when no part contains the separator. */
  lemma {:induction false} SplitJoin(parts: seq<string>, sep: char)
    requires |parts| >= 1
    requires forall i :: 0 <= i < |parts| ==> sep !in parts[i]
    ensures Split(Join(parts, sep), sep) == parts
    decreases |parts|
  {
    if |parts| == 1 {
      SplitWithoutSeparator(parts[0], sep);
    } else {
      var tail := Join(parts[1..], sep);
      SplitJoin(parts[1..], sep);
      SplitPrefix(parts[0], sep, tail);
      assert parts == [parts[0]] + parts[1..];
    }
  }

  lemma {:induction false} SplitWithoutSeparator(s: string, sep: char)
    requires sep !in s
    ensures Split(s, sep) == [s]
  {
    if s != [] {
      SplitWithoutSeparator(s[1..], sep);
      assert [s[0]] + s[1..] == s;
    }
  }

  lemma {:induction false} SplitPrefix(p: string, sep: char, t: string)
    requires sep !in p
    ensures Split(p + [sep] + t, sep) == [p] + Split(t, sep)
  {
    if p == [] {
      assert p + [sep] + t == [sep] + t;
      assert ([sep] + t)[1..] == t;
    } else {
      var s := p + [sep] + t;
      assert s[1..] == p[1..] + [sep] + t;
      SplitPrefix(p[1..], sep, t);
      assert [p[0]] + p[1..] == p;
    }
  }

  /** Every part of a join occurs in the joined string; `a` is where. */
  lemma {:induction false} JoinPartAt(parts: seq<string>, sep: char, i: nat) returns (a: nat)
    requires |parts| >= 1 && i < |parts|
    ensures a + |parts[i]| <= |Join(parts, sep)| && Join(parts, sep)[a..a + |parts[i]|] == parts[i]
    decreases |parts|
  {
    var j := Join(parts, sep);
    if i == 0 {
      a := 0;
    } else {
      var b := JoinPartAt(parts[1..], sep, i - 1);
      var t := Join(parts[1..], sep);
      var pre := parts[0] + [sep];
      a := |pre| + b;
      assert j == pre + t;
      assert parts[i] == parts[1..][i - 1];
      SliceAfterPrefix(pre, t, b, |parts[i]|);
    }
  }

  lemma SliceAfterPrefix(x: string, y: string, b: nat, n: nat)
    requires b + n <= |y|
    ensures (x + y)[|x| + b..|x| + b + n] == y[b..b + n]
  {
    var z := x + y;
    assert z[|x|..] == y;
    assert z[|x| + b..|x| + b + n] == z[|x|..][b..b + n];
  }
}
