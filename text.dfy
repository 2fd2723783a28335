/** Trimming as `trimmingCharacters(in: .whitespacesAndNewlines)` does it,
    on Unicode scalars: the amount parser and the settings form both use it. */
module Text {

  /** Membership in `CharacterSet.whitespacesAndNewlines`: the space
      separators (category Zs), the line and paragraph separators, the
      controls U+0009 to U+000D, and U+0085. */
  predicate IsWhitespace(c: char)
  {
    || ('\U{0009}' <= c <= '\U{000D}')
    || c == ' '
    || c == '\U{0085}'
    || c == '\U{00A0}'
    || c == '\U{1680}'
    || ('\U{2000}' <= c <= '\U{200A}')
    || c == '\U{2028}'
    || c == '\U{2029}'
    || c == '\U{202F}'
    || c == '\U{205F}'
    || c == '\U{3000}'
  }

  predicate AllWhitespace(s: string)
  {
    forall i :: 0 <= i < |s| ==> IsWhitespace(s[i])
  }

  function TrimLeading(s: string): string
  {
    if s != [] && IsWhitespace(s[0]) then TrimLeading(s[1..]) else s
  }

  function TrimTrailing(s: string): string
  {
    if s != [] && IsWhitespace(s[|s| - 1]) then TrimTrailing(s[..|s| - 1]) else s
  }

  /** `s.trimmingCharacters(in: .whitespacesAndNewlines)`, the `trimmed`
      extension of the settings screen. */
  function Trim(s: string): string
  {
    TrimTrailing(TrimLeading(s))
  }

  /** `r` is `s` without a whitespace prefix and a whitespace suffix, and
      neither end of `r` is whitespace. */
  ghost predicate IsTrimOf(r: string, s: string)
  {
    exists i, j ::
      && 0 <= i <= j <= |s|
      && r == s[i..j]
      && AllWhitespace(s[..i])
      && AllWhitespace(s[j..])
      && (r != [] ==> !IsWhitespace(r[0]) && !IsWhitespace(r[|r| - 1]))
  }

  lemma {:induction false} TrimLeadingAt(s: string) returns (i: nat)
    ensures i <= |s| && TrimLeading(s) == s[i..]
    ensures AllWhitespace(s[..i])
    ensures i < |s| ==> !IsWhitespace(s[i])
    decreases |s|
  {
    if s != [] && IsWhitespace(s[0]) {
      var k := TrimLeadingAt(s[1..]);
      i := k + 1;
      assert s[..i] == [s[0]] + s[1..][..k];
    } else {
      i := 0;
    }
  }

  lemma {:induction false} TrimTrailingAt(s: string) returns (j: nat)
    ensures j <= |s| && TrimTrailing(s) == s[..j]
    ensures AllWhitespace(s[j..])
    ensures 0 < j ==> !IsWhitespace(s[j - 1])
    decreases |s|
  {
    if s != [] && IsWhitespace(s[|s| - 1]) {
      j := TrimTrailingAt(s[..|s| - 1]);
      assert s[j..] == s[..|s| - 1][j..] + [s[|s| - 1]];
    } else {
      j := |s|;
    }
  }

  /** Trim removes exactly the whitespace at both ends. */
  lemma TrimSpec(s: string)
    ensures IsTrimOf(Trim(s), s)
  {
    var i := TrimLeadingAt(s);
    var t := s[i..];
    var j := TrimTrailingAt(t);
    assert Trim(s) == s[i..i + j];
    assert s[i + j..] == t[j..];
  }

  /** Trimming leaves nothing exactly when everything is whitespace. */
  lemma TrimEmptyIff(s: string)
    ensures Trim(s) == [] <==> AllWhitespace(s)
  {
    TrimSpec(s);
    var i, j :| 0 <= i <= j <= |s| && Trim(s) == s[i..j] && AllWhitespace(s[..i])
      && AllWhitespace(s[j..]) && (Trim(s) != [] ==> !IsWhitespace(Trim(s)[0]));
    if Trim(s) == [] {
      assert s == s[..i] + s[j..];
    } else {
      assert Trim(s)[0] == s[i];
    }
  }

  /** Trimming twice is trimming once: stored names are already trimmed. */
  lemma TrimIdempotent(s: string)
    ensures Trim(Trim(s)) == Trim(s)
  {
    TrimSpec(s);
    var r := Trim(s);
    assert TrimLeading(r) == r;
    assert TrimTrailing(r) == r;
  }

  lemma {:induction false} TrimLeadingWhitespacePrefix(a: string, x: string)
    requires AllWhitespace(a)
    ensures TrimLeading(a + x) == TrimLeading(x)
    decreases |a|
  {
    if a != [] {
      assert (a + x)[1..] == a[1..] + x;
      TrimLeadingWhitespacePrefix(a[1..], x);
    } else {
      assert a + x == x;
    }
  }

  lemma {:induction false} TrimTrailingWhitespaceSuffix(x: string, b: string)
    requires AllWhitespace(b)
    ensures TrimTrailing(x + b) == TrimTrailing(x)
    decreases |b|
  {
    if b != [] {
      assert (x + b)[..|x + b| - 1] == x + b[..|b| - 1];
      TrimTrailingWhitespaceSuffix(x, b[..|b| - 1]);
    } else {
      assert x + b == x;
    }
  }

  lemma {:induction false} TrimLeadingKeepsTail(s: string, b: string)
    requires !AllWhitespace(s)
    ensures TrimLeading(s + b) == TrimLeading(s) + b
    decreases |s|
  {
    if IsWhitespace(s[0]) {
      assert (s + b)[1..] == s[1..] + b;
      TrimLeadingKeepsTail(s[1..], b);
    }
  }

  /** Whitespace around the text changes nothing once it is trimmed. */
  lemma TrimSurrounding(a: string, s: string, b: string)
    requires AllWhitespace(a) && AllWhitespace(b)
    ensures Trim(a + s + b) == Trim(s)
  {
    assert a + s + b == a + (s + b);
    TrimLeadingWhitespacePrefix(a, s + b);
    if AllWhitespace(s) {
      TrimLeadingWhitespacePrefix(s, b);
      TrimLeadingWhitespacePrefix(b, []);
      assert b + [] == b;
      TrimLeadingWhitespacePrefix(s, []);
      assert s + [] == s;
    } else {
      TrimLeadingKeepsTail(s, b);
      TrimTrailingWhitespaceSuffix(TrimLeading(s), b);
    }
  }
}
