/**
 * Character classes and the few `str` operations the generator relies on:
 * `str.isspace` (also the meaning of `\s` in a `str` regular expression),
 * `str.strip()`, `str.lower()` and the substring test `m in s`.
 */
module Text {

  /** Python's `str.isspace`, which is also what `re`'s `\s` and `str.strip()` use. */
  predicate IsWhitespace(c: char)
  {
    || ('\U{09}' <= c <= '\U{0D}')
    || ('\U{1C}' <= c <= '\U{20}')
    || c == '\U{85}' || c == '\U{A0}' || c == '\U{1680}'
    || ('\U{2000}' <= c <= '\U{200A}')
    || c == '\U{2028}' || c == '\U{2029}' || c == '\U{202F}'
    || c == '\U{205F}' || c == '\U{3000}'
  }

  predicate IsAscii(c: char)
  {
    c < '\U{80}'
  }

  predicate IsAsciiString(s: string)
  {
    forall i :: 0 <= i < |s| ==> IsAscii(s[i])
  }

  /** Length of the leading run of whitespace. */
  function LeadingWhitespace(s: string): (n: nat)
    ensures n <= |s|
  {
    if s != [] && IsWhitespace(s[0]) then 1 + LeadingWhitespace(s[1..]) else 0
  }

  /** Drops the leading run of whitespace. */
  function TrimStart(s: string): string
  {
    s[LeadingWhitespace(s)..]
  }

  /** Drops the trailing run of whitespace. */
  function TrimEnd(s: string): string
    decreases |s|
  {
    if s != [] && IsWhitespace(s[|s| - 1]) then TrimEnd(s[..|s| - 1]) else s
  }

  /** `TrimStart` removes exactly the maximal whitespace prefix. */
  lemma {:induction false} TrimStartSpec(s: string)
    ensures var r := TrimStart(s);
      && |r| <= |s| && r == s[|s| - |r|..]
      && (forall i :: 0 <= i < |s| - |r| ==> IsWhitespace(s[i]))
      && (r != [] ==> !IsWhitespace(r[0]))
    decreases |s|
  {
    if s != [] && IsWhitespace(s[0]) {
      TrimStartSpec(s[1..]);
      assert TrimStart(s) == TrimStart(s[1..]);
    }
  }

  /** `TrimEnd` removes exactly the maximal whitespace suffix. */
  lemma {:induction false} TrimEndSpec(s: string)
    ensures var r := TrimEnd(s);
      && |r| <= |s| && r == s[..|r|]
      && (forall i :: |r| <= i < |s| ==> IsWhitespace(s[i]))
      && (r != [] ==> !IsWhitespace(r[|r| - 1]))
    decreases |s|
  {
    if s != [] && IsWhitespace(s[|s| - 1]) {
      TrimEndSpec(s[..|s| - 1]);
    }
  }

  /** `str.strip()` with no argument. */
  function Strip(s: string): string
  {
    TrimEnd(TrimStart(s))
  }

  /**
   * `Strip(s)` is the slice of `s` left once the maximal whitespace prefix
   * and suffix are cut off.
   */
  lemma StripSlice(s: string)
    ensures var r := Strip(s); var a := LeadingWhitespace(s);
      && a + |r| <= |s| && r == s[a..a + |r|]
      && (forall i :: 0 <= i < a ==> IsWhitespace(s[i]))
      && (forall i :: a + |r| <= i < |s| ==> IsWhitespace(s[i]))
      && (r != [] ==> !IsWhitespace(r[0]) && !IsWhitespace(r[|r| - 1]))
  {
    var t := TrimStart(s);
    TrimStartSpec(s);
    TrimEndSpec(t);
    var r := TrimEnd(t);
    var a := |s| - |t|;
    forall i | a + |r| <= i < |s| ensures IsWhitespace(s[i]) {
      assert s[i] == t[i - a];
    }
    if r != [] {
      assert r[0] == t[0];
    }
  }

  /** The stripped text is empty exactly when the text is all whitespace. */
  lemma StripEmpty(s: string)
    ensures Strip(s) == [] <==> forall i :: 0 <= i < |s| ==> IsWhitespace(s[i])
  {
    StripSlice(s);
    var a := LeadingWhitespace(s);
    if Strip(s) != [] {
      assert !IsWhitespace(s[a]);
    }
  }

  /** A text that neither begins nor ends with whitespace is its own strip. */
  lemma StripUnchanged(s: string)
    requires s == [] || (!IsWhitespace(s[0]) && !IsWhitespace(s[|s| - 1]))
    ensures Strip(s) == s
  {
    if s != [] {
      assert LeadingWhitespace(s) == 0;
      assert TrimStart(s) == s;
      assert TrimEnd(s) == s;
    }
  }

  /** `m` occurs in `s` starting at index `k`. */
  predicate OccursAt(s: string, m: string, k: int)
  {
    0 <= k && k + |m| <= |s| && s[k..k + |m|] == m
  }

  /** Python's `m in s` on two strings. */
  predicate Contains(s: string, m: string)
  {
    exists k :: 0 <= k <= |s| - |m| && OccursAt(s, m, k)
  }

  /** An occurrence inside a slice is an occurrence in the whole text. */
  lemma ContainsOfSlice(s: string, a: nat, b: nat, m: string)
    requires a <= b <= |s|
    requires Contains(s[a..b], m)
    ensures Contains(s, m)
  {
    var r := s[a..b];
    var k :| 0 <= k <= |r| - |m| && OccursAt(r, m, k);
    forall j | 0 <= j < |m|
      ensures s[a + k..a + k + |m|][j] == m[j]
    {
      assert r[k..k + |m|][j] == m[j];
    }
    assert s[a + k..a + k + |m|] == m;
    assert OccursAt(s, m, a + k);
  }

  /**
   * An occurrence of a marker that neither begins nor ends with whitespace
   * lies inside any slice that only cuts whitespace off the text.
   */
  lemma ContainsInSlice(s: string, a: nat, b: nat, m: string)
    requires a <= b <= |s|
    requires forall i :: 0 <= i < a ==> IsWhitespace(s[i])
    requires forall i :: b <= i < |s| ==> IsWhitespace(s[i])
    requires m != [] && !IsWhitespace(m[0]) && !IsWhitespace(m[|m| - 1])
    requires Contains(s, m)
    ensures Contains(s[a..b], m)
  {
    var k :| 0 <= k <= |s| - |m| && OccursAt(s, m, k);
    assert s[k..k + |m|][0] == m[0];
    assert s[k..k + |m|][|m| - 1] == m[|m| - 1];
    assert a <= k && k + |m| <= b;
    var r := s[a..b];
    forall j | 0 <= j < |m|
      ensures r[k - a..k - a + |m|][j] == m[j]
    {
      assert s[k..k + |m|][j] == m[j];
    }
    assert r[k - a..k - a + |m|] == m;
    assert OccursAt(r, m, k - a);
  }

  /**
   * Stripping a text never hides or creates an occurrence of a marker that
   * neither begins nor ends with whitespace.
   */
  lemma ContainsAfterStrip(s: string, m: string)
    requires m != [] && !IsWhitespace(m[0]) && !IsWhitespace(m[|m| - 1])
    ensures Contains(Strip(s), m) <==> Contains(s, m)
  {
    var r := Strip(s);
    StripSlice(s);
    var a := LeadingWhitespace(s);
    if Contains(r, m) {
      ContainsOfSlice(s, a, a + |r|, m);
    }
    if Contains(s, m) {
      ContainsInSlice(s, a, a + |r|, m);
    }
  }

  /**
   * Python's `str.lower()` on one character, for ASCII, Latin-1 and the
   * Czech letters of Latin Extended-A; every other character is returned
   * unchanged.
   */
  function LowerChar(c: char): (r: char)
    ensures IsAscii(c) ==> IsAscii(r)
    ensures 'a' <= r <= 'z' <==> 'a' <= c <= 'z' || 'A' <= c <= 'Z'
    ensures !('A' <= c <= 'Z') && IsAscii(c) ==> r == c
  {
    if 'A' <= c <= 'Z' then (c as int + 32) as char
    else if ('\U{C0}' <= c <= '\U{DE}') && c != '\U{D7}' then (c as int + 32) as char
    else if c in {'\U{10C}', '\U{10E}', '\U{11A}', '\U{147}', '\U{158}', '\U{160}', '\U{164}', '\U{16E}', '\U{17D}'}
    then (c as int + 1) as char
    else c
  }

  /** Python's `str.lower()`, character by character. */
  function Lower(s: string): (r: string)
    ensures |r| == |s|
    ensures forall i :: 0 <= i < |s| ==> r[i] == LowerChar(s[i])
  {
    seq(|s|, i requires 0 <= i < |s| => LowerChar(s[i]))
  }
}
