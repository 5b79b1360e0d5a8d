/**
 * `slugify`: turns a municipality, district or street name into a directory
 * name. The NFD normalisation is a parameter (`nfd`); everything after it is
 * modelled concretely: ASCII-only re-encoding, deletion of `[^\w\s-]`,
 * `strip()`, `lower()`, and replacement of each run of `[-\s]` by `_`.
 */
module Slug {
  import opened Text
  import opened Seqs

  /** `\w` of a `str` pattern, on ASCII characters (the only ones left after re-encoding). */
  predicate IsWordChar(c: char)
  {
    'a' <= c <= 'z' || 'A' <= c <= 'Z' || '0' <= c <= '9' || c == '_'
  }

  /** The class `[-\s]` whose runs become one underscore. */
  predicate IsSeparator(c: char)
  {
    c == '-' || IsWhitespace(c)
  }

  /** The class `[\w\s-]` kept by the deletion step. */
  predicate IsKept(c: char)
  {
    IsWordChar(c) || IsSeparator(c)
  }

  /** What a slug is made of: no `/`, `.`, `-` or whitespace can appear. */
  predicate IsSlugChar(c: char)
  {
    'a' <= c <= 'z' || '0' <= c <= '9' || c == '_'
  }

  predicate IsSlug(s: string)
  {
    forall i :: 0 <= i < |s| ==> IsSlugChar(s[i])
  }

  /** NFD leaves ASCII text alone: ASCII characters have no canonical decomposition. */
  ghost predicate FixesAscii(nfd: string -> string)
  {
    forall s :: IsAsciiString(s) ==> nfd(s) == s
  }

  /** The leading run of separators removed. */
  function DropSeparators(s: string): (r: string)
    ensures |r| <= |s|
    decreases |s|
  {
    if s != [] && IsSeparator(s[0]) then DropSeparators(s[1..]) else s
  }

  /** `re.sub(r'[-\s]+', '_', s)`. */
  function Collapse(s: string): string
    decreases |s|
  {
    if s == [] then []
    else if IsSeparator(s[0]) then "_" + Collapse(DropSeparators(s[1..]))
    else [s[0]] + Collapse(s[1..])
  }

  lemma {:induction false} DropSeparatorsSpec(s: string)
    ensures var r := DropSeparators(s);
      && r == s[|s| - |r|..]
      && (r != [] ==> !IsSeparator(r[0]))
    decreases |s|
  {
    if s != [] && IsSeparator(s[0]) {
      DropSeparatorsSpec(s[1..]);
    }
  }

  predicate NoSeparator(s: string)
  {
    forall i :: 0 <= i < |s| ==> !IsSeparator(s[i])
  }

  /** The collapse leaves no separator behind. */
  lemma {:induction false} CollapseNoSeparator(s: string)
    ensures NoSeparator(Collapse(s))
    decreases |s|
  {
    if s != [] {
      if IsSeparator(s[0]) {
        assert !IsSeparator('_');
        CollapseNoSeparator(DropSeparators(s[1..]));
      } else {
        CollapseNoSeparator(s[1..]);
      }
    }
  }

  /** The collapse introduces nothing but `_`: from slug characters and separators it makes a slug. */
  lemma {:induction false} CollapseMakesSlug(s: string)
    requires IsCollapsible(s)
    ensures IsSlug(Collapse(s))
    decreases |s|
  {
    if s != [] {
      if IsSeparator(s[0]) {
        var t := DropSeparators(s[1..]);
        DropSeparatorsSpec(s[1..]);
        forall i | 0 <= i < |t| ensures IsSlugChar(t[i]) || IsSeparator(t[i]) {
          assert t[i] == s[|s| - |t| + i];
        }
        CollapseMakesSlug(t);
      } else {
        forall i | 0 <= i < |s[1..]| ensures IsSlugChar(s[1..][i]) || IsSeparator(s[1..][i]) {
          assert s[1..][i] == s[i + 1];
        }
        CollapseMakesSlug(s[1..]);
      }
    }
  }

  /** A text without separators is left as it is. */
  lemma {:induction false} CollapseUnchanged(s: string)
    requires NoSeparator(s)
    ensures Collapse(s) == s
  {
    assert s + [] == s;
    CollapseAfterWord(s, []);
  }

  lemma CollapseStep(a: string, b: string)
    requires a != [] && !IsSeparator(a[0])
    ensures Collapse(a + b) == [a[0]] + Collapse(a[1..] + b)
  {
    var s := a + b;
    assert s[0] == a[0];
    assert s[1..] == a[1..] + b;
  }

  /** A leading word passes through the collapse untouched. */
  lemma {:induction false} CollapseAfterWord(a: string, b: string)
    requires forall i :: 0 <= i < |a| ==> !IsSeparator(a[i])
    ensures Collapse(a + b) == a + Collapse(b)
    decreases |a|
  {
    if a == [] {
      assert a + b == b;
    } else {
      CollapseStep(a, b);
      forall i | 0 <= i < |a[1..]| ensures !IsSeparator(a[1..][i]) {
        assert a[1..][i] == a[i + 1];
      }
      CollapseAfterWord(a[1..], b);
      var c := Collapse(b);
      assert [a[0]] + (a[1..] + c) == ([a[0]] + a[1..]) + c;
      assert [a[0]] + a[1..] == a;
    }
  }

  /**
   * The text after `normalize('NFD', …).encode('ascii', 'ignore').decode()`,
   * `re.sub(r'[^\w\s-]', '', …)`, `strip()` and `lower()`.
   */
  function Cleaned(nfd: string -> string, text: string): string
  {
    Lower(Strip(Filter(IsKept, Filter(IsAscii, nfd(text)))))
  }

  /** ASCII and in `[\w\s-]`: what survives the re-encoding and the deletion. */
  predicate IsKeptAscii(c: char)
  {
    IsAscii(c) && IsKept(c)
  }

  predicate AllKeptAscii(s: string)
  {
    forall i :: 0 <= i < |s| ==> IsKeptAscii(s[i])
  }

  /** Slug characters and separators: what the collapse turns into a slug. */
  predicate IsCollapsible(s: string)
  {
    forall i :: 0 <= i < |s| ==> IsSlugChar(s[i]) || IsSeparator(s[i])
  }

  lemma KeptChars(s: string)
    ensures AllKeptAscii(Filter(IsKept, Filter(IsAscii, s)))
  {
    var ascii := Filter(IsAscii, s);
    var kept := Filter(IsKept, ascii);
    FilterKeeps(IsAscii, s);
    FilterKeeps(IsKept, ascii);
    forall i | 0 <= i < |kept| ensures IsKeptAscii(kept[i]) {
      assert kept[i] in ascii;
    }
  }

  lemma StripKeepsChars(s: string)
    requires AllKeptAscii(s)
    ensures AllKeptAscii(Strip(s))
  {
    StripSlice(s);
    var r := Strip(s);
    var a := LeadingWhitespace(s);
    forall i | 0 <= i < |r| ensures IsKeptAscii(r[i]) {
      assert r[i] == s[a + i];
    }
  }

  lemma LowerChars(s: string)
    requires AllKeptAscii(s)
    ensures IsCollapsible(Lower(s))
  {
  }

  /** After cleaning, only lower-case letters, digits, `_`, `-` and whitespace remain. */
  lemma CleanedChars(nfd: string -> string, text: string)
    ensures IsCollapsible(Cleaned(nfd, text))
  {
    var raw := nfd(text);
    var kept := Filter(IsKept, Filter(IsAscii, raw));
    KeptChars(raw);
    StripKeepsChars(kept);
    LowerChars(Strip(kept));
  }

  /** `slugify(text)`: the result is a safe directory name. */
  function Slugify(nfd: string -> string, text: string): (r: string)
    ensures IsSlug(r)
  {
    CleanedChars(nfd, text);
    CollapseMakesSlug(Cleaned(nfd, text));
    Collapse(Cleaned(nfd, text))
  }

  /** Each cleaning step leaves a slug alone. */
  lemma CleanedOfSlug(nfd: string -> string, y: string)
    requires FixesAscii(nfd)
    requires IsSlug(y)
    ensures Cleaned(nfd, y) == y
  {
    assert IsAsciiString(y);
    assert nfd(y) == y;
    FilterUnchanged(IsAscii, y);
    FilterUnchanged(IsKept, y);
    StripUnchanged(y);
    assert Lower(y) == y;
  }

  /** A slug is its own slug: slugifying twice changes nothing. */
  lemma SlugifyIdempotent(nfd: string -> string, text: string)
    requires FixesAscii(nfd)
    ensures Slugify(nfd, Slugify(nfd, text)) == Slugify(nfd, text)
  {
    SlugIsFixed(nfd, Slugify(nfd, text));
  }

  /** Slugifying a slug changes nothing. */
  lemma SlugIsFixed(nfd: string -> string, y: string)
    requires FixesAscii(nfd) && IsSlug(y)
    ensures Slugify(nfd, y) == y
  {
    CleanedOfSlug(nfd, y);
    assert NoSeparator(y);
    CollapseUnchanged(y);
  }

  predicate IsWord(s: string)
  {
    forall i :: 0 <= i < |s| ==> IsWordChar(s[i])
  }

  lemma WordCleaned(nfd: string -> string, s: string)
    requires FixesAscii(nfd) && IsWord(s)
    ensures Cleaned(nfd, s) == Lower(s)
  {
    assert IsAsciiString(s);
    FilterUnchanged(IsAscii, s);
    FilterUnchanged(IsKept, s);
    StripUnchanged(s);
  }

  lemma LowerWord(s: string)
    requires IsWord(s)
    ensures NoSeparator(Lower(s))
  {
    forall i | 0 <= i < |s| ensures !IsSeparator(Lower(s)[i]) {
      assert Lower(s)[i] == LowerChar(s[i]);
    }
  }

  /** A single word of `[A-Za-z0-9_]` is only lower-cased. */
  lemma SlugifyWord(nfd: string -> string, s: string)
    requires FixesAscii(nfd) && IsWord(s)
    ensures Slugify(nfd, s) == Lower(s)
  {
    WordCleaned(nfd, s);
    LowerWord(s);
    CollapseUnchanged(Lower(s));
  }

  lemma StripExample()
    ensures Strip("  Ostrava - Jih ") == "Ostrava - Jih"
  {
    var text := "  Ostrava - Jih ";
    assert text[1..] == " Ostrava - Jih ";
    assert text[2..] == "Ostrava - Jih ";
    assert LeadingWhitespace("Ostrava - Jih ") == 0;
    assert LeadingWhitespace(text) == 2;
    assert "Ostrava - Jih "[..13] == "Ostrava - Jih";
    assert TrimEnd("Ostrava - Jih ") == "Ostrava - Jih";
  }

  lemma AsciiExample(nfd: string -> string)
    requires FixesAscii(nfd)
    ensures Filter(IsAscii, nfd("  Ostrava - Jih ")) == "  Ostrava - Jih "
  {
    var text := "  Ostrava - Jih ";
    assert IsAsciiString(text);
    FilterUnchanged(IsAscii, text);
  }

  lemma FilterExample()
    ensures Filter(IsKept, "  Ostrava - Jih ") == "  Ostrava - Jih "
  {
    var text := "  Ostrava - Jih ";
    FilterUnchanged(IsKept, text);
  }

  lemma LowerExample()
    ensures Lower("Ostrava - Jih") == "ostrava - jih"
  {
  }

  lemma CleanedExample(nfd: string -> string)
    requires FixesAscii(nfd)
    ensures Cleaned(nfd, "  Ostrava - Jih ") == "ostrava - jih"
  {
    var text := "  Ostrava - Jih ";
    AsciiExample(nfd);
    FilterExample();
    StripExample();
    LowerExample();
  }

  lemma DropExample()
    ensures DropSeparators("- jih") == "jih"
  {
    assert "- jih"[1..] == " jih";
    assert " jih"[1..] == "jih";
  }

  lemma CollapseTailExample()
    ensures Collapse(" - jih") == "_jih"
  {
    assert " - jih"[1..] == "- jih";
    DropExample();
    assert NoSeparator("jih");
    CollapseUnchanged("jih");
  }

  lemma CollapseExample()
    ensures Collapse("ostrava - jih") == "ostrava_jih"
  {
    var a, t := "ostrava", " - jih";
    assert a + t == "ostrava - jih";
    assert a + "_jih" == "ostrava_jih";
    assert forall i :: 0 <= i < |a| ==> !IsSeparator(a[i]);
    CollapseAfterWord(a, t);
    CollapseTailExample();
  }

  /** Hyphens, surrounding spaces and case are erased: `"  Ostrava - Jih "` becomes `ostrava_jih`. */
  lemma SlugifyExample(nfd: string -> string)
    requires FixesAscii(nfd)
    ensures Slugify(nfd, "  Ostrava - Jih ") == "ostrava_jih"
  {
    CleanedExample(nfd);
    CollapseExample();
  }
}
