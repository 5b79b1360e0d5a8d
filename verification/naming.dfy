/**
 * The names `run` gives a house's calendar: the file path built from the
 * slugged municipality, district and street and the raw house number, and
 * the calendar title. Values from the upstream are printed as Python's
 * `str()` prints them.
 */
module Naming {
  import opened JsonData
  import opened Seqs
  import opened Text
  import opened Slug
  import Dates

  /** `OUTPUT_DIR`. */
  const OutputDir: string := "kalendare"

  // ---------------------------------------------------------------------
  // Python's `str()` of a decoded value, as used in f-strings and `slugify`

  function DigitChar(d: nat): char
    requires d < 10
  {
    ['0', '1', '2', '3', '4', '5', '6', '7', '8', '9'][d]
  }

  function NatString(n: nat): string
  {
    if n < 10 then [DigitChar(n)] else NatString(n / 10) + [DigitChar(n % 10)]
  }

  function Show(render: Json -> string, j: Json): string
  {
    match j
    case Null => "None"
    case Bool(b) => if b then "True" else "False"
    case Num(n) => if n < 0 then "-" + NatString(-n) else NatString(n)
    case Str(s) => s
    case _ => render(j)
  }

  // ---------------------------------------------------------------------
  // Path and title

  /** A path of the form `a/rest`. */
  function Segment(a: string, rest: string): string
  {
    a + ['/'] + rest
  }

  /** `f"{OUTPUT_DIR}/{slugify(obec)}/{slugify(obvod)}/{slugify(ulice)}/{cisp}.ics"`. */
  function FilePath(nfd: string -> string, render: Json -> string, obec: string, obvod: Json, ulice: Json, cisp: Json): string
  {
    Segment(OutputDir,
      Segment(Slugify(nfd, obec),
        Segment(Slugify(nfd, Show(render, obvod)),
          Segment(Slugify(nfd, Show(render, ulice)), Show(render, cisp) + ".ics"))))
  }

  /** `f"Svoz {obec}, {ulice} {cisp}"`. */
  function Title(render: Json -> string, obec: string, ulice: Json, cisp: Json): string
  {
    "Svoz " + obec + ", " + Show(render, ulice) + " " + Show(render, cisp)
  }

  // ---------------------------------------------------------------------
  // Properties

  lemma SlugHasNoSlash(s: string)
    requires IsSlug(s)
    ensures '/' !in s
  {
  }

  /**
   * Calendar files of two houses can only coincide when the three slugged
   * directory names and the house number text coincide: slugs contain no
   * `/`, so the path splits back into its parts.
   */
  lemma FilePathInjective(nfd: string -> string, render: Json -> string,
                          obec1: string, obvod1: Json, ulice1: Json, cisp1: Json,
                          obec2: string, obvod2: Json, ulice2: Json, cisp2: Json)
    requires FilePath(nfd, render, obec1, obvod1, ulice1, cisp1) == FilePath(nfd, render, obec2, obvod2, ulice2, cisp2)
    ensures Slugify(nfd, obec1) == Slugify(nfd, obec2)
    ensures Slugify(nfd, Show(render, obvod1)) == Slugify(nfd, Show(render, obvod2))
    ensures Slugify(nfd, Show(render, ulice1)) == Slugify(nfd, Show(render, ulice2))
    ensures Show(render, cisp1) == Show(render, cisp2)
  {
    var a1, a2 := Slugify(nfd, obec1), Slugify(nfd, obec2);
    var b1, b2 := Slugify(nfd, Show(render, obvod1)), Slugify(nfd, Show(render, obvod2));
    var c1, c2 := Slugify(nfd, Show(render, ulice1)), Slugify(nfd, Show(render, ulice2));
    var t1, t2 := Show(render, cisp1) + ".ics", Show(render, cisp2) + ".ics";
    SlugHasNoSlash(a1); SlugHasNoSlash(a2);
    SlugHasNoSlash(b1); SlugHasNoSlash(b2);
    SlugHasNoSlash(c1); SlugHasNoSlash(c2);
    SplitAtSeparator(OutputDir, Segment(a1, Segment(b1, Segment(c1, t1))), OutputDir, Segment(a2, Segment(b2, Segment(c2, t2))), '/');
    SplitAtSeparator(a1, Segment(b1, Segment(c1, t1)), a2, Segment(b2, Segment(c2, t2)), '/');
    SplitAtSeparator(b1, Segment(c1, t1), b2, Segment(c2, t2), '/');
    SplitAtSeparator(c1, t1, c2, t2, '/');
    assert t1[..|t1| - 4] == Show(render, cisp1);
    assert t2[..|t2| - 4] == Show(render, cisp2);
  }

  /** The decimal text of a number reads back as that number. */
  lemma {:induction false} NatStringValue(n: nat)
    ensures Dates.AllDigits(NatString(n)) && Dates.DecimalValue(NatString(n)) == n
    decreases n
  {
    if n >= 10 {
      NatStringValue(n / 10);
      var s := NatString(n);
      assert s[..|s| - 1] == NatString(n / 10);
    }
  }

  lemma NatStringHead(n: nat)
    ensures |NatString(n)| > 0 && Dates.IsDigit(NatString(n)[0])
  {
    NatStringValue(n);
  }

  /** The printed form of an integer: an optional `-`, then digits that read back as its magnitude. */
  predicate PrintsAs(t: string, m: int)
  {
    if m < 0 then |t| > 0 && t[0] == '-' && Dates.AllDigits(t[1..]) && Dates.DecimalValue(t[1..]) == -m
    else |t| > 0 && Dates.IsDigit(t[0]) && Dates.AllDigits(t) && Dates.DecimalValue(t) == m
  }

  lemma NonNegativePrints(n: nat)
    ensures PrintsAs(NatString(n), n)
  {
    NatStringHead(n);
    NatStringValue(n);
  }

  lemma NegativePrints(n: nat)
    requires n > 0
    ensures PrintsAs("-" + NatString(n), 0 - n)
  {
    var t := "-" + NatString(n);
    NatStringValue(n);
    assert t[1..] == NatString(n);
  }

  lemma ShowNumPrints(render: Json -> string, m: int)
    ensures PrintsAs(Show(render, Num(m)), m)
  {
    if m < 0 {
      NegativePrints(-m);
    } else {
      NonNegativePrints(m);
    }
  }

  /** Two different integer house numbers never print the same. */
  lemma ShowNumInjective(render: Json -> string, m: int, n: int)
    requires Show(render, Num(m)) == Show(render, Num(n))
    ensures m == n
  {
    ShowNumPrints(render, m);
    ShowNumPrints(render, n);
  }

  lemma SlugOstrava(nfd: string -> string)
    requires FixesAscii(nfd)
    ensures Slugify(nfd, "Ostrava") == "ostrava"
  {
    assert IsWord("Ostrava") by {
      var w := "Ostrava";
      forall i | 0 <= i < |w| ensures IsWordChar(w[i]) { }
    }
    assert Lower("Ostrava") == "ostrava" by {
      var w := "Ostrava";
      forall i | 0 <= i < |w| ensures LowerChar(w[i]) == "ostrava"[i] { }
    }
    SlugifyWord(nfd, "Ostrava");
  }

  lemma SlugJih(nfd: string -> string)
    requires FixesAscii(nfd)
    ensures Slugify(nfd, "Jih") == "jih"
  {
    assert IsWord("Jih") by {
      var w := "Jih";
      forall i | 0 <= i < |w| ensures IsWordChar(w[i]) { }
    }
    assert Lower("Jih") == "jih" by {
      var w := "Jih";
      forall i | 0 <= i < |w| ensures LowerChar(w[i]) == "jih"[i] { }
    }
    SlugifyWord(nfd, "Jih");
  }

  lemma SlugNadrazni(nfd: string -> string)
    requires FixesAscii(nfd)
    ensures Slugify(nfd, "Nadrazni") == "nadrazni"
  {
    assert IsWord("Nadrazni") by {
      var w := "Nadrazni";
      forall i | 0 <= i < |w| ensures IsWordChar(w[i]) { }
    }
    assert Lower("Nadrazni") == "nadrazni" by {
      var w := "Nadrazni";
      forall i | 0 <= i < |w| ensures LowerChar(w[i]) == "nadrazni"[i] { }
    }
    SlugifyWord(nfd, "Nadrazni");
  }

  lemma ShowTwelve(render: Json -> string)
    ensures Show(render, Num(12)) == "12"
  {
    assert NatString(1) == "1" && NatString(2) == "2";
    assert NatString(12) == NatString(1) + [DigitChar(2)];
  }

  lemma ExampleFile()
    ensures Segment("nadrazni", "12" + ".ics") == "nadrazni/12.ics"
  {
    assert "12" + ".ics" == "12.ics";
  }

  lemma ExampleStreet()
    ensures Segment("jih", Segment("nadrazni", "12" + ".ics")) == "jih/nadrazni/12.ics"
  {
    ExampleFile();
  }

  lemma ExampleDistrict()
    ensures Segment("ostrava", Segment("jih", Segment("nadrazni", "12" + ".ics"))) == "ostrava/jih/nadrazni/12.ics"
  {
    ExampleStreet();
  }

  lemma ExampleSegments()
    ensures Segment(OutputDir, Segment("ostrava", Segment("jih", Segment("nadrazni", "12" + ".ics"))))
            == "kalendare/ostrava/jih/nadrazni/12.ics"
  {
    ExampleDistrict();
  }

  /** A house with an integer number gets a file named after the number printed in decimal. */
  lemma FilePathExample(nfd: string -> string, render: Json -> string)
    requires FixesAscii(nfd)
    ensures FilePath(nfd, render, "Ostrava", Str("Jih"), Str("Nadrazni"), Num(12)) == "kalendare/ostrava/jih/nadrazni/12.ics"
  {
    SlugOstrava(nfd);
    SlugJih(nfd);
    SlugNadrazni(nfd);
    ShowTwelve(render);
    ExampleSegments();
  }

  lemma TitleExample(render: Json -> string)
    ensures Title(render, "Ostrava", Str("Nadrazni"), Num(12)) == "Svoz Ostrava, Nadrazni 12"
  {
    ShowTwelve(render);
    assert "Svoz " + "Ostrava" + ", " + "Nadrazni" + " " + "12" == "Svoz Ostrava, Nadrazni 12";
  }

}
