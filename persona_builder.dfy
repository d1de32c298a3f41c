/**
 * Dynamic personas: AI-suggested job titles turned into search
 * configurations keyed by a slug of the title.
 */
module PersonaBuilder {
  import opened Wrappers
  import opened Scoring
  import opened Dicts

  /** One search configuration: the search term, its age limit in hours and the results wanted. */
  datatype PersonaSearch = PersonaSearch(term: string, hoursOld: int, results: int)

  const NegativeFilters := "-Senior -Lead -Manager -Director -Principal"
  const DefaultHoursOld := 72
  const DefaultResults := 25

  // ---------------------------------------------------------------------
  // The slug `re.sub(r"\W+", "_", title).strip("_")`.
  // ---------------------------------------------------------------------

  /** The rest of `s` after its leading run of non-word characters. */
  function SkipNonWord(s: string): (r: string)
    ensures |r| <= |s|
    decreases |s|
  {
    if |s| > 0 && !IsWordChar(s[0]) then SkipNonWord(s[1..]) else s
  }

  /** `re.sub(r"\W+", "_", s)`: each maximal run of non-word characters becomes one "_". */
  function Collapse(s: string): string
    decreases |s|
  {
    if |s| == 0 then ""
    else if IsWordChar(s[0]) then [s[0]] + Collapse(s[1..])
    else "_" + Collapse(SkipNonWord(s[1..]))
  }

  /** `s.lstrip(c)`. */
  function DropLeading(s: string, c: char): (r: string)
    ensures |r| <= |s|
    decreases |s|
  {
    if |s| > 0 && s[0] == c then DropLeading(s[1..], c) else s
  }

  /** `s.rstrip(c)`. */
  function DropTrailing(s: string, c: char): (r: string)
    ensures |r| <= |s|
    decreases |s|
  {
    if |s| > 0 && s[|s| - 1] == c then DropTrailing(s[..|s| - 1], c) else s
  }

  /** The dictionary key for a title. */
  function Slug(title: string): string
  {
    DropTrailing(DropLeading(Collapse(title), '_'), '_')
  }

  /** Only word characters remain after the substitution. */
  lemma {:induction false} CollapseWordChars(s: string)
    ensures forall i :: 0 <= i < |Collapse(s)| ==> IsWordChar(Collapse(s)[i])
    decreases |s|
  {
    if |s| > 0 {
      if IsWordChar(s[0]) {
        CollapseWordChars(s[1..]);
      } else {
        CollapseWordChars(SkipNonWord(s[1..]));
      }
    }
  }

  lemma {:induction false} DropLeadingFacts(s: string, c: char)
    ensures DropLeading(s, c) == s[|s| - |DropLeading(s, c)|..]
    ensures |DropLeading(s, c)| == 0 || DropLeading(s, c)[0] != c
    decreases |s|
  {
    if |s| > 0 && s[0] == c {
      DropLeadingFacts(s[1..], c);
    }
  }

  lemma {:induction false} DropTrailingFacts(s: string, c: char)
    ensures DropTrailing(s, c) == s[..|DropTrailing(s, c)|]
    ensures |DropTrailing(s, c)| == 0 || DropTrailing(s, c)[|DropTrailing(s, c)| - 1] != c
    decreases |s|
  {
    if |s| > 0 && s[|s| - 1] == c {
      DropTrailingFacts(s[..|s| - 1], c);
    }
  }

  /** A slug holds only word characters and has no "_" at either end. */
  lemma SlugShape(title: string)
    ensures forall i :: 0 <= i < |Slug(title)| ==> IsWordChar(Slug(title)[i])
    ensures |Slug(title)| == 0 || (Slug(title)[0] != '_' && Slug(title)[|Slug(title)| - 1] != '_')
  {
    var c := Collapse(title);
    var l := DropLeading(c, '_');
    var r := DropTrailing(l, '_');
    CollapseWordChars(title);
    DropLeadingFacts(c, '_');
    DropTrailingFacts(l, '_');
    forall i | 0 <= i < |r|
      ensures IsWordChar(r[i])
    {
      assert r[i] == l[i] == c[|c| - |l| + i];
    }
    if |r| > 0 {
      assert r[0] == l[..|r|][0] == l[0];
    }
  }

  /** The characters a slug keeps from a title: word characters other than "_". */
  predicate IsKept(c: char)
  {
    IsWordChar(c) && c != '_'
  }

  function Kept(s: string): (r: string)
    decreases |s|
  {
    if |s| == 0 then "" else (if IsKept(s[0]) then [s[0]] else "") + Kept(s[1..])
  }

  lemma {:induction false} KeptAppend(a: string, b: string)
    ensures Kept(a + b) == Kept(a) + Kept(b)
    decreases |a|
  {
    if |a| == 0 {
      assert a + b == b;
    } else {
      assert (a + b)[0] == a[0];
      assert (a + b)[1..] == a[1..] + b;
      KeptAppend(a[1..], b);
      var x := if IsKept(a[0]) then [a[0]] else "";
      calc {
        Kept(a + b);
        x + Kept(a[1..] + b);
        x + (Kept(a[1..]) + Kept(b));
        (x + Kept(a[1..])) + Kept(b);
      }
    }
  }

  lemma {:induction false} KeptSkipNonWord(s: string)
    ensures Kept(SkipNonWord(s)) == Kept(s)
    decreases |s|
  {
    if |s| > 0 && !IsWordChar(s[0]) {
      KeptSkipNonWord(s[1..]);
    }
  }

  lemma {:induction false} KeptCollapse(s: string)
    ensures Kept(Collapse(s)) == Kept(s)
    decreases |s|
  {
    if |s| > 0 {
      if IsWordChar(s[0]) {
        KeptCollapse(s[1..]);
        KeptAppend([s[0]], Collapse(s[1..]));
      } else {
        KeptSkipNonWord(s[1..]);
        KeptCollapse(SkipNonWord(s[1..]));
        KeptAppend("_", Collapse(SkipNonWord(s[1..])));
      }
    }
  }

  lemma {:induction false} KeptDropLeading(s: string)
    ensures Kept(DropLeading(s, '_')) == Kept(s)
    decreases |s|
  {
    if |s| > 0 && s[0] == '_' {
      KeptDropLeading(s[1..]);
    }
  }

  lemma {:induction false} KeptDropTrailing(s: string)
    ensures Kept(DropTrailing(s, '_')) == Kept(s)
    decreases |s|
  {
    if |s| > 0 && s[|s| - 1] == '_' {
      var init := s[..|s| - 1];
      KeptDropTrailing(init);
      assert s == init + "_";
      KeptAppend(init, "_");
    }
  }

  /** The slug keeps every letter and digit of the title, in order, and adds none. */
  lemma SlugKeepsLettersAndDigits(title: string)
    ensures Kept(Slug(title)) == Kept(title)
  {
    var c := Collapse(title);
    KeptCollapse(title);
    KeptDropLeading(c);
    KeptDropTrailing(DropLeading(c, '_'));
  }

  const PythonWord := "Python"
  const DeveloperWord := "Developer"

  lemma WordExamples()
    ensures forall i :: 0 <= i < |PythonWord| ==> IsWordChar(PythonWord[i])
    ensures forall i :: 0 <= i < |DeveloperWord| ==> IsWordChar(DeveloperWord[i])
  {
    forall i | 0 <= i < |PythonWord|
      ensures IsWordChar(PythonWord[i])
    {
      assert 'A' <= PythonWord[i] <= 'z';
    }
    forall i | 0 <= i < |DeveloperWord|
      ensures IsWordChar(DeveloperWord[i])
    {
      assert 'A' <= DeveloperWord[i] <= 'z';
    }
  }

  /** A space before a word becomes one underscore. */
  lemma CollapseSpaceWord(b: string)
    requires forall i :: 0 <= i < |b| ==> IsWordChar(b[i])
    ensures Collapse(" " + b) == "_" + b
  {
    var t := " " + b;
    assert !IsWordChar(t[0]) && t[1..] == b;
    assert SkipNonWord(b) == b by {
      if b != [] {
        assert IsWordChar(b[0]);
      }
    }
    CollapseWordPrefix(b, "");
    assert b + "" == b;
  }

  /** The space between two words becomes one underscore. */
  lemma CollapseTwoWords(a: string, b: string)
    requires forall i :: 0 <= i < |a| ==> IsWordChar(a[i])
    requires forall i :: 0 <= i < |b| ==> IsWordChar(b[i])
    ensures Collapse(a + " " + b) == a + "_" + b
  {
    var t, u := " " + b, "_" + b;
    assert a + " " + b == a + t && a + "_" + b == a + u;
    CollapseSpaceWord(b);
    CollapseWordPrefix(a, t);
  }

  /** Two words separated by a space are filed under the words joined by an underscore. */
  lemma SlugTwoWords(a: string, b: string)
    requires forall i :: 0 <= i < |a| ==> IsWordChar(a[i])
    requires forall i :: 0 <= i < |b| ==> IsWordChar(b[i])
    requires |a| > 0 && a[0] != '_' && |b| > 0 && b[|b| - 1] != '_'
    ensures Slug(a + " " + b) == a + "_" + b
  {
    CollapseTwoWords(a, b);
    var slug := a + "_" + b;
    assert DropLeading(slug, '_') == slug by { assert slug[0] == a[0]; }
    assert DropTrailing(slug, '_') == slug by { assert slug[|slug| - 1] == b[|b| - 1]; }
  }

  /** "Python Developer" is filed under "Python_Developer". */
  lemma SlugExample()
    ensures Slug("Python Developer") == "Python_Developer"
  {
    WordExamples();
    SlugTwoWords(PythonWord, DeveloperWord);
    assert PythonWord + " " + DeveloperWord == "Python Developer";
    assert PythonWord + "_" + DeveloperWord == "Python_Developer";
  }

  /** A run of non-word characters is skipped up to the word that follows it. */
  lemma {:induction false} SkipNonWordRun(sep: string, b: string)
    requires forall i :: 0 <= i < |sep| ==> !IsWordChar(sep[i])
    requires |b| == 0 || IsWordChar(b[0])
    ensures SkipNonWord(sep + b) == b
  {
    if sep == [] {
      assert sep + b == b;
    } else {
      assert (sep + b)[0] == sep[0] && (sep + b)[1..] == sep[1..] + b;
      SkipNonWordRun(sep[1..], b);
    }
  }

  /** Any run of non-word characters between two words becomes one underscore. */
  lemma CollapseSeparatedWords(a: string, sep: string, b: string)
    requires forall i :: 0 <= i < |a| ==> IsWordChar(a[i])
    requires forall i :: 0 <= i < |b| ==> IsWordChar(b[i])
    requires |sep| > 0 && forall i :: 0 <= i < |sep| ==> !IsWordChar(sep[i])
    ensures Collapse(a + sep + b) == a + "_" + b
  {
    var t := sep + b;
    assert t[0] == sep[0] && t[1..] == sep[1..] + b;
    SkipNonWordRun(sep[1..], b);
    assert Collapse(t) == "_" + Collapse(b);
    CollapseWordPrefix(b, "");
    assert b + "" == b;
    CollapseWordPrefix(a, t);
    assert a + sep + b == a + t && a + "_" + b == a + ("_" + b);
  }

  /** "Analyst – Junior" is filed under "Analyst_Junior": the dash and the spaces around it form one run. */
  lemma SlugDashExample()
    ensures Slug("Analyst \U{2013} Junior") == "Analyst_Junior"
  {
    var a, sep, b := "Analyst", " \U{2013} ", "Junior";
    forall i | 0 <= i < |a| ensures IsWordChar(a[i]) { assert 'A' <= a[i] <= 'z'; }
    forall i | 0 <= i < |b| ensures IsWordChar(b[i]) { assert 'A' <= b[i] <= 'z'; }
    CollapseSeparatedWords(a, sep, b);
    assert a + sep + b == "Analyst \U{2013} Junior";
    var slug := a + "_" + b;
    assert slug == "Analyst_Junior";
    assert DropLeading(slug, '_') == slug by { assert slug[0] == 'A'; }
    assert DropTrailing(slug, '_') == slug by { assert slug[|slug| - 1] == 'r'; }
  }

  /** A leading run of word characters passes through the substitution unchanged. */
  lemma {:induction false} CollapseWordPrefix(w: string, s: string)
    requires forall i :: 0 <= i < |w| ==> IsWordChar(w[i])
    ensures Collapse(w + s) == w + Collapse(s)
  {
    if w == [] {
      assert w + s == s;
    } else {
      assert (w + s)[0] == w[0] && (w + s)[1..] == w[1..] + s;
      CollapseWordPrefix(w[1..], s);
    }
  }

  // ---------------------------------------------------------------------
  // Search terms and the persona dictionary.
  // ---------------------------------------------------------------------

  /** The quoted title followed by the negative filters. */
  function SearchTerm(title: string): string
  {
    "(\"" + title + "\") " + NegativeFilters
  }

  function Entry(title: string, hoursOld: int, results: int): PersonaSearch
  {
    PersonaSearch(SearchTerm(title), hoursOld, results)
  }

  /** The assignments `personas[slug] = entry`, one per title, in order. */
  function Assignments(titles: seq<string>, hoursOld: int, results: int): (r: seq<(string, PersonaSearch)>)
    ensures |r| == |titles|
    ensures forall i :: 0 <= i < |titles| ==> r[i] == (Slug(titles[i]), Entry(titles[i], hoursOld, results))
  {
    seq(|titles|, i requires 0 <= i < |titles| => (Slug(titles[i]), Entry(titles[i], hoursOld, results)))
  }

  function Personas(titles: seq<string>, hoursOld: int, results: int): seq<(string, PersonaSearch)>
  {
    PutAll(Assignments(titles, hoursOld, results), |titles|)
  }

  /**
   * The keys are exactly the slugs of the titles, each once, so there are at
   * most as many entries as titles.
   */
  lemma PersonasKeys(titles: seq<string>, hoursOld: int, results: int, k: string)
    ensures DistinctKeys(Personas(titles, hoursOld, results))
    ensures |Personas(titles, hoursOld, results)| <= |titles|
    ensures k in Keys(Personas(titles, hoursOld, results)) <==> exists i :: 0 <= i < |titles| && Slug(titles[i]) == k
  {
    var a := Assignments(titles, hoursOld, results);
    PutAllDistinct(a, |titles|);
    PutAllSize(a, |titles|);
    PutAllKeys(a, |titles|, k);
    assert (exists i :: 0 <= i < |titles| && a[i].0 == k) <==> exists i :: 0 <= i < |titles| && Slug(titles[i]) == k;
  }

  /** Titles that slug to the same key keep the later title's entry. */
  lemma PersonasLastWins(titles: seq<string>, hoursOld: int, results: int, j: int)
    requires 0 <= j < |titles|
    requires forall j' :: j < j' < |titles| ==> Slug(titles[j']) != Slug(titles[j])
    ensures Lookup(Personas(titles, hoursOld, results), Slug(titles[j])) == Some(Entry(titles[j], hoursOld, results))
  {
    PutAllLastWins(Assignments(titles, hoursOld, results), |titles|, j);
  }

  /** `build_dynamic_personas`: one entry per distinct slug, inserted title by title. */
  method BuildDynamicPersonas(titles: seq<string>, hoursOld: int, results: int)
    returns (personas: seq<(string, PersonaSearch)>)
    ensures personas == Personas(titles, hoursOld, results)
    ensures |titles| == 0 ==> personas == []
  {
    ghost var assignments := Assignments(titles, hoursOld, results);
    personas := [];
    for n := 0 to |titles|
      invariant personas == PutAll(assignments, n)
    {
      var key := Slug(titles[n]);
      var entry := Entry(titles[n], hoursOld, results);
      assert assignments[n] == (key, entry);
      personas := Put(personas, key, entry);
    }
  }
}
