/**
 * `CVAnalyzer` (`src/cv_analyzer.py`): skill normalisation and the keyword
 * extraction of metadata from CV text.  The cache file is an input: what
 * `load_cached_metadata` found, with the entry's age in days.
 */
module CvAnalyzer {
  import opened Wrappers
  import opened Text
  import opened Values

  const SkillBlacklist: set<string> := {
    "ms office", "msoffice", "microsoft office", "word", "excel", "powerpoint",
    "windows", "email", "internet", "computer", "keyboard"
  }

  const CommonSkills: set<string> := {
    "python", "sql", "react", "javascript", "project management", "data analysis", "powerbi", "tableau"
  }

  const CommonTitles: set<string> := {"developer", "analyst", "engineer", "consultant"}

  /** `s.replace(c, "")`. */
  function Remove(s: string, c: char): (r: string)
    ensures c !in r
    ensures c !in s ==> r == s
  {
    if s == [] then []
    else (if s[0] == c then [] else [s[0]]) + Remove(s[1..], c)
  }

  /** `replace(c, "")` introduces no character. */
  lemma {:induction false} RemoveKeepsChars(s: string, c: char)
    ensures forall x :: x in Remove(s, c) ==> x in s
  {
    if s != [] {
      RemoveKeepsChars(s[1..], c);
    }
  }

  /** `skill.lower().replace(" ", "").replace("-", "")`. */
  function NormalizeSkill(skill: string): (r: string)
    ensures ' ' !in r && '-' !in r
    ensures forall x :: x in r ==> x in Lower(skill)
  {
    RemoveKeepsChars(Lower(skill), ' ');
    RemoveKeepsChars(Remove(Lower(skill), ' '), '-');
    Remove(Remove(Lower(skill), ' '), '-')
  }

  lemma LowerCharIdempotent(c: char)
    ensures LowerChar(LowerChar(c)) == LowerChar(c)
  {
  }

  /** A lower-cased string without spaces or hyphens is its own normal form. */
  lemma {:induction false} NormalizeSkillIdempotent(skill: string)
    ensures NormalizeSkill(NormalizeSkill(skill)) == NormalizeSkill(skill)
  {
    var r := NormalizeSkill(skill);
    forall i | 0 <= i < |r|
      ensures LowerChar(r[i]) == r[i]
    {
      assert r[i] in Lower(skill);
      var j :| 0 <= j < |skill| && Lower(skill)[j] == r[i];
      LowerCharIdempotent(skill[j]);
    }
    assert Lower(r) == r;
  }

  /** A normalised skill is kept when it is not blacklisted and longer than two characters. */
  predicate Qualifies(clean: string)
  {
    clean !in SkillBlacklist && |clean| > 2
  }

  /** The distinct elements of a set, in some order (Python's `list(set(...))`). */
  method ListOfSet(s: set<string>) returns (r: seq<string>)
    ensures forall i, j :: 0 <= i < j < |r| ==> r[i] != r[j]
    ensures forall x :: x in r <==> x in s
  {
    r := [];
    var rest := s;
    while rest != {}
      invariant forall i, j :: 0 <= i < j < |r| ==> r[i] != r[j]
      invariant forall x :: x in r ==> x in s && x !in rest
      invariant forall x :: x in s ==> x in r || x in rest
      invariant rest <= s
      decreases |rest|
    {
      NonEmptyHasMember(rest);
      var x :| x in rest;
      r := r + [x];
      rest := rest - {x};
    }
  }

  lemma NonEmptyHasMember(s: set<string>)
    ensures s != {} ==> exists x :: x in s
  {
    if forall x :: x !in s {
      assert s == {};
    }
  }

  /** The normal forms of the skills that qualify. */
  function QualifyingSkills(skills: seq<string>): set<string>
  {
    set s | s in skills && Qualifies(NormalizeSkill(s)) :: NormalizeSkill(s)
  }

  /**
   * `normalize_skills`: every skill lower-cased with spaces and hyphens
   * removed, blacklisted and short ones dropped, duplicates removed; the
   * order of the result is not specified.
   */
  method NormalizeSkills(skills: seq<string>) returns (r: seq<string>)
    ensures forall i, j :: 0 <= i < j < |r| ==> r[i] != r[j]
    ensures forall x :: x in r <==> x in QualifyingSkills(skills)
  {
    var normalized: seq<string> := [];
    for n := 0 to |skills|
      invariant forall x :: x in normalized <==> x in QualifyingSkills(skills[..n])
    {
      var clean := NormalizeSkill(skills[n]);
      if clean !in SkillBlacklist && |clean| > 2 {
        normalized := normalized + [clean];
      }
      assert skills[..n + 1] == skills[..n] + [skills[n]];
    }
    assert skills[..|skills|] == skills;
    r := ListOfSet(set x | x in normalized);
  }

  /** `c.upper()` on ASCII letters. */
  function UpperChar(c: char): char
  {
    if 'a' <= c <= 'z' then (c as int - 32) as char else c
  }

  /** `w.title()` for a word of lower-case ASCII letters: its first letter capitalised. */
  function TitleWord(w: string): (r: string)
    ensures |r| == |w|
    ensures |w| > 0 ==> r[1..] == w[1..]
    ensures (forall i :: 0 <= i < |w| ==> 'a' <= w[i] <= 'z') ==> Lower(r) == w
  {
    if w == [] then [] else [UpperChar(w[0])] + w[1..]
  }

  /** What `load_cached_metadata` read: the entry's age in days (`None` without a usable timestamp) and its keys. */
  datatype CacheRecord = CacheRecord(ageDays: Option<real>, fields: map<string, Value>)

  /** A cache entry is used when it is younger than seven days. */
  predicate FreshCache(cached: Option<CacheRecord>)
  {
    cached.Some? && cached.value.ageDays.Some? && cached.value.ageDays.value < 7.0
  }

  /** `s[:n]` for any integer `n`: a negative `n` counts from the end. */
  function SliceTo(s: string, n: int): (r: string)
    ensures r <= s
    ensures n >= 0 ==> r == Prefix(s, n)
    ensures n < 0 ==> |r| == (if |s| + n > 0 then |s| + n else 0)
  {
    if n >= 0 then Prefix(s, n) else if |s| + n > 0 then s[..|s| + n] else []
  }

  /** The common skills mentioned in the text, case-insensitively. */
  function SkillsIn(text: string): set<string>
  {
    set s | s in CommonSkills && Contains(Lower(text), Lower(s))
  }

  /** The common titles mentioned in the text, title-cased. */
  function TitlesIn(text: string): set<string>
  {
    set t | t in CommonTitles && Contains(Lower(text), Lower(t)) :: TitleWord(t)
  }

  /** A list of strings as a JSON list. */
  function StrList(xs: seq<string>): (v: Value)
    ensures v.List? && |v.items| == |xs| && AllStrings(v.items) && Strings(v.items) == xs
  {
    List(seq(|xs|, k requires 0 <= k < |xs| => Str(xs[k])))
  }

  /** A metadata dictionary: exactly the two keys, each a list of distinct strings equal to the given set. */
  ghost predicate MetadataOf(v: Value, skills: set<string>, titles: set<string>)
  {
    v.Object? && v.fields.Keys == {"key_skills", "target_job_titles"}
    && v.fields["key_skills"].List? && AllStrings(v.fields["key_skills"].items)
    && v.fields["target_job_titles"].List? && AllStrings(v.fields["target_job_titles"].items)
    && (forall x :: x in Strings(v.fields["key_skills"].items) <==> x in skills)
    && (forall x :: x in Strings(v.fields["target_job_titles"].items) <==> x in titles)
    && (forall i, j :: 0 <= i < j < |v.fields["key_skills"].items| ==> v.fields["key_skills"].items[i] != v.fields["key_skills"].items[j])
    && (forall i, j :: 0 <= i < j < |v.fields["target_job_titles"].items| ==>
          v.fields["target_job_titles"].items[i] != v.fields["target_job_titles"].items[j])
  }

  /** `{"key_skills": [], "target_job_titles": []}`. */
  const EmptyMetadata: Value := Object(map["key_skills" := List([]), "target_job_titles" := List([])])

  /**
   * `extract_metadata_from_cv`: an empty text gives empty lists; a fresh
   * cache entry gives its `metadata` key (`KeyError` when it has none);
   * otherwise the common skills and titles found in the first `tokenLimit`
   * characters.  Writing the cache is not modelled.
   */
  method ExtractMetadataFromCv(cvText: string, tokenLimit: int, cached: Option<CacheRecord>)
    returns (r: Result<Value, Exception>)
    ensures cvText == "" ==> r == Success(EmptyMetadata)
    ensures cvText != "" && FreshCache(cached) ==>
            r == (if "metadata" in cached.value.fields then Success(cached.value.fields["metadata"]) else Failure(KeyError))
    ensures cvText != "" && !FreshCache(cached) ==>
            r.Success? && MetadataOf(r.value, QualifyingSkillsOf(SkillsIn(SliceTo(cvText, tokenLimit))),
                                     TitlesIn(SliceTo(cvText, tokenLimit)))
  {
    if cvText == "" {
      return Success(EmptyMetadata);
    }
    if FreshCache(cached) {
      if "metadata" !in cached.value.fields {
        return Failure(KeyError);
      }
      return Success(cached.value.fields["metadata"]);
    }
    var text := SliceTo(cvText, tokenLimit);
    var skillsFound := ListOfSet(SkillsIn(text));
    var titlesFound := ListOfSet(TitlesIn(text));
    var skills := NormalizeSkills(skillsFound);
    assert forall x :: x in QualifyingSkills(skillsFound) <==> x in QualifyingSkillsOf(SkillsIn(text));
    var skillList, titleList := StrList(skills), StrList(titlesFound);
    r := Success(Object(map["key_skills" := skillList, "target_job_titles" := titleList]));
  }

  /** The normal forms of the qualifying skills of a set. */
  function QualifyingSkillsOf(skills: set<string>): set<string>
  {
    set s | s in skills && Qualifies(NormalizeSkill(s)) :: NormalizeSkill(s)
  }

  /**
   * The blacklist is compared with normal forms, which never hold a space:
   * its entries "ms office" and "microsoft office" can never match.
   */
  lemma BlacklistEntriesWithSpaceNeverMatch(skill: string)
    ensures NormalizeSkill(skill) != "ms office" && NormalizeSkill(skill) != "microsoft office"
  {
    assert "ms office"[2] == ' ' && "microsoft office"[9] == ' ';
  }

  /** Removing a character distributes over concatenation. */
  lemma {:induction false} RemoveAppend(a: string, b: string, c: char)
    ensures Remove(a + b, c) == Remove(a, c) + Remove(b, c)
  {
    if a == [] {
      assert a + b == b;
    } else {
      var head := if a[0] == c then [] else [a[0]];
      RemoveAppend(a[1..], b, c);
      calc {
        Remove(a + b, c);
      == { assert (a + b)[0] == a[0] && (a + b)[1..] == a[1..] + b; }
        head + Remove(a[1..] + b, c);
      ==
        head + (Remove(a[1..], c) + Remove(b, c));
      ==
        (head + Remove(a[1..], c)) + Remove(b, c);
      }
    }
  }
}
