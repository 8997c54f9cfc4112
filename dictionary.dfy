/** The scan of the whole text for well-known technologies, appended to the skills. */
module Dictionary {
  import opened JsString

  /** `techKeywords`, in the order they are tried. */
  const TechKeywords: seq<string> := [
    "JavaScript", "Python", "Java", "C++", "C#", "Ruby", "PHP", "Swift", "Kotlin",
    "React", "Angular", "Vue", "Node.js", "Django", "Flask", "Spring", "Express",
    "MongoDB", "MySQL", "PostgreSQL", "Redis", "Docker", "Kubernetes", "AWS", "Azure",
    "Git", "Linux", "REST", "GraphQL", "Machine Learning", "AI", "Data Science",
    "TypeScript", "Go", "Rust", "Scala", "R", "MATLAB", "TensorFlow", "PyTorch",
    ".NET", "Laravel", "Rails", "Flutter", "React Native", "Xamarin", "Unity",
    "Jenkins", "CircleCI", "Travis CI", "Terraform", "Ansible", "Elasticsearch"]

  /** `\b` at index `i`: exactly one of the two characters around it is a `\w` character. */
  predicate IsBoundary(t: string, i: int) {
    (0 < i <= |t| && IsWordChar(t[i - 1])) != (0 <= i < |t| && IsWordChar(t[i]))
  }

  /** The keyword's regular expression, `\b` + the keyword with its special characters escaped +
      `\b` under `/i`, matches at `i`. */
  predicate MentionsAt(t: string, tech: string, i: int) {
    OccursAtIgnoreCase(t, tech, i) && IsBoundary(t, i) && IsBoundary(t, i + |tech|)
  }

  /** `text.match(regex)` for the keyword `tech`. */
  predicate Mentions(t: string, tech: string) {
    exists i :: 0 <= i <= |t| - |tech| && MentionsAt(t, tech, i)
  }

  /** `skills.some(skill => skill.toLowerCase() === tech.toLowerCase())`. */
  predicate HasCaseVariant(skills: seq<string>, tech: string) {
    exists k :: 0 <= k < |skills| && EqualsIgnoreCase(skills[k], tech)
  }

  /** The skills after the `forEach` has tried the keywords `ks`, first to last. */
  function Augment(skills: seq<string>, t: string, ks: seq<string>): seq<string> {
    if ks == [] then skills
    else
      var before := Augment(skills, t, ks[..|ks| - 1]);
      var tech := ks[|ks| - 1];
      if Mentions(t, tech) && !HasCaseVariant(before, tech) then before + [tech] else before
  }

  /** The `techKeywords.forEach` loop over the keywords `ks`: a keyword the text mentions is
      pushed onto the skills unless a skill already equals it ignoring case. */
  method AugmentSkills(skills: seq<string>, t: string, ks: seq<string>) returns (out: seq<string>)
    ensures out == Augment(skills, t, ks)
  {
    out := skills;
    for i := 0 to |ks|
      invariant out == Augment(skills, t, ks[..i])
    {
      var tech := ks[i];
      assert ks[..i + 1][..i] == ks[..i];
      if Mentions(t, tech) && !HasCaseVariant(out, tech) {
        out := out + [tech];
      }
    }
    assert ks[..|ks|] == ks;
  }

  /** The scan only appends: the skills it is given stay, in order, at the front. */
  lemma {:induction false} AugmentKeepsPrefix(skills: seq<string>, t: string, ks: seq<string>)
    ensures |skills| <= |Augment(skills, t, ks)|
    ensures Augment(skills, t, ks)[..|skills|] == skills
  {
    if ks != [] {
      AugmentKeepsPrefix(skills, t, ks[..|ks| - 1]);
    }
  }

  /** Every appended skill is a keyword the text mentions, and nothing before it in the list
      equals it ignoring case. */
  lemma {:induction false} AugmentAppendsNewKeywords(skills: seq<string>, t: string, ks: seq<string>)
    ensures forall m :: |skills| <= m < |Augment(skills, t, ks)| ==>
              Augment(skills, t, ks)[m] in ks && Mentions(t, Augment(skills, t, ks)[m]) &&
              !HasCaseVariant(Augment(skills, t, ks)[..m], Augment(skills, t, ks)[m])
  {
    if ks != [] {
      var init := ks[..|ks| - 1];
      var before := Augment(skills, t, init);
      AugmentAppendsNewKeywords(skills, t, init);
      AugmentKeepsPrefix(skills, t, init);
      var out := Augment(skills, t, ks);
      forall m | |skills| <= m < |out|
        ensures out[m] in ks && Mentions(t, out[m]) && !HasCaseVariant(out[..m], out[m])
      {
        if m < |before| {
          assert out[m] == before[m] && out[..m] == before[..m];
          assert before[m] in init;
        } else {
          assert out[..m] == before;
        }
      }
    }
  }

  /** `xs` is `ys` with some elements left out and the others in their order. */
  predicate IsSubsequence(xs: seq<string>, ys: seq<string>)
    decreases |ys|
  {
    if xs == [] then true
    else if ys == [] then false
    else if xs[|xs| - 1] == ys[|ys| - 1] then IsSubsequence(xs[..|xs| - 1], ys[..|ys| - 1])
    else IsSubsequence(xs, ys[..|ys| - 1])
  }

  lemma {:induction false} SubsequenceExtend(xs: seq<string>, ys: seq<string>, y: string)
    requires IsSubsequence(xs, ys)
    ensures IsSubsequence(xs, ys + [y])
    decreases |ys|, 1
  {
    assert (ys + [y])[..|ys|] == ys;
    if xs != [] && xs[|xs| - 1] == y {
      SubsequenceDropLast(xs, ys);
    }
  }

  lemma {:induction false} SubsequenceDropLast(xs: seq<string>, ys: seq<string>)
    requires xs != [] && IsSubsequence(xs, ys)
    ensures IsSubsequence(xs[..|xs| - 1], ys)
    decreases |ys|, 0
  {
    var yi := ys[..|ys| - 1];
    assert ys == yi + [ys[|ys| - 1]];
    if xs[|xs| - 1] == ys[|ys| - 1] {
      SubsequenceExtend(xs[..|xs| - 1], yi, ys[|ys| - 1]);
    } else {
      SubsequenceDropLast(xs, yi);
      SubsequenceExtend(xs[..|xs| - 1], yi, ys[|ys| - 1]);
    }
  }

  /** The appended skills come in the order of the keyword list. */
  lemma {:induction false} AugmentInKeywordOrder(skills: seq<string>, t: string, ks: seq<string>)
    ensures |skills| <= |Augment(skills, t, ks)|
    ensures IsSubsequence(Augment(skills, t, ks)[|skills|..], ks)
  {
    AugmentKeepsPrefix(skills, t, ks);
    if ks != [] {
      var init := ks[..|ks| - 1];
      var tech := ks[|ks| - 1];
      var before := Augment(skills, t, init);
      AugmentInKeywordOrder(skills, t, init);
      AugmentKeepsPrefix(skills, t, init);
      assert ks == init + [tech];
      SubsequenceExtend(before[|skills|..], init, tech);
      if Augment(skills, t, ks) != before {
        var out := before + [tech];
        assert out[|skills|..] == before[|skills|..] + [tech];
        assert out[|skills|..][..|out[|skills|..]| - 1] == before[|skills|..];
      }
    }
  }

  /** Every keyword the text mentions ends up in the list, possibly in another case. */
  lemma {:induction false} AugmentCoversMentions(skills: seq<string>, t: string, ks: seq<string>)
    ensures forall k :: 0 <= k < |ks| && Mentions(t, ks[k]) ==> HasCaseVariant(Augment(skills, t, ks), ks[k])
  {
    if ks != [] {
      var init := ks[..|ks| - 1];
      var before := Augment(skills, t, init);
      AugmentCoversMentions(skills, t, init);
      var out := Augment(skills, t, ks);
      assert out[..|before|] == before;
      forall k | 0 <= k < |ks| && Mentions(t, ks[k]) ensures HasCaseVariant(out, ks[k]) {
        if k < |init| {
          assert ks[k] == init[k];
          var j :| 0 <= j < |before| && EqualsIgnoreCase(before[j], ks[k]);
          assert out[j] == before[j];
        } else if !HasCaseVariant(before, ks[k]) {
          assert out[|before|] == ks[k];
        } else {
          var j :| 0 <= j < |before| && EqualsIgnoreCase(before[j], ks[k]);
          assert out[j] == before[j];
        }
      }
    }
  }

  /** A list without repeats stays without repeats, so the `new Set` after the scan removes
      nothing. */
  lemma FinalSetRemovesNothing(skills: seq<string>, t: string, ks: seq<string>)
    requires NoDuplicates(skills)
    ensures NoDuplicates(Augment(skills, t, ks))
    ensures Dedup(Augment(skills, t, ks)) == Augment(skills, t, ks)
  {
    var out := Augment(skills, t, ks);
    AugmentKeepsPrefix(skills, t, ks);
    AugmentAppendsNewKeywords(skills, t, ks);
    forall i, j | 0 <= i < j < |out| ensures out[i] != out[j] {
      if j < |skills| {
        assert out[i] == skills[i] && out[j] == skills[j];
      } else {
        assert out[..j][i] == out[i];
        if out[i] == out[j] {
          assert EqualsIgnoreCase(out[..j][i], out[j]);
        }
      }
    }
    DedupOfDistinct(out);
  }

  /** `/C\+\+/` between two `\b`: the `\b` after the last `+` needs a word character to its right,
      so "C++" is detected only when a letter, digit or `_` follows it directly. */
  lemma CppNeedsWordCharAfter(t: string)
    ensures Mentions(t, "C++") ==> exists i :: 0 <= i && i + 3 < |t| && IsWordChar(t[i + 3]) && OccursAtIgnoreCase(t, "C++", i)
  {
    if Mentions(t, "C++") {
      var i :| 0 <= i <= |t| - 3 && MentionsAt(t, "C++", i);
      var x := t[i..i + 3];
      assert Lower(x)[2] == Lower("C++")[2];
      assert x[2] == t[i + 2];
      assert !IsWordChar(t[i + 2]);
    }
  }
}
