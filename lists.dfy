/** The certification and spoken-language list miners. */
module Lists {
  import opened JsString
  import opened Sections
  import opened Skills

  /** The separators of the certification list, `[•·\n]`. */
  const CertificationSeparators: set<char> := {'•', '·', '\n'}

  /** The separators of the language list, `[,;•·\n]`. */
  const LanguageSeparators: set<char> := {',', ';', '•', '·', '\n'}

  /** The words whose presence marks a language block as a list of programming languages. */
  const ProgrammingLanguages: seq<string> := ["JavaScript", "Python", "Java", "C++", "Ruby", "PHP"]

  /** The words that mark a language token as a technology heading. */
  const TechnologyWords: seq<string> := ["Programming", "Backend", "Frontend", "Technologies"]

  predicate NotStopword(c: string) {
    !IsStopword(c)
  }

  /** `certifications`, from the text of the certification block. */
  function Certifications(block: string): seq<string> {
    Filter(Tokens(block, CertificationSeparators, 5, 200), NotStopword)
  }

  /** No stopword is longer than four characters. */
  lemma LongTokenIsNoStopword(s: string)
    requires |s| > 4
    ensures NotStopword(s)
  {
    var l := Lower(s);
    assert |l| > 4;
    assert forall k :: 0 <= k < |Stopwords| ==> |Stopwords[k]| <= 4;
  }

  /** The stopword filter of the certification list removes nothing, since every token is longer
      than any stopword. */
  lemma CertificationStopwordFilterIsIdentity(block: string)
    ensures Certifications(block) == Tokens(block, CertificationSeparators, 5, 200)
  {
    var ts := Tokens(block, CertificationSeparators, 5, 200);
    forall k | 0 <= k < |ts| ensures NotStopword(ts[k]) {
      LongTokenIsNoStopword(ts[k]);
    }
    FilterKeepsAll(ts, NotStopword);
  }

  /** Every certification is trimmed, 6 to 199 characters long and free of bullets and line
      breaks. */
  lemma CertificationsShape(block: string)
    ensures forall x :: x in Certifications(block) ==>
              IsTrimmed(x) && 5 < |x| < 200 && Avoids(x, CertificationSeparators)
  {
    var ts := Tokens(block, CertificationSeparators, 5, 200);
    CertificationStopwordFilterIsIdentity(block);
    forall x | x in ts ensures IsTrimmed(x) && 5 < |x| < 200 && Avoids(x, CertificationSeparators) {
      var k :| 0 <= k < |ts| && ts[k] == x;
    }
  }

  predicate NotTechnologyHeading(l: string) {
    !ContainsAnyIgnoreCase(l, TechnologyWords)
  }

  /** `languages`, from the text of the language block: nothing when the block names a
      programming language, otherwise its tokens that are not technology headings. */
  function Languages(block: string): seq<string> {
    if ContainsAnyIgnoreCase(block, ProgrammingLanguages) then []
    else Filter(Tokens(block, LanguageSeparators, 1, 50), NotTechnologyHeading)
  }

  /** Languages are trimmed, 2 to 49 characters long, and name no technology heading; none is
      found in a block that names a programming language. */
  lemma LanguagesShape(block: string)
    ensures ContainsAnyIgnoreCase(block, ProgrammingLanguages) ==> Languages(block) == []
    ensures forall x :: x in Languages(block) ==>
              IsTrimmed(x) && 1 < |x| < 50 && Avoids(x, LanguageSeparators) && NotTechnologyHeading(x)
  {
    if !ContainsAnyIgnoreCase(block, ProgrammingLanguages) {
      var ts := Tokens(block, LanguageSeparators, 1, 50);
      var ls := Languages(block);
      forall x | x in ls
        ensures IsTrimmed(x) && 1 < |x| < 50 && Avoids(x, LanguageSeparators) && NotTechnologyHeading(x)
      {
        assert x in ts;
        var k :| 0 <= k < |ts| && ts[k] == x;
        var j :| 0 <= j < |ls| && ls[j] == x;
      }
    }
  }
}
