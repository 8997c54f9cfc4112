/** The education segmenter: how one piece of the education block becomes a school record, and
    how the pieces become the `education` list. */
module Education {
  import opened Wrappers
  import opened Cascade
  import opened JsString
  import opened Sections
  import opened Entities

  /** `/University|Institute|College|School/i`. */
  const InstitutionWords: seq<string> := ["University", "Institute", "College", "School"]

  /** `/Bachelor|Master|B\.|M\.|BS|MS|MBA|PhD/i`. */
  const DegreeWords: seq<string> := ["Bachelor", "Master", "B.", "M.", "BS", "MS", "MBA", "PhD"]

  /** The two variables the scan over a record's lines fills in; `''` until set. */
  datatype Credential = Credential(degree: string, institution: string)

  /** The two line tests of the scan: whether a line names an institution and whether it names
      a degree. The scan is stated for any such pair; the parser's own pair is `Vocabulary`. */
  datatype Words = Words(institution: string -> bool, degree: string -> bool)

  const Vocabulary: Words :=
    Words((l: string) => ContainsAnyIgnoreCase(l, InstitutionWords), (l: string) => ContainsAnyIgnoreCase(l, DegreeWords))

  /** One turn of the scan, on line `i`: a line naming an institution is the institution, a line
      naming a degree the degree, each only while still empty; an unclassified first line is
      taken as the institution while both are empty, and an unclassified second line as the
      degree while that is empty. Whatever is taken is taken trimmed. */
  function EduLine(c: Credential, line: string, i: nat, ws: Words): Credential {
    if ws.institution(line) && c.institution == [] then c.(institution := Trim(line))
    else if ws.degree(line) && c.degree == [] then c.(degree := Trim(line))
    else if i == 0 && c.institution == [] && c.degree == [] then c.(institution := Trim(line))
    else if i == 1 && c.degree == [] then c.(degree := Trim(line))
    else c
  }

  /** The credential once the scan has seen lines `0 .. n-1`. */
  function EduPrefix(lines: seq<string>, n: nat, ws: Words): Credential
    requires n <= |lines|
  {
    if n == 0 then Credential([], []) else EduLine(EduPrefix(lines, n - 1, ws), lines[n - 1], n - 1, ws)
  }

  /** The scan loop itself, over every line of the record. */
  method ScanCredential(lines: seq<string>, ws: Words) returns (c: Credential)
    ensures c == EduPrefix(lines, |lines|, ws)
  {
    var degree, institution := "", "";
    for i := 0 to |lines|
      invariant Credential(degree, institution) == EduPrefix(lines, i, ws)
    {
      var line := lines[i];
      if ws.institution(line) && institution == "" {
        institution := Trim(line);
      } else if ws.degree(line) && degree == "" {
        degree := Trim(line);
      } else if i == 0 && institution == "" && degree == "" {
        institution := Trim(line);
      } else if i == 1 && degree == "" {
        degree := Trim(line);
      }
    }
    c := Credential(degree, institution);
  }

  lemma EduLineKeeps(c: Credential, line: string, i: nat, ws: Words)
    ensures c.degree != [] ==> EduLine(c, line, i, ws).degree == c.degree
    ensures c.institution != [] ==> EduLine(c, line, i, ws).institution == c.institution
  {
  }

  /** Every `!degree` guard makes the degree write-once: once set, later lines never replace
      it. */
  lemma {:induction false} DegreeSetOnce(lines: seq<string>, m: nat, n: nat, ws: Words)
    requires m <= n <= |lines|
    requires EduPrefix(lines, m, ws).degree != []
    ensures EduPrefix(lines, n, ws).degree == EduPrefix(lines, m, ws).degree
    decreases n - m
  {
    if m < n {
      DegreeSetOnce(lines, m, n - 1, ws);
      EduLineKeeps(EduPrefix(lines, n - 1, ws), lines[n - 1], n - 1, ws);
    }
  }

  /** And so does every `!institution` guard for the institution. */
  lemma {:induction false} InstitutionSetOnce(lines: seq<string>, m: nat, n: nat, ws: Words)
    requires m <= n <= |lines|
    requires EduPrefix(lines, m, ws).institution != []
    ensures EduPrefix(lines, n, ws).institution == EduPrefix(lines, m, ws).institution
    decreases n - m
  {
    if m < n {
      InstitutionSetOnce(lines, m, n - 1, ws);
      EduLineKeeps(EduPrefix(lines, n - 1, ws), lines[n - 1], n - 1, ws);
    }
  }

  /** A field written by the scan is one of the lines, trimmed. */
  lemma {:induction false} EduFieldsAreLines(lines: seq<string>, n: nat, ws: Words)
    requires n <= |lines|
    ensures var c := EduPrefix(lines, n, ws);
            (c.degree == [] || exists k :: 0 <= k < n && c.degree == Trim(lines[k])) &&
            (c.institution == [] || exists k :: 0 <= k < n && c.institution == Trim(lines[k]))
  {
    if n > 0 {
      EduFieldsAreLines(lines, n - 1, ws);
    }
  }

  /** The first line naming an institution becomes the institution when nothing was taken as
      the institution before it. */
  lemma FirstInstitutionWins(lines: seq<string>, i: nat, ws: Words)
    requires i < |lines| && NonBlank(lines[i]) && ws.institution(lines[i])
    requires EduPrefix(lines, i, ws).institution == []
    ensures EduPrefix(lines, |lines|, ws).institution == Trim(lines[i])
  {
    assert EduPrefix(lines, i + 1, ws).institution == Trim(lines[i]);
    InstitutionSetOnce(lines, i + 1, |lines|, ws);
  }

  /** A non-blank first line that names neither an institution nor a degree is taken as the
      institution, and stays so whatever the later lines name. */
  lemma FirstLineFallback(lines: seq<string>, ws: Words)
    requires |lines| > 0 && NonBlank(lines[0])
    requires !ws.institution(lines[0]) && !ws.degree(lines[0])
    ensures EduPrefix(lines, |lines|, ws).institution == Trim(lines[0])
  {
    assert EduPrefix(lines, 1, ws).institution == Trim(lines[0]);
    InstitutionSetOnce(lines, 1, |lines|, ws);
  }

  /** The `details` of a record: `GPA: ` and the number the GPA pattern captures, or `''`. */
  function Details(gpa: Option<string>): (r: string)
    ensures gpa.None? ==> r == []
    ensures gpa.Some? ==> r == "GPA: " + gpa.value
  {
    match gpa
    case Some(g) => "GPA: " + g
    case None => []
  }

  /** The record returned for a scanned credential, the record's lines and its two pattern
      matches: `degree || lines[0] || ''` and `institution || lines[1] || ''`. */
  function SchoolRecord(c: Credential, lines: seq<string>, year: Option<string>, gpa: Option<string>): School {
    School(
      if c.degree != [] then c.degree else if |lines| > 0 then lines[0] else [],
      if c.institution != [] then c.institution else if |lines| > 1 then lines[1] else [],
      match year case Some(y) => OrNull(y) case None => None,
      Details(gpa))
  }

  /** The record one piece of the education block becomes. */
  function SchoolOf(edu: string, yearRange: Matcher<string>, gpa: Matcher<string>): School {
    var lines := Lines(edu);
    SchoolRecord(EduPrefix(lines, |lines|, Vocabulary), lines, yearRange(edu), gpa(edu))
  }

  function SchoolMaker(yearRange: Matcher<string>, gpa: Matcher<string>): string -> School {
    (e: string) => SchoolOf(e, yearRange, gpa)
  }

  /** `edu.trim().length > 10`. */
  predicate IsSchoolSection(edu: string) {
    TrimmedLongerThan(edu, 10)
  }

  /** `edu => edu.degree || edu.institution`. */
  predicate HasDegreeOrInstitution(s: School) {
    s.degree != [] || s.institution != []
  }

  /** `sections.filter(longer than 10).map(SchoolOf).filter(HasDegreeOrInstitution)`. */
  function Schools(sections: seq<string>, yearRange: Matcher<string>, gpa: Matcher<string>): seq<School> {
    Segment(sections, IsSchoolSection, SchoolMaker(yearRange, gpa), HasDegreeOrInstitution)
  }

  /** A record cut from a piece longer than ten characters always has a degree: its first line
      is non-blank, so either the scan set a degree or `lines[0]` stands in for it. */
  lemma SchoolHasDegree(edu: string, yearRange: Matcher<string>, gpa: Matcher<string>)
    requires IsSchoolSection(edu)
    ensures SchoolOf(edu, yearRange, gpa).degree != []
  {
    LinesOfNonBlank(edu);
    var lines := Lines(edu);
    assert NonBlank(lines[0]);
  }

  /** So the last filter of the education chain never drops a record. */
  lemma SchoolsDropNothing(sections: seq<string>, yearRange: Matcher<string>, gpa: Matcher<string>)
    ensures Schools(sections, yearRange, gpa) == Map(Filter(sections, IsSchoolSection), SchoolMaker(yearRange, gpa))
  {
    forall e | e in sections && IsSchoolSection(e) ensures HasDegreeOrInstitution(SchoolMaker(yearRange, gpa)(e)) {
      SchoolHasDegree(e, yearRange, gpa);
    }
    SegmentDropsNothing(sections, IsSchoolSection, SchoolMaker(yearRange, gpa), HasDegreeOrInstitution);
  }

  /** Every record comes from a piece longer than ten characters: its year is that piece's
      year-range match, when non-empty, and its details are empty or `GPA: ` followed by that
      piece's GPA capture. */
  lemma SchoolsShape(sections: seq<string>, yearRange: Matcher<string>, gpa: Matcher<string>)
    ensures forall s :: s in Schools(sections, yearRange, gpa) ==>
              s.degree != [] &&
              (s.year.Some? ==> s.year.value != []) &&
              (s.details == [] || exists g :: s.details == "GPA: " + g)
    ensures forall s :: s in Schools(sections, yearRange, gpa) ==>
              exists e :: e in sections && IsSchoolSection(e) && s.details == Details(gpa(e)) &&
                (s.year.Some? ==> s.year == yearRange(e))
  {
    forall s | s in Schools(sections, yearRange, gpa)
      ensures s.degree != [] && (s.year.Some? ==> s.year.value != []) &&
              (s.details == [] || exists g :: s.details == "GPA: " + g)
      ensures exists e :: e in sections && IsSchoolSection(e) && s.details == Details(gpa(e)) &&
                (s.year.Some? ==> s.year == yearRange(e))
    {
      var e := SegmentMember(sections, IsSchoolSection, SchoolMaker(yearRange, gpa), HasDegreeOrInstitution, s);
      SchoolHasDegree(e, yearRange, gpa);
      var m := gpa(e);
      if m.Some? {
        assert s.details == "GPA: " + m.value;
      }
      assert s.details == Details(gpa(e));
    }
  }
}
