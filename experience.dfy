/** The experience segmenter: how one piece of the experience block becomes a job record, and how
    the pieces become the `experience` list. */
module Experience {
  import opened Wrappers
  import opened Cascade
  import opened JsString
  import opened Sections
  import opened Entities

  const NotSpecified: string := "Not specified"

  /** The four variables the scan over a record's first lines fills in; `''` until set. */
  datatype Header = Header(company: string, title: string, duration: string, location: string)

  const Unset: Header := Header([], [], [], [])

  /** `Math.min(4, lines.length)`: how many lines the scan looks at. */
  function Window(lines: seq<string>): (n: nat)
    ensures n <= 4 && n <= |lines|
    ensures n == 4 || n == |lines|
  {
    if |lines| < 4 then |lines| else 4
  }

  /** `line.substring(0, line.indexOf(tok)).trim()`: the text before a date. */
  function TextBefore(line: string, tok: string): string {
    Trim(Prefix(line, IndexOf(line, tok)))
  }

  /** A dated line sets the duration, the company (the text before the date) and the title (the
      next line, trimmed, when there is one). */
  function DatedLine(h: Header, lines: seq<string>, i: nat, tok: string): Header
    requires i < |lines|
  {
    h.(duration := tok,
       company := TextBefore(lines[i], tok),
       title := if i + 1 < |lines| then Trim(lines[i + 1]) else h.title)
  }

  /** An undated first line is taken as the company, and an undated second line as the title,
      when those are still empty. */
  function UndatedLine(h: Header, line: string, i: nat): Header {
    if i == 0 && h.company == [] then h.(company := line)
    else if i == 1 && h.title == [] then h.(title := line)
    else h
  }

  /** One turn of the scan, on line `i`; after the date a city-and-region match sets the
      location. */
  function ScanLine(h: Header, lines: seq<string>, i: nat, date: Matcher<string>, city: Matcher<string>): Header
    requires i < |lines|
  {
    var line := lines[i];
    var dated :=
      match date(line)
      case Some(tok) => DatedLine(h, lines, i, tok)
      case None => UndatedLine(h, line, i);
    match city(line)
    case Some(loc) => dated.(location := loc)
    case None => dated
  }

  /** The header once the scan has seen lines `0 .. n-1`. */
  function ScanPrefix(lines: seq<string>, n: nat, date: Matcher<string>, city: Matcher<string>): Header
    requires n <= |lines|
  {
    if n == 0 then Unset else ScanLine(ScanPrefix(lines, n - 1, date, city), lines, n - 1, date, city)
  }

  /** The header of a record: the scan over its first `Window(lines)` lines. */
  function HeaderOf(lines: seq<string>, date: Matcher<string>, city: Matcher<string>): Header {
    ScanPrefix(lines, Window(lines), date, city)
  }

  /** The scan loop itself, on four local variables. */
  method ScanHeader(lines: seq<string>, date: Matcher<string>, city: Matcher<string>) returns (h: Header)
    ensures h == HeaderOf(lines, date, city)
  {
    var company, title, duration, location := "", "", "", "";
    for i := 0 to Window(lines)
      invariant Header(company, title, duration, location) == ScanPrefix(lines, i, date, city)
    {
      ghost var before := Header(company, title, duration, location);
      assert ScanPrefix(lines, i + 1, date, city) == ScanLine(before, lines, i, date, city);
      var line := lines[i];
      var dateMatch := date(line);
      if dateMatch.Some? {
        duration := dateMatch.value;
        company := TextBefore(line, dateMatch.value);
        if i + 1 < |lines| {
          title := Trim(lines[i + 1]);
        }
      } else if i == 0 && company == "" {
        company := line;
      } else if i == 1 && title == "" {
        title := line;
      }
      var cityMatch := city(line);
      if cityMatch.Some? {
        location := cityMatch.value;
      }
    }
    h := Header(company, title, duration, location);
  }

  /** The location is the city match of the last scanned line that has one, and empty when no
      scanned line has one. */
  lemma {:induction false} ScanLocation(lines: seq<string>, n: nat, date: Matcher<string>, city: Matcher<string>, i: nat)
    requires n <= |lines|
    ensures (forall j :: 0 <= j < n ==> city(lines[j]).None?) ==> ScanPrefix(lines, n, date, city).location == []
    ensures i < n && city(lines[i]).Some? && (forall j :: i < j < n ==> city(lines[j]).None?) ==>
              ScanPrefix(lines, n, date, city).location == city(lines[i]).value
  {
    if n > 0 {
      ScanLocation(lines, n - 1, date, city, i);
    }
  }

  /** A non-empty duration is the date match of one of the scanned lines. */
  lemma {:induction false} ScanDurationIsDate(lines: seq<string>, n: nat, date: Matcher<string>, city: Matcher<string>)
    requires n <= |lines|
    ensures var h := ScanPrefix(lines, n, date, city);
            h.duration == [] || exists j :: 0 <= j < n && date(lines[j]) == Some(h.duration)
  {
    if n > 0 {
      ScanDurationIsDate(lines, n - 1, date, city);
    }
  }

  /** A non-empty location is the city match of one of the scanned lines. */
  lemma {:induction false} ScanLocationIsCity(lines: seq<string>, n: nat, date: Matcher<string>, city: Matcher<string>)
    requires n <= |lines|
    ensures var h := ScanPrefix(lines, n, date, city);
            h.location == [] || exists j :: 0 <= j < n && city(lines[j]) == Some(h.location)
  {
    if n > 0 {
      ScanLocationIsCity(lines, n - 1, date, city);
    }
  }

  /** With no dated line among those scanned, the company is the first line as it stands, the
      title the second, and the duration stays empty. */
  lemma {:induction false} ScanUndated(lines: seq<string>, n: nat, date: Matcher<string>, city: Matcher<string>)
    requires n <= |lines|
    requires forall j :: 0 <= j < n ==> date(lines[j]).None?
    ensures var h := ScanPrefix(lines, n, date, city);
            h.company == (if n > 0 then lines[0] else []) &&
            h.title == (if n > 1 then lines[1] else []) &&
            h.duration == []
  {
    if n > 0 {
      ScanUndated(lines, n - 1, date, city);
    }
  }

  /** A dated line sets the duration, company and title as `DatedLine` says. */
  lemma ScanDatedLine(h: Header, lines: seq<string>, j: nat, date: Matcher<string>, city: Matcher<string>)
    requires j < |lines| && date(lines[j]).Some?
    ensures var g := ScanLine(h, lines, j, date, city);
            var d := DatedLine(h, lines, j, date(lines[j]).value);
            g.duration == d.duration && g.company == d.company && g.title == d.title
  {
  }

  /** An undated line after the first keeps the company and the duration, and keeps the title
      too unless it is the second line and the title is still empty. */
  lemma ScanUndatedLine(h: Header, lines: seq<string>, j: nat, date: Matcher<string>, city: Matcher<string>)
    requires 0 < j < |lines| && date(lines[j]).None?
    requires j == 1 ==> h.title != []
    ensures var g := ScanLine(h, lines, j, date, city);
            g.duration == h.duration && g.company == h.company && g.title == h.title
  {
  }

  /** The last dated line decides the header: the duration is its date, the company the text
      before the date, and, when a line follows it, the title is that line trimmed. The undated
      lines after it change none of these, because an undated second line only fills in a title
      that is still empty, and a title taken from a non-blank line never is. */
  lemma {:induction false} ScanLastDated(lines: seq<string>, n: nat, date: Matcher<string>, city: Matcher<string>, i: nat)
    requires i < n <= |lines|
    requires i + 1 < |lines| ==> NonBlank(lines[i + 1])
    requires date(lines[i]).Some?
    requires forall j :: i < j < n ==> date(lines[j]).None?
    ensures var h := ScanPrefix(lines, n, date, city);
            var tok := date(lines[i]).value;
            h.duration == tok &&
            h.company == TextBefore(lines[i], tok) &&
            (i + 1 < |lines| ==> h.title == Trim(lines[i + 1]))
  {
    var prev := ScanPrefix(lines, n - 1, date, city);
    assert ScanPrefix(lines, n, date, city) == ScanLine(prev, lines, n - 1, date, city);
    if n == i + 1 {
      ScanDatedLine(prev, lines, i, date, city);
    } else {
      ScanLastDated(lines, n - 1, date, city, i);
      ScanUndatedLine(prev, lines, n - 1, date, city);
    }
  }

  /** Lines after the fifth never matter: the scan reads four lines and, for the title, the one
      after the last of them. */
  lemma {:induction false} ScanReadsAhead(a: seq<string>, b: seq<string>, n: nat, date: Matcher<string>, city: Matcher<string>)
    requires n < |a| && n < |b| && a[..n + 1] == b[..n + 1]
    ensures ScanPrefix(a, n, date, city) == ScanPrefix(b, n, date, city)
  {
    if n > 0 {
      assert a[..n] == a[..n + 1][..n] && b[..n] == b[..n + 1][..n];
      ScanReadsAhead(a, b, n - 1, date, city);
      assert a[n - 1] == a[..n + 1][n - 1] && a[n] == a[..n + 1][n];
    }
  }

  lemma HeaderReadsFiveLines(lines: seq<string>, date: Matcher<string>, city: Matcher<string>)
    requires |lines| > 5
    ensures HeaderOf(lines, date, city) == HeaderOf(lines[..5], date, city)
  {
    ScanReadsAhead(lines, lines[..5], 4, date, city);
  }

  /** The characters `replace(/[•\-\*]/g, '')` removes from a bullet description. */
  const Markers: set<char> := {'•', '-', '*'}

  /** Where a description starts: a line opening with a bullet, a dash or a star, or with
      `Project:` in any case. */
  predicate StartsDescription(l: string) {
    StartsWith(l, "•") || StartsWith(l, "-") || StartsWith(l, "*") || StartsWithIgnoreCase(l, "Project:")
  }

  /** `lines.findIndex(StartsDescription)`, searching from `from`: the first such line, or -1. */
  function FindDescription(lines: seq<string>, from: nat): (d: int)
    requires from <= |lines|
    ensures d == -1 || from <= d < |lines|
    ensures d >= 0 ==> StartsDescription(lines[d]) && forall k :: from <= k < d ==> !StartsDescription(lines[k])
    ensures d == -1 ==> forall k :: from <= k < |lines| ==> !StartsDescription(lines[k])
    decreases |lines| - from
  {
    if from == |lines| then -1
    else if StartsDescription(lines[from]) then from
    else FindDescription(lines, from + 1)
  }

  /** The description: from the first description line on, joined with spaces, every marker
      character removed and trimmed; without such a line, the lines after the second, joined and
      trimmed. */
  function Description(lines: seq<string>): string {
    var d := FindDescription(lines, 0);
    if d >= 0 then Trim(RemoveChars(Join(lines[d..], " "), Markers))
    else Trim(Join(if |lines| > 2 then lines[2..] else [], " "))
  }

  /** A record with a description line describes itself from that line on, and its description
      holds no marker character. */
  lemma DescriptionFromFirstMarker(lines: seq<string>, d: nat)
    requires d < |lines| && StartsDescription(lines[d])
    requires forall k :: 0 <= k < d ==> !StartsDescription(lines[k])
    ensures Description(lines) == Trim(RemoveChars(Join(lines[d..], " "), Markers))
    ensures Avoids(Description(lines), Markers)
  {
    var r := RemoveChars(Join(lines[d..], " "), Markers);
    TrimAvoids(r, Markers);
  }

  /** The `findIndex` gives -1 exactly when no line starts a description, and such a record is
      described by its lines after the second. */
  lemma DescriptionWithoutMarker(lines: seq<string>)
    ensures FindDescription(lines, 0) < 0 <==> forall k :: 0 <= k < |lines| ==> !StartsDescription(lines[k])
    ensures FindDescription(lines, 0) < 0 ==>
              Description(lines) == Trim(Join(if |lines| > 2 then lines[2..] else [], " "))
  {
  }

  /** `s || 'Not specified'`. */
  function OrNotSpecified(s: string): (r: string)
    ensures r != []
    ensures s != [] ==> r == s
    ensures s == [] ==> r == NotSpecified
  {
    if s == [] then NotSpecified else s
  }

  /** The record returned for a scanned header and the record's lines. */
  function JobRecord(h: Header, lines: seq<string>): Job {
    Job(OrNotSpecified(h.title), OrNotSpecified(h.company), OrNull(h.duration), OrNull(h.location), Description(lines))
  }

  /** The record one piece of the experience block becomes. */
  function JobOf(section: string, date: Matcher<string>, city: Matcher<string>): Job {
    var lines := Lines(section);
    JobRecord(HeaderOf(lines, date, city), lines)
  }

  /** `exp.company !== 'Not specified' || exp.title !== 'Not specified'`. */
  predicate IsIdentified(j: Job) {
    j.company != NotSpecified || j.title != NotSpecified
  }

  predicate IsJobSection(section: string) {
    TrimmedLongerThan(section, 20)
  }

  /** `section => JobOf(section)` for one pair of date and city patterns. */
  function JobMaker(date: Matcher<string>, city: Matcher<string>): string -> Job {
    (s: string) => JobOf(s, date, city)
  }

  /** `sections.filter(longer than 20).map(JobOf).filter(IsIdentified)`. */
  function Jobs(sections: seq<string>, date: Matcher<string>, city: Matcher<string>): seq<Job> {
    Segment(sections, IsJobSection, JobMaker(date, city), IsIdentified)
  }

  /** Every job kept names a company or a title other than `Not specified`; its title and
      company are never empty, and neither is a duration it holds. */
  lemma JobsShape(sections: seq<string>, date: Matcher<string>, city: Matcher<string>)
    ensures forall j :: j in Jobs(sections, date, city) ==>
              IsIdentified(j) && j.title != [] && j.company != [] &&
              (j.duration.Some? ==> j.duration.value != [])
  {
    forall j | j in Jobs(sections, date, city)
      ensures IsIdentified(j) && j.title != [] && j.company != [] && (j.duration.Some? ==> j.duration.value != [])
    {
      var s := SegmentMember(sections, IsJobSection, JobMaker(date, city), IsIdentified, j);
    }
  }

  /** The header facts behind one job's duration and location. */
  lemma JobDatesAndPlaces(section: string, date: Matcher<string>, city: Matcher<string>)
    ensures var lines := Lines(section);
            var j := JobOf(section, date, city);
            (j.duration.Some? ==> exists i :: 0 <= i < Window(lines) && date(lines[i]) == j.duration) &&
            (j.location.Some? ==> exists i :: 0 <= i < Window(lines) && city(lines[i]) == j.location)
  {
    var lines := Lines(section);
    ScanDurationIsDate(lines, Window(lines), date, city);
    ScanLocationIsCity(lines, Window(lines), date, city);
  }
}
