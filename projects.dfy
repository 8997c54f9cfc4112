/** The project segmenter: how one piece of the projects block becomes a project record, and how
    the pieces become the `projects` list. */
module Projects {
  import opened Wrappers
  import opened Cascade
  import opened JsString
  import opened Sections
  import opened Entities

  /** `[-–]`: a hyphen or an en dash. */
  predicate IsDash(c: char) {
    c == '-' || c == '–'
  }

  /** `s.replace(/[-–]\s*$/, '')`: a dash followed by nothing but `\s` up to the end is removed
      together with that `\s` run; without one, `s` is unchanged. */
  function StripTrailingDash(s: string): (r: string)
    ensures r <= s
    ensures r == s || (|r| < |s| && IsDash(s[|r|]) && AllSpace(s[|r| + 1..]))
  {
    var e := TrimEnd(s);
    if e != [] && IsDash(e[|e| - 1]) then
      assert s[|e| - 1 + 1..] == s[|e|..];
      e[..|e| - 1]
    else s
  }

  /** The dash the pattern removes is the only candidate: whenever `s` ends with a dash and a
      run of `\s`, exactly that much is removed. */
  lemma StripTrailingDashRemoves(s: string, k: nat)
    requires k < |s| && IsDash(s[k]) && AllSpace(s[k + 1..])
    ensures StripTrailingDash(s) == s[..k]
  {
    var e := TrimEnd(s);
    assert |e| == k + 1;
    assert e[|e| - 1] == s[k];
  }

  /** A line opening with a bullet, a dash or a star. */
  predicate IsBullet(line: string) {
    line != [] && line[0] in {'•', '-', '*'}
  }

  /** The marker replace on a bullet line: the leading marker and the `\s` run after it go. */
  function StripBullet(line: string): string
    requires IsBullet(line)
  {
    TrimStart(line[1..])
  }

  /** What line `raw` adds to the description: a bullet line trimmed and without its marker, a
      line longer than twenty characters trimmed, and nothing for any other line. */
  function Piece(raw: string): seq<string> {
    var line := Trim(raw);
    if IsBullet(line) then [StripBullet(line)]
    else if |line| > 20 then [line]
    else []
  }

  /** The pieces of lines `1 .. n-1`: the description loop starts after the first line. */
  function PiecesUpTo(lines: seq<string>, n: nat): seq<string>
    requires n <= 1 || n <= |lines|
  {
    if n <= 1 then [] else PiecesUpTo(lines, n - 1) + Piece(lines[n - 1])
  }

  function Pieces(lines: seq<string>): seq<string> {
    PiecesUpTo(lines, |lines|)
  }

  /** One turn of the description loop: what it pushes for line `raw`. */
  method PushPiece(description: seq<string>, raw: string) returns (r: seq<string>)
    ensures r == description + Piece(raw)
  {
    var line := Trim(raw);
    if IsBullet(line) {
      r := description + [StripBullet(line)];
    } else if |line| > 20 {
      r := description + [line];
    } else {
      r := description;
    }
  }

  /** The description loop, pushing each line's piece in turn. */
  method CollectPieces(lines: seq<string>) returns (description: seq<string>)
    ensures description == Pieces(lines)
  {
    description := [];
    if lines != [] {
      for i := 1 to |lines|
        invariant description == PiecesUpTo(lines, i)
      {
        description := PushPiece(description, lines[i]);
      }
    }
  }

  /** Every piece is trimmed: a trimmed bullet line ends in a non-`\s` character, so stripping
      its marker and the `\s` after it leaves a trimmed string. */
  lemma PieceTrimmed(raw: string)
    ensures forall x :: x in Piece(raw) ==> IsTrimmed(x)
  {
    var line := Trim(raw);
    if IsBullet(line) {
      var r := StripBullet(line);
      var t := line[1..];
      if r != [] {
        assert r[|r| - 1] == t[|t| - 1] == line[|line| - 1];
      }
    }
  }

  lemma {:induction false} PiecesTrimmed(lines: seq<string>, n: nat)
    requires n <= 1 || n <= |lines|
    ensures forall x :: x in PiecesUpTo(lines, n) ==> IsTrimmed(x)
  {
    if n > 1 {
      PiecesTrimmed(lines, n - 1);
      PieceTrimmed(lines[n - 1]);
    }
  }

  /** A line adds a piece exactly when, trimmed, it is a bullet line or longer than twenty
      characters; the piece is the bullet line without its marker, or the whole trimmed line. */
  lemma PieceKinds(raw: string)
    ensures Piece(raw) != [] <==> IsBullet(Trim(raw)) || |Trim(raw)| > 20
    ensures forall x :: x in Piece(raw) ==>
              (IsBullet(Trim(raw)) && x == StripBullet(Trim(raw))) ||
              (!IsBullet(Trim(raw)) && x == Trim(raw) && |x| > 20)
  {
  }

  /** The pieces collected up to line `n` are those of lines `1 .. n-1`, and no others. */
  lemma {:induction false} PiecesFromLines(lines: seq<string>, n: nat)
    requires n <= 1 || n <= |lines|
    ensures forall x :: x in PiecesUpTo(lines, n) <==> exists k :: 1 <= k < n && x in Piece(lines[k])
  {
    if n > 1 {
      PiecesFromLines(lines, n - 1);
      forall x ensures x in PiecesUpTo(lines, n) <==> exists k :: 1 <= k < n && x in Piece(lines[k]) {
        if x in Piece(lines[n - 1]) {
          assert x in PiecesUpTo(lines, n);
        }
      }
    }
  }

  /** The loop never sees the first line, and each later line adds at most one piece. */
  lemma {:induction false} PiecesCount(lines: seq<string>, n: nat)
    requires n <= 1 || n <= |lines|
    ensures |PiecesUpTo(lines, n)| <= if n <= 1 then 0 else n - 1
  {
    if n > 1 {
      PiecesCount(lines, n - 1);
    }
  }

  /** `lines[0]`; a record always has a first line, since only pieces with more than twenty
      non-space characters are cut into records. */
  function FirstLine(lines: seq<string>): string {
    if lines == [] then [] else lines[0]
  }

  /** The record one piece of the projects block becomes: when the first line holds a date, the
      name is the text before it without a trailing dash, trimmed, and the date is the duration;
      otherwise the whole first line, trimmed, is the name. */
  function ProjectOf(section: string, date: Matcher<string>): Project {
    var lines := Lines(section);
    var first := FirstLine(lines);
    var description := Join(Pieces(lines), " ");
    match date(first)
    case Some(tok) => Project(Trim(StripTrailingDash(Prefix(first, IndexOf(first, tok)))), OrNull(tok), description)
    case None => Project(Trim(first), None, description)
  }

  function ProjectMaker(date: Matcher<string>): string -> Project {
    (s: string) => ProjectOf(s, date)
  }

  /** `section.trim().length > 20`. */
  predicate IsProjectSection(section: string) {
    TrimmedLongerThan(section, 20)
  }

  /** `proj => proj.name`. */
  predicate HasName(p: Project) {
    p.name != []
  }

  /** `sections.filter(longer than 20).map(ProjectOf).filter(HasName)`. */
  function ProjectList(sections: seq<string>, date: Matcher<string>): seq<Project> {
    Segment(sections, IsProjectSection, ProjectMaker(date), HasName)
  }

  /** A piece long enough is kept exactly when its record has a name, and every record kept has
      a trimmed name and, when dated, a non-empty duration. */
  lemma ProjectsKeptIffNamed(sections: seq<string>, date: Matcher<string>, j: nat)
    requires j < |sections| && IsProjectSection(sections[j])
    ensures ProjectOf(sections[j], date).name != [] ==> ProjectOf(sections[j], date) in ProjectList(sections, date)
    ensures ProjectOf(sections[j], date) in ProjectList(sections, date) ==> ProjectOf(sections[j], date).name != []
  {
    if ProjectOf(sections[j], date).name != [] {
      SegmentKeeps(sections, IsProjectSection, ProjectMaker(date), HasName, j);
    }
    if ProjectOf(sections[j], date) in ProjectList(sections, date) {
      var s := SegmentMember(sections, IsProjectSection, ProjectMaker(date), HasName, ProjectOf(sections[j], date));
    }
  }

  lemma ProjectsShape(sections: seq<string>, date: Matcher<string>)
    ensures forall p :: p in ProjectList(sections, date) ==>
              p.name != [] && IsTrimmed(p.name) && (p.duration.Some? ==> p.duration.value != [])
  {
    forall p | p in ProjectList(sections, date)
      ensures p.name != [] && IsTrimmed(p.name) && (p.duration.Some? ==> p.duration.value != [])
    {
      var s := SegmentMember(sections, IsProjectSection, ProjectMaker(date), HasName, p);
    }
  }
}
