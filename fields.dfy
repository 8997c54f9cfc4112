/** The checks of the single-valued fields: what each cascade accepts of a capture, and what it
    stores. */
module Fields {
  import opened JsString
  import opened Wrappers
  import opened Normalize

  /** The section headers a name candidate must not start with. */
  const HeaderWords: seq<string> := ["Professional", "Technical", "Education", "Experience", "Skills", "Summary"]

  /** The check of the name cascade: a non-empty group 1 is trimmed, and rejected when it starts,
      ignoring case, with a section header. */
  function AcceptName(c: string): (r: Option<string>)
    ensures r.Some? <==> c != [] && !StartsWithAnyIgnoreCase(Trim(c), HeaderWords)
    ensures r.Some? ==> r.value == Trim(c) && IsTrimmed(r.value) && !StartsWithAnyIgnoreCase(r.value, HeaderWords)
  {
    if c == [] then None
    else
      var n := Trim(c);
      if StartsWithAnyIgnoreCase(n, HeaderWords) then None else Some(n)
  }

  /** The email field: the first match, lower-cased. */
  function EmailOf(m: Option<string>): (r: Option<string>)
    ensures r.Some? <==> m.Some?
    ensures r.Some? ==> r.value == Lower(m.value) && IsLowerCase(r.value) && |r.value| == |m.value|
  {
    match m
    case None => None
    case Some(e) =>
      LowerIsLowerCase(e);
      Some(Lower(e))
  }

  /** The check of the phone cascade: every match is accepted, trimmed. */
  function AcceptPhone(c: string): (r: Option<string>)
    ensures r.Some? && r.value == Trim(c) && IsTrimmed(r.value)
  {
    Some(Trim(c))
  }

  /** The check of the location cascade: a non-empty group 1 is trimmed and accepted only when it
      contains a comma. */
  function AcceptLocation(c: string): (r: Option<string>)
    ensures r.Some? <==> c != [] && ',' in Trim(c)
    ensures r.Some? ==> r.value == Trim(c) && IsTrimmed(r.value) && ',' in r.value
  {
    if c == [] then None
    else
      var l := Trim(c);
      if ',' in l then Some(l) else None
  }

  /** `capture.trim().replace(/\s+/g, ' ').replace(/\n{2,}/g, '\n')`. */
  function CleanSummary(c: string): (r: string)
    ensures |r| <= |c|
    ensures IsCollapsed(r) && '\n' !in r
  {
    var s := CollapseSpaces(Trim(c));
    // the whitespace replace leaves no LF behind (see NormalizeText), so the last replace keeps `s`
    assert '\n' !in s by { assert s == NormalizeText(Trim(c)); }
    CollapseIsCollapsed(Trim(c));
    CollapseNotLonger(Trim(c));
    NewlineRunsIdentity(s);
    CollapseNewlineRuns(s)
  }

  /** The `\n{2,}` replace of the summary never changes anything: the whitespace replace before it
      has already turned every LF into a space. */
  lemma SummaryNewlineReplaceIsIdentity(c: string)
    ensures CleanSummary(c) == CollapseSpaces(Trim(c))
  {
    NewlineRunsIdentity(NormalizeText(Trim(c)));
  }

  /** The check of the summary cascade: a non-empty group 1 is accepted and cleaned. */
  function AcceptSummary(c: string): (r: Option<string>)
    ensures r.Some? <==> c != []
    ensures r.Some? ==> r.value == CleanSummary(c) && |r.value| <= |c| && IsCollapsed(r.value) && '\n' !in r.value
  {
    if c == [] then None else Some(CleanSummary(c))
  }

  /** The check of the cascades that select a section block (skills, experience): any non-empty
      group 1 is accepted as it is. */
  function AcceptBlock(c: string): (r: Option<string>)
    ensures r.Some? <==> c != []
    ensures r.Some? ==> r.value == c
  {
    if c == [] then None else Some(c)
  }
}
