/** The record the parser returns and the regular expressions it is given. */
module Entities {
  import opened Wrappers
  import opened Cascade

  /** `links: { linkedin, github, portfolio }`. */
  datatype ProfileLinks = ProfileLinks(linkedin: Option<string>, github: Option<string>, portfolio: Option<string>)

  /** One entry of `experience`. */
  datatype Job = Job(title: string, company: string, duration: Option<string>, location: Option<string>, description: string)

  /** One entry of `education`. */
  datatype School = School(degree: string, institution: string, year: Option<string>, details: string)

  /** One entry of `projects`. */
  datatype Project = Project(name: string, duration: Option<string>, description: string)

  /** `parsedData`; `null` is `None`. `age` is declared but never set. */
  datatype ParsedData = ParsedData(
    name: Option<string>,
    email: Option<string>,
    phone: Option<string>,
    age: Option<nat>,
    skills: seq<string>,
    experience: seq<Job>,
    education: seq<School>,
    languages: seq<string>,
    certifications: seq<string>,
    summary: Option<string>,
    location: Option<string>,
    links: ProfileLinks,
    projects: seq<Project>)

  /** `s || null`: the empty string is falsy, so it is stored as `null`. */
  function OrNull(s: string): (r: Option<string>)
    ensures r.None? <==> s == []
    ensures r.Some? ==> r.value == s
  {
    if s == [] then None else Some(s)
  }

  /** The record before any field is filled in. */
  const Empty: ParsedData :=
    ParsedData(None, None, None, None, [], [], [], [], [], None, None, ProfileLinks(None, None, None), [])

  /** The regular expressions whose matching the model does not spell out, each seen through what
      the parser reads of its result:
      - a cascade is the ordered list of its patterns, each giving group 1 (`match[0]` for the
        phone patterns), `None` when the pattern does not match or the group did not take part;
      - `email`, the first match of the global email pattern;
      - `categories`, group 2 of every match the `exec` loop finds in a skills block, in order;
      - the `...Split` fields, `String.prototype.split` on the lookahead patterns that cut a
        block into records;
      - `jobDate`, `cityRegion`, `yearRange`, `gpa` and `projectDate`, the text the per-record
        patterns match (group 1 for `yearRange` and `gpa`; the experience date pattern's group 1
        spans the whole match, so one string serves as both `dateMatch[0]` and `dateMatch[1]`);
      - the single section patterns of education, certifications, projects and languages. */
  datatype Patterns = Patterns(
    name: seq<Matcher<string>>,
    email: Matcher<string>,
    phone: seq<Matcher<string>>,
    location: seq<Matcher<string>>,
    summary: seq<Matcher<string>>,
    skillsSection: seq<Matcher<string>>,
    categories: string -> seq<string>,
    experienceSection: seq<Matcher<string>>,
    jobSplit: string -> seq<string>,
    jobDate: Matcher<string>,
    cityRegion: Matcher<string>,
    educationSection: Matcher<string>,
    educationSplit: string -> seq<string>,
    yearRange: Matcher<string>,
    gpa: Matcher<string>,
    certificationSection: Matcher<string>,
    projectSection: Matcher<string>,
    projectSplit: string -> seq<string>,
    projectDate: Matcher<string>,
    languageSection: Matcher<string>)

  /** What `[\s\S]{50,800}?` promises of a summary capture: at most 800 characters. */
  ghost predicate SummaryCapturesBounded(p: Patterns) {
    forall k, t :: 0 <= k < |p.summary| && p.summary[k](t).Some? ==> |p.summary[k](t).value| <= 800
  }
}
