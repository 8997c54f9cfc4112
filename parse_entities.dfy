/** `parseEntities(text)`: every field of the parsed record, each as the function that states
    what the parser stores, and the parser's own sequence of steps as a method proved to store
    exactly those fields. */
module ParseEntities {
  import opened Wrappers
  import opened Cascade
  import opened JsString
  import opened Normalize
  import opened Entities
  import opened Fields
  import opened Skills
  import opened Dictionary
  import opened Experience
  import opened Education
  import opened Lists
  import opened Projects
  import opened Links

  /** `match && match[1]` for a single section pattern: a non-empty group 1. */
  function SectionBlock(m: Option<string>): (r: Option<string>)
    ensures r.Some? <==> m.Some? && m.value != []
    ensures r.Some? ==> r == m
  {
    match m
    case Some(b) => AcceptBlock(b)
    case None => None
  }

  function NameField(text: string, p: Patterns): Option<string> {
    FirstAccepted(p.name, text, AcceptName)
  }

  function PhoneField(text: string, p: Patterns): Option<string> {
    FirstAccepted(p.phone, text, AcceptPhone)
  }

  function LocationField(text: string, p: Patterns): Option<string> {
    FirstAccepted(p.location, text, AcceptLocation)
  }

  function SummaryField(text: string, p: Patterns): Option<string> {
    FirstAccepted(p.summary, text, AcceptSummary)
  }

  /** The skills found in the skills block, before the keyword scan; none without a block. */
  function BlockSkills(text: string, p: Patterns): seq<string> {
    match FirstAccepted(p.skillsSection, text, AcceptBlock)
    case Some(block) => HeaderSkills(p.categories(block), block)
    case None => []
  }

  function ExperienceField(text: string, p: Patterns): seq<Job> {
    match FirstAccepted(p.experienceSection, text, AcceptBlock)
    case Some(block) => Jobs(p.jobSplit(block), p.jobDate, p.cityRegion)
    case None => []
  }

  function EducationField(text: string, p: Patterns): seq<School> {
    match SectionBlock(p.educationSection(text))
    case Some(block) => Schools(p.educationSplit(block), p.yearRange, p.gpa)
    case None => []
  }

  function CertificationsField(text: string, p: Patterns): seq<string> {
    match SectionBlock(p.certificationSection(text))
    case Some(block) => Certifications(block)
    case None => []
  }

  function ProjectsField(text: string, p: Patterns): seq<Project> {
    match SectionBlock(p.projectSection(text))
    case Some(block) => ProjectList(p.projectSplit(block), p.projectDate)
    case None => []
  }

  function LanguagesField(text: string, p: Patterns): seq<string> {
    match SectionBlock(p.languageSection(text))
    case Some(block) => Languages(block)
    case None => []
  }

  /** The final skills: the block's skills, then the keyword scan over the whole text, then the
      `new Set`. */
  function SkillsField(text: string, p: Patterns, ks: seq<string>): seq<string> {
    Dedup(Augment(BlockSkills(text, p), text, ks))
  }

  /** The name, phone, location and summary cascades, each stopping at its first accepted
      capture, and the email match. */
  method ContactSteps(text: string, p: Patterns, d0: ParsedData) returns (d: ParsedData)
    ensures d == d0.(name := NameField(text, p), email := EmailOf(p.email(text)), phone := PhoneField(text, p),
                     location := LocationField(text, p), summary := SummaryField(text, p))
  {
    d := d0;
    var name := Run(p.name, text, AcceptName);
    d := d.(name := name);
    d := d.(email := EmailOf(p.email(text)));
    var phone := Run(p.phone, text, AcceptPhone);
    d := d.(phone := phone);
    var location := Run(p.location, text, AcceptLocation);
    d := d.(location := location);
    var summary := Run(p.summary, text, AcceptSummary);
    d := d.(summary := summary);
  }

  /** The skills cascade: the first non-empty skills block gives the category tokens of every
      `exec` match followed by the plain tokens, without repeats; without a block the skills stay
      as they were. */
  method SkillsStep(text: string, p: Patterns, d0: ParsedData) returns (d: ParsedData)
    requires d0.skills == []
    ensures d == d0.(skills := BlockSkills(text, p))
  {
    d := d0;
    var skillsBlock := Run(p.skillsSection, text, AcceptBlock);
    if skillsBlock.Some? {
      var block := skillsBlock.value;
      var categorized := CollectCategorized(p.categories(block));
      d := d.(skills := Dedup(categorized + Plain(block)));
    }
  }

  /** The experience cascade and the four single section matches: each list is set only when
      its block is found and non-empty. */
  method SectionSteps(text: string, p: Patterns, d0: ParsedData) returns (d: ParsedData)
    requires d0.experience == [] && d0.education == [] && d0.certifications == [] && d0.projects == []
    ensures d == d0.(experience := ExperienceField(text, p), education := EducationField(text, p),
                     certifications := CertificationsField(text, p), projects := ProjectsField(text, p))
  {
    d := d0;
    var experienceBlock := Run(p.experienceSection, text, AcceptBlock);
    if experienceBlock.Some? {
      d := d.(experience := Jobs(p.jobSplit(experienceBlock.value), p.jobDate, p.cityRegion));
    }
    var educationBlock := SectionBlock(p.educationSection(text));
    if educationBlock.Some? {
      d := d.(education := Schools(p.educationSplit(educationBlock.value), p.yearRange, p.gpa));
    }
    var certificationBlock := SectionBlock(p.certificationSection(text));
    if certificationBlock.Some? {
      d := d.(certifications := Certifications(certificationBlock.value));
    }
    var projectBlock := SectionBlock(p.projectSection(text));
    if projectBlock.Some? {
      d := d.(projects := ProjectList(p.projectSplit(projectBlock.value), p.projectDate));
    }
  }

  /** The three link cascades. */
  method LinkSteps(text: string, d0: ParsedData) returns (d: ParsedData)
    ensures d == d0.(links := ProfileLinks(SiteLink(LinkedIn, text), SiteLink(GitHub, text), Portfolio(text)))
  {
    var linkedin := Run(SitePatterns(LinkedIn), text, ToLink(LinkedIn));
    var github := Run(SitePatterns(GitHub), text, ToLink(GitHub));
    var portfolio := Run(PortfolioPatterns(), text, u => Some(u));
    d := d0.(links := ProfileLinks(linkedin, github, portfolio));
  }

  /** The language match, then the keyword scan over the whole text and the final `new Set`. */
  method LastSteps(text: string, p: Patterns, ks: seq<string>, d0: ParsedData) returns (d: ParsedData)
    requires d0.languages == []
    ensures d == d0.(languages := LanguagesField(text, p), skills := Dedup(Augment(d0.skills, text, ks)))
  {
    d := d0;
    var languageBlock := SectionBlock(p.languageSection(text));
    if languageBlock.Some? {
      d := d.(languages := Languages(languageBlock.value));
    }
    var augmented := AugmentSkills(d.skills, text, ks);
    d := d.(skills := Dedup(augmented));
  }

  /** The parser's steps in its own order, starting from the record with every field unset. */
  method ParseEntities(text: string, p: Patterns) returns (d: ParsedData)
    ensures d.name == NameField(text, p)
    ensures d.email == EmailOf(p.email(text))
    ensures d.phone == PhoneField(text, p)
    ensures d.age.None?
    ensures d.skills == SkillsField(text, p, TechKeywords)
    ensures d.experience == ExperienceField(text, p)
    ensures d.education == EducationField(text, p)
    ensures d.languages == LanguagesField(text, p)
    ensures d.certifications == CertificationsField(text, p)
    ensures d.summary == SummaryField(text, p)
    ensures d.location == LocationField(text, p)
    ensures d.links == ProfileLinks(SiteLink(LinkedIn, text), SiteLink(GitHub, text), Portfolio(text))
    ensures d.projects == ProjectsField(text, p)
  {
    d := Empty;
    d := ContactSteps(text, p, d);
    d := SkillsStep(text, p, d);
    d := SectionSteps(text, p, d);
    d := LinkSteps(text, d);
    d := LastSteps(text, p, TechKeywords, d);
  }


  /** The stored name is trimmed and starts with no section header, and it is missing only when
      no name pattern yields a capture the header check accepts. */
  lemma NameValid(text: string, p: Patterns)
    ensures var n := NameField(text, p);
            n.Some? ==> IsTrimmed(n.value) && !StartsWithAnyIgnoreCase(n.value, HeaderWords)
    ensures NameField(text, p).None? <==>
              forall i :: 0 <= i < |p.name| ==> Candidate(p.name, text, AcceptName, i).None?
  {
    CascadeKeeps(p.name, text, AcceptName, (n: string) => IsTrimmed(n) && !StartsWithAnyIgnoreCase(n, HeaderWords));
  }

  /** The stored phone is the trimmed match of the first phone pattern that matches at all, and
      there is none only when no phone pattern matches. */
  lemma PhoneValid(text: string, p: Patterns)
    ensures PhoneField(text, p).Some? ==> IsTrimmed(PhoneField(text, p).value)
    ensures PhoneField(text, p).None? <==> forall i :: 0 <= i < |p.phone| ==> p.phone[i](text).None?
    ensures PhoneField(text, p).Some? ==>
              exists i :: 0 <= i < |p.phone| && p.phone[i](text).Some? &&
                PhoneField(text, p).value == Trim(p.phone[i](text).value) &&
                forall j :: 0 <= j < i ==> p.phone[j](text).None?
  {
    CascadeKeeps(p.phone, text, AcceptPhone, IsTrimmed);
    var r := PhoneField(text, p);
    if r.None? {
      forall i | 0 <= i < |p.phone| ensures p.phone[i](text).None? {
        assert Candidate(p.phone, text, AcceptPhone, i).None?;
      }
    } else {
      var i :| 0 <= i < |p.phone| && Candidate(p.phone, text, AcceptPhone, i) == r &&
               forall j :: 0 <= j < i ==> Candidate(p.phone, text, AcceptPhone, j).None?;
      forall j | 0 <= j < i ensures p.phone[j](text).None? {
        assert Candidate(p.phone, text, AcceptPhone, j).None?;
      }
      assert p.phone[i](text).Some?;
    }
  }

  /** The stored location is trimmed and holds a comma. */
  lemma LocationValid(text: string, p: Patterns)
    ensures var l := LocationField(text, p);
            l.Some? ==> IsTrimmed(l.value) && ',' in l.value
  {
    CascadeKeeps(p.location, text, AcceptLocation, (l: string) => IsTrimmed(l) && ',' in l);
  }

  /** A stored summary is in the whitespace normal form, holds no line break and, as the summary
      patterns capture at most 800 characters, is at most 800 characters long. */
  lemma SummaryValid(text: string, p: Patterns)
    ensures var s := SummaryField(text, p);
            s.Some? ==> IsCollapsed(s.value) && '\n' !in s.value
    ensures SummaryCapturesBounded(p) ==> var s := SummaryField(text, p);
            s.Some? ==> |s.value| <= 800
  {
    CascadeKeeps(p.summary, text, AcceptSummary, (s: string) => IsCollapsed(s) && '\n' !in s);
    var r := SummaryField(text, p);
    if SummaryCapturesBounded(p) && r.Some? {
      var i :| 0 <= i < |p.summary| && Candidate(p.summary, text, AcceptSummary, i) == r;
      var m := p.summary[i](text);
      assert m.Some? && |m.value| <= 800;
      assert |r.value| <= |m.value|;
    }
  }

  /** The final skills: the block's skills first and in order, each trimmed and 2 to 49
      characters long, then the keywords the text mentions that no earlier skill matches
      ignoring case; no skill occurs twice, so the final `new Set` removes nothing. */
  lemma SkillsValid(text: string, p: Patterns, ks: seq<string>)
    ensures var skills := SkillsField(text, p, ks);
            var b := BlockSkills(text, p);
            |b| <= |skills| && skills[..|b|] == b &&
            (forall x :: x in b ==> IsTrimmed(x) && 1 < |x| < 50) &&
            (forall m :: |b| <= m < |skills| ==>
               skills[m] in ks && Mentions(text, skills[m]) && !HasCaseVariant(skills[..m], skills[m])) &&
            NoDuplicates(skills) &&
            skills == Augment(b, text, ks)
  {
    var b := BlockSkills(text, p);
    match FirstAccepted(p.skillsSection, text, AcceptBlock) {
      case Some(block) => HeaderSkillsShape(p.categories(block), block);
      case None =>
    }
    FinalSetRemovesNothing(b, text, ks);
    AugmentKeepsPrefix(b, text, ks);
    AugmentAppendsNewKeywords(b, text, ks);
  }

  /** Both profile links are the site's canonical address followed by a handle, and the
      portfolio is a URL that occurs in the text as written. */
  lemma LinksValid(text: string)
    ensures SiteLink(LinkedIn, text).Some? ==>
              exists h :: IsHandle(h) && SiteLink(LinkedIn, text) == Some(LinkedIn.canonical + h)
    ensures SiteLink(GitHub, text).Some? ==>
              exists h :: IsHandle(h) && SiteLink(GitHub, text) == Some(GitHub.canonical + h)
    ensures Portfolio(text).Some? ==> IsUrl(Portfolio(text).value) && IsInfix(Portfolio(text).value, text)
  {
    LinkIsCanonical(LinkedIn, text);
    LinkIsCanonical(GitHub, text);
  }

  /** Every job names a company and a title. */
  lemma ExperienceValid(text: string, p: Patterns)
    ensures forall j :: j in ExperienceField(text, p) ==> IsIdentified(j) && j.title != [] && j.company != []
  {
    match FirstAccepted(p.experienceSection, text, AcceptBlock) {
      case Some(block) => JobsShape(p.jobSplit(block), p.jobDate, p.cityRegion);
      case None =>
    }
  }

  /** Every school has a degree, and its details are empty or a GPA. */
  lemma EducationValid(text: string, p: Patterns)
    ensures forall s :: s in EducationField(text, p) ==>
              s.degree != [] && (s.details == [] || exists g :: s.details == "GPA: " + g)
  {
    match SectionBlock(p.educationSection(text)) {
      case Some(block) => SchoolsShape(p.educationSplit(block), p.yearRange, p.gpa);
      case None =>
    }
  }

  /** Certifications are trimmed tokens of 6 to 199 characters. */
  lemma CertificationsValid(text: string, p: Patterns)
    ensures forall c :: c in CertificationsField(text, p) ==> IsTrimmed(c) && 5 < |c| < 200
  {
    match SectionBlock(p.certificationSection(text)) {
      case Some(block) => CertificationsShape(block);
      case None =>
    }
  }

  /** Every project has a trimmed name. */
  lemma ProjectsValid(text: string, p: Patterns)
    ensures forall r :: r in ProjectsField(text, p) ==> r.name != [] && IsTrimmed(r.name)
  {
    match SectionBlock(p.projectSection(text)) {
      case Some(block) => ProjectsShape(p.projectSplit(block), p.projectDate);
      case None =>
    }
  }

  /** Languages are trimmed tokens of 2 to 49 characters naming no technology heading, and none
      is stored when the language block names a programming language. */
  lemma LanguagesValid(text: string, p: Patterns)
    ensures forall l :: l in LanguagesField(text, p) ==> IsTrimmed(l) && 1 < |l| < 50 && NotTechnologyHeading(l)
    ensures LanguagesField(text, p) != [] ==>
              p.languageSection(text).Some? && !ContainsAnyIgnoreCase(p.languageSection(text).value, ProgrammingLanguages)
  {
    match SectionBlock(p.languageSection(text)) {
      case Some(block) =>
        LanguagesShape(block);
        assert LanguagesField(text, p) == Languages(block);
        assert block == p.languageSection(text).value;
      case None =>
        assert LanguagesField(text, p) == [];
    }
  }
}
