# Resume parser: a verified model of its core

This project models the text-processing core of the resume parser service in Dafny and proves
properties of that model.

- **`parseEntities(text)`.** This turns the normalised text of one resume into a structured
  record. The record holds:
  - name, email, phone, summary and location;
  - the skills list and the dictionary scan that adds to it;
  - experience, education and projects;
  - certifications and spoken languages;
  - links to LinkedIn, GitHub and a portfolio.
- **The two text extractors, `extractPdf` and `extractDocx`.** They normalise whitespace in what
  the PDF or DOCX library returns, and they map every failure to one generic error.

## How the model is organised

- **Plain values.** Strings are `seq<char>`. `null` is `None`.
- **`wrappers.dfy`.** The `Option` and `Result` datatypes.
- **`jsstring.dfy`.** The JavaScript string operations the parser uses:
  - `trim` and `\s`;
  - ASCII `toLowerCase` and case-insensitive comparison;
  - `indexOf`, `substring` and `split` on a character set;
  - `map`, `filter` and `join`;
  - first-occurrence deduplication, which is what `[...new Set(xs)]` does.
  - It also holds `Segment`, the `filter(...).map(...).filter(...)` chain shared by the three
    record segmenters.
- **`normalize.dfy`.** The `\s+` → `' '` replace and the line-break replace that follows it.
- **`extract_pdf.dfy` and `extract_docx.dfy`.** The two extractors. The library result is an input.
- **`cascade.dfy`.** The first-accepted-match cascade: a `for … of` loop over patterns that stops
  at the first capture its field's check accepts. There is a function (`FirstAccepted`) and the
  loop itself (`Run`).
- **`fields.dfy`.** The check each single-valued cascade applies to a capture.
- **`skills.dfy`, `dictionary.dfy` and `lists.dfy`.** The list miners: skills from the skills
  block, the keyword scan over the whole text, certifications and languages.
- **`sections.dfy`.** `trim().split('\n').filter(l => l.trim())` and the token pipelines.
- **`experience.dfy`, `education.dfy` and `projects.dfy`.** The record segmenters. Each has its
  line-scanning loop as a method proved against a function.
- **`entities.dfy`.** The record, its parts, and the regular expressions the model takes as
  given.
- **`parse_entities.dfy`.** The fields of the record, the parser's steps as methods, and the
  properties of each field.

Regular expressions whose behaviour depends on JavaScript backtracking are not spelled out. They
are parameters: fields of `Entities.Patterns`. Each is seen only through what the parser reads of
its result, for example group 1 of the first match, or the pieces of a `split`.

Some checks are spelled out exactly:

- the literal, case-insensitive alternations, such as the six header words, the stopwords, the
  degree and institution words, and the programming-language and technology words;
- the `\b…\b` keyword scan;
- the LinkedIn, GitHub and portfolio patterns. These are modelled as leftmost searches with
  greedy runs.

### Behaviour worth knowing

The model follows the code, including where the code does less than its comments or its
patterns suggest.

- **Case of repeated skills.** Both `new Set` calls (parseEntities.js:142 and 433) remove only
  exact repeats, so two skills that differ only in case both stay. Only the dictionary scan
  (parseEntities.js:427) compares ignoring case.
- **Line breaks.** The PDF extractor's comment (extractPdf.js:13) speaks of
  normalising line breaks. But the `\s+` replace runs first and turns every line break into a
  space, so the line-break replace after it never changes anything (`Normalize.NormalizeText`).
  The extracted text has no line breaks at all.
- **Summaries.** For the same reason, the `\n{2,}` replace of the summary never changes anything
  (`Fields.SummaryNewlineReplaceIsIdentity`).

## Model

| member | source | states |
|---|---|---|
| `Normalize.NormalizeText` | resume-parser-service/src/utils/extractPdf.js:14-15 | The two replaces give the `\s+` collapse. The result has no line break and no carriage return, and it is collapsed: every whitespace character is a single space with no whitespace after it. |
| `Normalize.CollapseSpaces` | resume-parser-service/src/utils/extractPdf.js:14 | `\s+` → one space. It has no contract of its own. `CollapseIsCollapsed`, `CollapseOfCollapsed`, `CollapseNotLonger` and `CollapseKeepsVisible` prove the result is collapsed, is a fixed point when already collapsed, is never longer, and keeps the non-whitespace characters in order. |
| `Normalize.ReplaceLineBreaks` | resume-parser-service/src/utils/extractPdf.js:15 | CR LF, LF and CR each become one LF. The result has no CR, and `LineBreaksIdentity` proves it is the identity on text without CR or LF. |
| `Normalize.NormalizeIdempotent` | resume-parser-service/src/utils/extractPdf.js:14-15 | Normalising twice gives the same text as normalising once. |
| `Normalize.NormalizePreserves` | resume-parser-service/src/utils/extractPdf.js:14-15 | Normalising never lengthens the text. It keeps the sequence of non-whitespace characters unchanged and in order. |
| `Normalize.LineBreaksIdentity` | resume-parser-service/src/utils/extractPdf.js:15 | On a text without LF or CR, the line-break replace is the identity. |
| `Normalize.CollapseIsCollapsed` | resume-parser-service/src/utils/extractPdf.js:14 | The `\s+` replace leaves no whitespace but single spaces. |
| `Normalize.CollapseOfCollapsed` | resume-parser-service/src/utils/extractPdf.js:14 | The `\s+` replace leaves collapsed text unchanged. |
| `Normalize.CollapseNotLonger` | resume-parser-service/src/utils/extractPdf.js:14 | The `\s+` replace never lengthens a text. |
| `Normalize.CollapseKeepsVisible` | resume-parser-service/src/utils/extractPdf.js:14 | The `\s+` replace keeps the non-whitespace characters in order. |
| `Normalize.NewlineRunsIdentity` | resume-parser-service/src/utils/parseEntities.js:105 | On a text without LF, the `\n{2,}` replace is the identity. |
| `Normalize.CollapseNewlineRuns` | resume-parser-service/src/utils/parseEntities.js:105 | After the `\n{2,}` → `\n` replace, no two adjacent characters are both LF. A first LF is kept, and only LFs are removed: with every LF deleted, input and output are equal. `NewlineRunsOfSingles` and `NewlineRunShrinks` complete the description. |
| `Normalize.NewlineRunsOfSingles` | resume-parser-service/src/utils/parseEntities.js:105 | A text with no two adjacent LFs is unchanged, so every single LF is kept wherever it stands. |
| `Normalize.NewlineRunShrinks` | resume-parser-service/src/utils/parseEntities.js:105 | Shortening a run of two or more LFs by one does not change the result. With `NewlineRunsOfSingles` this pins the replace down: each run of LFs becomes exactly one LF. |
| `ExtractPdf.Extract` | resume-parser-service/src/utils/extractPdf.js:5-24 | Succeeds exactly when the read and the parse succeed. The result is the library text, normalised. Every failure is the error `Failed to extract text from PDF`. |
| `ExtractDocx.Extract` | resume-parser-service/src/utils/extractDocx.js:4-24 | Succeeds exactly when mammoth succeeds. The result is its text, normalised. Every failure is the error `Failed to extract text from DOCX`. |
| `ExtractDocx.WarningsIgnored` | resume-parser-service/src/utils/extractDocx.js:14-16 | mammoth's warnings never change the returned text. |
| `Cascade.FirstAccepted` | resume-parser-service/src/utils/parseEntities.js:40-50 | The result is `null` exactly when no pattern gives an accepted capture. Otherwise it is the accepted capture of the first pattern, in list order, that gives one. |
| `Cascade.CascadeAppend` | resume-parser-service/src/utils/parseEntities.js:40-50 | Patterns after the first accepting one are never consulted. A cascade over `a + b` is the cascade over `a`, and only when that gives nothing, the cascade over `b`. |
| `Cascade.CascadeKeeps` | resume-parser-service/src/utils/parseEntities.js:40-50 | When every capture the check accepts has a property, the stored field has it too. |
| `Cascade.Run` | resume-parser-service/src/utils/parseEntities.js:66-72 | The `for` loop with `break` returns what `FirstAccepted` gives. |
| `Fields.AcceptName` | resume-parser-service/src/utils/parseEntities.js:42-48 | A name is accepted exactly when the capture is non-empty and, once trimmed, does not start, ignoring case, with one of the six header words. What is stored is the trimmed capture. |
| `Fields.EmailOf` | resume-parser-service/src/utils/parseEntities.js:53-57 | The email is set exactly when the pattern matches. What is stored is the first match lower-cased: lower case and as long as the match. |
| `Fields.AcceptPhone` | resume-parser-service/src/utils/parseEntities.js:67-70 | Every phone match is accepted, and what is stored is the trimmed match. |
| `Fields.AcceptLocation` | resume-parser-service/src/utils/parseEntities.js:83-87 | A location is accepted exactly when it is non-empty and holds a comma once trimmed. What is stored is the trimmed capture. |
| `Fields.CleanSummary` | resume-parser-service/src/utils/parseEntities.js:103-105 | The cleaned summary is collapsed, holds no LF, and is no longer than the capture. |
| `Fields.SummaryNewlineReplaceIsIdentity` | resume-parser-service/src/utils/parseEntities.js:103-105 | The last replace of the summary changes nothing. The cleaned summary is the trimmed capture with its whitespace collapsed. |
| `Fields.AcceptSummary` | resume-parser-service/src/utils/parseEntities.js:102-106 | A summary is accepted exactly when the capture is non-empty. What is stored is the cleaned capture: collapsed, without LF and no longer than the capture. |
| `Fields.AcceptBlock` | resume-parser-service/src/utils/parseEntities.js:119-120 | A section block is accepted exactly when it is non-empty. It is stored as captured. |
| `Skills.CategoryTokens` | resume-parser-service/src/utils/parseEntities.js:128-131 | The tokens of a category list are exactly its trimmed comma- or semicolon-separated pieces that are 2 to 49 characters long. |
| `Skills.Categorized` | resume-parser-service/src/utils/parseEntities.js:127-133 | Every category token pushed is trimmed and 2 to 49 characters long. |
| `Skills.CollectCategorized` | resume-parser-service/src/utils/parseEntities.js:127-133 | The `exec` loop pushes the tokens of every category list, in the order of the matches. |
| `Skills.PlainShape` | resume-parser-service/src/utils/parseEntities.js:136-140 | Every plain token is trimmed and 2 to 49 characters long. It has no colon and is not one of and/or/with/in/at/for, in any case. |
| `Skills.Plain` | resume-parser-service/src/utils/parseEntities.js:136-140 | `plainSkills`: the trimmed pieces between `,;•·` and LF, 2 to 49 long, without a colon and not a stopword. It has no contract of its own; `PlainShape` proves those properties of every element. |
| `Skills.CategorizedShape` | resume-parser-service/src/utils/parseEntities.js:127-133 | Every token in the category list is trimmed and 2 to 49 characters long. |
| `Skills.HeaderSkillsShape` | resume-parser-service/src/utils/parseEntities.js:136-142 | Every skill from the block is trimmed and 2 to 49 characters long. Any skill not from a category list passes the plain filters. A token is in the list exactly when a category list or the plain tokens have it, and no skill occurs twice. |
| `Skills.HeaderSkills` | resume-parser-service/src/utils/parseEntities.js:127-142 | The block's skills, `[...new Set([...categorized, ...plain])]`. It has no contract of its own. `HeaderSkillsShape` proves exact membership and no repeats, and `CategorizedFirst` proves the category tokens come first. |
| `Skills.CategorizedFirst` | resume-parser-service/src/utils/parseEntities.js:142 | The category tokens come first, in order of first occurrence. They are followed by the plain tokens that no category list had. |
| `Dictionary.AugmentSkills` | resume-parser-service/src/utils/parseEntities.js:422-430 | The `forEach` loop computes `Augment`: each keyword the text mentions is pushed unless a skill already equals it ignoring case. |
| `Dictionary.Mentions` | resume-parser-service/src/utils/parseEntities.js:424-427 | `text.match(/\bkeyword\b/i)`: the keyword occurs at some position, ignoring ASCII case, with a word boundary on both sides. `CppNeedsWordCharAfter` proves the consequence of the boundary after `C++`. |
| `Dictionary.Augment` | resume-parser-service/src/utils/parseEntities.js:422-430 | The skills after the keyword scan. It has no contract of its own. `AugmentSkills` proves the loop computes it. The `Augment*` lemmas prove that the earlier skills are kept in front, that each appended skill is a new mentioned keyword, that appended skills are in keyword order, and that every mentioned keyword is present. |
| `Dictionary.AugmentKeepsPrefix` | resume-parser-service/src/utils/parseEntities.js:422-430 | The scan only appends. The earlier skills stay at the front, in order. |
| `Dictionary.AugmentAppendsNewKeywords` | resume-parser-service/src/utils/parseEntities.js:427-428 | Every appended skill is a keyword the text mentions, and no skill before it equals it ignoring case. |
| `Dictionary.AugmentInKeywordOrder` | resume-parser-service/src/utils/parseEntities.js:412-430 | The appended keywords come in the order of the keyword list. |
| `Dictionary.AugmentCoversMentions` | resume-parser-service/src/utils/parseEntities.js:422-430 | After the scan, every keyword the text mentions is in the skills, possibly in another case. |
| `Dictionary.FinalSetRemovesNothing` | resume-parser-service/src/utils/parseEntities.js:433 | If the skills had no repeats before the scan, they have none after it, so the final `new Set` returns the list unchanged. |
| `Dictionary.CppNeedsWordCharAfter` | resume-parser-service/src/utils/parseEntities.js:424-427 | "C++" is found only when a letter, digit or `_` follows it directly, because the `\b` after `+` needs a word character to its right. |
| `Lists.LongTokenIsNoStopword` | resume-parser-service/src/utils/parseEntities.js:295-296 | A token longer than four characters is never a stopword. |
| `Lists.CertificationStopwordFilterIsIdentity` | resume-parser-service/src/utils/parseEntities.js:292-296 | The stopword filter on certifications removes nothing. |
| `Lists.CertificationsShape` | resume-parser-service/src/utils/parseEntities.js:292-296 | Every certification is trimmed, 6 to 199 characters long, and free of bullets and line breaks. |
| `Lists.Certifications` | resume-parser-service/src/utils/parseEntities.js:292-296 | `certifications`: the trimmed pieces between bullets and LF, 6 to 199 long, that are not stopwords. It has no contract of its own. `CertificationsShape` proves those properties, and `CertificationStopwordFilterIsIdentity` proves the stopword filter removes nothing. |
| `Lists.LanguagesShape` | resume-parser-service/src/utils/parseEntities.js:401-406 | A block that names JavaScript, Python, Java, C++, Ruby or PHP gives no languages. Every language is trimmed, 2 to 49 characters long, and names no technology heading. |
| `Lists.Languages` | resume-parser-service/src/utils/parseEntities.js:401-407 | `languages`: nothing when the block names a programming language, otherwise the trimmed pieces 2 to 49 long that name no technology heading. `LanguagesShape` proves both cases. |
| `Sections.Lines` | resume-parser-service/src/utils/parseEntities.js:165 | The lines of a record are exactly the non-blank pieces between the LFs of the trimmed record. None holds an LF. |
| `Sections.LinesOfNonBlank` | resume-parser-service/src/utils/parseEntities.js:163-165 | A record with non-whitespace text has at least one line. |
| `Sections.Tokens` | resume-parser-service/src/utils/parseEntities.js:292-295 | `split(set).map(trim).filter(length)`: the tokens are exactly the trimmed pieces within the length bounds. Each is trimmed and free of the separators. |
| `Links.PathMatch` | resume-parser-service/src/utils/parseEntities.js:351 | A match of the first LinkedIn or GitHub pattern captures a handle of `[\w-]` characters. |
| `Links.PathFound` | resume-parser-service/src/utils/parseEntities.js:351 | When the site path occurs anywhere with a handle after it, the first pattern matches. |
| `Links.LabelMatch` | resume-parser-service/src/utils/parseEntities.js:352 | A match of the label pattern captures a handle. |
| `Links.LabelledUrlMatch` | resume-parser-service/src/utils/parseEntities.js:353 | Any text the third pattern matches is also matched by the first. |
| `Links.ThirdPatternUnreachable` | resume-parser-service/src/utils/parseEntities.js:350-363 | The link a site's cascade stores is what its first two patterns alone give. |
| `Links.LinkIsCanonical` | resume-parser-service/src/utils/parseEntities.js:356-379 | A stored link is `https://linkedin.com/in/` or `https://github.com/` followed by a handle. |
| `Links.SiteLink` | resume-parser-service/src/utils/parseEntities.js:350-379 | The LinkedIn or GitHub field, the first accepted of that site's three patterns. `LinkIsCanonical` proves it is the canonical prefix followed by a handle, and `ThirdPatternUnreachable` proves the third pattern never decides it. |
| `Links.UrlAt` | resume-parser-service/src/utils/parseEntities.js:383 | A URL captured after a label has an http or https scheme, holds no whitespace, and occurs in the text. |
| `Links.PortfolioMatch` | resume-parser-service/src/utils/parseEntities.js:383-385 | Each portfolio pattern captures a URL that occurs in the text. |
| `Links.Portfolio` | resume-parser-service/src/utils/parseEntities.js:388-394 | The stored portfolio is a URL that occurs in the text as written. |
| `Experience.Window` | resume-parser-service/src/utils/parseEntities.js:176 | The scan covers `min(4, lines.length)` lines. |
| `Experience.ScanHeader` | resume-parser-service/src/utils/parseEntities.js:168-200 | The scan loop over four local variables computes `HeaderOf`, the line-by-line fold over the first `min(4, n)` lines. |
| `Experience.HeaderOf` | resume-parser-service/src/utils/parseEntities.js:168-200 | The company, title, duration and location read from the first four lines. `ScanHeader` proves the source loop computes it, and `HeaderReadsFiveLines` proves lines after the fifth never affect it. |
| `Experience.ScanLocation` | resume-parser-service/src/utils/parseEntities.js:197-199 | With no city-and-region match, the location stays empty. Otherwise it is the match of the last scanned line that has one. |
| `Experience.ScanDurationIsDate` | resume-parser-service/src/utils/parseEntities.js:180-181 | A non-empty duration is the date match of one of the scanned lines. |
| `Experience.ScanLocationIsCity` | resume-parser-service/src/utils/parseEntities.js:197-198 | A non-empty location is the city match of one of the scanned lines. |
| `Experience.ScanUndated` | resume-parser-service/src/utils/parseEntities.js:188-194 | With no dated line among those scanned: the company is the first line untrimmed, the title is the second line untrimmed, and the duration stays empty. |
| `Experience.ScanLastDated` | resume-parser-service/src/utils/parseEntities.js:180-187 | The last dated line decides three fields. The duration is its date, the company is the trimmed text before the date, and the title is the trimmed next line, if any. |
| `Experience.ScanReadsAhead` | resume-parser-service/src/utils/parseEntities.js:176-187 | The scan over `n` lines depends only on the first `n + 1` lines. |
| `Experience.HeaderReadsFiveLines` | resume-parser-service/src/utils/parseEntities.js:176-187 | Lines after the fifth never affect the header. |
| `Experience.FindDescription` | resume-parser-service/src/utils/parseEntities.js:203-208 | `findIndex` returns the first line opening with a marker or `Project:`, or -1 when there is none. |
| `Experience.Description` | resume-parser-service/src/utils/parseEntities.js:203-212 | The job description. `DescriptionFromFirstMarker` and `DescriptionWithoutMarker` give its value in each of the two cases of the `findIndex`. |
| `Experience.DescriptionFromFirstMarker` | resume-parser-service/src/utils/parseEntities.js:210-211 | With a description line, the description is the lines from it on, joined, with every marker removed, and trimmed. It holds no marker. |
| `Experience.DescriptionWithoutMarker` | resume-parser-service/src/utils/parseEntities.js:210-212 | The marker search gives -1 exactly when no line starts with a marker or `Project:`. In that case the description is the lines after the second, joined and trimmed. |
| `Experience.OrNotSpecified` | resume-parser-service/src/utils/parseEntities.js:215-216 | A non-empty value is kept, and an empty one becomes `Not specified`. The result is never empty. |
| `Experience.JobsShape` | resume-parser-service/src/utils/parseEntities.js:162-222 | Every job kept names a company or a title other than `Not specified`. Title and company are non-empty, and a duration is never the empty string. |
| `Experience.JobOf` | resume-parser-service/src/utils/parseEntities.js:164-221 | The record one piece of the experience block becomes. `JobDatesAndPlaces` proves that its duration and location come from matches on the first four lines. |
| `Experience.Jobs` | resume-parser-service/src/utils/parseEntities.js:162-222 | The filter on length, the record map, and the filter on an identified job. `JobsShape` proves every job kept is identified, with a non-empty title and company. |
| `Experience.JobDatesAndPlaces` | resume-parser-service/src/utils/parseEntities.js:176-218 | A job's duration is the date match of one of its first four lines, and its location is a city match of one of them. |
| `Education.ScanCredential` | resume-parser-service/src/utils/parseEntities.js:242-274 | The scan loop over the degree and institution variables computes `EduPrefix` over all the lines. |
| `Education.EduLineKeeps` | resume-parser-service/src/utils/parseEntities.js:263-273 | Once set, the degree and the institution are never overwritten by a later line. |
| `Education.EduLine` | resume-parser-service/src/utils/parseEntities.js:260-273 | One turn of the line loop. `EduLineKeeps` proves a degree or institution once set is never overwritten. |
| `Education.DegreeSetOnce` | resume-parser-service/src/utils/parseEntities.js:265-272 | Once the degree is set, later lines never replace it. |
| `Education.InstitutionSetOnce` | resume-parser-service/src/utils/parseEntities.js:263-269 | Once the institution is set, later lines never replace it. |
| `Education.EduFieldsAreLines` | resume-parser-service/src/utils/parseEntities.js:260-274 | A degree or institution set by the scan is one of the lines, trimmed. |
| `Education.FirstInstitutionWins` | resume-parser-service/src/utils/parseEntities.js:263-264 | The first line naming an institution becomes the institution, provided none was taken before it. |
| `Education.FirstLineFallback` | resume-parser-service/src/utils/parseEntities.js:267-269 | A first line that names neither an institution nor a degree is taken as the institution, whatever later lines name. |
| `Education.Details` | resume-parser-service/src/utils/parseEntities.js:254-257 | The details are `GPA: ` followed by the captured number, or empty when nothing is captured. |
| `Education.SchoolHasDegree` | resume-parser-service/src/utils/parseEntities.js:238-277 | A record cut from a piece longer than ten characters always has a degree, because `lines[0]` stands in for a missing one. |
| `Education.SchoolOf` | resume-parser-service/src/utils/parseEntities.js:239-282 | The record one piece of the education block becomes. `SchoolHasDegree` proves that it always has a degree. |
| `Education.SchoolsDropNothing` | resume-parser-service/src/utils/parseEntities.js:237-283 | The final filter of the education chain never drops a record. |
| `Education.SchoolsShape` | resume-parser-service/src/utils/parseEntities.js:237-283 | Every school has a degree. A year is never the empty string. Every school comes from a piece longer than ten characters: its year, when present, is that piece's year-range match, and its details are `Details` of that piece's GPA match, so empty or `GPA: ` followed by the GPA pattern's capture. |
| `Education.Schools` | resume-parser-service/src/utils/parseEntities.js:237-283 | The filter on length, the record map and the final filter. `SchoolsDropNothing` proves the final filter keeps every record, and `SchoolsShape` states what every school holds. |
| `Projects.StripTrailingDash` | resume-parser-service/src/utils/parseEntities.js:323 | The result is a prefix of the input. It is either the input unchanged, or the input with one dash removed from where only whitespace followed it. |
| `Projects.StripTrailingDashRemoves` | resume-parser-service/src/utils/parseEntities.js:323 | Whenever the text ends with a dash followed by whitespace, exactly that dash and that whitespace are removed. |
| `Projects.CollectPieces` | resume-parser-service/src/utils/parseEntities.js:329-336 | The description loop from the second line on pushes what `Pieces` gives. |
| `Projects.PushPiece` | resume-parser-service/src/utils/parseEntities.js:330-335 | One turn of the description loop pushes exactly the piece of its line. |
| `Projects.Piece` | resume-parser-service/src/utils/parseEntities.js:330-335 | What one description line adds. `PieceKinds` proves when a piece exists and what it is, and `PieceTrimmed` proves it is trimmed. |
| `Projects.PieceTrimmed` | resume-parser-service/src/utils/parseEntities.js:330-335 | A description piece is trimmed: a bullet line loses its marker and the whitespace after it. |
| `Projects.PiecesTrimmed` | resume-parser-service/src/utils/parseEntities.js:329-336 | Every description piece is trimmed. |
| `Projects.PieceKinds` | resume-parser-service/src/utils/parseEntities.js:330-335 | A line adds a piece exactly when, trimmed, it is a bullet line or longer than 20 characters. The piece is the bullet line without its marker, or the whole trimmed line. |
| `Projects.PiecesFromLines` | resume-parser-service/src/utils/parseEntities.js:329-336 | The description holds exactly the pieces of lines 2 onwards; the first line adds nothing. |
| `Projects.PiecesCount` | resume-parser-service/src/utils/parseEntities.js:329-336 | The first line is never part of the description, and each later line gives at most one piece. |
| `Projects.ProjectsKeptIffNamed` | resume-parser-service/src/utils/parseEntities.js:308-344 | A piece longer than twenty characters gives a project exactly when its record has a non-empty name. |
| `Projects.FirstLine` | resume-parser-service/src/utils/parseEntities.js:318 | `lines[0]`. The empty case cannot arise; see "A case that cannot arise" under "## Left out". |
| `Projects.ProjectOf` | resume-parser-service/src/utils/parseEntities.js:310-343 | The record one piece of the projects block becomes. `ProjectsKeptIffNamed` proves a long piece's record is kept exactly when it has a name. |
| `Projects.ProjectList` | resume-parser-service/src/utils/parseEntities.js:308-344 | The filter on length, the record map and the filter on a name. `ProjectsShape` proves each kept name is trimmed and non-empty and no duration is empty. |
| `Projects.ProjectsShape` | resume-parser-service/src/utils/parseEntities.js:308-344 | Every project has a trimmed, non-empty name, and a duration is never the empty string. |
| `Entities.OrNull` | resume-parser-service/src/utils/parseEntities.js:217-218 | The `null` fallback of an empty match: the empty string becomes `null`, and any other string is kept. |
| `ParseEntities.SectionBlock` | resume-parser-service/src/utils/parseEntities.js:230-231 | A single section match is used only when it has a non-empty group 1. |
| `ParseEntities.NameField` | resume-parser-service/src/utils/parseEntities.js:40-50 | The name cascade. `NameValid` states what it stores. |
| `ParseEntities.PhoneField` | resume-parser-service/src/utils/parseEntities.js:66-72 | The phone cascade. `PhoneValid` states what it stores. |
| `ParseEntities.LocationField` | resume-parser-service/src/utils/parseEntities.js:81-90 | The location cascade. `LocationValid` states what it stores. |
| `ParseEntities.SummaryField` | resume-parser-service/src/utils/parseEntities.js:93-108 | The summary cascade. `SummaryValid` states what it stores. |
| `ParseEntities.BlockSkills` | resume-parser-service/src/utils/parseEntities.js:117-145 | The skills of the first accepted skills block, or none. `SkillsValid` states them. |
| `ParseEntities.ExperienceField` | resume-parser-service/src/utils/parseEntities.js:154-227 | The jobs of the first accepted experience block, or none. `ExperienceValid` states them. |
| `ParseEntities.EducationField` | resume-parser-service/src/utils/parseEntities.js:230-286 | The schools of a non-empty education block, or none. `EducationValid` states them. |
| `ParseEntities.CertificationsField` | resume-parser-service/src/utils/parseEntities.js:289-298 | The certifications of a non-empty certification block, or none. `CertificationsValid` states them. |
| `ParseEntities.ProjectsField` | resume-parser-service/src/utils/parseEntities.js:301-347 | The projects of a non-empty project block, or none. `ProjectsValid` states them. |
| `ParseEntities.LanguagesField` | resume-parser-service/src/utils/parseEntities.js:397-409 | The languages of a non-empty language block, or none. `LanguagesValid` states them. |
| `ParseEntities.SkillsField` | resume-parser-service/src/utils/parseEntities.js:422-433 | The final skills: the block skills, then the keyword scan, then the final `new Set`. `SkillsValid` states them. |
| `ParseEntities.ContactSteps` | resume-parser-service/src/utils/parseEntities.js:40-108 | The name, email, phone, location and summary steps set exactly those fields, to their cascades' results. |
| `ParseEntities.SkillsStep` | resume-parser-service/src/utils/parseEntities.js:117-145 | The skills cascade sets the skills to those of the first non-empty skills block, and to nothing when there is none. |
| `ParseEntities.SectionSteps` | resume-parser-service/src/utils/parseEntities.js:154-347 | The experience cascade and the education, certification and project matches set exactly those four lists. |
| `ParseEntities.LinkSteps` | resume-parser-service/src/utils/parseEntities.js:356-394 | The three link cascades set exactly the links. |
| `ParseEntities.LastSteps` | resume-parser-service/src/utils/parseEntities.js:397-433 | The language match sets the languages. The keyword scan then appends to the skills, and the final `new Set` is applied. |
| `ParseEntities.ParseEntities` | resume-parser-service/src/utils/parseEntities.js:4-436 | Each field of the returned record is that field's function of the text. `age` is always `null`. |
| `ParseEntities.NameValid` | resume-parser-service/src/utils/parseEntities.js:40-50 | A stored name is trimmed and starts with no header word. It is `null` exactly when no name pattern gives an accepted capture. |
| `ParseEntities.PhoneValid` | resume-parser-service/src/utils/parseEntities.js:66-72 | A stored phone is the trimmed match of the first phone pattern that matches. It is `null` exactly when no phone pattern matches. |
| `ParseEntities.LocationValid` | resume-parser-service/src/utils/parseEntities.js:81-90 | A stored location is trimmed and holds a comma. |
| `ParseEntities.SummaryValid` | resume-parser-service/src/utils/parseEntities.js:93-108 | A stored summary is collapsed and has no line break. It is at most 800 characters when the summary patterns capture at most 800. |
| `ParseEntities.SkillsValid` | resume-parser-service/src/utils/parseEntities.js:117-433 | The block's skills come first and in order, each trimmed and 2 to 49 characters long. They are followed by mentioned keywords that no earlier skill equals, ignoring case. No skill occurs twice, and the final `new Set` changes nothing. |
| `ParseEntities.LinksValid` | resume-parser-service/src/utils/parseEntities.js:356-394 | Stored profile links are in canonical form. A stored portfolio is a URL that occurs in the text. |
| `ParseEntities.ExperienceValid` | resume-parser-service/src/utils/parseEntities.js:154-227 | Every stored job names a company or a title, and both are non-empty. |
| `ParseEntities.EducationValid` | resume-parser-service/src/utils/parseEntities.js:230-286 | Every stored school has a degree, and its details are empty or a GPA. |
| `ParseEntities.CertificationsValid` | resume-parser-service/src/utils/parseEntities.js:289-298 | Every stored certification is trimmed and 6 to 199 characters long. |
| `ParseEntities.ProjectsValid` | resume-parser-service/src/utils/parseEntities.js:301-347 | Every stored project has a trimmed, non-empty name. |
| `ParseEntities.LanguagesValid` | resume-parser-service/src/utils/parseEntities.js:397-409 | Stored languages are trimmed, 2 to 49 characters long, and name no technology heading. None is stored when the block names a programming language. |

## Left out

- **Regular expressions.** Patterns whose matching depends on backtracking or on character
  classes are parameters of the model (`Entities.Patterns`). What is proved holds for any
  behaviour of those patterns. The `Patterns` fields:
  - name, phone, location, summary, skills, experience, education, certification, project and
    language patterns;
  - the email pattern;
  - the category `exec` pattern;
  - the three `split` lookaheads;
  - the date, city, year-range and GPA patterns.
- **Summary length.** `ParseEntities.SummaryValid` states the 800-character bound only under
  `SummaryCapturesBounded`, the promise of `[\s\S]{50,800}?` that a capture is at most 800
  characters. The model does not derive that promise from the pattern.
- **The experience date pattern's group.** The experience date pattern captures its whole match
  as group 1, so the model uses one string for both `dateMatch[0]` and `dateMatch[1]`.
- **Case conversion.** `toLowerCase` is modelled on ASCII letters only. Unicode case mapping is
  not modelled.
- **The `compromise` NLP call.** Its result is never read.
- **Logging.** The uses of the logger are left out.
- **Rethrowing.** The `try`/`catch` that logs and rethrows is left out, because nothing in the
  model throws.
- **Foreign libraries and file I/O.** `fs.readFileSync`, pdf-parse and mammoth are foreign. Their
  outcome is an input of the extractor functions: text, or a failure whose message is discarded.
- **Asynchrony.** The `async` functions are modelled as ordinary functions.
- **A case that cannot arise.** A record with no lines never reaches the record builders, because
  the length filters run first. There, the model's `Projects.FirstLine` gives `''`. The source
  would read `lines[0]` of an empty array as `undefined`, and `firstLine.match` at
  parseEntities.js:319 would throw a `TypeError`.
- **String lengths.** Every length in the model counts characters (Unicode scalar values), while
  JavaScript's `.length` counts UTF-16 code units. The two differ only for characters above U+FFFF,
  such as emoji, which count once here and twice in the source. This affects the length filters:
  `Sections.LengthWithin` in `Sections.Tokens` (skills and languages 2 to 49, certifications 6 to
  199), `Sections.TrimmedLongerThan` (education pieces over 10, experience and project pieces
  over 20), and the over-20 test in `Projects.Piece`. UTF-16 encoding is not modelled.
- **In-place updates.** `ParseEntities.ParseEntities` builds the record as a value, and each step
  updates the fields it sets. There is no aliasing to model: the object is local until returned.
- **The rest of the service.** resumeController.js (HTTP, database, message queue, file removal
  and its status bookkeeping), the other services, the message-queue utilities, the validators,
  the models and the server setup are not part of this model. They are I/O and configuration.
- **The clock.** `Date.now` is left out.
