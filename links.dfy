/** The link fields. The linkedin and github patterns are a literal followed by simple character
    classes, and the portfolio patterns a label followed by a URL, so they are modelled exactly:
    each pattern is a function saying what it captures at a given index, and `text.match` takes
    the leftmost index where it matches. */
module Links {
  import opened JsString
  import opened Wrappers
  import opened Cascade

  /** `[\w-]`. */
  predicate IsHandleChar(c: char) {
    IsWordChar(c) || c == '-'
  }

  /** `[:\s]`. */
  predicate IsColonOrSpace(c: char) {
    c == ':' || IsSpace(c)
  }

  /** `[^\s]`. */
  predicate IsNotSpace(c: char) {
    !IsSpace(c)
  }

  /** What the greedy `([\w-]+)` captures: a non-empty run of handle characters. */
  predicate IsHandle(h: string) {
    h != [] && forall k :: 0 <= k < |h| ==> IsHandleChar(h[k])
  }

  /** `text.match(re)` for a pattern that captures `at(i)` when tried at index `i`: the capture at
      the leftmost index that matches. */
  function Leftmost(t: string, at: nat -> Option<string>, from: nat): (r: Option<string>)
    ensures r.Some? ==> exists i :: from <= i <= |t| && at(i) == r
    ensures r.None? <==> forall i :: from <= i <= |t| ==> at(i).None?
    decreases |t| + 1 - from
  {
    if from > |t| then None
    else if at(from).Some? then at(from)
    else Leftmost(t, at, from + 1)
  }

  /** A profile site: the label the second and third patterns start with, the URL path the
      first and third patterns look for, and the prefix of the stored link. */
  datatype Site = Site(keyword: string, path: string, canonical: string)

  const LinkedIn: Site := Site("linkedin", "linkedin.com/in/", "https://linkedin.com/in/")
  const GitHub: Site := Site("github", "github.com/", "https://github.com/")

  /** First pattern, `/linkedin\.com\/in\/([\w-]+)/i` (`/github\.com\/([\w-]+)/i`), at `i`. */
  function PathAt(site: Site, t: string, i: nat): (r: Option<string>)
    ensures r.Some? ==> IsHandle(r.value)
  {
    var h := i + |site.path|;
    if OccursAtIgnoreCase(t, site.path, i) && h < |t| && IsHandleChar(t[h])
    then Some(t[h..RunEnd(t, h, IsHandleChar)])
    else None
  }

  /** Second pattern, `/Linkedin\s*[:\s]*([\w-]+)/i` (`/Github\s*[:\s]*([\w-]+)/i`), at `i`.
      `\s*[:\s]*` ends up taking the whole run of colons and spaces: any shorter take leaves
      `[\w-]` facing a colon or a space. */
  function LabelAt(site: Site, t: string, i: nat): (r: Option<string>)
    ensures r.Some? ==> IsHandle(r.value)
  {
    if !OccursAtIgnoreCase(t, site.keyword, i) then None
    else
      var j := RunEnd(t, i + |site.keyword|, IsColonOrSpace);
      if j < |t| && IsHandleChar(t[j]) then Some(t[j..RunEnd(t, j, IsHandleChar)]) else None
  }

  /** Third pattern, `/linkedin[:\s]+(https?:\/\/)?(?:www\.)?linkedin\.com\/in\/([\w-]+)/i`
      (github alike) at `i`, read as `m[1] || m[2]`: the scheme text when group 1 took part,
      the handle otherwise. Backtracking never finds another match here: each alternative it
      would try needs an 'h', a 'w' or the path's first letter where the text holds a colon,
      a space, an 'h' or a 'w'. */
  function LabelledUrlAt(site: Site, t: string, i: nat): (r: Option<string>)
    ensures r.Some? ==> exists p :: 0 <= p <= |t| && PathAt(site, t, p).Some?
  {
    if !OccursAtIgnoreCase(t, site.keyword, i) then None
    else
      var j := RunEnd(t, i + |site.keyword|, IsColonOrSpace);
      if j == i + |site.keyword| then None
      else
        var scheme := if OccursAtIgnoreCase(t, "https://", j) then 8
                      else if OccursAtIgnoreCase(t, "http://", j) then 7 else 0;
        var k := j + scheme;
        var p := if OccursAtIgnoreCase(t, "www.", k) then k + 4 else k;
        match PathAt(site, t, p)
        case None => None
        case Some(h) => Some(if scheme > 0 then t[j..k] else h)
  }

  /** `text.match` of the first pattern: the handle after the leftmost occurrence of the path. */
  function PathMatch(site: Site, t: string): (r: Option<string>)
    ensures r.Some? ==> IsHandle(r.value)
  {
    Leftmost(t, (i: nat) => PathAt(site, t, i), 0)
  }

  lemma PathFound(site: Site, t: string, p: nat)
    requires p <= |t| && PathAt(site, t, p).Some?
    ensures PathMatch(site, t).Some?
  {
    var at := (k: nat) => PathAt(site, t, k);
    assert at(p).Some?;
  }

  /** `text.match` of the second pattern. */
  function LabelMatch(site: Site, t: string): (r: Option<string>)
    ensures r.Some? ==> IsHandle(r.value)
  {
    Leftmost(t, (i: nat) => LabelAt(site, t, i), 0)
  }

  /** `text.match` of the third pattern: whenever it matches, so does the first. */
  function LabelledUrlMatch(site: Site, t: string): (r: Option<string>)
    ensures r.Some? ==> PathMatch(site, t).Some?
  {
    var r := Leftmost(t, (i: nat) => LabelledUrlAt(site, t, i), 0);
    assert r.Some? ==> PathMatch(site, t).Some? by {
      if r.Some? {
        var i :| 0 <= i <= |t| && LabelledUrlAt(site, t, i) == r;
        var p :| 0 <= p <= |t| && PathAt(site, t, p).Some?;
        PathFound(site, t, p);
      }
    }
    r
  }

  /** The three matchers of a site's cascade, in the order the source tries them. */
  function SitePatterns(site: Site): seq<Matcher<string>> {
    [ t => PathMatch(site, t), t => LabelMatch(site, t), t => LabelledUrlMatch(site, t) ]
  }

  /** `` `https://linkedin.com/in/${username}` `` (github alike): every match is accepted. */
  function ToLink(site: Site): string -> Option<string> {
    h => Some(site.canonical + h)
  }

  /** The link field of a site. */
  function SiteLink(site: Site, t: string): Option<string> {
    FirstAccepted(SitePatterns(site), t, ToLink(site))
  }

  /** The third pattern is never consulted: any text it matches also matches the first one,
      which comes earlier in the cascade. */
  lemma ThirdPatternUnreachable(site: Site, t: string)
    ensures SiteLink(site, t) == FirstAccepted(SitePatterns(site)[..2], t, ToLink(site))
  {
    var ms := SitePatterns(site);
    assert ms == ms[..2] + [ms[2]];
    CascadeAppend(ms[..2], [ms[2]], t, ToLink(site));
    if LabelledUrlMatch(site, t).Some? {
      assert Candidate(ms[..2], t, ToLink(site), 0).Some?;
    }
  }

  /** A stored link is the site's canonical prefix followed by a handle of `[\w-]` characters. */
  lemma LinkIsCanonical(site: Site, t: string)
    ensures SiteLink(site, t).Some? ==>
              exists h :: IsHandle(h) && SiteLink(site, t) == Some(site.canonical + h)
  {
    ThirdPatternUnreachable(site, t);
    var ms := SitePatterns(site);
    var r := FirstAccepted(ms[..2], t, ToLink(site));
    if r.Some? {
      var i :| 0 <= i < 2 && Candidate(ms[..2], t, ToLink(site), i) == r;
      var h := if i == 0 then PathMatch(site, t).value else LabelMatch(site, t).value;
      assert IsHandle(h) && r == Some(site.canonical + h);
    }
  }

  /** The portfolio labels, `portfolio`, `website` and `personal\s+site`: the index just after
      label `n` when it occurs at `i`. In `personal\s+site` the space run is taken whole, since
      a shorter take leaves `site` facing a space. */
  function LabelEnd(n: nat, t: string, i: nat): (e: Option<nat>)
    ensures e.Some? ==> i < e.value <= |t|
  {
    if n == 0 then (if OccursAtIgnoreCase(t, "portfolio", i) then Some(i + 9) else None)
    else if n == 1 then (if OccursAtIgnoreCase(t, "website", i) then Some(i + 7) else None)
    else if OccursAtIgnoreCase(t, "personal", i) then
      var s := RunEnd(t, i + 8, IsSpace);
      if s > i + 8 && OccursAtIgnoreCase(t, "site", s) then Some(s + 4) else None
    else None
  }

  /** The text from a scheme literal at `j` up to the end `u` of the run of `[^\s]` after it. */
  lemma SchemeRunIsUrl(t: string, w: string, j: nat, u: nat)
    requires w == "https://" || w == "http://"
    requires OccursAtIgnoreCase(t, w, j) && j + |w| <= u <= |t|
    requires forall k :: j + |w| <= k < u ==> !IsSpace(t[k])
    ensures IsUrl(t[j..u]) && IsInfix(t[j..u], t)
  {
    SchemesHaveNoSpace();
    OccursAtNoSpaceRun(t, w, j, u);
    OccursAtSlice(t, w, j, u);
    assert t[j..u] <= t[j..];
  }

  lemma SchemesHaveNoSpace()
    ensures NoSpaceIn("https://") && NoSpaceIn("http://")
  {
  }

  /** `https?:\/\/` at `j`: the scheme literal that occurs there, if any. */
  function SchemeAt(t: string, j: nat): (w: string)
    ensures w == [] || ((w == "https://" || w == "http://") && OccursAtIgnoreCase(t, w, j))
  {
    if OccursAtIgnoreCase(t, "https://", j) then "https://"
    else if OccursAtIgnoreCase(t, "http://", j) then "http://"
    else []
  }

  /** `(https?:\/\/[^\s]+)` at `j`: the scheme and the run of non-`\s` characters after it,
      which must not be empty. */
  function UrlAt(t: string, j: nat): (r: Option<string>)
    requires j <= |t|
    ensures r.Some? ==> IsUrl(r.value) && IsInfix(r.value, t)
  {
    var w := SchemeAt(t, j);
    if w == [] then None
    else
      var u := RunEnd(t, j + |w|, IsNotSpace);
      if u == j + |w| then None
      else
        SchemeRunIsUrl(t, w, j, u);
        Some(t[j..u])
  }

  /** `/<label>[:\s]+(https?:\/\/[^\s]+)/i` at `i`: group 1, the URL exactly as written. The
      run `[:\s]+` is taken whole, since a URL cannot start with a colon or a space. */
  function PortfolioAt(n: nat, t: string, i: nat): (r: Option<string>)
    ensures r.Some? ==> IsUrl(r.value) && IsInfix(r.value, t)
  {
    match LabelEnd(n, t, i)
    case None => None
    case Some(e) =>
      var j := RunEnd(t, e, IsColonOrSpace);
      if j == e then None else UrlAt(t, j)
  }

  /** `u` occurs in `t` as written. */
  predicate IsInfix(u: string, t: string) {
    exists j :: 0 <= j <= |t| && u <= t[j..]
  }

  /** A URL as the portfolio patterns capture it: an http or https scheme (any case) and no
      `\s` character. */
  predicate IsUrl(u: string) {
    && (StartsWithIgnoreCase(u, "https://") || StartsWithIgnoreCase(u, "http://"))
    && NoSpaceIn(u)
  }

  /** `text.match` of portfolio pattern `n`. */
  function PortfolioMatch(n: nat, t: string): (r: Option<string>)
    ensures r.Some? ==> IsUrl(r.value) && IsInfix(r.value, t)
  {
    Leftmost(t, (i: nat) => PortfolioAt(n, t, i), 0)
  }

  function PortfolioPatterns(): seq<Matcher<string>> {
    [ t => PortfolioMatch(0, t), t => PortfolioMatch(1, t), t => PortfolioMatch(2, t) ]
  }

  /** The portfolio field: the first label in order that is followed by a URL decides, and the
      URL is stored verbatim. */
  function Portfolio(t: string): (r: Option<string>)
    ensures r.Some? ==> IsUrl(r.value) && IsInfix(r.value, t)
  {
    var ms := PortfolioPatterns();
    var r := FirstAccepted(ms, t, u => Some(u));
    assert r.Some? ==> IsUrl(r.value) && IsInfix(r.value, t) by {
      if r.Some? {
        var n :| 0 <= n < 3 && Candidate(ms, t, u => Some(u), n) == r;
        assert r == PortfolioMatch(n, t);
      }
    }
    r
  }
}
