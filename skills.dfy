/** The skills a skills block yields: the comma-separated lists after `Category:` labels, then
    the plain tokens of the whole block, without repeats. */
module Skills {
  import opened JsString
  import opened Sections

  /** The words the plain-token filter and the certification filter reject. */
  const Stopwords: seq<string> := ["and", "or", "with", "in", "at", "for"]

  /** The separators of the lists after a category label, `[,;]`. */
  const CategorySeparators: set<char> := {',', ';'}

  /** The separators of the plain tokens, `[,;•·\n]`. */
  const PlainSeparators: set<char> := {',', ';', '•', '·', '\n'}

  /** The tokens one category list contributes: exactly its trimmed comma-separated pieces of
      2 to 49 characters. */
  function CategoryTokens(list: string): (r: seq<string>)
    ensures forall k :: 0 <= k < |r| ==> IsTrimmed(r[k]) && 1 < |r[k]| < 50
    ensures forall x :: x in r <==> IsToken(x, list, CategorySeparators, 1, 50)
  {
    Tokens(list, CategorySeparators, 1, 50)
  }

  /** `categorizedSkills` after the `exec` loop has seen the lists `lists`, first to last. */
  function Categorized(lists: seq<string>): (r: seq<string>)
    ensures forall k :: 0 <= k < |r| ==> IsTrimmed(r[k]) && 1 < |r[k]| < 50
  {
    if lists == [] then []
    else
      var init := Categorized(lists[..|lists| - 1]);
      var last := CategoryTokens(lists[|lists| - 1]);
      init + last
  }

  /** The `while ((m = categoryPattern.exec(skillsText)) !== null)` loop: for each match, the
      tokens of its list are pushed onto `categorizedSkills`. */
  method CollectCategorized(lists: seq<string>) returns (cs: seq<string>)
    ensures cs == Categorized(lists)
  {
    cs := [];
    var i := 0;
    while i < |lists|
      invariant 0 <= i <= |lists|
      invariant cs == Categorized(lists[..i])
    {
      assert lists[..i + 1][..i] == lists[..i];
      cs := cs + CategoryTokens(lists[i]);
      i := i + 1;
    }
    assert lists[..i] == lists;
  }

  /** `/^(and|or|with|in|at|for)$/i.test(s)`. The words are lower-case ASCII, so this is the
      lower-cased token being one of them. */
  predicate IsStopword(s: string) {
    Lower(s) in Stopwords
  }

  /** The plain tokens must contain no colon and must not be a stopword. */
  predicate IsPlainSkill(s: string) {
    ':' !in s && !IsStopword(s)
  }

  /** `plainSkills`. */
  function Plain(block: string): seq<string> {
    Filter(Tokens(block, PlainSeparators, 1, 50), IsPlainSkill)
  }

  /** Every plain token is trimmed, 2 to 49 characters long, without a colon and not a stopword. */
  lemma PlainShape(block: string)
    ensures forall x :: x in Plain(block) ==> IsTrimmed(x) && 1 < |x| < 50 && IsPlainSkill(x)
  {
    var ts := Tokens(block, PlainSeparators, 1, 50);
    forall x | x in Plain(block) ensures IsTrimmed(x) && 1 < |x| < 50 && IsPlainSkill(x) {
      assert x in ts;
      var k :| 0 <= k < |ts| && ts[k] == x;
      var j :| 0 <= j < |Plain(block)| && Plain(block)[j] == x;
    }
  }

  /** Every category token is trimmed and 2 to 49 characters long. */
  lemma CategorizedShape(lists: seq<string>)
    ensures forall x :: x in Categorized(lists) ==> IsTrimmed(x) && 1 < |x| < 50
  {
    var cs := Categorized(lists);
    forall x | x in cs ensures IsTrimmed(x) && 1 < |x| < 50 {
      var k :| 0 <= k < |cs| && cs[k] == x;
    }
  }

  /** `[...new Set([...categorizedSkills, ...plainSkills])]` for a block whose category lists are
      `lists`. */
  function HeaderSkills(lists: seq<string>, block: string): seq<string> {
    Dedup(Categorized(lists) + Plain(block))
  }

  /** Every skill of a skills block is trimmed and 2 to 49 characters long; a skill that does not
      come from a category list has no colon and is not a stopword; no skill occurs twice; and a
      token is in the list exactly when one of the two sources has it. */
  lemma HeaderSkillsShape(lists: seq<string>, block: string)
    ensures forall x :: x in HeaderSkills(lists, block) ==> IsTrimmed(x) && 1 < |x| < 50
    ensures forall x :: x in HeaderSkills(lists, block) && x !in Categorized(lists) ==> IsPlainSkill(x)
    ensures forall x :: x in HeaderSkills(lists, block) <==> x in Categorized(lists) || x in Plain(block)
    ensures NoDuplicates(HeaderSkills(lists, block))
  {
    DedupMembers(Categorized(lists) + Plain(block));
    PlainShape(block);
    CategorizedShape(lists);
  }

  /** The category tokens come first, in order of first occurrence, and are followed by the plain
      tokens that no category list already had. */
  lemma CategorizedFirst(lists: seq<string>, block: string)
    ensures HeaderSkills(lists, block) == Dedup(Categorized(lists)) + Dedup(Without(Plain(block), Categorized(lists)))
  {
    DedupAppend(Categorized(lists), Plain(block));
  }
}
