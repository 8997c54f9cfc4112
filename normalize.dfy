/** The text clean-up both extractors apply to the library's raw text, and the clean-up of a
    summary capture: `replace(/\s+/g, ' ')`, then `replace(/(\r\n|\n|\r)/gm, '\n')` (extractors)
    or `replace(/\n{2,}/g, '\n')` (summary). */
module Normalize {
  import opened JsString

  /** `s.replace(/\s+/g, ' ')`: every maximal run of `\s` characters becomes one space. */
  function CollapseSpaces(s: string): (r: string)
    decreases |s|
  {
    if s == [] then []
    else if IsSpace(s[0]) then
      var rest := TrimStart(s);
      [' '] + CollapseSpaces(rest)
    else [s[0]] + CollapseSpaces(s[1..])
  }

  /** `s.replace(/(\r\n|\n|\r)/gm, '\n')`: CR LF, LF and CR each become one LF, left to right. */
  function ReplaceLineBreaks(s: string): (r: string)
    ensures '\r' !in r
  {
    if s == [] then []
    else if s[0] == '\r' && |s| >= 2 && s[1] == '\n' then ['\n'] + ReplaceLineBreaks(s[2..])
    else if s[0] == '\n' || s[0] == '\r' then ['\n'] + ReplaceLineBreaks(s[1..])
    else [s[0]] + ReplaceLineBreaks(s[1..])
  }

  /** `s.replace(/\n{2,}/g, '\n')`: every run of two or more LFs becomes one LF; nothing but
      LFs is removed, and a run is never removed entirely. */
  function CollapseNewlineRuns(s: string): (r: string)
    ensures s != [] ==> r != [] && (r[0] == '\n' <==> s[0] == '\n')
    ensures forall k :: 0 <= k < |r| - 1 ==> !(r[k] == '\n' && r[k + 1] == '\n')
    ensures RemoveChars(r, {'\n'}) == RemoveChars(s, {'\n'})
  {
    if s == [] then []
    else
      var rest := CollapseNewlineRuns(s[1..]);
      assert RemoveChars(s, {'\n'}) == (if s[0] == '\n' then [] else [s[0]]) + RemoveChars(s[1..], {'\n'});
      if s[0] == '\n' && |s| >= 2 && s[1] == '\n' then rest
      else
        var r := [s[0]] + rest;
        assert r[0] == s[0] && r[1..] == rest;
        assert RemoveChars(r, {'\n'}) == (if s[0] == '\n' then [] else [s[0]]) + RemoveChars(rest, {'\n'});
        r
  }

  /** The normal form the extractors produce: the only `\s` character left is the plain space,
      and no two spaces are adjacent. */
  predicate IsCollapsed(s: string) {
    forall k :: 0 <= k < |s| && IsSpace(s[k]) ==> s[k] == ' ' && (k + 1 < |s| ==> !IsSpace(s[k + 1]))
  }

  /** The characters of `s` that are not `\s`, in order. */
  function Visible(s: string): string {
    if s == [] then [] else (if IsSpace(s[0]) then [] else [s[0]]) + Visible(s[1..])
  }

  lemma {:induction false} CollapseHead(s: string)
    requires s != []
    ensures CollapseSpaces(s) != []
    ensures IsSpace(s[0]) ==> CollapseSpaces(s)[0] == ' '
    ensures !IsSpace(s[0]) ==> CollapseSpaces(s)[0] == s[0]
  {
  }

  /** After the whitespace replace, no `\s` character other than a single space is left. */
  lemma {:induction false} CollapseIsCollapsed(s: string)
    ensures IsCollapsed(CollapseSpaces(s))
    decreases |s|
  {
    if s != [] {
      var r := CollapseSpaces(s);
      if IsSpace(s[0]) {
        var rest := TrimStart(s);
        CollapseIsCollapsed(rest);
        if rest != [] {
          CollapseHead(rest);
        }
        assert r == [' '] + CollapseSpaces(rest);
      } else {
        CollapseIsCollapsed(s[1..]);
        assert r == [s[0]] + CollapseSpaces(s[1..]);
      }
    }
  }

  /** Text already in normal form is left unchanged by the whitespace replace. */
  lemma {:induction false} CollapseOfCollapsed(s: string)
    requires IsCollapsed(s)
    ensures CollapseSpaces(s) == s
    decreases |s|
  {
    if s != [] {
      assert IsCollapsed(s[1..]) by {
        forall k | 0 <= k < |s[1..]| && IsSpace(s[1..][k])
          ensures s[1..][k] == ' ' && (k + 1 < |s[1..]| ==> !IsSpace(s[1..][k + 1]))
        {
          assert s[1..][k] == s[k + 1];
        }
      }
      CollapseOfCollapsed(s[1..]);
      if IsSpace(s[0]) {
        assert s[0] == ' ';
        assert TrimStart(s) == s[1..] by {
          if |s| > 1 { assert !IsSpace(s[1]); }
        }
      }
    }
  }

  /** Applying the whitespace replace twice is the same as applying it once. */
  lemma CollapseIdempotent(s: string)
    ensures CollapseSpaces(CollapseSpaces(s)) == CollapseSpaces(s)
  {
    CollapseIsCollapsed(s);
    CollapseOfCollapsed(CollapseSpaces(s));
  }

  /** The whitespace replace never makes the text longer. */
  lemma {:induction false} CollapseNotLonger(s: string)
    ensures |CollapseSpaces(s)| <= |s|
    decreases |s|
  {
    if s != [] {
      if IsSpace(s[0]) {
        var rest := TrimStart(s);
        CollapseNotLonger(rest);
      } else {
        CollapseNotLonger(s[1..]);
      }
    }
  }

  lemma {:induction false} VisibleAppend(a: string, b: string)
    ensures Visible(a + b) == Visible(a) + Visible(b)
  {
    if a != [] {
      assert (a + b)[1..] == a[1..] + b;
      VisibleAppend(a[1..], b);
    } else {
      assert a + b == b;
    }
  }

  lemma VisibleOfSpaces(s: string)
    requires AllSpace(s)
    ensures Visible(s) == []
  {
  }

  /** The whitespace replace keeps every other character, in order. */
  lemma {:induction false} CollapseKeepsVisible(s: string)
    ensures Visible(CollapseSpaces(s)) == Visible(s)
    decreases |s|
  {
    if s != [] {
      if IsSpace(s[0]) {
        var rest := TrimStart(s);
        CollapseKeepsVisible(rest);
        var n := |s| - |rest|;
        assert s == s[..n] + rest;
        VisibleAppend(s[..n], rest);
        VisibleOfSpaces(s[..n]);
        VisibleAppend([' '], CollapseSpaces(rest));
      } else {
        CollapseKeepsVisible(s[1..]);
        VisibleAppend([s[0]], CollapseSpaces(s[1..]));
        assert s == [s[0]] + s[1..];
        VisibleAppend([s[0]], s[1..]);
      }
    }
  }

  /** The line-break replace changes nothing in a text without CR or LF. */
  lemma {:induction false} LineBreaksIdentity(s: string)
    requires '\n' !in s && '\r' !in s
    ensures ReplaceLineBreaks(s) == s
  {
    if s != [] {
      assert s[0] != '\n' && s[0] != '\r';
      LineBreaksIdentity(s[1..]);
    }
  }

  /** The newline-run replace changes nothing in a text with no two adjacent LFs: a single LF,
      wherever it stands, is kept. */
  lemma {:induction false} NewlineRunsOfSingles(s: string)
    requires forall k :: 0 <= k < |s| - 1 ==> !(s[k] == '\n' && s[k + 1] == '\n')
    ensures CollapseNewlineRuns(s) == s
  {
    if s != [] {
      assert !(s[0] == '\n' && |s| >= 2 && s[1] == '\n');
      var t := s[1..];
      forall k | 0 <= k < |t| - 1 ensures !(t[k] == '\n' && t[k + 1] == '\n') {
        assert t[k] == s[k + 1] && t[k + 1] == s[k + 2];
      }
      NewlineRunsOfSingles(t);
    }
  }

  /** Removing one LF of a run of two or more before the replace changes nothing after it: the
      replace leaves one LF for every run, whatever the run's length. */
  lemma {:induction false} NewlineRunShrinks(a: string, b: string)
    ensures CollapseNewlineRuns(a + "\n\n" + b) == CollapseNewlineRuns(a + "\n" + b)
    decreases |a|
  {
    var long, short := a + "\n\n" + b, a + "\n" + b;
    if a == [] {
      assert long[1..] == short;
    } else {
      assert long[0] == short[0] == a[0];
      assert |long| >= 2 && |short| >= 2 && long[1] == short[1];
      assert long[1..] == a[1..] + "\n\n" + b;
      assert short[1..] == a[1..] + "\n" + b;
      NewlineRunShrinks(a[1..], b);
    }
  }

  /** The newline-run replace changes nothing in a text without LF. */
  lemma {:induction false} NewlineRunsIdentity(s: string)
    requires '\n' !in s
    ensures CollapseNewlineRuns(s) == s
  {
    if s != [] {
      assert s[0] != '\n';
      NewlineRunsIdentity(s[1..]);
    }
  }

  /** The two chained replaces of the extractors. Because the first already turns every CR and
      LF into a space, the second is the identity on its output: line breaks are removed, not
      normalised. */
  function NormalizeText(s: string): (r: string)
    ensures r == CollapseSpaces(s)
    ensures IsCollapsed(r)
    ensures '\n' !in r && '\r' !in r
  {
    var c := CollapseSpaces(s);
    CollapseIsCollapsed(s);
    assert '\n' !in c && '\r' !in c by {
      if '\n' in c || '\r' in c {
        var k :| 0 <= k < |c| && (c[k] == '\n' || c[k] == '\r');
        assert IsSpace(c[k]);
      }
    }
    LineBreaksIdentity(c);
    ReplaceLineBreaks(c)
  }

  /** Normalising normalised text changes nothing. */
  lemma NormalizeIdempotent(s: string)
    ensures NormalizeText(NormalizeText(s)) == NormalizeText(s)
  {
    CollapseIdempotent(s);
  }

  /** Normalising never lengthens the text and keeps its non-space characters in order. */
  lemma NormalizePreserves(s: string)
    ensures |NormalizeText(s)| <= |s|
    ensures Visible(NormalizeText(s)) == Visible(s)
  {
    CollapseNotLonger(s);
    CollapseKeepsVisible(s);
  }
}
