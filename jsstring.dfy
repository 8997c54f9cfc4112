/** The parts of JavaScript's String and Array API that the parser relies on, over strings as
    sequences of characters: `\s` and `trim`, ASCII `toLowerCase`, `startsWith`, `indexOf`,
    `substring`, `split` on a character class, `join`, `filter`, `map` and `[...new Set(xs)]`. */
module JsString {

  /** JavaScript's `\s` class; `String.prototype.trim` removes exactly the same characters. */
  predicate IsSpace(c: char) {
    || c == '\t' || c == '\n' || c == '\U{000B}' || c == '\U{000C}' || c == '\r' || c == ' '
    || c == '\U{00A0}' || c == '\U{1680}' || ('\U{2000}' <= c <= '\U{200A}')
    || c == '\U{2028}' || c == '\U{2029}' || c == '\U{202F}' || c == '\U{205F}'
    || c == '\U{3000}' || c == '\U{FEFF}'
  }

  /** JavaScript's `\w` class without the `u` flag. */
  predicate IsWordChar(c: char) {
    ('a' <= c <= 'z') || ('A' <= c <= 'Z') || ('0' <= c <= '9') || c == '_'
  }

  /** The index just after the longest run of characters satisfying `p` that starts at `i`:
      how far a greedy `[...]*` reaches. */
  function RunEnd(s: string, i: nat, p: char -> bool): (j: nat)
    requires i <= |s|
    ensures i <= j <= |s|
    ensures forall k :: i <= k < j ==> p(s[k])
    ensures j < |s| ==> !p(s[j])
    decreases |s| - i
  {
    if i < |s| && p(s[i]) then RunEnd(s, i + 1, p) else i
  }

  predicate AllSpace(s: string) {
    forall k :: 0 <= k < |s| ==> IsSpace(s[k])
  }

  /** No leading and no trailing `\s` character. */
  predicate IsTrimmed(s: string) {
    s != [] ==> !IsSpace(s[0]) && !IsSpace(s[|s| - 1])
  }

  /** The index of the first non-`\s` character at or after `i`, or `|s|`. */
  function SpacesFrom(s: string, i: nat): (j: nat)
    requires i <= |s|
    ensures i <= j <= |s|
    ensures forall k :: i <= k < j ==> IsSpace(s[k])
    ensures j < |s| ==> !IsSpace(s[j])
    decreases |s| - i
  {
    if i < |s| && IsSpace(s[i]) then SpacesFrom(s, i + 1) else i
  }

  /** The index just after the last non-`\s` character in `s[lo..e]`, or `lo`. */
  function SpacesBefore(s: string, lo: nat, e: nat): (j: nat)
    requires lo <= e <= |s|
    ensures lo <= j <= e
    ensures forall k :: j <= k < e ==> IsSpace(s[k])
    ensures j > lo ==> !IsSpace(s[j - 1])
    decreases e
  {
    if e > lo && IsSpace(s[e - 1]) then SpacesBefore(s, lo, e - 1) else e
  }

  /** `s.trimStart()`. */
  function TrimStart(s: string): (r: string)
    ensures |r| <= |s| && r == s[|s| - |r|..]
    ensures AllSpace(s[..|s| - |r|])
    ensures r != [] ==> !IsSpace(r[0])
    ensures s != [] && IsSpace(s[0]) ==> |r| < |s|
  {
    var a := SpacesFrom(s, 0);
    assert AllSpace(s[..a]) by {
      forall k | 0 <= k < a ensures IsSpace(s[..a][k]) {
        assert s[..a][k] == s[k];
      }
    }
    s[a..]
  }

  /** `s.trimEnd()`. */
  function TrimEnd(s: string): (r: string)
    ensures |r| <= |s| && r == s[..|r|]
    ensures AllSpace(s[|r|..])
    ensures r != [] ==> !IsSpace(r[|r| - 1])
  {
    var b := SpacesBefore(s, 0, |s|);
    assert AllSpace(s[b..]) by {
      forall k | 0 <= k < |s| - b ensures IsSpace(s[b..][k]) {
        assert s[b..][k] == s[b + k];
      }
    }
    s[..b]
  }

  /** `s.trim()`: the longest infix with no `\s` at either end, empty exactly when `s` is all `\s`. */
  function Trim(s: string): (r: string)
    ensures IsTrimmed(r)
    ensures |r| <= |s|
    ensures r == [] <==> AllSpace(s)
  {
    var a := SpacesFrom(s, 0);
    var b := SpacesBefore(s, a, |s|);
    s[a..b]
  }

  /** Trimming a trimmed string changes nothing, so `trim` is idempotent. */
  lemma TrimOfTrimmed(s: string)
    requires IsTrimmed(s)
    ensures Trim(s) == s
  {
  }

  /** No character of `s` is in `cs`. */
  predicate Avoids(s: string, cs: set<char>) {
    forall c :: c in s ==> c !in cs
  }

  /** Trimming only removes characters. */
  lemma TrimAvoids(s: string, cs: set<char>)
    requires Avoids(s, cs)
    ensures Avoids(Trim(s), cs)
  {
    var a := SpacesFrom(s, 0);
    var b := SpacesBefore(s, a, |s|);
    var r := s[a..b];
    forall c | c in r ensures c !in cs {
      var i :| 0 <= i < |r| && r[i] == c;
      assert s[a + i] in s;
    }
  }

  function LowerChar(c: char): (d: char)
    ensures !('A' <= d <= 'Z')
    ensures 'A' <= c <= 'Z' ==> d as int == c as int + 32
    ensures !('A' <= c <= 'Z') ==> d == c
  {
    if 'A' <= c <= 'Z' then (c as int + 32) as char else c
  }

  /** `s.toLowerCase()` on the ASCII letters; every other character is left as it is. */
  function Lower(s: string): (r: string)
    ensures |r| == |s|
    ensures forall k :: 0 <= k < |s| ==> r[k] == LowerChar(s[k])
  {
    if s == [] then [] else [LowerChar(s[0])] + Lower(s[1..])
  }

  /** No upper-case ASCII letter. */
  predicate IsLowerCase(s: string) {
    forall k :: 0 <= k < |s| ==> !('A' <= s[k] <= 'Z')
  }

  lemma LowerIsLowerCase(s: string)
    ensures IsLowerCase(Lower(s))
  {
  }

  /** `a.toLowerCase() === b.toLowerCase()`. */
  predicate EqualsIgnoreCase(a: string, b: string) {
    Lower(a) == Lower(b)
  }

  predicate StartsWith(s: string, p: string) {
    |p| <= |s| && s[..|p|] == p
  }

  /** `w` occurs in `s` at index `i`, compared as a literal under the `/i` flag. */
  predicate OccursAtIgnoreCase(s: string, w: string, i: int) {
    0 <= i && i + |w| <= |s| && EqualsIgnoreCase(s[i..i + |w|], w)
  }

  /** `/^w/i.test(s)`. */
  predicate StartsWithIgnoreCase(s: string, w: string) {
    OccursAtIgnoreCase(s, w, 0)
  }

  /** `/w/i.test(s)`. */
  predicate ContainsIgnoreCase(s: string, w: string) {
    exists i :: 0 <= i <= |s| - |w| && OccursAtIgnoreCase(s, w, i)
  }

  /** `/w1|w2|.../i.test(s)` for literal alternatives. */
  predicate ContainsAnyIgnoreCase(s: string, ws: seq<string>) {
    exists k :: 0 <= k < |ws| && ContainsIgnoreCase(s, ws[k])
  }

  /** `/^(w1|w2|...)/i.test(s)` for literal alternatives. */
  predicate StartsWithAnyIgnoreCase(s: string, ws: seq<string>) {
    exists k :: 0 <= k < |ws| && StartsWithIgnoreCase(s, ws[k])
  }

  /** An occurrence at `j` is an occurrence at the start of any slice from `j` that contains it. */
  lemma OccursAtSlice(s: string, w: string, j: nat, u: nat)
    requires OccursAtIgnoreCase(s, w, j) && j + |w| <= u <= |s|
    ensures StartsWithIgnoreCase(s[j..u], w)
  {
    assert s[j..u][..|w|] == s[j..j + |w|];
  }

  /** No `\s` character in `w`. */
  predicate NoSpaceIn(w: string) {
    forall m :: 0 <= m < |w| ==> !IsSpace(w[m])
  }

  /** A literal without `\s` characters matches, under `/i`, only text without them. */
  lemma OccursAtNoSpace(s: string, w: string, j: nat, k: nat)
    requires OccursAtIgnoreCase(s, w, j) && j <= k < j + |w|
    requires NoSpaceIn(w)
    ensures !IsSpace(s[k])
  {
    var x := s[j..j + |w|];
    assert x[k - j] == s[k];
    assert Lower(x)[k - j] == Lower(w)[k - j];
    assert !IsSpace(w[k - j]);
  }

  /** Such a literal followed by a run of non-`\s` characters is free of `\s` as a whole. */
  lemma OccursAtNoSpaceRun(s: string, w: string, j: nat, u: nat)
    requires OccursAtIgnoreCase(s, w, j) && j + |w| <= u <= |s|
    requires NoSpaceIn(w)
    requires forall k :: j + |w| <= k < u ==> !IsSpace(s[k])
    ensures NoSpaceIn(s[j..u])
  {
    forall k | 0 <= k < u - j ensures !IsSpace(s[j..u][k]) {
      assert s[j..u][k] == s[j + k];
      if k < |w| { OccursAtNoSpace(s, w, j, j + k); }
    }
  }

  predicate OccursAt(s: string, w: string, i: int) {
    0 <= i && i + |w| <= |s| && s[i..i + |w|] == w
  }

  function IndexFrom(s: string, w: string, i: nat): (r: int)
    requires i <= |s|
    ensures r == -1 || i <= r <= |s|
    ensures r >= 0 ==> OccursAt(s, w, r) && forall k :: i <= k < r ==> !OccursAt(s, w, k)
    ensures r == -1 ==> forall k :: i <= k <= |s| ==> !OccursAt(s, w, k)
    decreases |s| - i
  {
    if OccursAt(s, w, i) then i
    else if i == |s| then -1
    else IndexFrom(s, w, i + 1)
  }

  /** `s.indexOf(w)`: the first index where `w` occurs, or -1. */
  function IndexOf(s: string, w: string): (r: int)
    ensures r == -1 || 0 <= r <= |s|
    ensures r >= 0 ==> OccursAt(s, w, r) && forall k :: 0 <= k < r ==> !OccursAt(s, w, k)
    ensures r == -1 <==> forall k :: 0 <= k <= |s| ==> !OccursAt(s, w, k)
  {
    IndexFrom(s, w, 0)
  }

  /** `s.substring(0, e)`: JavaScript clamps a negative end to 0 and a large one to the length. */
  function Prefix(s: string, e: int): (r: string)
    ensures e <= 0 ==> r == []
    ensures 0 <= e <= |s| ==> r == s[..e]
    ensures e >= |s| ==> r == s
  {
    if e <= 0 then [] else if e >= |s| then s else s[..e]
  }

  /** `s.replace(/[...]/g, '')`: every character of the class removed. */
  function RemoveChars(s: string, cs: set<char>): (r: string)
    ensures |r| <= |s|
    ensures forall c :: c in r <==> c in s && c !in cs
  {
    if s == [] then [] else (if s[0] in cs then [] else [s[0]]) + RemoveChars(s[1..], cs)
  }

  function Concat(xs: seq<string>): string {
    if xs == [] then [] else xs[0] + Concat(xs[1..])
  }

  lemma {:induction false} InConcat(xs: seq<string>, c: char) returns (k: nat)
    requires c in Concat(xs)
    ensures k < |xs| && c in xs[k]
  {
    if c in xs[0] {
      k := 0;
    } else {
      var j := InConcat(xs[1..], c);
      k := j + 1;
    }
  }

  /** `s.split(/[...]/)` on a character class: the pieces hold no separator, and between them
      they hold every other character of `s`, in order. */
  function Split(s: string, seps: set<char>): (r: seq<string>)
    ensures |r| >= 1
    ensures forall k :: 0 <= k < |r| ==> Avoids(r[k], seps)
    ensures Concat(r) == RemoveChars(s, seps)
  {
    if s == [] then [[]]
    else
      var rest := Split(s[1..], seps);
      assert RemoveChars(s, seps) == (if s[0] in seps then [] else [s[0]]) + RemoveChars(s[1..], seps);
      if s[0] in seps then
        var r := [[]] + rest;
        assert r[0] == [] && r[1..] == rest;
        assert forall k :: 1 <= k < |r| ==> r[k] == rest[k - 1];
        r
      else
        var first := [s[0]] + rest[0];
        var r := [first] + rest[1..];
        assert r[0] == first && r[1..] == rest[1..];
        assert forall k :: 1 <= k < |r| ==> r[k] == rest[k];
        assert Avoids(first, seps) by {
          forall c | c in first ensures c !in seps {
            if c != s[0] {
              assert c in rest[0];
            }
          }
        }
        assert Concat(rest) == rest[0] + Concat(rest[1..]);
        assert Concat(r) == first + Concat(rest[1..]);
        r
  }

  /** `xs.join(sep)`. */
  function Join(xs: seq<string>, sep: string): string {
    if xs == [] then [] else if |xs| == 1 then xs[0] else xs[0] + sep + Join(xs[1..], sep)
  }

  function Map<T, U>(xs: seq<T>, f: T -> U): (r: seq<U>)
    ensures |r| == |xs|
    ensures forall k :: 0 <= k < |xs| ==> r[k] == f(xs[k])
  {
    if xs == [] then [] else [f(xs[0])] + Map(xs[1..], f)
  }

  /** `xs.filter(keep)`: the elements that pass, in their order. */
  function Filter<T>(xs: seq<T>, keep: T -> bool): (r: seq<T>)
    ensures |r| <= |xs|
    ensures forall k :: 0 <= k < |r| ==> keep(r[k])
    ensures forall x :: x in r ==> x in xs
  {
    if xs == [] then []
    else (if keep(xs[0]) then [xs[0]] else []) + Filter(xs[1..], keep)
  }

  lemma {:induction false} FilterKeepsAll<T>(xs: seq<T>, keep: T -> bool)
    requires forall k :: 0 <= k < |xs| ==> keep(xs[k])
    ensures Filter(xs, keep) == xs
  {
    if xs != [] {
      FilterKeepsAll(xs[1..], keep);
    }
  }

  lemma {:induction false} FilterKeeps<T>(xs: seq<T>, keep: T -> bool, j: nat)
    requires j < |xs| && keep(xs[j])
    ensures xs[j] in Filter(xs, keep)
  {
    if j > 0 {
      FilterKeeps(xs[1..], keep, j - 1);
    }
  }

  /** An element is kept exactly when it is one of the inputs and passes the test. */
  lemma FilterMember<T>(xs: seq<T>, keep: T -> bool)
    ensures forall x :: x in Filter(xs, keep) <==> x in xs && keep(x)
  {
    forall x | x in xs && keep(x) ensures x in Filter(xs, keep) {
      var j :| 0 <= j < |xs| && xs[j] == x;
      FilterKeeps(xs, keep, j);
    }
  }

  /** `xs.filter(p).map(f).filter(q)`: the shape of every segmenter, which keeps the pieces of a
      block that are long enough, turns each into a record and keeps the records worth having. */
  function Segment<T, U>(xs: seq<T>, p: T -> bool, f: T -> U, q: U -> bool): seq<U> {
    Filter(Map(Filter(xs, p), f), q)
  }

  /** Every record kept passes `q` and comes from a piece that passes `p`. */
  lemma SegmentMember<T, U>(xs: seq<T>, p: T -> bool, f: T -> U, q: U -> bool, y: U) returns (x: T)
    requires y in Segment(xs, p, f, q)
    ensures q(y) && x in xs && p(x) && y == f(x)
  {
    var ys := Map(Filter(xs, p), f);
    var k :| 0 <= k < |Filter(Map(Filter(xs, p), f), q)| && Filter(ys, q)[k] == y;
    var j :| 0 <= j < |ys| && ys[j] == y;
    x := Filter(xs, p)[j];
  }

  /** Every piece that passes `p` and whose record passes `q` is kept. */
  lemma SegmentKeeps<T, U>(xs: seq<T>, p: T -> bool, f: T -> U, q: U -> bool, j: nat)
    requires j < |xs| && p(xs[j]) && q(f(xs[j]))
    ensures f(xs[j]) in Segment(xs, p, f, q)
  {
    FilterKeeps(xs, p, j);
    var ps := Filter(xs, p);
    var i :| 0 <= i < |ps| && ps[i] == xs[j];
    FilterKeeps(Map(ps, f), q, i);
  }

  /** When every record of a long-enough piece passes `q`, the last filter drops nothing. */
  lemma SegmentDropsNothing<T, U>(xs: seq<T>, p: T -> bool, f: T -> U, q: U -> bool)
    requires forall x :: x in xs && p(x) ==> q(f(x))
    ensures Segment(xs, p, f, q) == Map(Filter(xs, p), f)
  {
    var ps := Filter(xs, p);
    forall k | 0 <= k < |Map(ps, f)| ensures q(Map(ps, f)[k]) {
      assert ps[k] in ps;
    }
    FilterKeepsAll(Map(ps, f), q);
  }

  predicate NoDuplicates<T(==)>(xs: seq<T>) {
    forall i, j :: 0 <= i < j < |xs| ==> xs[i] != xs[j]
  }

  /** `[...new Set(xs)]`: the first occurrence of every value, in order of first occurrence. */
  function Dedup(xs: seq<string>): (r: seq<string>)
    ensures |r| <= |xs|
  {
    if xs == [] then []
    else
      var init := xs[..|xs| - 1];
      var last := xs[|xs| - 1];
      assert xs == init + [last];
      var d := Dedup(init);
      if last in init then d else d + [last]
  }

  /** The set holds exactly the values of the list, each once. */
  lemma {:induction false} DedupMembers(xs: seq<string>)
    ensures NoDuplicates(Dedup(xs))
    ensures forall x :: x in Dedup(xs) <==> x in xs
  {
    if xs != [] {
      var init := xs[..|xs| - 1];
      assert xs == init + [xs[|xs| - 1]];
      DedupMembers(init);
    }
  }

  /** A list that already has no duplicates passes through the set unchanged. */
  lemma {:induction false} DedupOfDistinct(xs: seq<string>)
    requires NoDuplicates(xs)
    ensures Dedup(xs) == xs
  {
    if xs != [] {
      var init := xs[..|xs| - 1];
      assert xs == init + [xs[|xs| - 1]];
      DedupOfDistinct(init);
    }
  }

  lemma DedupSnoc(xs: seq<string>, x: string)
    ensures Dedup(xs + [x]) == if x in xs then Dedup(xs) else Dedup(xs) + [x]
  {
    assert (xs + [x])[..|xs + [x]| - 1] == xs;
  }

  /** The elements of `xs` that do not occur in `a`, in order. */
  function Without(xs: seq<string>, a: seq<string>): (r: seq<string>)
    ensures |r| <= |xs|
  {
    if xs == [] then [] else Without(xs[..|xs| - 1], a) + (if xs[|xs| - 1] in a then [] else [xs[|xs| - 1]])
  }

  lemma {:induction false} WithoutMembers(xs: seq<string>, a: seq<string>)
    ensures forall x :: x in Without(xs, a) <==> x in xs && x !in a
  {
    if xs != [] {
      var init := xs[..|xs| - 1];
      assert xs == init + [xs[|xs| - 1]];
      WithoutMembers(init, a);
    }
  }

  /** Deduplicating `a + b` keeps the deduplicated `a` as a prefix and then adds, in order of
      first occurrence, exactly the values of `b` that are not in `a`. */
  lemma {:induction false} DedupAppend(a: seq<string>, b: seq<string>)
    ensures Dedup(a + b) == Dedup(a) + Dedup(Without(b, a))
  {
    if b == [] {
      assert a + b == a;
    } else {
      var init := b[..|b| - 1];
      var last := b[|b| - 1];
      assert b == init + [last];
      var wi := Without(init, a);
      assert Without(b, a) == wi + (if last in a then [] else [last]);
      DedupAppend(a, init);
      assert a + b == (a + init) + [last];
      DedupSnoc(a + init, last);
      assert last in a + init <==> last in a || last in init;
      if last !in a {
        DedupSnoc(wi, last);
        WithoutMembers(init, a);
        assert Dedup(Without(b, a)) == Dedup(wi + [last]);
        if last in init {
          assert last in wi;
        } else {
          assert last !in wi;
        }
      } else {
        assert Without(b, a) == wi;
      }
    }
  }

  function IndexIn<T(==)>(xs: seq<T>, x: T): (k: nat)
    requires x in xs
    ensures k < |xs| && xs[k] == x
  {
    if xs[0] == x then 0 else 1 + IndexIn(xs[1..], x)
  }
}
