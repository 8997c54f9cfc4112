/** How the segmenters cut a block into lines, and how the list miners cut a block into tokens. */
module Sections {
  import opened JsString

  /** `l.trim()` is truthy: the line holds something besides `\s`. */
  predicate NonBlank(l: string) {
    Trim(l) != []
  }

  /** `l` is one of the pieces of the trimmed section between its line breaks, and not blank. */
  predicate IsLine(l: string, section: string) {
    l in Split(Trim(section), {'\n'}) && NonBlank(l)
  }

  /** `section.trim().split('\n').filter(l => l.trim())`: the lines are exactly the non-blank
      pieces of the trimmed section between its line breaks. */
  function Lines(section: string): (ls: seq<string>)
    ensures forall k :: 0 <= k < |ls| ==> NonBlank(ls[k]) && '\n' !in ls[k]
    ensures forall l :: l in ls <==> IsLine(l, section)
  {
    var pieces := Split(Trim(section), {'\n'});
    var ls := Filter(pieces, NonBlank);
    FilterMember(pieces, NonBlank);
    assert forall k :: 0 <= k < |ls| ==> '\n' !in ls[k] by {
      forall k | 0 <= k < |ls| ensures '\n' !in ls[k] {
        assert ls[k] in pieces;
        var j :| 0 <= j < |pieces| && pieces[j] == ls[k];
        assert Avoids(pieces[j], {'\n'});
      }
    }
    ls
  }

  /** A section that is not all `\s` has at least one line: its first non-space character is
      not a line break, so it lands in some piece, which then survives the blank-line filter. */
  lemma LinesOfNonBlank(section: string)
    requires NonBlank(section)
    ensures Lines(section) != []
  {
    var t := Trim(section);
    var pieces := Split(t, {'\n'});
    var c := t[0];
    assert c in RemoveChars(t, {'\n'});
    var k := InConcat(pieces, c);
    var i := IndexIn(pieces[k], c);
    assert !AllSpace(pieces[k]);
    FilterKeeps(pieces, NonBlank, k);
  }

  /** `section.trim().length > n`, the filter the segmenters apply to the pieces of a block. */
  predicate TrimmedLongerThan(section: string, n: nat) {
    |Trim(section)| > n
  }

  /** Whether a trimmed piece has an acceptable length: more than `lo` and fewer than `hi`
      characters. */
  predicate LengthWithin(s: string, lo: nat, hi: nat) {
    lo < |s| < hi
  }

  /** Trimming pieces that avoid `seps` gives trimmed strings that still avoid them. */
  lemma TrimmedPieces(pieces: seq<string>, seps: set<char>)
    requires forall k :: 0 <= k < |pieces| ==> Avoids(pieces[k], seps)
    ensures forall x :: x in Map(pieces, Trim) ==> IsTrimmed(x) && Avoids(x, seps)
  {
    var trimmed := Map(pieces, Trim);
    forall x | x in trimmed ensures IsTrimmed(x) && Avoids(x, seps) {
      var j :| 0 <= j < |trimmed| && trimmed[j] == x;
      TrimAvoids(pieces[j], seps);
    }
  }

  /** `x` is one of the trimmed pieces of `block` between the characters of `seps`, and has more
      than `lo` and fewer than `hi` characters. */
  predicate IsToken(x: string, block: string, seps: set<char>, lo: nat, hi: nat) {
    x in Map(Split(block, seps), Trim) && lo < |x| < hi
  }

  /** `block.split(/[seps]/).map(s => s.trim()).filter(s => s.length > lo && s.length < hi)`:
      every token is trimmed, within the length bounds and free of separators, and the tokens are
      exactly the trimmed pieces within the bounds. */
  function Tokens(block: string, seps: set<char>, lo: nat, hi: nat): (r: seq<string>)
    ensures forall k :: 0 <= k < |r| ==> IsTrimmed(r[k]) && lo < |r[k]| < hi && Avoids(r[k], seps)
    ensures forall x :: x in r <==> IsToken(x, block, seps, lo, hi)
  {
    var pieces := Split(block, seps);
    var trimmed := Map(pieces, Trim);
    TrimmedPieces(pieces, seps);
    var r := Filter(trimmed, (s: string) => LengthWithin(s, lo, hi));
    FilterMember(trimmed, (s: string) => LengthWithin(s, lo, hi));
    assert forall k :: 0 <= k < |r| ==> r[k] in trimmed;
    r
  }
}
