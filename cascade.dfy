/** The first-accepted-match cascade every single-valued field of the parser uses: an ordered
    list of regular expressions is tried against the text, and the first one whose capture the
    field's check accepts decides the field; the ones after it are not tried. */
module Cascade {
  import opened Wrappers

  /** `text.match(pattern)` seen through the capture the caller reads (`null` is `None`). */
  type Matcher<S> = string -> Option<S>

  /** What matcher `i` offers the field: nothing when it does not match, otherwise what the
      field's check-and-clean step `select` makes of its capture. */
  function Candidate<S, T>(ms: seq<Matcher<S>>, text: string, select: S -> Option<T>, i: nat): Option<T>
    requires i < |ms|
  {
    match ms[i](text)
    case None => None
    case Some(c) => select(c)
  }

  /** The value of the field: the candidate of the earliest matcher, in list order, that offers
      one; `None` (the field stays `null`) when none does. */
  function FirstAccepted<S, T>(ms: seq<Matcher<S>>, text: string, select: S -> Option<T>): (r: Option<T>)
    ensures r.None? <==> forall i :: 0 <= i < |ms| ==> Candidate(ms, text, select, i).None?
    ensures r.Some? ==> exists i :: 0 <= i < |ms| && Candidate(ms, text, select, i) == r &&
                          forall j :: 0 <= j < i ==> Candidate(ms, text, select, j).None?
  {
    if ms == [] then None
    else
      var rest := FirstAccepted(ms[1..], text, select);
      assert forall i :: 1 <= i < |ms| ==> Candidate(ms, text, select, i) == Candidate(ms[1..], text, select, i - 1);
      match Candidate(ms, text, select, 0)
      case Some(v) => Some(v)
      case None =>
        assert rest.Some? ==> exists i :: 1 <= i < |ms| && Candidate(ms, text, select, i) == rest &&
                                forall j :: 0 <= j < i ==> Candidate(ms, text, select, j).None? by {
          if rest.Some? {
            var i :| 0 <= i < |ms[1..]| && Candidate(ms[1..], text, select, i) == rest &&
                     forall j :: 0 <= j < i ==> Candidate(ms[1..], text, select, j).None?;
            assert Candidate(ms, text, select, i + 1) == rest;
          }
        }
        rest
  }

  /** A cascade over `a + b` is decided by `a` when `a` succeeds and by `b` otherwise: once a
      matcher is accepted, the matchers after it never influence the field. */
  lemma {:induction false} CascadeAppend<S, T>(a: seq<Matcher<S>>, b: seq<Matcher<S>>, text: string, select: S -> Option<T>)
    ensures FirstAccepted(a + b, text, select) ==
            if FirstAccepted(a, text, select).Some? then FirstAccepted(a, text, select) else FirstAccepted(b, text, select)
  {
    if a == [] {
      assert a + b == b;
    } else {
      assert (a + b)[1..] == a[1..] + b;
      assert Candidate(a + b, text, select, 0) == Candidate(a, text, select, 0);
      CascadeAppend(a[1..], b, text, select);
    }
  }

  /** Whatever the field's check guarantees of every value it accepts holds of the field. */
  lemma CascadeKeeps<S, T>(ms: seq<Matcher<S>>, text: string, select: S -> Option<T>, ok: T -> bool)
    requires forall c: S :: select(c).Some? ==> ok(select(c).value)
    ensures FirstAccepted(ms, text, select).Some? ==> ok(FirstAccepted(ms, text, select).value)
  {
    var r := FirstAccepted(ms, text, select);
    if r.Some? {
      var i :| 0 <= i < |ms| && Candidate(ms, text, select, i) == r;
      var m := ms[i](text);
      assert m.Some?;
      Accepted(select, ok, m.value);
      assert select(m.value) == r;
    }
  }

  lemma Accepted<S, T>(select: S -> Option<T>, ok: T -> bool, c: S)
    requires forall c: S :: select(c).Some? ==> ok(select(c).value)
    ensures select(c).Some? ==> ok(select(c).value)
  {
  }

  /** The loop every cascade field runs: the patterns are tried in order, and the first one whose
      capture the check accepts stores its value and ends the loop. */
  method Run<S, T>(ms: seq<Matcher<S>>, text: string, select: S -> Option<T>) returns (r: Option<T>)
    ensures r == FirstAccepted(ms, text, select)
  {
    r := None;
    for i := 0 to |ms|
      invariant FirstAccepted(ms, text, select) == FirstAccepted(ms[i..], text, select)
    {
      assert ms[i..] == [ms[i]] + ms[i + 1..];
      CascadeAppend([ms[i]], ms[i + 1..], text, select);
      var m := ms[i](text);
      if m.Some? {
        var v := select(m.value);
        if v.Some? {
          r := v;
          break;
        }
      }
    }
    if r.None? {
      assert ms[|ms|..] == [];
    }
  }
}
