/**
 * The list operations the three resources share: selecting the records a
 * filter keeps (in list order), rendering records as text lines, and
 * removing one record. The loops of the resources' read operations are the
 * methods CollectMatches and Render.
 */
module Records {
  import opened CaseFold

  /** The filter that keeps every record (the unfiltered listings). */
  function Everything<T>(x: T): bool {
    true
  }

  /** The records of s that keep selects, in list order. */
  function Select<T(==)>(s: seq<T>, keep: T -> bool): (r: seq<T>)
    ensures |r| <= |s|
    ensures forall x | x in r :: x in s && keep(x)
    ensures forall x | x in s && keep(x) :: x in r
    decreases |s|
  {
    if s == [] then []
    else
      var last := s[|s| - 1];
      Select(s[..|s| - 1], keep) + (if keep(last) then [last] else [])
  }

  /**
   * Each kept record appears in the result exactly as often as it is stored,
   * and a record that is not kept never appears.
   */
  lemma {:induction false} SelectMultiplicity<T>(s: seq<T>, keep: T -> bool, x: T)
    ensures multiset(Select(s, keep))[x] == if keep(x) then multiset(s)[x] else 0
    decreases |s|
  {
    if s != [] {
      var init, last := s[..|s| - 1], s[|s| - 1];
      assert s == init + [last];
      SelectMultiplicity(init, keep, x);
    }
  }

  /** Selection keeps list order: the matches among a come before those among b. */
  lemma {:induction false} SelectAppend<T>(a: seq<T>, b: seq<T>, keep: T -> bool)
    ensures Select(a + b, keep) == Select(a, keep) + Select(b, keep)
    decreases |b|
  {
    if b != [] {
      var init := b[..|b| - 1];
      assert (a + b)[..|a + b| - 1] == a + init;
      SelectAppend(a, init, keep);
    } else {
      assert a + b == a;
    }
  }

  /** The unfiltered listing selects the whole list. */
  lemma {:induction false} SelectEverything<T>(s: seq<T>)
    ensures Select(s, Everything) == s
    decreases |s|
  {
    if s != [] {
      var init := s[..|s| - 1];
      SelectEverything(init);
      assert Everything(s[|s| - 1]);
      assert Select(s, Everything) == init + [s[|s| - 1]];
      assert init + [s[|s| - 1]] == s;
    }
  }

  /**
   * A narrower filter applied to the results of a wider one gives the
   * narrower filter's results: selecting by p is selecting by q and then by p.
   */
  lemma {:induction false} SelectNarrower<T>(s: seq<T>, p: T -> bool, q: T -> bool)
    requires forall x :: p(x) ==> q(x)
    ensures Select(Select(s, q), p) == Select(s, p)
    decreases |s|
  {
    if s != [] {
      var init, last := s[..|s| - 1], s[|s| - 1];
      SelectNarrower(init, p, q);
      SelectAppend(Select(init, q), if q(last) then [last] else [], p);
      if q(last) {
        assert Select([last], p) == Select([], p) + (if p(last) then [last] else []);
      }
    }
  }

  /** Two filters that agree on every record select the same records. */
  lemma {:induction false} SelectAgree<T>(s: seq<T>, p: T -> bool, q: T -> bool)
    requires forall x :: p(x) == q(x)
    ensures Select(s, p) == Select(s, q)
    decreases |s|
  {
    if s != [] {
      SelectAgree(s[..|s| - 1], p, q);
    }
  }

  /** The JSON loops: collect, in list order, the records keep selects. */
  method CollectMatches<T>(all: seq<T>, keep: T -> bool) returns (matches: seq<T>)
    ensures matches == Select(all, keep)
  {
    matches := [];
    for i := 0 to |all|
      invariant matches == Select(all[..i], keep)
    {
      assert all[..i + 1][..i] == all[..i];
      if keep(all[i]) {
        matches := matches + [all[i]];
      }
    }
    assert all[..|all|] == all;
  }

  /** One line per record, each followed by the line separator. */
  function Lines<T>(xs: seq<T>, line: T -> string, sep: string): string
    decreases |xs|
  {
    if xs == [] then ""
    else Lines(xs[..|xs| - 1], line, sep) + line(xs[|xs| - 1]) + sep
  }

  /** Rendering one more record appends its line and the separator. */
  lemma LinesAppend<T>(xs: seq<T>, x: T, line: T -> string, sep: string)
    ensures Lines(xs + [x], line, sep) == Lines(xs, line, sep) + line(x) + sep
  {
    assert (xs + [x])[..|xs|] == xs;
  }

  /**
   * The text answer of a listing: "none" when the whole collection is empty,
   * otherwise the lines of the matching records (nothing when none match).
   */
  function Rendered<T>(collectionEmpty: bool, matches: seq<T>, line: T -> string, sep: string): string {
    if collectionEmpty then "none" else Lines(matches, line, sep)
  }

  /** The text of several records starts with the line of the first. */
  lemma {:induction false} LinesStartWithFirst<T>(xs: seq<T>, line: T -> string, sep: string)
    requires |xs| > 0
    ensures StartsWith(Lines(xs, line, sep), line(xs[0]))
    decreases |xs|
  {
    var init := xs[..|xs| - 1];
    if |init| > 0 {
      LinesStartWithFirst(init, line, sep);
      var l := Lines(init, line, sep);
      assert Lines(xs, line, sep) == l + (line(xs[|xs| - 1]) + sep);
      assert Lines(xs, line, sep)[..|line(xs[0])|] == l[..|line(xs[0])|];
    } else {
      assert Lines(xs, line, sep) == line(xs[0]) + sep;
    }
  }

  /**
   * When every line starts with "ID = ", the text answer is "none" exactly
   * when the collection is empty: a non-empty collection with no match
   * renders as the empty string, never as "none".
   */
  lemma NoneIffEmpty<T>(collectionEmpty: bool, matches: seq<T>, line: T -> string, sep: string)
    requires forall x :: StartsWith(line(x), "ID = ")
    ensures Rendered(collectionEmpty, matches, line, sep) == "none" <==> collectionEmpty
    ensures !collectionEmpty && matches == [] ==> Rendered(collectionEmpty, matches, line, sep) == ""
  {
    if !collectionEmpty && matches != [] {
      LinesStartWithFirst(matches, line, sep);
      var text := Lines(matches, line, sep);
      var first := line(matches[0]);
      assert StartsWith(first, "ID = ");
      assert text[..|first|] == first;
      assert text[0] == first[0] == 'I';
    }
  }

  /** The text loops: build the rendered answer record by record. */
  method Render<T>(all: seq<T>, keep: T -> bool, line: T -> string, sep: string) returns (text: string)
    ensures text == Rendered(|all| == 0, Select(all, keep), line, sep)
  {
    text := "";
    if |all| == 0 {
      text := "none";
    }
    for i := 0 to |all|
      invariant text == Rendered(|all| == 0, Select(all[..i], keep), line, sep)
    {
      assert all[..i + 1][..i] == all[..i];
      if keep(all[i]) {
        ghost var before := Select(all[..i], keep);
        assert Select(all[..i + 1], keep) == before + [all[i]];
        LinesAppend(before, all[i], line, sep);
        text := text + line(all[i]) + sep;
      } else {
        assert Select(all[..i + 1], keep) == Select(all[..i], keep) + [];
        assert Select(all[..i + 1], keep) == Select(all[..i], keep);
      }
    }
    assert all[..|all|] == all;
  }

  /** `list.remove(found)`: the list without position i, the others in order. */
  function RemoveAt<T>(s: seq<T>, i: nat): (r: seq<T>)
    requires i < |s|
    ensures |r| == |s| - 1
    ensures forall k | 0 <= k < i :: r[k] == s[k]
    ensures forall k | i <= k < |r| :: r[k] == s[k + 1]
  {
    s[..i] + s[i + 1..]
  }

  /** Removal takes away exactly one copy of the removed record. */
  lemma RemoveAtMultiset<T>(s: seq<T>, i: nat)
    requires i < |s|
    ensures multiset(RemoveAt(s, i)) == multiset(s) - multiset{s[i]}
  {
    assert s == s[..i] + [s[i]] + s[i + 1..];
  }
}
