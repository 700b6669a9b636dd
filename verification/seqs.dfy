/**
 Small facts about the strings held in a sequence: the set of its elements and
 whether it repeats any of them. A Go variadic `...string` argument is a
 sequence here, and a set member count is compared against such sequences.
 */
module Seqs {

  /** The distinct elements of `xs`. */
  function Elems(xs: seq<string>): set<string>
  {
    set x | x in xs
  }

  /** True iff no string occurs twice in `xs`. */
  predicate Distinct(xs: seq<string>)
  {
    forall i, j :: 0 <= i < j < |xs| ==> xs[i] != xs[j]
  }

  /** Appending one string adds exactly that string to the element set. */
  lemma ElemsSnoc(xs: seq<string>, x: string)
    ensures Elems(xs + [x]) == Elems(xs) + {x}
  {
    assert forall y :: y in xs + [x] <==> y in xs || y == x;
  }

  /** A sequence without repeats has as many distinct elements as it is long. */
  lemma {:induction false} DistinctElemsCard(xs: seq<string>)
    requires Distinct(xs)
    ensures |Elems(xs)| == |xs|
  {
    if xs != [] {
      var init, last := xs[..|xs| - 1], xs[|xs| - 1];
      assert xs == init + [last];
      assert Distinct(init);
      DistinctElemsCard(init);
      ElemsSnoc(init, last);
      assert last !in Elems(init);
    }
  }

  /** No sequence has more distinct elements than it is long. */
  lemma {:induction false} ElemsCardBound(xs: seq<string>)
    ensures |Elems(xs)| <= |xs|
  {
    if xs != [] {
      var init, last := xs[..|xs| - 1], xs[|xs| - 1];
      assert xs == init + [last];
      ElemsCardBound(init);
      ElemsSnoc(init, last);
    }
  }
}
