/** Lists in two orders, and what belongs to their members. */
module Rearranging {
  import opened Sorting

  ghost predicate Pairwise<D, F>(docs: seq<D>, forms: seq<F>, has: (D, F) -> bool) {
    |forms| == |docs| && forall i | 0 <= i < |docs| :: has(docs[i], forms[i])
  }

  lemma PairwiseOne<D, F>(docs: seq<D>, n: nat, forms: seq<F>, form: F, has: (D, F) -> bool)
    requires n < |docs| && Pairwise(docs[..n], forms, has) && has(docs[n], form)
    ensures Pairwise(docs[..n + 1], forms + [form], has)
  {
    assert docs[..n + 1] == docs[..n] + [docs[n]];
  }

  lemma PairwiseWithout<D, F>(before: seq<D>, d: D, after: seq<D>, forms: seq<F>, has: (D, F) -> bool)
    requires Pairwise(before + [d] + after, forms, has)
    ensures var n := |before|;
      && has(d, forms[n]) && Pairwise(before + after, forms[..n] + forms[n + 1..], has)
      && forms == forms[..n] + [forms[n]] + forms[n + 1..]
  {
    var n, docs := |before|, before + [d] + after;
    assert docs[n] == d;
    forall i | 0 <= i < |before + after| ensures has((before + after)[i], (forms[..n] + forms[n + 1..])[i]) {
      assert has(docs[if i < n then i else i + 1], forms[if i < n then i else i + 1]);
    }
  }

  /** If each member has one form, then the same members in any order have the same forms. */
  lemma {:induction false} FormsAnyOrder<D, F(!new)>(
    docs: seq<D>, forms: seq<F>, others: seq<D>, otherForms: seq<F>, has: (D, F) -> bool)
    requires Pairwise(docs, forms, has) && Pairwise(others, otherForms, has) && multiset(docs) == multiset(others)
    requires forall d, f, g | d in others && has(d, f) && has(d, g) :: f == g
    ensures multiset(forms) == multiset(otherForms)
    decreases |others|
  {
    assert |docs| == |multiset(docs)| == |multiset(others)| == |others|;
    if others != [] {
      var before, after := TakeOut(docs, others);
      var n, rest := |before|, otherForms[1..];
      PairwiseWithout(before, others[0], after, forms, has);
      assert Pairwise(others[1..], rest, has);
      assert others[0] in others && has(others[0], otherForms[0]) && forms[n] == otherForms[0];
      FormsAnyOrder(before + after, forms[..n] + forms[n + 1..], others[1..], rest, has);
      PutBack(forms[..n], forms[n], forms[n + 1..], rest);
      assert otherForms == [otherForms[0]] + rest;
    }
  }

  /** Members whose forms agree up to order can be lined up. */
  lemma {:induction false} LineUp<D, F>(forms: seq<F>, others: seq<D>, otherForms: seq<F>, has: (D, F) -> bool)
    returns (lined: seq<D>)
    requires Pairwise(others, otherForms, has) && multiset(forms) == multiset(otherForms)
    ensures multiset(lined) == multiset(others) && Pairwise(lined, forms, has)
    decreases |forms|
  {
    assert |forms| == |multiset(forms)| == |multiset(otherForms)| == |otherForms|;
    if forms == [] { return []; }
    var before, after := TakeOut(otherForms, forms);
    var n := |before|;
    var other := others[n];
    assert others == others[..n] + [other] + others[n + 1..];
    PairwiseWithout(others[..n], other, others[n + 1..], otherForms, has);
    assert otherForms[..n] == before && otherForms[n + 1..] == after && otherForms[n] == forms[0];
    var rest := LineUp(forms[1..], others[..n] + others[n + 1..], before + after, has);
    PutBack(others[..n], other, others[n + 1..], rest);
    lined := [other] + rest;
  }
}
