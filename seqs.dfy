/** `Array.prototype.filter` and `Array.prototype.some` over sequences, with their laws. */
module Seqs {

  /** `xs.filter(keep)`: the elements that pass, in their original order. */
  function Filter<T(==)>(xs: seq<T>, keep: T -> bool): (r: seq<T>)
    ensures |r| <= |xs|
    ensures forall i :: 0 <= i < |r| ==> r[i] in xs && keep(r[i])
    ensures forall i :: 0 <= i < |xs| && keep(xs[i]) ==> xs[i] in r
  {
    if xs == [] then []
    else if keep(xs[0]) then [xs[0]] + Filter(xs[1..], keep)
    else Filter(xs[1..], keep)
  }

  /** `xs.some(test)`. */
  predicate Any<T>(xs: seq<T>, test: T -> bool) {
    exists i :: 0 <= i < |xs| && test(xs[i])
  }

  /** `sub` is `xs` with some elements left out, the rest in order. */
  predicate IsSubsequence<T(==)>(sub: seq<T>, xs: seq<T>) {
    if sub == [] then true
    else if xs == [] then false
    else if sub[0] == xs[0] then IsSubsequence(sub[1..], xs[1..])
    else IsSubsequence(sub, xs[1..])
  }

  lemma {:induction false} FilterIsSubsequence<T>(xs: seq<T>, keep: T -> bool)
    ensures IsSubsequence(Filter(xs, keep), xs)
  {
    if xs != [] {
      FilterIsSubsequence(xs[1..], keep);
    }
  }

  /** Filtering a concatenation filters each part: the order of the parts is kept. */
  lemma {:induction false} FilterAppend<T>(xs: seq<T>, ys: seq<T>, keep: T -> bool)
    ensures Filter(xs + ys, keep) == Filter(xs, keep) + Filter(ys, keep)
  {
    if xs == [] {
      assert xs + ys == ys;
    } else {
      assert (xs + ys)[1..] == xs[1..] + ys;
      FilterAppend(xs[1..], ys, keep);
    }
  }

  /** Filtering twice with the same test changes nothing more. */
  lemma {:induction false} FilterIdempotent<T>(xs: seq<T>, keep: T -> bool)
    ensures Filter(Filter(xs, keep), keep) == Filter(xs, keep)
  {
    if xs != [] {
      FilterIdempotent(xs[1..], keep);
    }
  }

  /** Nothing passes a test that rejects everything. */
  lemma {:induction false} FilterNone<T>(xs: seq<T>, keep: T -> bool)
    requires forall i :: 0 <= i < |xs| ==> !keep(xs[i])
    ensures Filter(xs, keep) == []
  {
    if xs != [] {
      FilterNone(xs[1..], keep);
    }
  }

  /** Filtering by a weaker test first and then by a stronger one is filtering by the stronger one alone. */
  lemma {:induction false} FilterNarrow<T>(xs: seq<T>, weak: T -> bool, strong: T -> bool)
    requires forall x :: strong(x) ==> weak(x)
    ensures Filter(Filter(xs, weak), strong) == Filter(xs, strong)
  {
    if xs != [] {
      FilterNarrow(xs[1..], weak, strong);
      if weak(xs[0]) {
        assert Filter(xs, weak)[1..] == Filter(xs[1..], weak);
      }
    }
  }

  /** Filtering after appending one element. */
  lemma FilterSnoc<T>(xs: seq<T>, x: T, keep: T -> bool)
    ensures Filter(xs + [x], keep) == Filter(xs, keep) + (if keep(x) then [x] else [])
  {
    FilterAppend(xs, [x], keep);
    assert Filter([x], keep) == if keep(x) then [x] else [];
  }
}
