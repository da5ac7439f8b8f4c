/** Sequence combinators shared by the parsers: a filter-map and a filter. */
module Seqs {
  import opened Wrappers

  /** The values `f` yields on the elements of `xs`, in order, skipping the elements it rejects. */
  function FilterMap<T, U>(xs: seq<T>, f: T -> Option<U>): seq<U>
    decreases |xs|
  {
    if xs == [] then []
    else
      var y := f(xs[|xs| - 1]);
      FilterMap(xs[..|xs| - 1], f) + (if y.Some? then [y.value] else [])
  }

  /** Filtering a concatenation filters each part. */
  lemma {:induction false} FilterMapAppend<T, U>(a: seq<T>, b: seq<T>, f: T -> Option<U>)
    ensures FilterMap(a + b, f) == FilterMap(a, f) + FilterMap(b, f)
    decreases |b|
  {
    if b == [] {
      assert a + b == a;
    } else {
      var b' := b[..|b| - 1];
      FilterMapAppend(a, b', f);
      assert (a + b)[..|a + b| - 1] == a + b';
    }
  }

  /** The elements of `xs` that `keep` holds of, in order. */
  function Filter<T(!new)>(xs: seq<T>, keep: T -> bool): (r: seq<T>)
    ensures |r| <= |xs|
    ensures forall x :: x in r <==> x in xs && keep(x)
    decreases |xs|
  {
    if xs == [] then []
    else
      var rest := Filter(xs[..|xs| - 1], keep);
      var x := xs[|xs| - 1];
      assert xs == xs[..|xs| - 1] + [x];
      rest + (if keep(x) then [x] else [])
  }
}
