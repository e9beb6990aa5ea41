/** Sequence operations the request handlers use from JavaScript's Array:
    `filter`, `slice(0, n)` and `map`, plus the Option type for lookups
    that may find nothing (`find`). */
module Collections {

  datatype Option<+T> = None | Some(value: T)

  /** `xs.filter(keep)`: the elements that satisfy `keep`, in their order. */
  function Filter<T>(xs: seq<T>, keep: T -> bool): (r: seq<T>)
    ensures |r| <= |xs|
    ensures forall i :: 0 <= i < |r| ==> r[i] in xs && keep(r[i])
    ensures forall i :: 0 <= i < |xs| && keep(xs[i]) ==> xs[i] in r
  {
    if xs == [] then []
    else if keep(xs[0]) then [xs[0]] + Filter(xs[1..], keep)
    else Filter(xs[1..], keep)
  }

  /** Filtering a concatenation filters each part and keeps the parts in
      order: together with the singleton case this pins `Filter` down as
      the order-preserving selection. */
  lemma {:induction false} FilterAppend<T>(xs: seq<T>, ys: seq<T>, keep: T -> bool)
    ensures Filter(xs + ys, keep) == Filter(xs, keep) + Filter(ys, keep)
  {
    if xs == [] {
      assert xs + ys == ys;
    } else {
      assert (xs + ys)[1..] == xs[1..] + ys;
      FilterAppend(xs[1..], ys, keep);
    }
  }

  /** On one element, `Filter` keeps it exactly when it passes the test.
      With `FilterAppend` this determines `Filter` on every input,
      duplicates and order included. */
  lemma FilterSingleton<T>(x: T, keep: T -> bool)
    ensures Filter([x], keep) == if keep(x) then [x] else []
  {
  }

  /** A filter that rejects nothing returns its input unchanged. */
  lemma {:induction false} FilterKeepsAll<T>(xs: seq<T>, keep: T -> bool)
    requires forall x :: x in xs ==> keep(x)
    ensures Filter(xs, keep) == xs
  {
    if xs != [] {
      assert forall x :: x in xs[1..] ==> x in xs;
      FilterKeepsAll(xs[1..], keep);
    }
  }

  /** `xs.slice(0, end)` with JavaScript's rule for the end index: a
      non-negative end is clamped to the length, a negative one counts
      back from the end and is clamped to zero. */
  function Slice<T>(xs: seq<T>, end: int): (r: seq<T>)
    ensures r <= xs
    ensures end >= 0 ==> |r| == if end <= |xs| then end else |xs|
    ensures end < 0 ==> |r| == if |xs| + end >= 0 then |xs| + end else 0
  {
    if end >= 0 then
      (if end <= |xs| then xs[..end] else xs)
    else
      (if |xs| + end >= 0 then xs[..|xs| + end] else [])
  }

  /** `xs.map(f)`. */
  function Map<T, U>(xs: seq<T>, f: T -> U): (r: seq<U>)
    ensures |r| == |xs|
    ensures forall i :: 0 <= i < |xs| ==> r[i] == f(xs[i])
  {
    seq(|xs|, i requires 0 <= i < |xs| => f(xs[i]))
  }
}
