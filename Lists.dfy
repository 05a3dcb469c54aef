/** The three array idioms the editor builds every list update from:
    `xs.map(x => match(x) ? change(x) : x)`, `xs.filter(keep)` and `xs.findIndex(match)`.
    The section list and every list-typed content field (features, FAQ items, images, ...)
    are updated through these, so their contracts are stated once, here. */
module Lists {

  /** `xs.map(x => p(x) ? f(x) : x)`: the elements that match are replaced by their image under
      `f`, every other element stays where it was, and the length does not change. */
  function MapWhere<T>(xs: seq<T>, p: T -> bool, f: T -> T): (r: seq<T>)
    ensures |r| == |xs|
    ensures forall i :: 0 <= i < |xs| && p(xs[i]) ==> r[i] == f(xs[i])
    ensures forall i :: 0 <= i < |xs| && !p(xs[i]) ==> r[i] == xs[i]
  {
    if xs == [] then [] else [if p(xs[0]) then f(xs[0]) else xs[0]] + MapWhere(xs[1..], p, f)
  }

  /** `xs.filter(keep)`: only elements that `keep` accepts, and all of `xs` when it accepts all. */
  function Filter<T>(xs: seq<T>, keep: T -> bool): (r: seq<T>)
    ensures |r| <= |xs|
    ensures forall i :: 0 <= i < |r| ==> keep(r[i])
    ensures (forall i :: 0 <= i < |xs| ==> keep(xs[i])) ==> r == xs
  {
    if xs == [] then []
    else
      var rest := Filter(xs[1..], keep);
      if keep(xs[0]) then [xs[0]] + rest else rest
  }

  /** The filter keeps exactly the accepted elements, each as often as it occurs in `xs`. */
  lemma {:induction false} FilterCounts<T>(xs: seq<T>, keep: T -> bool, x: T)
    ensures multiset(Filter(xs, keep))[x] == if keep(x) then multiset(xs)[x] else 0
    ensures x in Filter(xs, keep) <==> x in xs && keep(x)
  {
    if xs != [] {
      FilterCounts(xs[1..], keep, x);
      assert xs == [xs[0]] + xs[1..];
      assert multiset(xs) == multiset{xs[0]} + multiset(xs[1..]);
    }
  }

  /** `xs.findIndex(p)`: the first position whose element matches, or -1 when none does. */
  function IndexWhere<T>(xs: seq<T>, p: T -> bool): (i: int)
    ensures -1 <= i < |xs|
    ensures i == -1 <==> forall k :: 0 <= k < |xs| ==> !p(xs[k])
    ensures 0 <= i ==> p(xs[i]) && forall k :: 0 <= k < i ==> !p(xs[k])
  {
    if xs == [] then -1
    else if p(xs[0]) then 0
    else
      var j := IndexWhere(xs[1..], p);
      if j == -1 then -1 else j + 1
  }

  /** `[xs[a], xs[b]] = [xs[b], xs[a]]`: the two slots trade elements, every other slot keeps
      its own, and the elements as a whole stay the same. */
  function Swapped<T>(xs: seq<T>, a: nat, b: nat): (r: seq<T>)
    requires a < |xs| && b < |xs|
    ensures |r| == |xs| && r[a] == xs[b] && r[b] == xs[a]
    ensures forall k :: 0 <= k < |xs| && k != a && k != b ==> r[k] == xs[k]
    ensures multiset(r) == multiset(xs)
  {
    xs[a := xs[b]][b := xs[a]]
  }

  /** Swapping the same two slots twice puts everything back. */
  lemma SwapTwice<T>(xs: seq<T>, a: nat, b: nat)
    requires a < |xs| && b < |xs|
    ensures Swapped(Swapped(xs, a, b), a, b) == xs
  {
    var r := Swapped(Swapped(xs, a, b), a, b);
    assert forall k :: 0 <= k < |xs| ==> r[k] == xs[k];
  }

  /** Filtering keeps the relative order: it distributes over concatenation. */
  lemma {:induction false} FilterAppend<T>(xs: seq<T>, ys: seq<T>, keep: T -> bool)
    ensures Filter(xs + ys, keep) == Filter(xs, keep) + Filter(ys, keep)
  {
    if xs == [] {
      assert xs + ys == ys;
    } else {
      assert (xs + ys)[1..] == xs[1..] + ys;
      FilterAppend(xs[1..], ys, keep);
    }
  }

  /** Filtering twice with the same test is filtering once. */
  lemma {:induction false} FilterIdempotent<T>(xs: seq<T>, keep: T -> bool)
    ensures Filter(Filter(xs, keep), keep) == Filter(xs, keep)
  {
  }

  /** An element that `keep` rejects can be dropped from anywhere without changing the result. */
  lemma FilterDropsRejected<T>(xs: seq<T>, x: T, ys: seq<T>, keep: T -> bool)
    requires !keep(x)
    ensures Filter(xs + [x] + ys, keep) == Filter(xs + ys, keep)
  {
    FilterAppend(xs + [x], ys, keep);
    FilterAppend(xs, [x], keep);
    FilterAppend(xs, ys, keep);
    assert Filter([x], keep) == [];
  }
}
