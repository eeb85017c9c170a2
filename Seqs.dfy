/**
 * Python's `list.remove(x)`: the list without the first occurrence of `x`.
 */
module Seqs {

  /** Position of the first occurrence of `x` in `xs`. */
  function IndexOf<T(==)>(xs: seq<T>, x: T): (i: nat)
    requires x in xs
    ensures i < |xs| && xs[i] == x && x !in xs[..i]
  {
    if xs[0] == x then 0
    else
      var j := IndexOf(xs[1..], x);
      assert xs[..j + 1] == [xs[0]] + xs[1..][..j];
      j + 1
  }

  /** `xs` without its first occurrence of `x`; the others keep their order. */
  function RemoveFirst<T(==)>(xs: seq<T>, x: T): (r: seq<T>)
    requires x in xs
    ensures |r| == |xs| - 1
    ensures multiset(r) == multiset(xs) - multiset{x}
    ensures exists i :: 0 <= i < |xs| && xs[i] == x && x !in xs[..i] && r == xs[..i] + xs[i + 1..]
  {
    var i := IndexOf(xs, x);
    assert xs == xs[..i] + [x] + xs[i + 1..];
    xs[..i] + xs[i + 1..]
  }

  /**
   * `xs` after `xs.remove(y)` for each `y` of `ys` in order, skipping a `y`
   * no longer present; the remaining elements keep their order.
   */
  function Without<T(==)>(xs: seq<T>, ys: seq<T>): seq<T>
  {
    if ys == [] then xs
    else
      var rest := Without(xs, ys[..|ys| - 1]);
      var y := ys[|ys| - 1];
      if y in rest then RemoveFirst(rest, y) else rest
  }

  /**
   * When the elements of `ys` are all present in `xs`, counted with
   * multiplicity, each removal finds its element: exactly `ys` leaves `xs`.
   */
  lemma {:induction false} WithoutMultiset<T>(xs: seq<T>, ys: seq<T>)
    requires multiset(ys) <= multiset(xs)
    ensures multiset(Without(xs, ys)) + multiset(ys) == multiset(xs)
    ensures |Without(xs, ys)| == |xs| - |ys|
  {
    if ys != [] {
      var init, y := ys[..|ys| - 1], ys[|ys| - 1];
      assert ys == init + [y];
      assert multiset(init) <= multiset(xs);
      WithoutMultiset(xs, init);
      var rest := Without(xs, init);
      assert multiset(rest)[y] == multiset(xs)[y] - multiset(init)[y];
      assert y in rest;
    }
  }

  /** An element still owed by the multiset count is present after the earlier removals. */
  lemma WithoutHas<T>(xs: seq<T>, ys: seq<T>, y: T)
    requires multiset(ys + [y]) <= multiset(xs)
    ensures y in Without(xs, ys)
  {
    assert multiset(ys) <= multiset(ys + [y]);
    WithoutMultiset(xs, ys);
    assert multiset(Without(xs, ys))[y] == multiset(xs)[y] - multiset(ys)[y];
  }
}
