/** Tensor shapes and the shape arithmetic of the torch operations the task VAE uses:
    concatenation along the last axis, basic slicing, and unsqueeze/squeeze of axis 0.
    A shape lists the size of every axis, outermost first; tensor values are not modelled. */
module Shapes {
  import opened Results

  type Shape = seq<nat>

  function Min(a: nat, b: nat): nat {
    if a <= b then a else b
  }

  /** Size of the last (feature) axis. */
  function Last(s: Shape): nat
    requires |s| > 0
  {
    s[|s| - 1]
  }

  /** All axes but the last: the batch and sequence dimensions. */
  function Lead(s: Shape): Shape
    requires |s| > 0
  {
    s[..|s| - 1]
  }

  /** `s` with its last axis resized to `w`. */
  function WithLast(s: Shape, w: nat): (r: Shape)
    requires |s| > 0
    ensures |r| == |s| && Lead(r) == Lead(s) && Last(r) == w
  {
    Lead(s) + [w]
  }

  /** Shapes that `torch.cat(parts, dim=-1)` accepts: at least one tensor, none of rank 0,
      all of the same rank and agreeing on every axis but the last. */
  predicate Concatenable(parts: seq<Shape>) {
    && |parts| > 0
    && |parts[0]| > 0
    && forall k :: 0 <= k < |parts| ==> |parts[k]| == |parts[0]| && Lead(parts[k]) == Lead(parts[0])
  }

  /** Total width of the last axes of `parts`. */
  function SumLast(parts: seq<Shape>): nat
    requires forall k :: 0 <= k < |parts| ==> |parts[k]| > 0
  {
    if |parts| == 0 then 0 else SumLast(parts[..|parts| - 1]) + Last(parts[|parts| - 1])
  }

  /** Three tensors concatenate exactly when they share rank and leading axes; their total
      feature width is the sum of the three. */
  lemma ConcatenableThree(a: Shape, b: Shape, c: Shape)
    ensures Concatenable([a, b, c]) <==> |a| > 0 && |b| == |a| && |c| == |a| && Lead(b) == Lead(a) && Lead(c) == Lead(a)
    ensures Concatenable([a, b, c]) ==> SumLast([a, b, c]) == Last(a) + Last(b) + Last(c)
  {
    var parts := [a, b, c];
    if |a| > 0 && |b| == |a| && |c| == |a| && Lead(b) == Lead(a) && Lead(c) == Lead(a) {
      assert forall k :: 0 <= k < |parts| ==> |parts[k]| == |parts[0]| && Lead(parts[k]) == Lead(parts[0]);
      SumLastTwo(a, b);
      assert parts[..2] == [a, b];
    }
    if Concatenable(parts) {
      assert |parts[1]| == |a| && Lead(parts[1]) == Lead(a);
      assert |parts[2]| == |a| && Lead(parts[2]) == Lead(a);
    }
  }

  /** Shape of `torch.cat(parts, dim=-1)`. */
  function Cat(parts: seq<Shape>): (r: Result<Shape>)
    ensures r.Ok? <==> Concatenable(parts)
    ensures r.Ok? ==> |r.value| == |parts[0]| && Lead(r.value) == Lead(parts[0]) && Last(r.value) == SumLast(parts)
    ensures r.Err? ==> r.error == ShapeMismatch
  {
    if Concatenable(parts) then Ok(WithLast(parts[0], SumLast(parts))) else Err(ShapeMismatch)
  }

  /** Shape of `x[..., :k, ...]` with the slice on `axis`: Python slicing clamps `k` to the axis size. */
  function SliceTo(s: Shape, axis: nat, k: nat): (r: Shape)
    requires axis < |s|
    ensures |r| == |s| && r[axis] <= s[axis] && r[axis] <= k
    ensures k <= s[axis] ==> r[axis] == k
    ensures s[axis] <= k ==> r[axis] == s[axis]
    ensures forall a :: 0 <= a < |s| && a != axis ==> r[a] == s[a]
  {
    s[axis := Min(k, s[axis])]
  }

  /** Shape of `x[..., k:, ...]` with the slice on `axis`. */
  function SliceFrom(s: Shape, axis: nat, k: nat): (r: Shape)
    requires axis < |s|
    ensures |r| == |s| && r[axis] + SliceTo(s, axis, k)[axis] == s[axis]
    ensures forall a :: 0 <= a < |s| && a != axis ==> r[a] == s[a]
  {
    s[axis := s[axis] - Min(k, s[axis])]
  }

  /** Shape of `x.squeeze(0)`: axis 0 is dropped only when its size is 1. */
  function Squeeze0(s: Shape): (r: Shape)
    ensures |s| > 0 && s[0] == 1 ==> r == s[1..]
    ensures !(|s| > 0 && s[0] == 1) ==> r == s
  {
    if |s| > 0 && s[0] == 1 then s[1..] else s
  }

  /** Shape of `x.unsqueeze(0)`: a new axis 0 of size 1, which squeezing removes again. */
  function Unsqueeze0(s: Shape): (r: Shape)
    ensures |r| == |s| + 1 && r[0] == 1 && r[1..] == s
    ensures Squeeze0(r) == s
  {
    [1] + s
  }

  /** Two tensors together have the sum of their feature widths. */
  lemma SumLastTwo(a: Shape, b: Shape)
    requires |a| > 0 && |b| > 0
    ensures SumLast([a, b]) == Last(a) + Last(b)
  {
    assert SumLast([a, b]) == SumLast([a]) + Last(b) by {
      assert [a, b][..1] == [a];
    }
    assert SumLast([a]) == Last(a) by {
      var single: seq<Shape> := [a];
      assert single[..0] == [];
    }
  }

  /** Splitting the feature axis at any point and concatenating the halves gives the
      original shape back. */
  lemma SplitThenCat(s: Shape, k: nat)
    requires |s| > 0
    ensures Cat([SliceTo(s, |s| - 1, k), SliceFrom(s, |s| - 1, k)]) == Ok(s)
  {
    var a, b := SliceTo(s, |s| - 1, k), SliceFrom(s, |s| - 1, k);
    assert Lead(a) == Lead(s) && Lead(b) == Lead(s);
    assert Concatenable([a, b]);
    SumLastTwo(a, b);
    assert WithLast(a, Last(s)) == s;
  }

  /** Splitting a concatenation of two tensors at the first one's width recovers both. */
  lemma CatThenSplit(a: Shape, b: Shape, c: Shape)
    requires Cat([a, b]) == Ok(c)
    ensures SliceTo(c, |c| - 1, Last(a)) == a
    ensures SliceFrom(c, |c| - 1, Last(a)) == b
  {
    assert Concatenable([a, b]);
    assert |b| == |a| && Lead(b) == Lead(a);
    SumLastTwo(a, b);
    assert a == Lead(a) + [Last(a)];
    assert b == Lead(b) + [Last(b)];
  }
}
