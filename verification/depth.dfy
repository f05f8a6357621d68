/** Depth sanitisation in `handle_grasp`: the decoded depth image is copied
    and every NaN pixel of the copy is set to 0, leaving the decoded buffer as
    it was. */
module Depth {
  import opened GraspTypes

  /** The value a pixel has after the masked assignment. */
  function Sanitize(p: Pixel): Pixel
  {
    if p.NaN? then Val(0.0) else p
  }

  predicate NoNaN(g: Grid)
  {
    forall i, j :: 0 <= i < |g| && 0 <= j < |g[i]| ==> !g[i][j].NaN?
  }

  predicate SameShape(g: Grid, h: Grid)
  {
    |g| == |h| && forall i :: 0 <= i < |g| ==> |g[i]| == |h[i]|
  }

  /** The rows of a two-dimensional array, as values. */
  function Snapshot(a: array2<Pixel>): (g: Grid)
    reads a
    ensures |g| == a.Length0
    ensures forall i :: 0 <= i < |g| ==> |g[i]| == a.Length1
    ensures forall i, j :: 0 <= i < a.Length0 && 0 <= j < a.Length1 ==> g[i][j] == a[i, j]
  {
    seq(a.Length0, i requires 0 <= i < a.Length0 reads a =>
      seq(a.Length1, j requires 0 <= j < a.Length1 reads a => a[i, j]))
  }

  /** The depth image after sanitisation: same shape, no NaN left, every NaN
      pixel 0 and every other pixel as it was. */
  function CleanGrid(g: Grid): (r: Grid)
    ensures SameShape(r, g)
    ensures NoNaN(r)
    ensures forall i, j :: 0 <= i < |g| && 0 <= j < |g[i]| ==>
      (g[i][j].NaN? ==> r[i][j] == Val(0.0)) && (g[i][j].Val? ==> r[i][j] == g[i][j])
  {
    seq(|g|, i requires 0 <= i < |g| => seq(|g[i]|, j requires 0 <= j < |g[i]| => Sanitize(g[i][j])))
  }

  /** Sanitising twice is sanitising once, and a grid without NaN is left alone. */
  lemma CleanGridFixesClean(g: Grid)
    ensures NoNaN(g) ==> CleanGrid(g) == g
    ensures CleanGrid(CleanGrid(g)) == CleanGrid(g)
  {
    var c := CleanGrid(g);
    if NoNaN(g) {
      GridsEqual(c, g);
    }
    GridsEqual(CleanGrid(c), c);
  }

  lemma GridsEqual(g: Grid, h: Grid)
    requires SameShape(g, h)
    requires forall i, j :: 0 <= i < |g| && 0 <= j < |g[i]| ==> g[i][j] == h[i][j]
    ensures g == h
  {
    forall i | 0 <= i < |g|
      ensures g[i] == h[i]
    {
    }
  }

  /** The `.copy()` of the decoded depth image: a new array with the same pixels. */
  method CopyDepth(src: array2<Pixel>) returns (dst: array2<Pixel>)
    ensures fresh(dst)
    ensures dst.Length0 == src.Length0 && dst.Length1 == src.Length1
    ensures Snapshot(dst) == Snapshot(src)
  {
    dst := new Pixel[src.Length0, src.Length1];
    for i := 0 to src.Length0
      invariant forall r, c :: 0 <= r < i && 0 <= c < src.Length1 ==> dst[r, c] == src[r, c]
    {
      for j := 0 to src.Length1
        invariant forall r, c :: 0 <= r < i && 0 <= c < src.Length1 ==> dst[r, c] == src[r, c]
        invariant forall c :: 0 <= c < j ==> dst[i, c] == src[i, c]
      {
        dst[i, j] := src[i, j];
      }
    }
    GridsEqual(Snapshot(dst), Snapshot(src));
  }

  /** `image_depth[np.isnan(image_depth)] = 0.`: every NaN pixel of the array
      becomes 0 in place, every other pixel keeps its value. */
  method ZeroNaN(a: array2<Pixel>)
    modifies a
    ensures forall i, j :: 0 <= i < a.Length0 && 0 <= j < a.Length1 ==> a[i, j] == Sanitize(old(a[i, j]))
    ensures Snapshot(a) == CleanGrid(old(Snapshot(a)))
  {
    ghost var before := Snapshot(a);
    for i := 0 to a.Length0
      invariant forall r, c :: 0 <= r < i && 0 <= c < a.Length1 ==> a[r, c] == Sanitize(old(a[r, c]))
      invariant forall r, c :: i <= r < a.Length0 && 0 <= c < a.Length1 ==> a[r, c] == old(a[r, c])
    {
      for j := 0 to a.Length1
        invariant forall r, c :: 0 <= r < i && 0 <= c < a.Length1 ==> a[r, c] == Sanitize(old(a[r, c]))
        invariant forall c :: 0 <= c < j ==> a[i, c] == Sanitize(old(a[i, c]))
        invariant forall r, c :: i <= r < a.Length0 && 0 <= c < a.Length1 && (r > i || c >= j) ==> a[r, c] == old(a[r, c])
      {
        if a[i, j].NaN? {
          a[i, j] := Val(0.0);
        }
      }
    }
    GridsEqual(Snapshot(a), CleanGrid(before));
  }
}
