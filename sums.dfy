/** Running sums over price and volume columns, shared by the VWAP computations. */
module Sums {

  /** Sum of a column, accumulated from the first element to the last. */
  function Sum(xs: seq<real>): real
  {
    if xs == [] then 0.0 else Sum(xs[..|xs| - 1]) + xs[|xs| - 1]
  }

  /** The column of products `ps[i] * ws[i]` (price times volume). */
  function Products(ps: seq<real>, ws: seq<real>): (r: seq<real>)
    requires |ps| == |ws|
    ensures |r| == |ps| && forall i :: 0 <= i < |ps| ==> r[i] == ps[i] * ws[i]
  {
    seq(|ps|, i requires 0 <= i < |ps| => ps[i] * ws[i])
  }

  /** Sum of the products `ps[i] * ws[i]`. */
  function Dot(ps: seq<real>, ws: seq<real>): real
    requires |ps| == |ws|
  {
    Sum(Products(ps, ws))
  }

  /** The column `c * ws[i]`. */
  function Scaled(c: real, ws: seq<real>): (r: seq<real>)
    ensures |r| == |ws| && forall i :: 0 <= i < |ws| ==> r[i] == c * ws[i]
  {
    seq(|ws|, i requires 0 <= i < |ws| => c * ws[i])
  }

  ghost predicate NonNegative(ws: seq<real>)
  {
    forall i :: 0 <= i < |ws| ==> ws[i] >= 0.0
  }

  ghost predicate Between(ps: seq<real>, lo: real, hi: real)
  {
    forall i :: 0 <= i < |ps| ==> lo <= ps[i] <= hi
  }

  lemma ScaleMono(a: real, b: real, c: real)
    requires a <= b && c >= 0.0
    ensures a * c <= b * c
  {
  }

  /** A sum of non-negative weights is non-negative. */
  lemma {:induction false} SumNonNegative(ws: seq<real>)
    requires NonNegative(ws)
    ensures Sum(ws) >= 0.0
  {
    if ws != [] {
      SumNonNegative(ws[..|ws| - 1]);
    }
  }

  lemma Distribute(a: real, b: real, c: real)
    ensures a * (b + c) == a * b + a * c
  {
  }

  /** Summing is monotone, element by element. */
  lemma {:induction false} SumMono(xs: seq<real>, ys: seq<real>)
    requires |xs| == |ys| && forall i :: 0 <= i < |xs| ==> xs[i] <= ys[i]
    ensures Sum(xs) <= Sum(ys)
  {
    if xs != [] {
      var n := |xs| - 1;
      SumMono(xs[..n], ys[..n]);
    }
  }

  /** A common factor comes out of a sum. */
  lemma {:induction false} SumScaled(c: real, ws: seq<real>)
    ensures Sum(Scaled(c, ws)) == c * Sum(ws)
  {
    if ws != [] {
      var n := |ws| - 1;
      forall i | 0 <= i < n
        ensures Scaled(c, ws)[..n][i] == Scaled(c, ws[..n])[i]
      {
        assert ws[..n][i] == ws[i];
      }
      assert Scaled(c, ws)[..n] == Scaled(c, ws[..n]);
      SumScaled(c, ws[..n]);
      Distribute(c, Sum(ws[..n]), ws[n]);
    }
  }

  /** Each product lies between the weight scaled by either bound. */
  lemma ProductsBetween(ps: seq<real>, ws: seq<real>, lo: real, hi: real)
    requires |ps| == |ws| && NonNegative(ws) && Between(ps, lo, hi)
    ensures forall i :: 0 <= i < |ps| ==> Scaled(lo, ws)[i] <= Products(ps, ws)[i] <= Scaled(hi, ws)[i]
  {
    forall i | 0 <= i < |ps|
      ensures Scaled(lo, ws)[i] <= Products(ps, ws)[i] <= Scaled(hi, ws)[i]
    {
      ScaleMono(lo, ps[i], ws[i]);
      ScaleMono(ps[i], hi, ws[i]);
    }
  }

  lemma ProductsConstant(ps: seq<real>, ws: seq<real>, c: real)
    requires |ps| == |ws| && Between(ps, c, c)
    ensures Products(ps, ws) == Scaled(c, ws)
  {
    forall i | 0 <= i < |ps|
      ensures Products(ps, ws)[i] == Scaled(c, ws)[i]
    {
      assert ps[i] == c;
    }
  }

  /** With non-negative weights, the weighted sum lies between the smallest and
      the largest price times the total weight. */
  lemma DotBounds(ps: seq<real>, ws: seq<real>, lo: real, hi: real)
    requires |ps| == |ws| && NonNegative(ws) && Between(ps, lo, hi)
    ensures lo * Sum(ws) <= Dot(ps, ws) <= hi * Sum(ws)
  {
    ProductsBetween(ps, ws, lo, hi);
    SumMono(Scaled(lo, ws), Products(ps, ws));
    SumMono(Products(ps, ws), Scaled(hi, ws));
    SumScaled(lo, ws);
    SumScaled(hi, ws);
  }

  /** When every price is `c`, the weighted sum is `c` times the total weight. */
  lemma DotConstant(ps: seq<real>, ws: seq<real>, c: real)
    requires |ps| == |ws| && Between(ps, c, c)
    ensures Dot(ps, ws) == c * Sum(ws)
  {
    ProductsConstant(ps, ws, c);
    SumScaled(c, ws);
  }

  lemma DivideBounds(d: real, s: real, lo: real, hi: real)
    requires s > 0.0
    ensures lo * s <= d ==> lo <= d / s
    ensures d <= hi * s ==> d / s <= hi
  {
    var q := d / s;
    assert d == q * s;
  }

  /** Dividing the bounds of DotBounds by a positive total weight: a weighted
      mean lies between the smallest and the largest price. */
  lemma MeanBounds(ps: seq<real>, ws: seq<real>, lo: real, hi: real)
    requires |ps| == |ws| && NonNegative(ws) && Between(ps, lo, hi) && Sum(ws) > 0.0
    ensures lo <= Dot(ps, ws) / Sum(ws) <= hi
  {
    DotBounds(ps, ws, lo, hi);
    DivideBounds(Dot(ps, ws), Sum(ws), lo, hi);
  }

  lemma SumAppend(xs: seq<real>, x: real)
    ensures Sum(xs + [x]) == Sum(xs) + x
  {
    assert (xs + [x])[..|xs|] == xs;
  }

  lemma DotAppend(ps: seq<real>, ws: seq<real>, p: real, w: real)
    requires |ps| == |ws|
    ensures Dot(ps + [p], ws + [w]) == Dot(ps, ws) + p * w
  {
    var a, b := ps + [p], ws + [w];
    forall i | 0 <= i < |a|
      ensures Products(a, b)[i] == (Products(ps, ws) + [p * w])[i]
    {
      if i < |ps| {
        assert a[i] == ps[i] && b[i] == ws[i];
      } else {
        assert a[i] == p && b[i] == w;
      }
    }
    assert Products(a, b) == Products(ps, ws) + [p * w];
    SumAppend(Products(ps, ws), p * w);
  }
}
