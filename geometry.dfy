/**
 Points in the plane and the row-major grids both components build:
 the lattice sampler's list of all candidate centres and the boundary
 extractor's 5 x 5 mesh per obstacle are the same shape, a Cartesian
 product listed with the x coordinate as the outer index and the y
 coordinate as the inner one.
 */
module Geometry {

  /** A planar coordinate pair, `(x, y)` in the source. Coordinates are exact reals. */
  datatype Point = Point(x: real, y: real)

  /** No element occurs twice. */
  predicate Distinct<T(==)>(s: seq<T>) {
    forall i, j :: 0 <= i < j < |s| ==> s[i] != s[j]
  }

  /** The points `(x, ys[0]), ..., (x, ys[|ys|-1])`: one x value with every y. */
  function Row(x: real, ys: seq<real>): seq<Point> {
    seq(|ys|, j requires 0 <= j < |ys| => Point(x, ys[j]))
  }

  /** Every pair `(xs[i], ys[j])`, x outer and y inner: row 0 first, then row 1, ... */
  function Grid(xs: seq<real>, ys: seq<real>): seq<Point>
    decreases |xs|
  {
    if xs == [] then [] else Grid(xs[..|xs| - 1], ys) + Row(xs[|xs| - 1], ys)
  }

  lemma {:induction false} GridLength(xs: seq<real>, ys: seq<real>)
    ensures |Grid(xs, ys)| == |xs| * |ys|
    decreases |xs|
  {
    if xs != [] {
      GridLength(xs[..|xs| - 1], ys);
      assert |xs| * |ys| == (|xs| - 1) * |ys| + |ys|;
    }
  }

  /** Row-major layout: the pair `(xs[i], ys[j])` sits at index `i * |ys| + j`. */
  lemma {:induction false} GridAt(xs: seq<real>, ys: seq<real>, i: int, j: int)
    requires 0 <= i < |xs| && 0 <= j < |ys|
    ensures |Grid(xs, ys)| == |xs| * |ys|
    ensures i * |ys| + j < |xs| * |ys|
    ensures Grid(xs, ys)[i * |ys| + j] == Point(xs[i], ys[j])
    decreases |xs|
  {
    GridLength(xs, ys);
    var front := xs[..|xs| - 1];
    GridLength(front, ys);
    assert i * |ys| + j < (i + 1) * |ys| <= |xs| * |ys| by {
      assert (i + 1) * |ys| == i * |ys| + |ys|;
      assert |xs| * |ys| - (i + 1) * |ys| == (|xs| - (i + 1)) * |ys|;
    }
    if i == |xs| - 1 {
      assert Grid(xs, ys)[i * |ys| + j] == Row(xs[i], ys)[j];
    } else {
      GridAt(front, ys, i, j);
      assert i * |ys| + j < |front| * |ys| by {
        assert (i + 1) * |ys| <= |front| * |ys| by {
          assert |front| * |ys| - (i + 1) * |ys| == (|front| - (i + 1)) * |ys|;
        }
      }
      assert Grid(xs, ys)[i * |ys| + j] == Grid(front, ys)[i * |ys| + j];
    }
  }

  /** A point is in the grid exactly when its x is one of `xs` and its y one of `ys`. */
  lemma {:induction false} GridMember(xs: seq<real>, ys: seq<real>, p: Point)
    ensures p in Grid(xs, ys) <==> p.x in xs && p.y in ys
    decreases |xs|
  {
    if xs != [] {
      var front := xs[..|xs| - 1];
      GridMember(front, ys, p);
      assert xs == front + [xs[|xs| - 1]];
      assert p in Row(xs[|xs| - 1], ys) <==> p.x == xs[|xs| - 1] && p.y in ys by {
        if p.x == xs[|xs| - 1] && p.y in ys {
          var j :| 0 <= j < |ys| && ys[j] == p.y;
          assert Row(xs[|xs| - 1], ys)[j] == p;
        }
      }
    }
  }

  lemma DistinctConcat<T>(a: seq<T>, b: seq<T>)
    requires Distinct(a) && Distinct(b)
    requires forall p :: p in a ==> p !in b
    ensures Distinct(a + b)
  {
    forall i, j | 0 <= i < j < |a + b|
      ensures (a + b)[i] != (a + b)[j]
    {
      if i < |a| && j >= |a| {
        assert (a + b)[i] in a && (a + b)[j] in b;
      }
    }
  }

  /** Distinct coordinates on both axes give a grid with no repeated point. */
  lemma {:induction false} GridDistinct(xs: seq<real>, ys: seq<real>)
    requires Distinct(xs) && Distinct(ys)
    ensures Distinct(Grid(xs, ys))
    decreases |xs|
  {
    if xs != [] {
      var front := xs[..|xs| - 1];
      var last := xs[|xs| - 1];
      assert Distinct(front);
      GridDistinct(front, ys);
      forall p | p in Grid(front, ys)
        ensures p !in Row(last, ys)
      {
        GridMember(front, ys, p);
        var k :| 0 <= k < |front| && front[k] == p.x;
        assert xs[k] != xs[|xs| - 1];
      }
      DistinctConcat(Grid(front, ys), Row(last, ys));
    }
  }
}
