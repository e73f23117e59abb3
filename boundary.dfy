/**
 The boundary extractor of `obstacle_array.py`, `object_placement`: each
 obstacle's centre and half-extents span a 5 x 5 mesh (`np.mgrid` with the
 complex step `5j`, both end points included); a candidate is kept when it
 lies on or outside at least one of the rectangle's four bounds, and the
 kept points of all obstacles are stacked into one array.

 Coordinates are exact reals, so the mask comparisons are exact.
 */
module Boundary {
  import opened Geometry

  /** `num_markers = 5j`: five mesh points per axis. */
  const NumMarkers: nat := 5

  /** `padding = 0`. */
  const Padding: real := 0.0

  /**
   One obstacle as the scene parser hands it over: its position and size
   rows.  Only the first two components of each are read.
   */
  datatype Obstacle = Obstacle(pos: seq<real>, size: seq<real>)

  predicate WellFormed(o: Obstacle) {
    |o.pos| >= 2 && |o.size| >= 2
  }

  // ---------------------------------------------------------------------
  // One obstacle
  // ---------------------------------------------------------------------

  /** `np.mgrid[lo:hi:5j]` along one axis: five evenly spaced values from `lo` to `hi`. */
  function MarkerAxis(lo: real, hi: real): (c: seq<real>)
    ensures |c| == NumMarkers
    ensures c[0] == lo && c[NumMarkers - 1] == hi
  {
    seq(NumMarkers, k => lo + (k as real) * (hi - lo) / ((NumMarkers - 1) as real))
  }

  /**
   For `lo < hi` the three inner values lie strictly between the ends; for
   `hi <= lo` every value lies in `[hi, lo]`.
   */
  lemma MarkerAxisOrder(lo: real, hi: real)
    ensures lo < hi ==> forall k :: 0 < k < NumMarkers - 1 ==> lo < MarkerAxis(lo, hi)[k] < hi
    ensures hi <= lo ==> forall k :: 0 <= k < NumMarkers ==> hi <= MarkerAxis(lo, hi)[k] <= lo
  {
    var c := MarkerAxis(lo, hi);
    var d := (hi - lo) / 4.0;
    assert c[1] == lo + d && c[2] == lo + 2.0 * d && c[3] == lo + 3.0 * d;
  }

  /** The mesh values along x: from `px - sx - padding` to `px + sx + padding`. */
  function XAxis(o: Obstacle): seq<real>
    requires WellFormed(o)
  {
    MarkerAxis(o.pos[0] - o.size[0] - Padding, o.pos[0] + o.size[0] + Padding)
  }

  /** The mesh values along y. */
  function YAxis(o: Obstacle): seq<real>
    requires WellFormed(o)
  {
    MarkerAxis(o.pos[1] - o.size[1] - Padding, o.pos[1] + o.size[1] + Padding)
  }

  /** The 25 candidates, flattened row-major as boolean indexing flattens them. */
  function CandidateGrid(o: Obstacle): seq<Point>
    requires WellFormed(o)
  {
    Grid(XAxis(o), YAxis(o))
  }

  /** The mask: on or outside at least one of the four bounds. */
  predicate Kept(o: Obstacle, p: Point)
    requires WellFormed(o)
  {
    p.x <= o.pos[0] - o.size[0] || p.x >= o.pos[0] + o.size[0] ||
    p.y <= o.pos[1] - o.size[1] || p.y >= o.pos[1] + o.size[1]
  }

  /** Strictly inside the rectangle on both axes. */
  predicate StrictlyInterior(o: Obstacle, p: Point)
    requires WellFormed(o)
  {
    o.pos[0] - o.size[0] < p.x < o.pos[0] + o.size[0] &&
    o.pos[1] - o.size[1] < p.y < o.pos[1] + o.size[1]
  }

  /** `x[mask]`, `y[mask]`: the kept candidates, in their original order. */
  function KeepMask(o: Obstacle, s: seq<Point>): (r: seq<Point>)
    requires WellFormed(o)
    ensures |r| <= |s|
    ensures forall p :: p in r <==> p in s && !StrictlyInterior(o, p)
    decreases |s|
  {
    if s == [] then []
    else (if Kept(o, s[0]) then [s[0]] else []) + KeepMask(o, s[1..])
  }

  lemma {:induction false} KeepMaskConcat(o: Obstacle, a: seq<Point>, b: seq<Point>)
    requires WellFormed(o)
    ensures KeepMask(o, a + b) == KeepMask(o, a) + KeepMask(o, b)
    decreases |a|
  {
    if a != [] {
      assert (a + b)[1..] == a[1..] + b;
      KeepMaskConcat(o, a[1..], b);
    } else {
      assert a + b == b;
    }
  }

  lemma {:induction false} KeepMaskAll(o: Obstacle, s: seq<Point>)
    requires WellFormed(o)
    requires forall p :: p in s ==> Kept(o, p)
    ensures KeepMask(o, s) == s
    decreases |s|
  {
    if s != [] {
      assert s[0] in s;
      KeepMaskAll(o, s[1..]);
    }
  }

  /**
   `obj_temp` for one obstacle (before rounding): exactly the candidates
   that are not strictly inside the rectangle.
   */
  function ObstacleBoundary(o: Obstacle): (r: seq<Point>)
    requires WellFormed(o)
    ensures forall p :: p in r <==> p in CandidateGrid(o) && !StrictlyInterior(o, p)
  {
    KeepMask(o, CandidateGrid(o))
  }

  /**
   The mesh spans exactly `[px - sx, px + sx] x [py - sy, py + sy]`: its
   first and last values on each axis are the rectangle's bounds, and the
   corners sit at flat indices 0, 4, 20 and 24.
   */
  lemma CandidateExtremes(o: Obstacle)
    requires WellFormed(o)
    ensures |CandidateGrid(o)| == NumMarkers * NumMarkers
    ensures XAxis(o)[0] == o.pos[0] - o.size[0] && XAxis(o)[NumMarkers - 1] == o.pos[0] + o.size[0]
    ensures YAxis(o)[0] == o.pos[1] - o.size[1] && YAxis(o)[NumMarkers - 1] == o.pos[1] + o.size[1]
    ensures CandidateGrid(o)[0] == Point(o.pos[0] - o.size[0], o.pos[1] - o.size[1])
    ensures CandidateGrid(o)[4] == Point(o.pos[0] - o.size[0], o.pos[1] + o.size[1])
    ensures CandidateGrid(o)[20] == Point(o.pos[0] + o.size[0], o.pos[1] - o.size[1])
    ensures CandidateGrid(o)[24] == Point(o.pos[0] + o.size[0], o.pos[1] + o.size[1])
  {
    var xs, ys := XAxis(o), YAxis(o);
    GridAt(xs, ys, 0, 0);
    GridAt(xs, ys, 0, 4);
    GridAt(xs, ys, 4, 0);
    GridAt(xs, ys, 4, 4);
  }

  /**
   With both half-extents positive the mask reduces to an index condition:
   the candidate `(i, j)` is kept iff `i` or `j` is 0 or 4.
   */
  lemma KeptIffEdgeIndex(o: Obstacle, i: int, j: int)
    requires WellFormed(o) && o.size[0] > 0.0 && o.size[1] > 0.0
    requires 0 <= i < NumMarkers && 0 <= j < NumMarkers
    ensures Kept(o, Point(XAxis(o)[i], YAxis(o)[j])) <==> i == 0 || i == 4 || j == 0 || j == 4
  {
    MarkerAxisOrder(o.pos[0] - o.size[0], o.pos[0] + o.size[0]);
    MarkerAxisOrder(o.pos[1] - o.size[1], o.pos[1] + o.size[1]);
  }

  /** A grid of five rows is the concatenation of those rows. */
  lemma GridOfFive(xs: seq<real>, ys: seq<real>)
    requires |xs| == 5
    ensures Grid(xs, ys) == Row(xs[0], ys) + Row(xs[1], ys) + Row(xs[2], ys) + Row(xs[3], ys) + Row(xs[4], ys)
  {
    assert xs[..5] == xs;
    assert xs[..4][..3] == xs[..3] && xs[..3][..2] == xs[..2] && xs[..2][..1] == xs[..1];
    assert xs[..1][..0] == [];
    assert Grid(xs[..1], ys) == Row(xs[0], ys);
    assert Grid(xs[..2], ys) == Grid(xs[..1], ys) + Row(xs[1], ys);
    assert Grid(xs[..3], ys) == Grid(xs[..2], ys) + Row(xs[2], ys);
    assert Grid(xs[..4], ys) == Grid(xs[..3], ys) + Row(xs[3], ys);
    assert Grid(xs, ys) == Grid(xs[..4], ys) + Row(xs[4], ys);
  }

  /** In a row strictly inside on x only the two end candidates survive. */
  lemma InnerRow(o: Obstacle, x: real)
    requires WellFormed(o) && o.size[0] > 0.0 && o.size[1] > 0.0
    requires o.pos[0] - o.size[0] < x < o.pos[0] + o.size[0]
    ensures KeepMask(o, Row(x, YAxis(o))) == [Point(x, YAxis(o)[0]), Point(x, YAxis(o)[4])]
  {
    var ys := YAxis(o);
    MarkerAxisOrder(o.pos[1] - o.size[1], o.pos[1] + o.size[1]);
    var p0, p1, p2, p3, p4 := Point(x, ys[0]), Point(x, ys[1]), Point(x, ys[2]), Point(x, ys[3]), Point(x, ys[4]);
    assert Row(x, ys) == [p0, p1, p2, p3, p4];
    assert Kept(o, p0) && !Kept(o, p1) && !Kept(o, p2) && !Kept(o, p3) && Kept(o, p4);
    assert KeepMask(o, [p4]) == [p4] by {
      assert [p4][1..] == [];
    }
    assert KeepMask(o, [p3, p4]) == [p4] by {
      assert [p3, p4][1..] == [p4];
    }
    assert KeepMask(o, [p2, p3, p4]) == [p4] by {
      assert [p2, p3, p4][1..] == [p3, p4];
    }
    assert KeepMask(o, [p1, p2, p3, p4]) == [p4] by {
      assert [p1, p2, p3, p4][1..] == [p2, p3, p4];
    }
    assert KeepMask(o, [p0, p1, p2, p3, p4]) == [p0, p4] by {
      assert [p0, p1, p2, p3, p4][1..] == [p1, p2, p3, p4];
    }
  }

  /** A row on one of the x bounds is kept whole. */
  lemma EdgeRow(o: Obstacle, x: real)
    requires WellFormed(o)
    requires x <= o.pos[0] - o.size[0] || x >= o.pos[0] + o.size[0]
    ensures KeepMask(o, Row(x, YAxis(o))) == Row(x, YAxis(o))
  {
    KeepMaskAll(o, Row(x, YAxis(o)));
  }

  /**
   The 16 points a rectangle with positive half-extents keeps, row-major:
   the whole first and last rows and the two end points of the three
   rows between them.
   */
  function Ring(xs: seq<real>, ys: seq<real>): seq<Point>
    requires |xs| == 5 && |ys| == 5
  {
    Row(xs[0], ys)
    + [Point(xs[1], ys[0]), Point(xs[1], ys[4]),
       Point(xs[2], ys[0]), Point(xs[2], ys[4]),
       Point(xs[3], ys[0]), Point(xs[3], ys[4])]
    + Row(xs[4], ys)
  }

  /** Positive half-extents: the 9 inner candidates are dropped, the 16 on the border kept in order. */
  lemma BoundaryIsRing(o: Obstacle)
    requires WellFormed(o) && o.size[0] > 0.0 && o.size[1] > 0.0
    ensures ObstacleBoundary(o) == Ring(XAxis(o), YAxis(o))
    ensures |ObstacleBoundary(o)| == 16
  {
    var xs, ys := XAxis(o), YAxis(o);
    MarkerAxisOrder(o.pos[0] - o.size[0], o.pos[0] + o.size[0]);
    GridOfFive(xs, ys);
    var r0, r1, r2, r3, r4 := Row(xs[0], ys), Row(xs[1], ys), Row(xs[2], ys), Row(xs[3], ys), Row(xs[4], ys);
    KeepMaskConcat(o, r0 + r1 + r2 + r3, r4);
    KeepMaskConcat(o, r0 + r1 + r2, r3);
    KeepMaskConcat(o, r0 + r1, r2);
    KeepMaskConcat(o, r0, r1);
    EdgeRow(o, xs[0]);
    EdgeRow(o, xs[4]);
    InnerRow(o, xs[1]);
    InnerRow(o, xs[2]);
    InnerRow(o, xs[3]);
  }

  /**
   A zero (or negative) half-extent makes the non-strict bound on that axis
   hold for every candidate, so all 25 are kept.
   */
  lemma BoundaryDegenerate(o: Obstacle)
    requires WellFormed(o) && (o.size[0] <= 0.0 || o.size[1] <= 0.0)
    ensures ObstacleBoundary(o) == CandidateGrid(o)
    ensures |ObstacleBoundary(o)| == 25
  {
    var xs, ys := XAxis(o), YAxis(o);
    MarkerAxisOrder(o.pos[0] - o.size[0], o.pos[0] + o.size[0]);
    MarkerAxisOrder(o.pos[1] - o.size[1], o.pos[1] + o.size[1]);
    forall p | p in CandidateGrid(o)
      ensures Kept(o, p)
    {
      GridMember(xs, ys, p);
    }
    KeepMaskAll(o, CandidateGrid(o));
    GridLength(xs, ys);
  }

  /** How many points one obstacle contributes. */
  function KeptCount(o: Obstacle): nat
    requires WellFormed(o)
  {
    if o.size[0] > 0.0 && o.size[1] > 0.0 then 16 else 25
  }

  /** Per obstacle: 16 points for positive half-extents, otherwise all 25. */
  lemma BoundaryCount(o: Obstacle)
    requires WellFormed(o)
    ensures |ObstacleBoundary(o)| == KeptCount(o)
  {
    if o.size[0] > 0.0 && o.size[1] > 0.0 {
      BoundaryIsRing(o);
    } else {
      BoundaryDegenerate(o);
    }
  }

  /**
   A unit half-extent obstacle at the origin: the mesh is {-1, -0.5, 0, 0.5, 1}
   on both axes and the whole 3 x 3 inner block, (0.5, 0.5) as much as (0, 0),
   is dropped, leaving 16 points.  With the x half-extent 0 all 25 stay.
   */
  lemma UnitSquareExample(z: real)
    ensures XAxis(Obstacle([0.0, 0.0, z], [1.0, 1.0, z])) == [-1.0, -0.5, 0.0, 0.5, 1.0]
    ensures |ObstacleBoundary(Obstacle([0.0, 0.0, z], [1.0, 1.0, z]))| == 16
    ensures Point(0.0, 0.0) !in ObstacleBoundary(Obstacle([0.0, 0.0, z], [1.0, 1.0, z]))
    ensures Point(0.5, 0.5) !in ObstacleBoundary(Obstacle([0.0, 0.0, z], [1.0, 1.0, z]))
    ensures Point(1.0, 0.5) in ObstacleBoundary(Obstacle([0.0, 0.0, z], [1.0, 1.0, z]))
    ensures |ObstacleBoundary(Obstacle([0.0, 0.0, z], [0.0, 1.0, z]))| == 25
  {
    var o := Obstacle([0.0, 0.0, z], [1.0, 1.0, z]);
    BoundaryIsRing(o);
    var xs := XAxis(o);
    assert xs == [-1.0, -0.5, 0.0, 0.5, 1.0];
    GridMember(xs, YAxis(o), Point(1.0, 0.5));
    BoundaryDegenerate(Obstacle([0.0, 0.0, z], [0.0, 1.0, z]));
  }

  /** The rectangle's four corners `(px +- sx, py +- sy)` are always kept. */
  lemma CornersKept(o: Obstacle)
    requires WellFormed(o)
    ensures Point(o.pos[0] - o.size[0], o.pos[1] - o.size[1]) in ObstacleBoundary(o)
    ensures Point(o.pos[0] - o.size[0], o.pos[1] + o.size[1]) in ObstacleBoundary(o)
    ensures Point(o.pos[0] + o.size[0], o.pos[1] - o.size[1]) in ObstacleBoundary(o)
    ensures Point(o.pos[0] + o.size[0], o.pos[1] + o.size[1]) in ObstacleBoundary(o)
  {
    CandidateExtremes(o);
  }

  /** Only the x and y components of position and size matter; z is ignored. */
  lemma PlanarOnly(o1: Obstacle, o2: Obstacle)
    requires WellFormed(o1) && WellFormed(o2)
    requires o1.pos[..2] == o2.pos[..2] && o1.size[..2] == o2.size[..2]
    ensures ObstacleBoundary(o1) == ObstacleBoundary(o2)
  {
    assert o1.pos[0] == o1.pos[..2][0] && o1.pos[1] == o1.pos[..2][1];
    assert o2.pos[0] == o2.pos[..2][0] && o2.pos[1] == o2.pos[..2][1];
    assert o1.size[0] == o1.size[..2][0] && o1.size[1] == o1.size[..2][1];
    assert o2.size[0] == o2.size[..2][0] && o2.size[1] == o2.size[..2][1];
    assert XAxis(o1) == XAxis(o2) && YAxis(o1) == YAxis(o2);
    assert forall p :: Kept(o1, p) == Kept(o2, p);
    KeepMaskSame(o1, o2, CandidateGrid(o1));
  }

  lemma {:induction false} KeepMaskSame(o1: Obstacle, o2: Obstacle, s: seq<Point>)
    requires WellFormed(o1) && WellFormed(o2)
    requires forall p :: Kept(o1, p) == Kept(o2, p)
    ensures KeepMask(o1, s) == KeepMask(o2, s)
    decreases |s|
  {
    if s != [] {
      KeepMaskSame(o1, o2, s[1..]);
    }
  }

  // ---------------------------------------------------------------------
  // All obstacles
  // ---------------------------------------------------------------------

  predicate AllWellFormed(obs: seq<Obstacle>) {
    forall k :: 0 <= k < |obs| ==> WellFormed(obs[k])
  }

  /** `np.vstack` of a list of point arrays: their concatenation in list order. */
  function Flatten(groups: seq<seq<Point>>): seq<Point>
    decreases |groups|
  {
    if groups == [] then [] else Flatten(groups[..|groups| - 1]) + groups[|groups| - 1]
  }

  /** The per-obstacle arrays `obj_temp`, one per obstacle, in obstacle order. */
  function Groups(obs: seq<Obstacle>): seq<seq<Point>>
    requires AllWellFormed(obs)
  {
    seq(|obs|, k requires 0 <= k < |obs| => ObstacleBoundary(obs[k]))
  }

  /** The value `object_placement` returns (before rounding). */
  function PointCloud(obs: seq<Obstacle>): seq<Point>
    requires AllWellFormed(obs)
  {
    Flatten(Groups(obs))
  }

  /** Sum of the per-obstacle counts. */
  function TotalCount(obs: seq<Obstacle>): nat
    requires AllWellFormed(obs)
    decreases |obs|
  {
    if obs == [] then 0 else TotalCount(obs[..|obs| - 1]) + KeptCount(obs[|obs| - 1])
  }

  lemma GroupsPrefix(obs: seq<Obstacle>, k: nat)
    requires AllWellFormed(obs) && k <= |obs|
    ensures AllWellFormed(obs[..k])
    ensures Groups(obs)[..k] == Groups(obs[..k])
  {
  }

  /** Group `k` starts right after the points of the groups before it. */
  lemma {:induction false} FlattenAt(groups: seq<seq<Point>>, k: nat, t: nat)
    requires k < |groups| && t < |groups[k]|
    ensures |Flatten(groups[..k])| + t < |Flatten(groups)|
    ensures Flatten(groups)[|Flatten(groups[..k])| + t] == groups[k][t]
    decreases |groups|
  {
    var front := groups[..|groups| - 1];
    if k == |groups| - 1 {
      assert groups[..k] == front;
    } else {
      assert front[..k] == groups[..k];
      FlattenAt(front, k, t);
    }
  }

  /** The stacked array holds the sum of the per-obstacle counts. */
  lemma {:induction false} CloudLength(obs: seq<Obstacle>)
    requires AllWellFormed(obs)
    ensures |PointCloud(obs)| == TotalCount(obs)
    decreases |obs|
  {
    if obs != [] {
      var front := obs[..|obs| - 1];
      CloudLength(front);
      GroupsPrefix(obs, |obs| - 1);
      assert Groups(obs)[..|obs| - 1] == Groups(front);
      BoundaryCount(obs[|obs| - 1]);
    }
  }

  /**
   Obstacle `k`'s kept points appear, in order, starting at the sum of the
   counts of the obstacles before it; none of them is strictly inside
   obstacle `k`.
   */
  lemma CloudGroupAt(obs: seq<Obstacle>, k: nat, t: nat)
    requires AllWellFormed(obs) && k < |obs| && t < KeptCount(obs[k])
    ensures AllWellFormed(obs[..k])
    ensures |ObstacleBoundary(obs[k])| == KeptCount(obs[k])
    ensures TotalCount(obs[..k]) + t < |PointCloud(obs)|
    ensures PointCloud(obs)[TotalCount(obs[..k]) + t] == ObstacleBoundary(obs[k])[t]
    ensures !StrictlyInterior(obs[k], PointCloud(obs)[TotalCount(obs[..k]) + t])
  {
    BoundaryCount(obs[k]);
    GroupsPrefix(obs, k);
    CloudLength(obs[..k]);
    FlattenAt(Groups(obs), k, t);
    assert ObstacleBoundary(obs[k])[t] in ObstacleBoundary(obs[k]);
  }

  /** With positive half-extents throughout, every obstacle contributes exactly 16 points. */
  lemma {:induction false} CloudLengthRegular(obs: seq<Obstacle>)
    requires AllWellFormed(obs)
    requires forall k :: 0 <= k < |obs| ==> obs[k].size[0] > 0.0 && obs[k].size[1] > 0.0
    ensures |PointCloud(obs)| == 16 * |obs|
    decreases |obs|
  {
    CloudLength(obs);
    if obs != [] {
      var front := obs[..|obs| - 1];
      CloudLengthRegular(front);
      CloudLength(front);
    }
  }

  /**
   `object_placement`: for each obstacle in turn append its kept points,
   then stack the list.  `np.vstack` of an empty list raises, hence at
   least one obstacle.
   */
  method ObjectPlacement(obstacles: seq<Obstacle>) returns (objArr: seq<Point>)
    requires |obstacles| > 0
    requires AllWellFormed(obstacles)
    ensures objArr == PointCloud(obstacles)
    ensures |objArr| == TotalCount(obstacles)
  {
    var groups: seq<seq<Point>> := [];
    for i := 0 to |obstacles|
      invariant AllWellFormed(obstacles[..i])
      invariant groups == Groups(obstacles[..i])
    {
      var objTemp := ObstacleBoundary(obstacles[i]);
      groups := groups + [objTemp];
      assert obstacles[..i + 1][..i] == obstacles[..i];
    }
    assert obstacles[..|obstacles|] == obstacles;
    objArr := Flatten(groups);
    CloudLength(obstacles);
  }
}
