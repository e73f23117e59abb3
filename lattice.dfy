/**
 The lattice sampler of `mujoco_xml_creator.py`: `random_2d_coordinates`
 draws obstacle centres without replacement from a square lattice centred
 on the origin, and the script then drops the one centre that sits on the
 robot's start position.

 The Python `random.randint` calls are replaced by an oracle: a sequence
 of indices supplied by the caller, one per draw, each within the range
 that `randint(0, len(crd_all) - 1)` could return at that step.
 */
module Lattice {
  import opened Geometry

  datatype Option<T> = None | Some(value: T)

  // ---------------------------------------------------------------------
  // Points per axis and the 1-D coordinates
  // ---------------------------------------------------------------------

  /** Python's `int(r)` on a float: truncation toward zero. */
  function TruncToInt(r: real): (t: int)
    ensures 0.0 <= r ==> t as real <= r < t as real + 1.0
    ensures r < 0.0 ==> t as real - 1.0 < r <= t as real
  {
    if r >= 0.0 then r.Floor else -((-r).Floor)
  }

  /**
   `pts_qty` after the parity adjustment: `int(length / height) + 1`, made
   odd by subtracting one when it is even.  The two ensures determine the
   result: it is odd and lies in `[raw - 1, raw]`.
   */
  function AxisCount(length: real, height: real): (n: int)
    requires height != 0.0
    ensures n % 2 == 1
    ensures n <= TruncToInt(length / height) + 1 <= n + 1
  {
    var raw := TruncToInt(length / height) + 1;
    if raw % 2 == 0 then raw - 1 else raw
  }

  /**
   `pts_1d`: `range(n)` shifted by `(n - 1) / 2` (a float division in the
   source) and scaled by `height`.  A non-positive `n` gives `range(n) == []`.
   */
  function AxisCoords(n: int, height: real): seq<real> {
    seq(if n > 0 then n else 0, k => height * (k as real - (n - 1) as real / 2.0))
  }

  /** The 1-D coordinates of the lattice with side `length` and spacing `height`. */
  function LatticeCoords(length: real, height: real): seq<real>
    requires height != 0.0
  {
    AxisCoords(AxisCount(length, height), height)
  }

  /** `crd_all`: every lattice point, x outer and y inner. */
  function LatticeGrid(length: real, height: real): seq<Point>
    requires height != 0.0
  {
    Grid(LatticeCoords(length, height), LatticeCoords(length, height))
  }

  /** For an odd count the offset `(n - 1) / 2` is whole and coordinate `k` is `height * (k - m)`. */
  lemma AxisCoordAt(n: int, height: real, k: int)
    requires n > 0 && n % 2 == 1 && 0 <= k < n
    ensures |AxisCoords(n, height)| == n
    ensures AxisCoords(n, height)[k] == height * ((k - (n - 1) / 2) as real)
  {
    var m := (n - 1) / 2;
    assert (n - 1) as real / 2.0 == m as real;
    assert k as real - m as real == (k - m) as real;
  }

  /** Coordinates `k` and `n - 1 - k` are mirror images about zero. */
  lemma AxisCoordMirror(n: int, height: real, k: int)
    requires n > 0 && n % 2 == 1 && 0 <= k < n
    ensures AxisCoords(n, height)[n - 1 - k] == -AxisCoords(n, height)[k]
  {
    var m := (n - 1) / 2;
    AxisCoordAt(n, height, k);
    AxisCoordAt(n, height, n - 1 - k);
    var d := (k - m) as real;
    assert (n - 1 - k - m) as real == -d;
    assert height * (-d) == -(height * d);
  }

  /** Neighbouring coordinates are `height` apart. */
  lemma AxisCoordStep(n: int, height: real, k: int)
    requires n > 0 && n % 2 == 1 && 0 <= k < n - 1
    ensures AxisCoords(n, height)[k + 1] - AxisCoords(n, height)[k] == height
  {
    var m := (n - 1) / 2;
    AxisCoordAt(n, height, k);
    AxisCoordAt(n, height, k + 1);
    var d := (k - m) as real;
    assert (k + 1 - m) as real == d + 1.0;
    assert height * (d + 1.0) == height * d + height;
  }

  /**
   The coordinates of an odd count step by `height`, are symmetric about
   zero and have zero in the middle.
   */
  lemma AxisCoordsShape(n: int, height: real)
    requires n > 0 && n % 2 == 1
    ensures |AxisCoords(n, height)| == n
    ensures AxisCoords(n, height)[(n - 1) / 2] == 0.0
    ensures forall k :: 0 <= k < n ==> AxisCoords(n, height)[n - 1 - k] == -AxisCoords(n, height)[k]
    ensures forall k :: 0 <= k < n - 1 ==> AxisCoords(n, height)[k + 1] - AxisCoords(n, height)[k] == height
  {
    AxisCoordAt(n, height, (n - 1) / 2);
    forall k | 0 <= k < n
      ensures AxisCoords(n, height)[n - 1 - k] == -AxisCoords(n, height)[k]
    {
      AxisCoordMirror(n, height, k);
    }
    forall k | 0 <= k < n - 1
      ensures AxisCoords(n, height)[k + 1] - AxisCoords(n, height)[k] == height
    {
      AxisCoordStep(n, height, k);
    }
  }

  /** A non-zero spacing gives pairwise different coordinates. */
  lemma AxisCoordsDistinct(n: int, height: real)
    requires height != 0.0
    ensures Distinct(AxisCoords(n, height))
  {
    var c := AxisCoords(n, height);
    forall i, j | 0 <= i < j < |c|
      ensures c[i] != c[j]
    {
      assert c[j] - c[i] == height * (j as real - i as real);
      assert j as real - i as real != 0.0;
    }
  }

  /** There is at least one point per axis exactly when `length / height > -1`. */
  lemma AxisCountPositive(length: real, height: real)
    requires height != 0.0
    ensures AxisCount(length, height) >= 1 <==> length / height > -1.0
  {
    var r := length / height;
    var t := TruncToInt(r);
    if r > -1.0 {
      assert t >= 0;
    } else {
      assert t <= -1;
    }
  }

  /**
   For a non-negative ratio the count is `2 * floor(length / (2 * height)) + 1`,
   the closed form of the lattice's per-axis capacity.
   */
  lemma AxisCountClosedForm(length: real, height: real)
    requires height != 0.0 && length / height >= 0.0
    ensures AxisCount(length, height) == 2 * (length / height / 2.0).Floor + 1
  {
    var r := length / height;
    var f := r.Floor;
    var q := (r / 2.0).Floor;
    assert TruncToInt(r) == f;
    assert 2 * q <= f by {
      assert (2 * q) as real <= r;
    }
    assert f <= 2 * q + 1 by {
      assert r < (2 * q + 2) as real;
    }
  }

  /**
   The lattice has `n * n` points with `n` odd (or none at all), no point
   twice, and contains the origin exactly when `length / height > -1`
   (in particular for every positive side and spacing).
   */
  lemma LatticeShape(length: real, height: real)
    requires height != 0.0
    ensures |LatticeGrid(length, height)| == |LatticeCoords(length, height)| * |LatticeCoords(length, height)|
    ensures |LatticeCoords(length, height)| == 0 || |LatticeCoords(length, height)| % 2 == 1
    ensures Distinct(LatticeGrid(length, height))
    ensures Point(0.0, 0.0) in LatticeGrid(length, height) <==> length / height > -1.0
  {
    var n := AxisCount(length, height);
    var c := LatticeCoords(length, height);
    GridLength(c, c);
    AxisCoordsDistinct(n, height);
    GridDistinct(c, c);
    GridMember(c, c, Point(0.0, 0.0));
    AxisCountPositive(length, height);
    if n >= 1 {
      AxisCoordsShape(n, height);
      assert c[(n - 1) / 2] == 0.0;
    }
  }

  /** The largest offset `m = (n - 1) / 2`, scaled by a positive spacing, is at most half the side. */
  lemma HalfSpanBound(length: real, height: real)
    requires height > 0.0 && length >= 0.0
    ensures AxisCount(length, height) >= 1
    ensures height * (((AxisCount(length, height) - 1) / 2) as real) <= length / 2.0
  {
    AxisCountPositive(length, height);
    var n := AxisCount(length, height);
    var m := (n - 1) / 2;
    var r := length / height;
    assert (2 * m) as real <= r;
    assert height * r == length;
    assert height * ((2 * m) as real) <= height * r;
  }

  /**
   With positive spacing and non-negative side every coordinate lies in
   `[-length / 2, length / 2]`: the lattice stays inside the plane whose
   bounds the script draws.
   */
  lemma LatticeWithinPlane(length: real, height: real)
    requires height > 0.0 && length >= 0.0
    ensures forall v :: v in LatticeCoords(length, height) ==> -length / 2.0 <= v <= length / 2.0
  {
    HalfSpanBound(length, height);
    var n := AxisCount(length, height);
    var c := LatticeCoords(length, height);
    var m := (n - 1) / 2;
    var half := height * (m as real);
    forall v | v in c
      ensures -length / 2.0 <= v <= length / 2.0
    {
      var k :| 0 <= k < n && c[k] == v;
      AxisCoordAt(n, height, k);
      var d := (k - m) as real;
      assert -(m as real) <= d <= m as real;
      assert height * d <= half by {
        assert half - height * d == height * (m as real - d);
      }
      assert -half <= height * d by {
        assert height * d + half == height * (d + m as real);
      }
    }
  }

  // ---------------------------------------------------------------------
  // The mesh-grid loops
  // ---------------------------------------------------------------------

  /** `crd_all = [(xx[i], yy[i]) for i in range(len(xx))]`. */
  function Zip(xs: seq<real>, ys: seq<real>): seq<Point>
    requires |xs| == |ys|
  {
    seq(|xs|, i requires 0 <= i < |xs| => Point(xs[i], ys[i]))
  }

  /**
   The nested loops that fill `xx` and `yy`: paired up they list the full
   square grid over `pts`, x outer and y inner.
   */
  method MeshGrid(pts: seq<real>) returns (xx: seq<real>, yy: seq<real>)
    ensures |xx| == |yy| == |pts| * |pts|
    ensures Zip(xx, yy) == Grid(pts, pts)
  {
    xx, yy := [], [];
    for i := 0 to |pts|
      invariant |xx| == |yy|
      invariant Zip(xx, yy) == Grid(pts[..i], pts)
    {
      for j := 0 to |pts|
        invariant |xx| == |yy|
        invariant Zip(xx, yy) == Grid(pts[..i], pts) + Row(pts[i], pts[..j])
      {
        ghost var before := Zip(xx, yy);
        xx := xx + [pts[i]];
        yy := yy + [pts[j]];
        assert Zip(xx, yy) == before + [Point(pts[i], pts[j])];
        assert Row(pts[i], pts[..j + 1]) == Row(pts[i], pts[..j]) + [Point(pts[i], pts[j])];
      }
      assert pts[..|pts|] == pts;
      assert pts[..i + 1][..i] == pts[..i];
    }
    assert pts[..|pts|] == pts;
    GridLength(pts, pts);
  }

  // ---------------------------------------------------------------------
  // Drawing without replacement
  // ---------------------------------------------------------------------

  /** `list.pop(i)`: the list without its element at index `i`. */
  function Pop<T>(s: seq<T>, i: nat): (r: seq<T>)
    requires i < |s|
  {
    s[..i] + s[i + 1..]
  }

  /** Popping removes exactly one occurrence of the popped element. */
  lemma PopMultiset<T>(s: seq<T>, i: nat)
    requires i < |s|
    ensures |Pop(s, i)| == |s| - 1
    ensures multiset(Pop(s, i)) + multiset{s[i]} == multiset(s)
  {
    assert s == s[..i] + [s[i]] + s[i + 1..];
  }

  /** Popping from a list without repeats keeps it so and drops the popped element. */
  lemma PopDistinct<T>(s: seq<T>, i: nat)
    requires i < |s| && Distinct(s)
    ensures Distinct(Pop(s, i))
    ensures s[i] !in Pop(s, i)
  {
    var r := Pop(s, i);
    forall a, b | 0 <= a < b < |r|
      ensures r[a] != r[b]
    {
      var a' := if a < i then a else a + 1;
      var b' := if b < i then b else b + 1;
      assert r[a] == s[a'] && r[b] == s[b'];
    }
    forall a | 0 <= a < |r|
      ensures r[a] != s[i]
    {
      assert r[a] == s[if a < i then a else a + 1];
    }
  }

  /**
   The oracle answers every draw within range: at step `t` the list holds
   `n - t` elements and `randint(0, n - t - 1)` returns an index below `n - t`.
   */
  predicate ValidOracle(n: nat, idx: seq<nat>) {
    forall t :: 0 <= t < |idx| ==> idx[t] < n - t
  }

  lemma ValidOracleTail(n: nat, idx: seq<nat>)
    requires ValidOracle(n, idx) && idx != []
    ensures n >= 1 && ValidOracle(n - 1, idx[1..])
  {
    assert idx[0] < n;
    forall t | 0 <= t < |idx| - 1
      ensures idx[1..][t] < n - 1 - t
    {
      assert idx[1..][t] == idx[t + 1];
    }
  }

  /** One draw: the picked point, then the draws from what is left. */
  lemma DrawStep(pool: seq<Point>, idx: seq<nat>)
    requires ValidOracle(|pool|, idx) && idx != []
    ensures idx[0] < |pool|
    ensures ValidOracle(|Pop(pool, idx[0])|, idx[1..])
    ensures Drawn(pool, idx) == [pool[idx[0]]] + Drawn(Pop(pool, idx[0]), idx[1..])
    ensures multiset(Pop(pool, idx[0])) + multiset{pool[idx[0]]} == multiset(pool)
  {
    ValidOracleTail(|pool|, idx);
    PopMultiset(pool, idx[0]);
  }

  /** The points `crd_rnd` collects, in the order they are drawn. */
  function Drawn(pool: seq<Point>, idx: seq<nat>): (r: seq<Point>)
    requires ValidOracle(|pool|, idx)
    ensures |r| == |idx|
    decreases |idx|
  {
    if idx == [] then []
    else
      ValidOracleTail(|pool|, idx);
      [pool[idx[0]]] + Drawn(Pop(pool, idx[0]), idx[1..])
  }

  /** What is left of `crd_all` after the draws. */
  function Leftover(pool: seq<Point>, idx: seq<nat>): (r: seq<Point>)
    requires ValidOracle(|pool|, idx)
    ensures |r| == |pool| - |idx|
    decreases |idx|
  {
    if idx == [] then pool
    else
      ValidOracleTail(|pool|, idx);
      Leftover(Pop(pool, idx[0]), idx[1..])
  }

  /** `crd_rnd + crd_all` is always a permutation of the original grid. */
  lemma {:induction false} DrawPartition(pool: seq<Point>, idx: seq<nat>)
    requires ValidOracle(|pool|, idx)
    ensures multiset(Drawn(pool, idx)) + multiset(Leftover(pool, idx)) == multiset(pool)
    decreases |idx|
  {
    if idx != [] {
      ValidOracleTail(|pool|, idx);
      PopMultiset(pool, idx[0]);
      DrawPartition(Pop(pool, idx[0]), idx[1..]);
    }
  }

  /** Drawing from a list without repeats never returns a point twice. */
  lemma {:induction false} DrawnDistinct(pool: seq<Point>, idx: seq<nat>)
    requires ValidOracle(|pool|, idx) && Distinct(pool)
    ensures Distinct(Drawn(pool, idx))
    decreases |idx|
  {
    if idx != [] {
      ValidOracleTail(|pool|, idx);
      var rest := Pop(pool, idx[0]);
      PopDistinct(pool, idx[0]);
      DrawnDistinct(rest, idx[1..]);
      var tail := Drawn(rest, idx[1..]);
      DrawPartition(rest, idx[1..]);
      forall p | p in tail
        ensures p !in [pool[idx[0]]]
      {
        assert p in multiset(tail);
        assert multiset(tail) <= multiset(rest);
        assert p in rest;
      }
      DistinctConcat([pool[idx[0]]], tail);
    }
  }

  /**
   Capacity: an oracle can answer every draw exactly when there are no more
   draws than points.  Once the list is empty the source calls
   `randint(0, -1)`, which has no answer and raises.
   */
  lemma CapacityExact(n: nat, k: nat)
    ensures ValidOracle(n, seq(k, _ => 0)) <==> k <= n
    ensures forall idx :: ValidOracle(n, idx) ==> |idx| <= n
  {
    forall idx | ValidOracle(n, idx)
      ensures |idx| <= n
    {
      if idx != [] {
        assert idx[|idx| - 1] < n - (|idx| - 1);
      }
    }
  }

  /** Moving element `i` from `s` to the end of `a` keeps `a + s` the same multiset. */
  lemma PermutationStep(a: seq<Point>, s: seq<Point>, i: nat)
    requires i < |s|
    ensures multiset((a + [s[i]]) + Pop(s, i)) == multiset(a + s)
  {
    PopMultiset(s, i);
    calc {
      multiset((a + [s[i]]) + Pop(s, i));
      multiset(a) + multiset{s[i]} + multiset(Pop(s, i));
      multiset(a) + multiset(s);
      multiset(a + s);
    }
  }

  /** The oracle's suffix from step `t + 1` is the tail of its suffix from step `t`. */
  lemma OracleSuffixTail(oracle: seq<nat>, t: nat)
    requires t < |oracle|
    ensures oracle[t..] != [] && oracle[t..][0] == oracle[t] && oracle[t..][1..] == oracle[t + 1..]
  {
  }

  /** One iteration of the draw loop keeps the relation between `crd_rnd` and the draws still to come. */
  lemma DrawLoopStep(all: seq<Point>, oracle: seq<nat>, t: nat, crdRnd: seq<Point>, crdAll: seq<Point>)
    requires ValidOracle(|all|, oracle)
    requires t < |oracle| && ValidOracle(|crdAll|, oracle[t..])
    requires crdRnd + Drawn(crdAll, oracle[t..]) == Drawn(all, oracle)
    ensures oracle[t] < |crdAll|
    ensures ValidOracle(|crdAll| - 1, oracle[t + 1..])
    ensures (crdRnd + [crdAll[oracle[t]]]) + Drawn(Pop(crdAll, oracle[t]), oracle[t + 1..]) == Drawn(all, oracle)
  {
    var rest := oracle[t..];
    OracleSuffixTail(oracle, t);
    DrawStep(crdAll, rest);
    var later := Drawn(Pop(crdAll, oracle[t]), oracle[t + 1..]);
    assert Drawn(crdAll, rest) == [crdAll[oracle[t]]] + later;
    assert (crdRnd + [crdAll[oracle[t]]]) + later == crdRnd + ([crdAll[oracle[t]]] + later);
  }

  /** The draw loop: `num_grids` picks, each appended to `crd_rnd` and popped from `crd_all`. */
  method DrawWithoutReplacement(all: seq<Point>, oracle: seq<nat>) returns (crdRnd: seq<Point>)
    requires ValidOracle(|all|, oracle)
    ensures crdRnd == Drawn(all, oracle)
    ensures |crdRnd| == |oracle|
    ensures multiset(crdRnd) <= multiset(all)
    ensures Distinct(all) ==> Distinct(crdRnd)
  {
    var crdAll := all;
    crdRnd := [];
    for t := 0 to |oracle|
      invariant |crdAll| == |all| - t
      invariant ValidOracle(|crdAll|, oracle[t..])
      invariant crdRnd + Drawn(crdAll, oracle[t..]) == Drawn(all, oracle)
      invariant multiset(crdRnd + crdAll) == multiset(all)
    {
      var lenList := |crdAll| - 1;
      var ranId := oracle[t];
      DrawLoopStep(all, oracle, t, crdRnd, crdAll);
      PermutationStep(crdRnd, crdAll, ranId);
      assert 0 <= ranId <= lenList;
      crdRnd := crdRnd + [crdAll[ranId]];
      crdAll := Pop(crdAll, ranId);
    }
    assert oracle[|oracle|..] == [];
    if Distinct(all) {
      DrawnDistinct(all, oracle);
    }
  }

  /**
   `random_2d_coordinates(num_grids, height, length)`: `num_grids`
   pairwise distinct lattice points, drawn as the oracle dictates; none
   for a count that is not positive, where `range(num_grids)` is empty.
   */
  method RandomCoordinates(numGrids: int, height: real, length: real, oracle: seq<nat>)
    returns (crdRnd: seq<Point>)
    requires height != 0.0
    requires |oracle| == if numGrids > 0 then numGrids else 0
    requires ValidOracle(|LatticeGrid(length, height)|, oracle)
    ensures crdRnd == Drawn(LatticeGrid(length, height), oracle)
    ensures |crdRnd| == if numGrids > 0 then numGrids else 0
    ensures Distinct(crdRnd)
    ensures forall p :: p in crdRnd ==>
              p.x in LatticeCoords(length, height) && p.y in LatticeCoords(length, height)
  {
    var ptsQty := AxisCount(length, height);
    var pts1d := AxisCoords(ptsQty, height);
    var xx, yy := MeshGrid(pts1d);
    ptsQty := |xx|;
    var crdAll := Zip(xx, yy);
    LatticeShape(length, height);
    crdRnd := DrawWithoutReplacement(crdAll, oracle);
    forall p | p in crdRnd
      ensures p.x in pts1d && p.y in pts1d
    {
      assert p in multiset(crdAll);
      GridMember(pts1d, pts1d, p);
    }
  }

  // ---------------------------------------------------------------------
  // Removing the undesired centre
  // ---------------------------------------------------------------------

  /** `i` is the last index at which `s` holds `p`. */
  predicate LastIndexOf(s: seq<Point>, p: Point, i: nat) {
    i < |s| && s[i] == p && forall k :: i < k < |s| ==> s[k] != p
  }

  /** The last index at which `s` holds `p`, searched from the end. */
  function LastIndex(s: seq<Point>, p: Point): (i: nat)
    requires p in s
    ensures LastIndexOf(s, p, i)
    decreases |s|
  {
    var n := |s| - 1;
    if s[n] == p then n
    else
      assert p in s[..n] by {
        var k :| 0 <= k < |s| && s[k] == p;
        assert s[..n][k] == p;
      }
      LastIndex(s[..n], p)
  }

  /** At most one index is the last occurrence. */
  lemma LastIndexUnique(s: seq<Point>, p: Point, i: nat, j: nat)
    requires LastIndexOf(s, p, i) && LastIndexOf(s, p, j)
    ensures i == j
  {
  }

  /** The centres the scene keeps: the last copy of `undes` popped, if there is one. */
  function Removed(s: seq<Point>, undes: Point): (r: seq<Point>)
    ensures undes in s ==> |r| == |s| - 1 && multiset(r) + multiset{undes} == multiset(s)
    ensures undes in s ==> exists i: nat :: LastIndexOf(s, undes, i) && r == s[..i] + s[i + 1..]
    ensures undes !in s ==> r == s
  {
    if undes in s then
      var i := LastIndex(s, undes);
      PopMultiset(s, i);
      assert LastIndexOf(s, undes, i) && Pop(s, i) == s[..i] + s[i + 1..];
      Pop(s, i)
    else s
  }

  /** Removing from a list without repeats keeps it so, leaves no copy of `undes` and adds nothing. */
  lemma RemovedDistinct(s: seq<Point>, undes: Point)
    requires Distinct(s)
    ensures Distinct(Removed(s, undes)) && undes !in Removed(s, undes)
    ensures forall p :: p in Removed(s, undes) ==> p in s
  {
    var r := Removed(s, undes);
    if undes in s {
      var i: nat :| LastIndexOf(s, undes, i) && r == s[..i] + s[i + 1..];
      assert r == Pop(s, i);
      PopDistinct(s, i);
      PopMultiset(s, i);
      forall p | p in r
        ensures p in s
      {
        assert p in multiset(r);
      }
    }
  }

  /** Every drawn point comes from the pool. */
  lemma DrawnFromPool(pool: seq<Point>, idx: seq<nat>, p: Point)
    requires ValidOracle(|pool|, idx) && p in Drawn(pool, idx)
    ensures p in pool
  {
    DrawPartition(pool, idx);
    assert p in multiset(Drawn(pool, idx));
    assert multiset(Drawn(pool, idx)) <= multiset(pool);
  }

  /**
   The scan for `undes_coord` and the pop that follows: the last centre
   equal to it on x and y is removed and the object count drops by one;
   without a match nothing changes.  When the centres are distinct the
   undesired point is gone afterwards.
   */
  method RemoveUndesired(objCenter: seq<Point>, numObjects: int, undes: Point)
    returns (centers: seq<Point>, count: int, undesId: Option<nat>)
    ensures centers == Removed(objCenter, undes)
    ensures undesId.Some? <==> undes in objCenter
    ensures undesId.Some? ==> LastIndexOf(objCenter, undes, undesId.value)
    ensures undesId.Some? ==> centers == Pop(objCenter, undesId.value) && count == numObjects - 1
    ensures undesId.None? ==> centers == objCenter && count == numObjects
    ensures |centers| == count - numObjects + |objCenter|
    ensures Distinct(objCenter) ==> Distinct(centers) && undes !in centers
  {
    var removeUndes := false;
    undesId := None;
    for i := 0 to |objCenter|
      invariant removeUndes <==> undesId.Some?
      invariant undesId.None? ==> undes !in objCenter[..i]
      invariant undesId.Some? ==> undesId.value < i && objCenter[undesId.value] == undes
      invariant undesId.Some? ==> forall k :: undesId.value < k < i ==> objCenter[k] != undes
    {
      if objCenter[i].x == undes.x && objCenter[i].y == undes.y {
        removeUndes := true;
        undesId := Some(i);
      }
      assert objCenter[..i + 1] == objCenter[..i] + [objCenter[i]];
    }
    assert objCenter[..|objCenter|] == objCenter;
    centers, count := objCenter, numObjects;
    if removeUndes {
      LastIndexUnique(objCenter, undes, undesId.value, LastIndex(objCenter, undes));
      centers := Pop(objCenter, undesId.value);
      count := numObjects - 1;
      if Distinct(objCenter) {
        PopDistinct(objCenter, undesId.value);
      }
    }
  }

  // ---------------------------------------------------------------------
  // Concrete configurations
  // ---------------------------------------------------------------------

  /**
   The script's configuration, spacing 3 and plane width 9: `int(9 / 3) + 1`
   is 4, reduced to 3, so the lattice is the 3 x 3 grid over {-3, 0, 3}.
   */
  lemma ScriptLattice()
    ensures AxisCount(9.0, 3.0) == 3
    ensures LatticeCoords(9.0, 3.0) == [-3.0, 0.0, 3.0]
    ensures |LatticeGrid(9.0, 3.0)| == 9
  {
    assert TruncToInt(9.0 / 3.0) == 3;
    GridLength(LatticeCoords(9.0, 3.0), LatticeCoords(9.0, 3.0));
  }

  /**
   Spacing 3 and side 1.5 leave only the origin: one draw returns it and
   a second draw has no valid answer.
   */
  lemma SingleLatticePoint(oracle: seq<nat>)
    ensures LatticeGrid(1.5, 3.0) == [Point(0.0, 0.0)]
    ensures ValidOracle(|LatticeGrid(1.5, 3.0)|, oracle) ==> |oracle| <= 1
    ensures ValidOracle(1, oracle) && |oracle| == 1 ==> Drawn(LatticeGrid(1.5, 3.0), oracle) == [Point(0.0, 0.0)]
  {
    assert TruncToInt(1.5 / 3.0) == 0;
    assert LatticeCoords(1.5, 3.0) == [0.0];
    assert Grid([0.0], [0.0]) == Grid([], [0.0]) + Row(0.0, [0.0]);
    CapacityExact(1, 0);
  }
}
