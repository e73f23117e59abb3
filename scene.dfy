/**
 The script part of `mujoco_xml_creator.py` around the sampler: its fixed
 configuration, the naming rule for the bodies and their position sensors
 (the last body is the goal, placed at a fixed position), and the order in
 which the script runs sampler, undesired-centre removal and the two
 XML loops.  The XML elements themselves are reduced to the attributes the
 rule decides: name, position, size and site name.
 */
module Scene {
  import opened Geometry
  import opened Lattice

  /** `num_objects = 6`: the desired obstacles plus one for the goal. */
  const NumObjects: nat := 6

  /** `robot_diagL = 1`. */
  const RobotDiagL: real := 1.0

  /** `spacing = 3 * robot_diagL`, centre to centre. */
  const Spacing: real := 3.0 * RobotDiagL

  /** `plane_width = 0.5 * num_objects * spacing`. */
  const PlaneWidth: real := 0.5 * (NumObjects as real) * Spacing

  /** `undes_coord = [0, 0, 0]`: the robot's start; only x and y are compared. */
  const Undesired: Point := Point(0.0, 0.0)

  /** A body's `pos` or `size` attribute, three numbers. */
  datatype Position = Position(x: real, y: real, z: real)

  /** `'10 10 2.5'`: the goal's fixed position. */
  const GoalPosition: Position := Position(10.0, 10.0, 2.5)

  /** `'0.5 0.5 0.5'`: the goal's size. */
  const GoalSize: Position := Position(0.5, 0.5, 0.5)

  // ---------------------------------------------------------------------
  // Decimal text of a number, as `str` writes a non-negative int
  // ---------------------------------------------------------------------

  predicate IsDigit(c: char) {
    '0' <= c <= '9'
  }

  function DigitChar(d: nat): (c: char)
    requires d < 10
    ensures IsDigit(c) && c as int - '0' as int == d
  {
    ('0' as int + d) as char
  }

  /** `str(n)` for `n >= 0`: its decimal digits, most significant first. */
  function Decimal(n: nat): (s: string)
    ensures |s| >= 1
    ensures forall k :: 0 <= k < |s| ==> IsDigit(s[k])
    decreases n
  {
    if n < 10 then [DigitChar(n)] else Decimal(n / 10) + [DigitChar(n % 10)]
  }

  /** The number a string of decimal digits denotes. */
  function DecimalValue(s: string): nat
    requires forall k :: 0 <= k < |s| ==> IsDigit(s[k])
    decreases |s|
  {
    if s == [] then 0
    else
      assert IsDigit(s[|s| - 1]);
      DecimalValue(s[..|s| - 1]) * 10 + (s[|s| - 1] as int - '0' as int)
  }

  /** Reading back the decimal text of `n` gives `n`. */
  lemma {:induction false} DecimalRoundTrip(n: nat)
    ensures DecimalValue(Decimal(n)) == n
    decreases n
  {
    var s := Decimal(n);
    if n < 10 {
      assert s[..0] == [];
    } else {
      DecimalRoundTrip(n / 10);
      assert s[..|s| - 1] == Decimal(n / 10);
    }
  }

  /** Different numbers have different decimal texts. */
  lemma DecimalInjective(a: nat, b: nat)
    requires Decimal(a) == Decimal(b)
    ensures a == b
  {
    DecimalRoundTrip(a);
    DecimalRoundTrip(b);
  }

  // ---------------------------------------------------------------------
  // The naming and placement rule
  // ---------------------------------------------------------------------

  /** `'object' + str(i + 1)`, except `'goal'` for the last body. */
  function BodyName(i: nat, numObjects: int): string {
    if i != numObjects - 1 then "object" + Decimal(i + 1) else "goal"
  }

  /** The sensor name: `'object' + str(i + 1) + '_pos'`, except `'goal_pos'` for the last. */
  function SensorName(i: nat, numObjects: int): string {
    if i != numObjects - 1 then "object" + Decimal(i + 1) + "_pos" else "goal_pos"
  }

  /** The body's `site` name, which the sensor's `objname` refers to as well. */
  function SiteName(i: nat, numObjects: int): string {
    BodyName(i, numObjects) + "_site"
  }

  /**
   The body's position: its sampled centre with the random height, or the
   goal's fixed position.  The centre list is only consulted for non-goal
   bodies.
   */
  function BodyPosition(i: nat, numObjects: int, centers: seq<Point>, z: real): Position
    requires i != numObjects - 1 ==> i < |centers|
  {
    if i != numObjects - 1 then Position(centers[i].x, centers[i].y, z) else GoalPosition
  }

  /** The box size: robot-sized with the random height, or the goal's size. */
  function BodySize(i: nat, numObjects: int, z: real): Position {
    if i != numObjects - 1 then Position(RobotDiagL, RobotDiagL, z) else GoalSize
  }

  /** Exactly the last body is called `goal`. */
  lemma GoalIsLast(i: nat, numObjects: int)
    ensures BodyName(i, numObjects) == "goal" <==> i == numObjects - 1
  {
    if i != numObjects - 1 {
      assert BodyName(i, numObjects)[0] == 'o';
    }
  }

  /** No two bodies share a name. */
  lemma BodyNamesDistinct(i: nat, j: nat, numObjects: int)
    requires i < j < numObjects
    ensures BodyName(i, numObjects) != BodyName(j, numObjects)
  {
    GoalIsLast(i, numObjects);
    GoalIsLast(j, numObjects);
    if j != numObjects - 1 && BodyName(i, numObjects) == BodyName(j, numObjects) {
      var a, b := "object" + Decimal(i + 1), "object" + Decimal(j + 1);
      assert a[6..] == Decimal(i + 1) && b[6..] == Decimal(j + 1);
      DecimalInjective(i + 1, j + 1);
    }
  }

  /** The sensor of body `i` is named after it, with the suffix `_pos`. */
  lemma SensorNameMatchesBody(i: nat, numObjects: int)
    ensures SensorName(i, numObjects) == BodyName(i, numObjects) + "_pos"
  {
    if i != numObjects - 1 {
      assert "object" + Decimal(i + 1) + "_pos" == ("object" + Decimal(i + 1)) + "_pos";
    }
  }

  // ---------------------------------------------------------------------
  // The XML loops, reduced to the attributes above
  // ---------------------------------------------------------------------

  datatype Body = Body(name: string, pos: Position, size: Position, site: string)

  /** A `framepos` sensor: its name and the site it observes. */
  datatype Sensor = Sensor(name: string, objSite: string)

  /**
   The body loop: one body per object, `heights[i]` standing for the
   random `pos_rand_z` of iteration `i`.
   */
  method PlaceBodies(centers: seq<Point>, numObjects: nat, heights: seq<real>) returns (bodies: seq<Body>)
    requires numObjects <= |centers| + 1
    requires numObjects <= |heights|
    ensures |bodies| == numObjects
    ensures forall i :: 0 <= i < numObjects ==>
              bodies[i] == Body(BodyName(i, numObjects), BodyPosition(i, numObjects, centers, heights[i]),
                                BodySize(i, numObjects, heights[i]), SiteName(i, numObjects))
    ensures forall i, j :: 0 <= i < j < numObjects ==> bodies[i].name != bodies[j].name
    ensures forall i :: 0 <= i < numObjects ==> (bodies[i].name == "goal" <==> i == numObjects - 1)
    ensures numObjects > 0 ==> bodies[numObjects - 1].pos == GoalPosition
    ensures forall i :: 0 <= i < numObjects - 1 ==>
              bodies[i].pos.x == centers[i].x && bodies[i].pos.y == centers[i].y
  {
    bodies := [];
    for i := 0 to numObjects
      invariant |bodies| == i
      invariant forall k :: 0 <= k < i ==>
                  bodies[k] == Body(BodyName(k, numObjects), BodyPosition(k, numObjects, centers, heights[k]),
                                    BodySize(k, numObjects, heights[k]), SiteName(k, numObjects))
    {
      var name := BodyName(i, numObjects);
      var posRandZ := heights[i];
      var pos := BodyPosition(i, numObjects, centers, posRandZ);
      var size := BodySize(i, numObjects, posRandZ);
      bodies := bodies + [Body(name, pos, size, name + "_site")];
    }
    forall i, j | 0 <= i < j < numObjects
      ensures bodies[i].name != bodies[j].name
    {
      BodyNamesDistinct(i, j, numObjects);
    }
    forall i | 0 <= i < numObjects
      ensures bodies[i].name == "goal" <==> i == numObjects - 1
    {
      GoalIsLast(i, numObjects);
    }
  }

  /** The sensor loop: one position sensor per body, observing that body's site. */
  method PlaceSensors(numObjects: nat) returns (sensors: seq<Sensor>)
    ensures |sensors| == numObjects
    ensures forall i :: 0 <= i < numObjects ==> sensors[i] == Sensor(SensorName(i, numObjects), SiteName(i, numObjects))
    ensures forall i :: 0 <= i < numObjects ==>
              sensors[i].name == BodyName(i, numObjects) + "_pos" && sensors[i].objSite == SiteName(i, numObjects)
  {
    sensors := [];
    for i := 0 to numObjects
      invariant |sensors| == i
      invariant forall k :: 0 <= k < i ==> sensors[k] == Sensor(SensorName(k, numObjects), SiteName(k, numObjects))
    {
      var name := SensorName(i, numObjects);
      var objname := BodyName(i, numObjects);
      sensors := sensors + [Sensor(name, objname + "_site")];
    }
    forall i | 0 <= i < numObjects
      ensures sensors[i].name == BodyName(i, numObjects) + "_pos"
    {
      SensorNameMatchesBody(i, numObjects);
    }
  }

  // ---------------------------------------------------------------------
  // The script
  // ---------------------------------------------------------------------

  /** The script's constants give the 3 x 3 lattice over {-3, 0, 3}. */
  lemma ScriptConfiguration()
    ensures Spacing == 3.0 && PlaneWidth == 9.0
    ensures LatticeCoords(PlaneWidth, Spacing) == [-3.0, 0.0, 3.0]
    ensures |LatticeGrid(PlaneWidth, Spacing)| == 9
  {
    ScriptLattice();
  }

  /** The script's lattice, `crd_all` of its sampler call. */
  function ScriptGrid(): (g: seq<Point>)
    ensures |g| == 9 && g == LatticeGrid(PlaneWidth, Spacing)
  {
    ScriptConfiguration();
    LatticeGrid(PlaneWidth, Spacing)
  }

  /** The centres the script places: its draws, less the robot's start if it was drawn. */
  function SceneCenters(oracle: seq<nat>): seq<Point>
    requires ValidOracle(9, oracle)
  {
    Removed(Drawn(ScriptGrid(), oracle), Undesired)
  }

  /**
   The centres the script places are distinct points of its lattice, none
   of them the robot's start, and one fewer than the draws exactly when
   the start was drawn.
   */
  lemma SceneCentersFacts(oracle: seq<nat>)
    requires ValidOracle(9, oracle)
    ensures Distinct(SceneCenters(oracle))
    ensures Undesired !in SceneCenters(oracle)
    ensures forall p :: p in SceneCenters(oracle) ==> p.x in {-3.0, 0.0, 3.0} && p.y in {-3.0, 0.0, 3.0}
    ensures Undesired in Drawn(ScriptGrid(), oracle) ==> |SceneCenters(oracle)| == |oracle| - 1
    ensures Undesired !in Drawn(ScriptGrid(), oracle) ==> |SceneCenters(oracle)| == |oracle|
  {
    var g := ScriptGrid();
    var d := Drawn(g, oracle);
    var c := SceneCenters(oracle);
    ScriptConfiguration();
    LatticeShape(PlaneWidth, Spacing);
    DrawnDistinct(g, oracle);
    RemovedDistinct(d, Undesired);
    forall p | p in c
      ensures p.x in {-3.0, 0.0, 3.0} && p.y in {-3.0, 0.0, 3.0}
    {
      DrawnFromPool(g, oracle, p);
      GridMember(LatticeCoords(PlaneWidth, Spacing), LatticeCoords(PlaneWidth, Spacing), p);
    }
  }

  /**
   The script end to end: sample `NumObjects` centres from its 3 x 3
   lattice (the oracle answers the nine-point draws), drop the one at the
   robot's start, then name and place the bodies and their sensors.  Body
   `i` stands on centre `i`, except that the last body is the goal at its
   fixed position, so the last remaining centre is never placed.
   */
  method CreateScene(oracle: seq<nat>, heights: seq<real>) returns (bodies: seq<Body>, sensors: seq<Sensor>)
    requires |oracle| == NumObjects && ValidOracle(9, oracle)
    requires NumObjects <= |heights|
    ensures |sensors| == |bodies| >= 1
    ensures |bodies| == NumObjects - 1 <==> Undesired in Drawn(ScriptGrid(), oracle)
    ensures |bodies| == NumObjects || |bodies| == NumObjects - 1
    ensures bodies[|bodies| - 1].name == "goal" && bodies[|bodies| - 1].pos == GoalPosition
    ensures forall i :: 0 <= i < |bodies| - 1 ==>
              bodies[i].pos.x in {-3.0, 0.0, 3.0} && bodies[i].pos.y in {-3.0, 0.0, 3.0}
    ensures forall i :: 0 <= i < |bodies| - 1 ==> Point(bodies[i].pos.x, bodies[i].pos.y) != Undesired
    ensures forall i, j :: 0 <= i < j < |bodies| - 1 ==>
              Point(bodies[i].pos.x, bodies[i].pos.y) != Point(bodies[j].pos.x, bodies[j].pos.y)
    ensures forall i :: 0 <= i < |bodies| ==> sensors[i].objSite == bodies[i].site
    ensures |bodies| == |SceneCenters(oracle)|
    ensures forall i :: 0 <= i < |bodies| ==>
              bodies[i] == Body(BodyName(i, |bodies|), BodyPosition(i, |bodies|, SceneCenters(oracle), heights[i]),
                                BodySize(i, |bodies|, heights[i]), SiteName(i, |bodies|))
    ensures forall i :: 0 <= i < |bodies| ==> sensors[i] == Sensor(SensorName(i, |bodies|), SiteName(i, |bodies|))
  {
    ScriptConfiguration();
    var objCenter := RandomCoordinates(NumObjects, Spacing, PlaneWidth, oracle);
    var centers, numObjects, _ := RemoveUndesired(objCenter, NumObjects, Undesired);
    assert centers == SceneCenters(oracle);
    SceneCentersFacts(oracle);
    bodies := PlaceBodies(centers, numObjects, heights);
    sensors := PlaceSensors(numObjects);
    forall i | 0 <= i < |bodies| - 1
      ensures Point(bodies[i].pos.x, bodies[i].pos.y) == centers[i]
    {
    }
    forall i, j | 0 <= i < j < |bodies| - 1
      ensures Point(bodies[i].pos.x, bodies[i].pos.y) != Point(bodies[j].pos.x, bodies[j].pos.y)
    {
      assert centers[i] != centers[j];
    }
  }

}
