# Obstacle layout and boundary sampling, modelled in Dafny

This project models the two algorithmic pieces of a MuJoCo scene generator
for mobile-robot motion planning, and proves properties of the model.

- **Lattice sampler** (`mujoco_xml_creator.py`). `random_2d_coordinates`
  builds a square lattice centred on the origin. The number of points per
  axis is made odd so that `(0, 0)` is a lattice point. It then draws
  `num_grids` centres without replacement. The script around it removes the
  centre that sits on the robot's start `(0, 0)`. It then writes one body per
  object. The last body is always the `goal`, at the fixed position
  `10 10 2.5`, and every body gets a matching `framepos` sensor.
- **Boundary extractor** (`obstacle_array.py`). `object_placement` lays a
  5 × 5 mesh over each obstacle's rectangle `[pos - size, pos + size]`. It
  keeps every mesh point that lies on or outside one of the four bounds and
  stacks the kept points of all obstacles into one array. This array is the
  obstacle list of a Dynamic Window Approach planner.

Modules, one file each:

- `Geometry` (`geometry.dfy`): `Point`, the row-major `Grid` (x outer, y inner) that both components build, and `Distinct`.
- `Lattice` (`lattice.dfy`): points per axis, the 1-D coordinates, the mesh-grid loops, the draw loop and the removal of the undesired centre.
- `Scene` (`scene.dfy`): the script's constants, the naming and goal rule, the body and sensor loops, and the whole script as `CreateScene`.
- `Boundary` (`boundary.dfy`): the per-obstacle mesh and mask, and the concatenation across obstacles.

Modelling choices:

- All coordinates are exact `real`s, so the mask comparisons are exact.
- Python's `int()` on a float truncates toward zero (`TruncToInt`).
- `random.randint` becomes an oracle: a caller-supplied `seq<nat>` with one index per draw. `ValidOracle(n, idx)` says that at step `t` the index is below `n - t`, the length of the list at that step.
- `random.uniform` heights become a caller-supplied `heights` sequence.
- A division by zero spacing is a crash in the source. It is a precondition here (`height != 0.0`).
- `np.vstack([])` raises on an empty list, so `ObjectPlacement` requires at least one obstacle.
- The scene parser's output is taken as input: a sequence of `Obstacle(pos, size)` rows with at least two components each.

With positive half-extents the mask drops the whole 3 × 3 inner block of an obstacle's 5 × 5 mesh, not only its centre, so 16 of the 25 candidates are kept. For a centred obstacle with half-extents `(1, 1)` the dropped points are `(0, 0)`, `(±0.5, ±0.5)`, `(0, ±0.5)` and `(±0.5, 0)` (`Boundary.UnitSquareExample`, `Boundary.BoundaryIsRing`).

## Model

| member | source | states |
|---|---|---|
| `Geometry.Row` | mujoco_xml_creator.py:33-35 | definition: the points `(x, ys[0]), ..., (x, ys[n-1])` one pass of the inner loop appends. |
| `Geometry.Grid` | mujoco_xml_creator.py:31-35 | definition: every pair `(xs[i], ys[j])`, x outer and y inner, in the order the nested loops append them. |
| `Geometry.GridLength` | mujoco_xml_creator.py:31-41 | The full grid over `xs` and `ys` has `|xs| * |ys|` points. |
| `Geometry.GridAt` | mujoco_xml_creator.py:31-41 | The grid is row-major: `(xs[i], ys[j])` is at index `i * |ys| + j`, x outer and y inner. |
| `Geometry.GridMember` | mujoco_xml_creator.py:31-41 | A point is in the grid iff its x is one of `xs` and its y one of `ys`. |
| `Geometry.GridDistinct` | mujoco_xml_creator.py:31-41 | Distinct 1-D coordinates give a grid without repeated points. |
| `Lattice.TruncToInt` | mujoco_xml_creator.py:15 | `int()` truncates toward zero: the result is within 1 of `r`, on the zero side. |
| `Lattice.AxisCount` | mujoco_xml_creator.py:15-19 | The adjusted `pts_qty` is odd and equals `int(length/height) + 1`, or that value minus 1. |
| `Lattice.AxisCountPositive` | mujoco_xml_creator.py:15-19 | There is at least one point per axis iff `length / height > -1`. |
| `Lattice.AxisCountClosedForm` | mujoco_xml_creator.py:15-19 | For a non-negative ratio the per-axis count is `2 * floor(length / (2 * height)) + 1`. |
| `Lattice.AxisCoords` | mujoco_xml_creator.py:22-28 | definition: for a count `n`, the values `height * (k - (n - 1) / 2)` for `k` in `range(n)`; empty when `n` is not positive. |
| `Lattice.LatticeCoords` | mujoco_xml_creator.py:15-28 | definition: `pts_1d` for side `length` and spacing `height`. |
| `Lattice.LatticeGrid` | mujoco_xml_creator.py:15-41 | definition: `crd_all`, the grid of `pts_1d` with itself. |
| `Lattice.AxisCoordAt` | mujoco_xml_creator.py:22-28 | For an odd count, coordinate `k` is exactly `height * (k - (pts_qty - 1) / 2)`. |
| `Lattice.AxisCoordMirror` | mujoco_xml_creator.py:22-28 | Coordinates `k` and `pts_qty - 1 - k` are negatives of each other. |
| `Lattice.AxisCoordStep` | mujoco_xml_creator.py:22-28 | Neighbouring coordinates are `height` apart. |
| `Lattice.AxisCoordsShape` | mujoco_xml_creator.py:22-28 | There are `pts_qty` coordinates, symmetric about zero and `height` apart, and the middle one is 0. |
| `Lattice.AxisCoordsDistinct` | mujoco_xml_creator.py:22-28 | A non-zero spacing gives pairwise different coordinates. |
| `Lattice.LatticeShape` | mujoco_xml_creator.py:15-41 | The lattice has `n²` distinct points with `n` odd or zero, and it contains `(0, 0)` iff `length / height > -1`. |
| `Lattice.HalfSpanBound` | mujoco_xml_creator.py:15-28 | For positive spacing, the largest offset times the spacing is at most half the side. |
| `Lattice.LatticeWithinPlane` | mujoco_xml_creator.py:15-28 | Every coordinate lies in `[-length/2, length/2]`, the plane bounds the script draws. |
| `Lattice.Zip` | mujoco_xml_creator.py:41 | definition: the pairs `(xx[i], yy[i])` for every `i`, as the comprehension builds `crd_all`. |
| `Lattice.MeshGrid` | mujoco_xml_creator.py:31-41 | The nested loops give `|pts|²` pairs that, zipped, are the full grid, x outer and y inner. |
| `Lattice.Pop` | mujoco_xml_creator.py:56 | definition: the list with the element at index `i` taken out and the others kept in order, as `pop(i)` leaves it. |
| `Lattice.PopMultiset` | mujoco_xml_creator.py:56 | `pop(i)` shortens the list by one and removes exactly one occurrence of the popped element. |
| `Lattice.PopDistinct` | mujoco_xml_creator.py:56 | Popping from a repeat-free list keeps it repeat-free and removes the popped element. |
| `Lattice.ValidOracle` | mujoco_xml_creator.py:47-50 | definition: the `t`-th index lies below `n - t`, the bound `randint(0, len_list)` draws from at step `t`. |
| `Lattice.ValidOracleTail` | mujoco_xml_creator.py:47-50 | After one valid draw, the remaining indices are valid for the list one shorter. |
| `Lattice.DrawStep` | mujoco_xml_creator.py:44-56 | One iteration appends `crd_all[ran_id]`, and the remaining draws come from the popped list. |
| `Lattice.Drawn` | mujoco_xml_creator.py:44-59 | The drawn list has one point per draw. |
| `Lattice.Leftover` | mujoco_xml_creator.py:44-56 | Each draw shrinks `crd_all` by exactly one. |
| `Lattice.DrawPartition` | mujoco_xml_creator.py:44-56 | `crd_rnd + crd_all` is a permutation of the original grid. |
| `Lattice.DrawnDistinct` | mujoco_xml_creator.py:44-59 | Drawing from a repeat-free grid never returns a point twice. |
| `Lattice.CapacityExact` | mujoco_xml_creator.py:45-50 | Every draw can be answered iff `num_grids <= pts_qty²`; past that the source calls `randint(0, -1)`. |
| `Lattice.PermutationStep` | mujoco_xml_creator.py:54-56 | Appending `crd_all[ran_id]` to `crd_rnd` and popping it from `crd_all` leaves `crd_rnd + crd_all` the same multiset. |
| `Lattice.DrawLoopStep` | mujoco_xml_creator.py:51-56 | One loop iteration: the index drawn is in range for the shrunk list, and the points collected so far followed by the draws still to come are the whole draw. |
| `Lattice.DrawWithoutReplacement` | mujoco_xml_creator.py:43-59 | The draw loop returns exactly the oracle's draws, one point per oracle index, as a multiset contained in the grid, with no repeats when the grid has none; its loop keeps `crd_rnd + crd_all` a permutation of the grid. |
| `Lattice.RandomCoordinates` | mujoco_xml_creator.py:9-59 | The result has exactly `num_grids` pairwise distinct lattice points, drawn in oracle order, and none when `num_grids` is not positive. |
| `Lattice.LastIndexOf` | mujoco_xml_creator.py:94-98 | definition: `s[i]` is the point and no later element is, which is the index the scan leaves behind. |
| `Lattice.LastIndex` | mujoco_xml_creator.py:94-98 | The index the scan leaves in `undes_coord_id`: the centre there is the undesired one and no later centre is. |
| `Lattice.LastIndexUnique` | mujoco_xml_creator.py:94-98 | Only one index can be the last match. |
| `Lattice.Removed` | mujoco_xml_creator.py:100-103 | With a match, the last matching centre leaves: the result is one shorter, as a multiset it is the input less one copy of the point, and it is the input with the element at that last index cut out, the others in order. Without a match the list is unchanged. |
| `Lattice.RemoveUndesired` | mujoco_xml_creator.py:94-104 | The loop's result is `Removed(obj_center, undes_coord)`. On a match, the last matching index is popped and the count drops by one; otherwise nothing changes. With distinct centres the undesired point is then gone. |
| `Lattice.RemovedDistinct` | mujoco_xml_creator.py:100-103 | From a list without repeats the removal leaves a list without repeats, with no copy of the point and nothing new. |
| `Lattice.DrawnFromPool` | mujoco_xml_creator.py:44-56 | Every point in `crd_rnd` comes from `crd_all`. |
| `Lattice.ScriptLattice` | mujoco_xml_creator.py:81-92 | Width 9 and spacing 3 give `pts_qty` 4, reduced to 3: the 3 × 3 grid over {-3, 0, 3}. |
| `Lattice.SingleLatticePoint` | mujoco_xml_creator.py:15-59 | Side 1.5 and spacing 3 leave only `(0, 0)`: one draw returns it, and two draws have no valid answer. |
| `Scene.DigitChar` | mujoco_xml_creator.py:193 | A digit character denotes its value. |
| `Scene.Decimal` | mujoco_xml_creator.py:193 | `str(n)` is a non-empty string of decimal digits. |
| `Scene.DecimalRoundTrip` | mujoco_xml_creator.py:193 | Reading `str(n)` back as a decimal number gives `n`. |
| `Scene.DecimalInjective` | mujoco_xml_creator.py:193 | Different numbers have different `str` texts. |
| `Scene.BodyName` | mujoco_xml_creator.py:193 | definition: `object{i+1}` for every body but the last, which is `goal`. |
| `Scene.SensorName` | mujoco_xml_creator.py:252 | definition: `object{i+1}_pos` for every sensor but the last, which is `goal_pos`. |
| `Scene.SiteName` | mujoco_xml_creator.py:238 | definition: the body name followed by `_site`. |
| `Scene.BodyPosition` | mujoco_xml_creator.py:196-198 | definition: centre `i` at height `z` for every body but the last, which stands at `10 10 2.5`. |
| `Scene.BodySize` | mujoco_xml_creator.py:208 | definition: `robot_diagL robot_diagL z` for every body but the last, which is `0.5 0.5 0.5`. |
| `Scene.GoalIsLast` | mujoco_xml_creator.py:193 | A body is named `goal` iff it is the last one, `i == num_objects - 1`. |
| `Scene.BodyNamesDistinct` | mujoco_xml_creator.py:193 | No two bodies share a name. |
| `Scene.SensorNameMatchesBody` | mujoco_xml_creator.py:252-253 | The sensor of body `i` is that body's name plus `_pos`, `goal_pos` for the goal. |
| `Scene.PlaceBodies` | mujoco_xml_creator.py:191-241 | One body per object with distinct names; only the last is `goal`, at `10 10 2.5`; the others sit on their sampled centres. |
| `Scene.PlaceSensors` | mujoco_xml_creator.py:247-258 | One sensor per body, named after the body with `_pos` and observing that body's site. |
| `Scene.ScriptConfiguration` | mujoco_xml_creator.py:81-92 | The script's constants give spacing 3, width 9 and the nine-point lattice over {-3, 0, 3}. |
| `Scene.ScriptGrid` | mujoco_xml_creator.py:92 | The script's candidate list has 9 points. |
| `Scene.SceneCenters` | mujoco_xml_creator.py:92-104 | definition: the drawn centres with the last copy of `(0, 0)` popped, if there is one. |
| `Scene.SceneCentersFacts` | mujoco_xml_creator.py:92-104 | The centres left after the removal are distinct lattice points over {-3, 0, 3}, none of them `(0, 0)`, and one fewer than the draws exactly when `(0, 0)` was drawn. |
| `Scene.CreateScene` | mujoco_xml_creator.py:81-258 | The script gives 6 bodies, or 5 after removing a drawn `(0, 0)`. Body `i` is named `object{i+1}` and stands on centre `i` of the draws (with the start removed) at height `heights[i]`; the last is `goal` at `10 10 2.5`; the others are distinct lattice points off the start. Sensor `i` is named after body `i` with `_pos` and observes its site. |
| `Boundary.MarkerAxis` | obstacle_array.py:83-88 | `mgrid[lo:hi:5j]` gives 5 values whose first is `lo` and last is `hi`. |
| `Boundary.XAxis` | obstacle_array.py:87 | definition: the 5 `mgrid` values from `px - sx - padding` to `px + sx + padding`. |
| `Boundary.YAxis` | obstacle_array.py:88 | definition: the 5 `mgrid` values from `py - sy - padding` to `py + sy + padding`. |
| `Boundary.CandidateGrid` | obstacle_array.py:87-88 | definition: the 25 mesh points `(x[i, j], y[i, j])`, flattened row-major. |
| `Boundary.Kept` | obstacle_array.py:91-92 | definition: the mask, true when the point is on or outside at least one of the four bounds. |
| `Boundary.StrictlyInterior` | obstacle_array.py:91-92 | definition: strictly between the bounds on both axes, the negation of the mask. |
| `Boundary.MarkerAxisOrder` | obstacle_array.py:87-88 | For `lo < hi` the 3 inner values are strictly between the ends; for `hi <= lo` all values are in `[hi, lo]`. |
| `Boundary.KeepMask` | obstacle_array.py:91-96 | Boolean indexing keeps exactly the candidates that are not strictly interior. |
| `Boundary.KeepMaskConcat` | obstacle_array.py:94-96 | Masking a concatenation is the concatenation of the masked parts, so order is kept. |
| `Boundary.KeepMaskAll` | obstacle_array.py:91-96 | When every candidate passes the mask, nothing is dropped. |
| `Boundary.KeepMaskSame` | obstacle_array.py:91-96 | Two masks that agree on every point select the same points. |
| `Boundary.ObstacleBoundary` | obstacle_array.py:80-98 | An obstacle's kept points are exactly its mesh points that are not strictly inside the rectangle. |
| `Boundary.CandidateExtremes` | obstacle_array.py:83-88 | The mesh has 25 points, its extreme values are exactly `pos ± size`, and its corners are at flat indices 0, 4, 20 and 24. |
| `Boundary.KeptIffEdgeIndex` | obstacle_array.py:87-96 | With positive half-extents, candidate `(i, j)` is kept iff `i` or `j` is 0 or 4. |
| `Boundary.GridOfFive` | obstacle_array.py:87-88 | The 5-row mesh is its 5 rows in order. |
| `Boundary.InnerRow` | obstacle_array.py:91-96 | In a row strictly inside on x, only the two end candidates survive. |
| `Boundary.EdgeRow` | obstacle_array.py:91-96 | A row on an x bound is kept whole. |
| `Boundary.Ring` | obstacle_array.py:87-96 | definition: an independent listing of the 16 outer points of a 5 x 5 mesh in row-major order: row 0, the two ends of rows 1 to 3, then row 4. |
| `Boundary.BoundaryIsRing` | obstacle_array.py:87-96 | With positive half-extents the result is the 16 border points in row-major order; the 9 inner points are dropped. |
| `Boundary.BoundaryDegenerate` | obstacle_array.py:91-92 | With a zero or negative half-extent, all 25 candidates are kept. |
| `Boundary.KeptCount` | obstacle_array.py:87-96 | definition: 16 when both half-extents are positive, 25 otherwise. |
| `Boundary.BoundaryCount` | obstacle_array.py:87-96 | An obstacle contributes 16 points if both half-extents are positive, and 25 otherwise. |
| `Boundary.UnitSquareExample` | obstacle_array.py:87-96 | Half-extents (1, 1) at the origin give the mesh {-1, -0.5, 0, 0.5, 1}, keep 16 points and drop (0, 0) and (0.5, 0.5); half-extents (0, 1) keep all 25. |
| `Boundary.CornersKept` | obstacle_array.py:87-92 | The four corners `(px ± sx, py ± sy)` are always kept. |
| `Boundary.PlanarOnly` | obstacle_array.py:80-81 | Only the first two components of position and size matter; z is ignored. |
| `Boundary.Groups` | obstacle_array.py:76-100 | definition: the arrays `obj_temp`, one per obstacle, in obstacle order. |
| `Boundary.Flatten` | obstacle_array.py:102 | definition: `np.vstack` of the per-obstacle arrays, their concatenation in list order. |
| `Boundary.PointCloud` | obstacle_array.py:68-104 | definition: the value `object_placement` returns, before rounding: the stacked per-obstacle boundaries. |
| `Boundary.TotalCount` | obstacle_array.py:76-102 | definition: the sum of the per-obstacle counts. |
| `Boundary.GroupsPrefix` | obstacle_array.py:76-100 | The per-obstacle list built for a prefix of the obstacles is a prefix of the whole list. |
| `Boundary.FlattenAt` | obstacle_array.py:102 | After `vstack`, group `k` starts right after the points of the groups before it. |
| `Boundary.CloudLength` | obstacle_array.py:76-102 | The stacked array's length is the sum of the per-obstacle counts. |
| `Boundary.CloudGroupAt` | obstacle_array.py:76-102 | Obstacle `k`'s points appear in order, starting at the sum of the earlier counts, and none is strictly inside obstacle `k`. |
| `Boundary.CloudLengthRegular` | obstacle_array.py:76-102 | With positive half-extents throughout, the array holds exactly 16 points per obstacle. |
| `Boundary.ObjectPlacement` | obstacle_array.py:68-104 | The loop and `vstack` return the concatenation of the per-obstacle kept points, with the per-obstacle counts summed as its length. |

## Left out

- XML tree construction, pretty-printing, the file write and the console print (`mujoco_xml_creator.py:135-275`): library plumbing. Bodies and sensors are reduced to name, position, size and site name; mass, inertia, joint, colour and the `solo_flag` header elements are not modelled.
- The random attributes `pos_rand_z`, mass and colour: `random.uniform` and float rounding. Heights come from the caller, and mass and colour are omitted.
- The `random` module: replaced by the index oracle. No generator is modelled.
- Plotting in both files (`mujoco_xml_creator.py:106-127`, `obstacle_array.py:107-176`) and the DWA array printout (`obstacle_array.py:127-130`): user interface and I/O.
- `xml_parser` (`obstacle_array.py:20-65`): ElementTree traversal and float parsing. Its output is the input of `ObjectPlacement`. For a cylinder, its two size values (radius and half-height) would be read as the x and y half-extents; this model takes whatever rows it is given.
- `np.round(..., 2)` (`obstacle_array.py:98`): decimal rounding of doubles is not modelled, and the kept points are returned unrounded.
- IEEE double behaviour of the divisions, `mgrid` and the mask comparisons: exact reals are used instead. In floating point the last `mgrid` value, and the exact-equality match against `undes_coord`, may differ from the real-number result.
- `RandomCoordinates`: a draw past the end of the list (`randint(0, -1)` raising `ValueError`) is excluded by the oracle precondition, not modelled as an error value. `CapacityExact` shows that exactly the over-capacity requests are excluded.
- `AxisCount`, `RandomCoordinates`: a zero spacing, where `int(length / height)` raises `ZeroDivisionError`, is excluded by the precondition `height != 0.0`, not modelled as an error value.
- `ObjectPlacement`: an empty obstacle list, where `np.vstack` raises, is excluded by a precondition.
