# Homography demo: drag state, hit testing and frame geometry

This project models the per-frame logic of an interactive homography demo. The
scene is a fixed list of overlapping rectangles. The user drags one corner of one
rectangle. A single projective transform is derived from that rectangle's rest
corners and their destination, and it is applied to the rest corners of every
rectangle in the scene.

The model covers four pieces of `homography_demo.py`:

- **Shape registry** (`Shapes`). `MakeRectangle` turns a centre, width, height and
  colour into four rest corners. The corners are listed top-left, top-right,
  bottom-right, bottom-left.
- **Input tracker** (`InputTracker`). `Step` is the mouse callback as a pure
  transition on an explicit `DragState` (`None`, or `Some(Drag(rectIdx, vertexIdx,
  pos))`).
  - A pointer-down runs the nearest-vertex scan (`ScanBefore`/`Pick`) against the
    displayed quads. A vertex qualifies when it is strictly closer than twice the
    marker radius (10 pixels).
  - The scan replaces its choice only by a strictly closer vertex, so the earliest
    vertex in (shape, vertex) order wins ties.
  - A move updates the position of an active drag. A pointer-up clears the drag.
    Any other event changes nothing.
- **Frame geometry** (`Frame`). `Displayed` builds the destination quad and calls
  the derivation. On success it transforms the concatenation of all rest vertices
  in one batch (`Flatten`, `ApplyAll`) and regroups the result per shape
  (`Regroup`). With no drag, or when the derivation fails, it shows the rest
  geometry.
  - The derivation (`getPerspectiveTransform`) is the parameter
    `derive: (Quad, Quad) -> Option<M>`. It may fail.
  - The point transform (`perspectiveTransform`, one point at a time) is the
    parameter `apply: (M, Point) -> Point`.
- **Marker colours** (`Markers`). `MarkerColor` is the colour of vertex `j` of
  shape `i`, given the drag state.

`MainLoop.RunFrames` strings frames together. Each frame's displayed quads come
from the drag state at the start of the frame, and that frame's events are
hit-tested against them.

Coordinates are `real`. The Euclidean distance test `dist < 10` is modelled as
`Dist2 < 100` on squared distances. Comparing two distances is modelled as
comparing their squares. Both are exact: on non-negative reals, squaring
preserves and reflects the order (`Geometry.SquareOrder`).

A pointer-down during an active drag re-runs the hit test. If it hits a vertex,
the drag moves to that vertex (`DownIgnoresCurrentDrag`). If it hits nothing, the
drag continues.

## Model

| member | source | states |
|---|---|---|
| Geometry.Dist2 | homography_demo.py:68 | the squared distance is non-negative, and it is zero exactly when the two points are equal |
| Geometry.SquareOrder | homography_demo.py:68-69 | for non-negative distances, one is below the other exactly when its square is, so `dist < 10` and `dist < min_dist` can be decided on squared distances |
| Shapes.MakeRectangle | homography_demo.py:23-34 | the corners form the axis-aligned rectangle of the given centre, width and height: both diagonals are bisected by the centre, the top and bottom edges are horizontal, the side edges are vertical, and the top edge spans the width and the left edge spans the height; the colour is kept |
| Shapes.AxisRectangleCorners | homography_demo.py:24-32 | any quad with those rectangle properties is exactly `[(cx-w/2,cy-h/2),(cx+w/2,cy-h/2),(cx+w/2,cy+h/2),(cx-w/2,cy+h/2)]` |
| Shapes.CornerOrder | homography_demo.py:27-32 | for a non-negative size, the first corner is the top-left extreme and the third corner is the bottom-right extreme |
| InputTracker.ScanBefore | homography_demo.py:64-71 | after scanning every vertex before (i, j), the scan holds nothing exactly when no scanned vertex is in the pick radius; otherwise it holds an in-radius vertex that is no farther than any in-radius scanned vertex and strictly closer than every in-radius vertex scanned before it |
| InputTracker.Pick | homography_demo.py:63-73 | the hit test finds nothing exactly when no displayed vertex is strictly within the pick radius; otherwise it picks the first of the closest in-radius vertices in (shape, vertex) order |
| InputTracker.NearestIsUnique | homography_demo.py:69-71 | at most one vertex is the first of the closest, so the hit test's choice is determined |
| InputTracker.Step | homography_demo.py:57-85 | on a pointer-down that hits nothing, the state is unchanged, whether idle or dragging; on a hit, the new drag is on the nearest vertex with the pointer-down point as position; a move keeps the dragged vertex, updates only the position, and leaves an idle state idle; a pointer-up always yields no drag; any other event changes nothing |
| InputTracker.DownIgnoresCurrentDrag | homography_demo.py:63-78 | a pointer-down that hits a vertex gives the same state whatever the prior state was, so it can retarget an active drag |
| InputTracker.StepKeepsValid | homography_demo.py:66-78 | hit-testing the quads of an n-shape scene only ever gives a drag on an existing vertex (shape below n, vertex below 4) |
| InputTracker.DownOnVertex | homography_demo.py:63-78 | a pointer-down exactly on a displayed vertex starts a drag on that vertex, at that point, provided no earlier vertex in scan order lies on the same point |
| InputTracker.HandleEventsAppend | homography_demo.py:57-85 | handling two event sequences one after the other is the same as handling their concatenation |
| InputTracker.HandleEventsKeepsValid | homography_demo.py:57-85 | any sequence of events keeps the drag on an existing vertex |
| InputTracker.MovesKeepTarget | homography_demo.py:80-82 | during a drag, any number of moves keeps the dragged shape and vertex, and leaves the position at the last move (or unchanged when there are no moves) |
| InputTracker.MovesWhileIdle | homography_demo.py:80-82 | moves while idle never start a drag |
| InputTracker.DragLifecycle | homography_demo.py:63-85 | a pointer-down that hits starts a drag; k moves keep its vertex and track the pointer; the sequence down, k moves, up ends idle, for every k |
| Frame.Flatten | homography_demo.py:115 | concatenating the quads gives 4 points per shape, with vertex j of shape i at position 4i+j |
| Frame.Regroup | homography_demo.py:117-118 | reshaping 4n points gives n quads, with vertex j of quad i being point 4i+j |
| Frame.RegroupFlatten | homography_demo.py:115-118 | reshaping the concatenation gives back the original quads |
| Frame.FlattenRegroup | homography_demo.py:115-117 | concatenating the reshaped quads gives back the original batch |
| Frame.ApplyAllConcat | homography_demo.py:115-116 | transforming a concatenated batch with `Frame.ApplyAll`, which maps each point on its own, is the same as transforming its parts and concatenating the results |
| Frame.DestQuad | homography_demo.py:110-111 | the destination quad is the pointer at the dragged index and equals the rest quad at the other three indices |
| Frame.TargetQuad | homography_demo.py:109-111 | the destination quad of the correspondence is the dragged shape's rest quad with the dragged corner at the pointer and the other three corners at rest |
| Frame.Displayed | homography_demo.py:102-120 | the frame has one quad per shape; with no drag, or when the derivation from (dragged rest quad `SourceQuad`, destination quad `TargetQuad`) fails, the frame is exactly the rest geometry (`Shapes.RestQuads`, the shapes' corner quads in shape order); otherwise every vertex j of every shape i, dragged or not, is the derived transform applied to that shape's rest vertex j |
| Frame.DraggedShapeFollowsPointer | homography_demo.py:109-118 | if the derived transform maps each source corner onto its destination corner, then the dragged corner is shown under the pointer and the other three corners of that shape stay at rest |
| Frame.OtherShapesMoveToo | homography_demo.py:115-118 | a vertex of any shape, not only the dragged one, leaves its rest position whenever the derived transform moves it |
| Markers.MarkerColor | homography_demo.py:139-154 | a marker is in the drag colour exactly when it is the dragged vertex; it is in the hint colour exactly when it is another vertex of the dragged shape; it is in the default colour exactly when there is no drag or it belongs to another shape |
| Markers.OneDraggedMarker | homography_demo.py:139-154 | during a drag, the set of drag-coloured markers in the frame is exactly the dragged vertex |
| Markers.ThreeHintMarkers | homography_demo.py:147-154 | during a drag, exactly three markers are in the hint colour |
| InputTracker.HandleEvents | homography_demo.py:158-161 | the events delivered during one frame are handled in arrival order, all hit-tested against that frame's displayed quads; a sequence ending with a pointer-up ends idle, and a sequence without a pointer-down can neither start a drag nor move it to another vertex |
| MainLoop.RunFrames | homography_demo.py:98-161 | over any run of frames and events, each hit-tested against that frame's displayed quads, the drag always refers to an existing vertex, so the dragged shape is always found |
| MainLoop.ReleaseEndsRun | homography_demo.py:84-85 | a run whose last event is a pointer-up ends with no drag |

## Left out

- The window, event loop, `setMouseCallback`, `imshow`, `waitKey` and the quit check are input/output. They are replaced by the explicit event sequences of `MainLoop.RunFrames`.
- The internals of `getPerspectiveTransform` and `perspectiveTransform` are foreign float32 linear algebra. They are the parameters `derive` (which may fail) and `apply`. So the exact-interpolation property of the solver is a hypothesis of `Frame.DraggedShapeFollowsPointer`, not a theorem. No concrete warp is computed. For example, dragging corner (10,10) of the square (0,0),(10,0),(10,10),(0,10) to (20,20) and asking where a second shape's vertex (5,5) lands needs the actual solver.
- `perspectiveTransform` is modelled as total. Only the derivation can fail, and a failure anywhere in the `try` block falls back to the rest geometry the same way.
- Rasterisation and blending are foreign drawing calls with integer truncation, rounding and saturation. This covers `fillPoly`, `polylines`, `circle` and the sequential `addWeighted` alpha blend. Only the colour choice of the markers is modelled.
- `initialize_rectangles` is hard-coded layout data plus console output. The scene is any sequence of rectangles.
- float32 vertex storage and int32 casts for drawing are not modelled. Coordinates are exact reals.
- The process-wide mutable `dragged_point_info` becomes a value passed through `InputTracker.Step`.
- Geometry.Dist2: the Euclidean norm itself (a square root) is not modelled. The pick test and the nearest-vertex comparison use squared distances, which order points the same way (`Geometry.SquareOrder`).
