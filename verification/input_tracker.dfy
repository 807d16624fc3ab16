/** The input tracker: a pure transition function from a pointer event and the
    currently displayed quads to the next drag state. */
module InputTracker {
  import opened Wrappers
  import opened Geometry

  /** Radius of a drawn vertex marker. */
  const VertexRadius: real := 5.0

  /** A pointer-down picks a vertex only if it is strictly closer than twice the
      marker radius. */
  const PickRadius: real := 2.0 * VertexRadius

  /** The pick test on squared distances: for a non-negative distance `dist`,
      `dist < PickRadius` holds exactly when `dist * dist < PickRadius * PickRadius`. */
  predicate InPickRadius(v: Point, p: Point)
  {
    Dist2(v, p) < PickRadius * PickRadius
  }

  /** The dragged vertex (shape index, vertex index) and the last pointer position. */
  datatype Drag = Drag(rectIdx: nat, vertexIdx: nat, pos: Point)

  /** No drag, or exactly one active drag. */
  type DragState = Option<Drag>

  /** A vertex chosen by the hit test. */
  datatype VertexRef = VertexRef(rectIdx: nat, vertexIdx: nat)

  /** Pointer events; any other kind of event is delivered as `OtherEvent`. */
  datatype Event =
    | ButtonDown(at: Point)
    | MouseMove(at: Point)
    | ButtonUp(at: Point)
    | OtherEvent(at: Point)

  /** (i, j) names a vertex of the displayed quads. */
  predicate IsVertex(quads: seq<Quad>, i: int, j: int)
  {
    0 <= i < |quads| && 0 <= j < 4
  }

  /** (i, j) comes before (bi, bj) in the scan order: by shape, then by vertex. */
  predicate Before(i: int, j: int, bi: int, bj: int)
  {
    i < bi || (i == bi && j < bj)
  }

  /** No vertex visited before (bi, bj) lies within the pick radius of p. */
  ghost predicate NoneInRadiusBefore(quads: seq<Quad>, p: Point, bi: int, bj: int)
  {
    forall i, j | IsVertex(quads, i, j) && Before(i, j, bi, bj) :: !InPickRadius(quads[i][j], p)
  }

  /** Among the vertices visited before (bi, bj), v lies within the pick radius,
      no qualifying vertex is closer, and every qualifying vertex visited before v
      is strictly farther (so v is the first of the closest). */
  ghost predicate IsNearestBefore(quads: seq<Quad>, p: Point, v: VertexRef, bi: int, bj: int)
  {
    && IsVertex(quads, v.rectIdx, v.vertexIdx)
    && Before(v.rectIdx, v.vertexIdx, bi, bj)
    && InPickRadius(quads[v.rectIdx][v.vertexIdx], p)
    && (forall i, j | IsVertex(quads, i, j) && Before(i, j, bi, bj) && InPickRadius(quads[i][j], p) ::
          Dist2(quads[v.rectIdx][v.vertexIdx], p) <= Dist2(quads[i][j], p))
    && (forall i, j | IsVertex(quads, i, j) && Before(i, j, v.rectIdx, v.vertexIdx) && InPickRadius(quads[i][j], p) ::
          Dist2(quads[v.rectIdx][v.vertexIdx], p) < Dist2(quads[i][j], p))
  }

  /** The choice of the whole scan. */
  ghost predicate IsNearest(quads: seq<Quad>, p: Point, v: VertexRef)
  {
    IsNearestBefore(quads, p, v, |quads|, 0)
  }

  /** No displayed vertex lies within the pick radius of p. */
  ghost predicate NoneInRadius(quads: seq<Quad>, p: Point)
  {
    NoneInRadiusBefore(quads, p, |quads|, 0)
  }

  /** The nearest-vertex scan after visiting every vertex before (bi, bj): the
      current choice is replaced only by a vertex within the pick radius that is
      strictly closer than it. */
  function ScanBefore(quads: seq<Quad>, p: Point, bi: nat, bj: nat): (r: Option<VertexRef>)
    requires (bi < |quads| && bj <= 4) || (bi == |quads| && bj == 0)
    ensures r.None? <==> NoneInRadiusBefore(quads, p, bi, bj)
    ensures r.Some? ==> IsNearestBefore(quads, p, r.value, bi, bj)
    decreases bi, bj
  {
    if bj == 0 then
      if bi == 0 then None else ScanBefore(quads, p, bi - 1, 4)
    else
      var best := ScanBefore(quads, p, bi, bj - 1);
      var v := quads[bi][bj - 1];
      if InPickRadius(v, p) && (best.None? || Dist2(v, p) < Dist2(quads[best.value.rectIdx][best.value.vertexIdx], p))
      then Some(VertexRef(bi, bj - 1))
      else best
  }

  /** The hit test of a pointer-down at p against the displayed quads. */
  function Pick(quads: seq<Quad>, p: Point): (r: Option<VertexRef>)
    ensures r.None? <==> NoneInRadius(quads, p)
    ensures r.Some? ==> IsNearest(quads, p, r.value)
  {
    ScanBefore(quads, p, |quads|, 0)
  }

  /** The choice is unique: at most one vertex is the first of the closest. */
  lemma NearestIsUnique(quads: seq<Quad>, p: Point, v: VertexRef, w: VertexRef)
    requires IsNearest(quads, p, v) && IsNearest(quads, p, w)
    ensures v == w
  {
  }

  /** One pointer event. A pointer-down re-runs the hit test, whether or not a
      drag is active, and leaves the state alone when nothing is hit; a move
      updates only the position of an active drag; a pointer-up ends any drag. */
  function Step(s: DragState, e: Event, displayed: seq<Quad>): (r: DragState)
    ensures e.ButtonDown? && NoneInRadius(displayed, e.at) ==> r == s
    ensures e.ButtonDown? && !NoneInRadius(displayed, e.at) ==>
      r.Some? && r.value.pos == e.at && IsNearest(displayed, e.at, VertexRef(r.value.rectIdx, r.value.vertexIdx))
    ensures e.MouseMove? ==> (r.Some? <==> s.Some?)
    ensures e.MouseMove? && s.Some? ==>
      r.value.rectIdx == s.value.rectIdx && r.value.vertexIdx == s.value.vertexIdx && r.value.pos == e.at
    ensures e.ButtonUp? ==> r.None?
    ensures e.OtherEvent? ==> r == s
  {
    match e
    case ButtonDown(p) =>
      (match Pick(displayed, p)
       case None => s
       case Some(v) => Some(Drag(v.rectIdx, v.vertexIdx, p)))
    case MouseMove(p) =>
      if s.Some? then Some(s.value.(pos := p)) else s
    case ButtonUp(_) => None
    case OtherEvent(_) => s
  }

  /** A pointer-down that hits a vertex does not depend on the current state: a
      pointer-down during a drag re-runs the hit test and may move the drag to
      another vertex. */
  lemma DownIgnoresCurrentDrag(s: DragState, t: DragState, p: Point, displayed: seq<Quad>)
    requires !NoneInRadius(displayed, p)
    ensures Step(s, ButtonDown(p), displayed) == Step(t, ButtonDown(p), displayed)
  {
  }

  /** The drag refers to an existing vertex of a scene of n shapes. */
  predicate ValidDrag(s: DragState, n: nat)
  {
    s.Some? ==> s.value.rectIdx < n && s.value.vertexIdx < 4
  }

  /** Hit testing against the displayed quads of an n-shape scene only ever
      yields a drag on an existing vertex. */
  lemma StepKeepsValid(s: DragState, e: Event, displayed: seq<Quad>, n: nat)
    requires ValidDrag(s, n) && |displayed| == n
    ensures ValidDrag(Step(s, e, displayed), n)
  {
  }

  /** A pointer-down exactly on a displayed vertex starts a drag on it, provided
      no vertex earlier in scan order lies on the same point. */
  lemma DownOnVertex(s: DragState, displayed: seq<Quad>, i: nat, j: nat)
    requires IsVertex(displayed, i, j)
    requires forall i', j' | IsVertex(displayed, i', j') && Before(i', j', i, j) :: displayed[i'][j'] != displayed[i][j]
    ensures Step(s, ButtonDown(displayed[i][j]), displayed) == Some(Drag(i, j, displayed[i][j]))
  {
  }

  /** The events of one frame, handled in arrival order against the same
      displayed quads. */
  function HandleEvents(s: DragState, events: seq<Event>, displayed: seq<Quad>): (r: DragState)
    ensures |events| > 0 && events[|events| - 1].ButtonUp? ==> r.None?
    ensures (forall k | 0 <= k < |events| :: !events[k].ButtonDown?) ==>
      (r.Some? ==> s.Some? && r.value.rectIdx == s.value.rectIdx && r.value.vertexIdx == s.value.vertexIdx)
    decreases |events|
  {
    if |events| == 0 then s else HandleEvents(Step(s, events[0], displayed), events[1..], displayed)
  }

  /** Handling a concatenation of event sequences is handling one after the other. */
  lemma {:induction false} HandleEventsAppend(s: DragState, a: seq<Event>, b: seq<Event>, displayed: seq<Quad>)
    ensures HandleEvents(s, a + b, displayed) == HandleEvents(HandleEvents(s, a, displayed), b, displayed)
    decreases |a|
  {
    if |a| == 0 {
      assert a + b == b;
    } else {
      assert (a + b)[0] == a[0];
      assert (a + b)[1..] == a[1..] + b;
      HandleEventsAppend(Step(s, a[0], displayed), a[1..], b, displayed);
    }
  }

  /** A batch of events keeps the drag on an existing vertex. */
  lemma {:induction false} HandleEventsKeepsValid(s: DragState, events: seq<Event>, displayed: seq<Quad>, n: nat)
    requires ValidDrag(s, n) && |displayed| == n
    ensures ValidDrag(HandleEvents(s, events, displayed), n)
    decreases |events|
  {
    if |events| > 0 {
      StepKeepsValid(s, events[0], displayed, n);
      HandleEventsKeepsValid(Step(s, events[0], displayed), events[1..], displayed, n);
    }
  }

  /** Pointer moves to each of the given positions. */
  function Moves(ps: seq<Point>): (r: seq<Event>)
    ensures |r| == |ps|
    ensures forall k | 0 <= k < |ps| :: r[k] == MouseMove(ps[k])
  {
    seq(|ps|, k requires 0 <= k < |ps| => MouseMove(ps[k]))
  }

  /** During a drag, any number of moves keeps the dragged vertex and leaves the
      drag at the last position; with no moves the drag is unchanged. */
  lemma {:induction false} MovesKeepTarget(d: Drag, ps: seq<Point>, displayed: seq<Quad>)
    ensures HandleEvents(Some(d), Moves(ps), displayed)
      == Some(if |ps| == 0 then d else d.(pos := ps[|ps| - 1]))
    decreases |ps|
  {
    if |ps| > 0 {
      assert Moves(ps)[1..] == Moves(ps[1..]);
      MovesKeepTarget(d.(pos := ps[0]), ps[1..], displayed);
    }
  }

  /** Moves while idle change nothing. */
  lemma MovesWhileIdle(ps: seq<Point>, displayed: seq<Quad>)
    ensures HandleEvents(None, Moves(ps), displayed) == None
  {
  }

  /** The drag lifecycle: a pointer-down that hits a vertex starts a drag at the
      pointer, k moves keep that vertex, and the pointer-up ends idle, for every k. */
  lemma DragLifecycle(s: DragState, down: Point, ps: seq<Point>, up: Point, displayed: seq<Quad>)
    requires !NoneInRadius(displayed, down)
    ensures var d := Step(s, ButtonDown(down), displayed);
      && d.Some?
      && HandleEvents(d, Moves(ps), displayed)
           == Some(if |ps| == 0 then d.value else d.value.(pos := ps[|ps| - 1]))
      && HandleEvents(s, [ButtonDown(down)] + Moves(ps) + [ButtonUp(up)], displayed) == None
  {
    var d := Step(s, ButtonDown(down), displayed);
    MovesKeepTarget(d.value, ps, displayed);
    HandleEventsAppend(s, [ButtonDown(down)] + Moves(ps), [ButtonUp(up)], displayed);
    HandleEventsAppend(s, [ButtonDown(down)], Moves(ps), displayed);
  }
}
