/** The per-frame geometry: while a vertex is dragged, one projective transform is
    derived from the dragged shape's rest quad and its destination quad, and is
    applied to the rest vertices of every shape, concatenated into one batch and
    regrouped per shape; otherwise, or when the derivation fails, every shape is
    shown at rest.

    The derivation and the per-point application are foreign linear algebra and
    enter as parameters: `derive(src, dst)` returns a transform or fails, and
    `apply(m, v)` maps one point. */
module Frame {
  import opened Wrappers
  import opened Geometry
  import opened Shapes
  import opened InputTracker

  /** Concatenation of the quads into one batch of points, four per shape. */
  function Flatten(qs: seq<Quad>): (r: seq<Point>)
    ensures |r| == 4 * |qs|
    ensures forall i, j | 0 <= i < |qs| && 0 <= j < 4 :: r[4 * i + j] == qs[i][j]
  {
    if |qs| == 0 then []
    else
      var rest := Flatten(qs[1..]);
      assert forall i, j | 1 <= i < |qs| && 0 <= j < 4 :: rest[4 * (i - 1) + j] == qs[i][j];
      qs[0] + rest
  }

  /** A batch of 4 * n points cut back into n quads of four consecutive points. */
  function Regroup(pts: seq<Point>, n: nat): (r: seq<Quad>)
    requires |pts| == 4 * n
    ensures |r| == n
    ensures forall i, j | 0 <= i < n && 0 <= j < 4 :: r[i][j] == pts[4 * i + j]
  {
    if n == 0 then []
    else
      [pts[..4]] + Regroup(pts[4..], n - 1)
  }

  /** Regrouping undoes flattening. */
  lemma RegroupFlatten(qs: seq<Quad>)
    ensures Regroup(Flatten(qs), |qs|) == qs
  {
  }

  /** Flattening undoes regrouping. */
  lemma FlattenRegroup(pts: seq<Point>, n: nat)
    requires |pts| == 4 * n
    ensures Flatten(Regroup(pts, n)) == pts
  {
  }

  /** The batched point transform: each point is mapped on its own. */
  function ApplyAll<M>(m: M, pts: seq<Point>, apply: (M, Point) -> Point): (r: seq<Point>)
    ensures |r| == |pts|
    ensures forall k | 0 <= k < |pts| :: r[k] == apply(m, pts[k])
  {
    seq(|pts|, k requires 0 <= k < |pts| => apply(m, pts[k]))
  }

  /** Transforming a concatenated batch is transforming its parts separately. */
  lemma ApplyAllConcat<M>(m: M, a: seq<Point>, b: seq<Point>, apply: (M, Point) -> Point)
    ensures ApplyAll(m, a + b, apply) == ApplyAll(m, a, apply) + ApplyAll(m, b, apply)
  {
  }

  /** The destination quad: the rest quad with the dragged corner moved to the pointer. */
  function DestQuad(rest: Quad, vertexIdx: nat, pos: Point): (r: Quad)
    requires vertexIdx < 4
    ensures r[vertexIdx] == pos
    ensures forall j | 0 <= j < 4 && j != vertexIdx :: r[j] == rest[j]
  {
    rest[vertexIdx := pos]
  }

  /** The source quad of the correspondence: the dragged shape's rest quad. */
  function SourceQuad(scene: seq<Rectangle>, d: Drag): Quad
    requires d.rectIdx < |scene|
  {
    scene[d.rectIdx].vertices
  }

  /** The quad the dragged shape should take: its rest quad with the dragged
      corner at the pointer. */
  function TargetQuad(scene: seq<Rectangle>, d: Drag): (r: Quad)
    requires d.rectIdx < |scene| && d.vertexIdx < 4
    ensures r[d.vertexIdx] == d.pos
    ensures forall j | 0 <= j < 4 && j != d.vertexIdx :: r[j] == scene[d.rectIdx].vertices[j]
  {
    DestQuad(SourceQuad(scene, d), d.vertexIdx, d.pos)
  }

  /** The quads displayed this frame. */
  function Displayed<M>(scene: seq<Rectangle>, drag: DragState,
                        derive: (Quad, Quad) -> Option<M>, apply: (M, Point) -> Point): (r: seq<Quad>)
    requires ValidDrag(drag, |scene|)
    ensures |r| == |scene|
    ensures drag.None? ==> r == RestQuads(scene)
    ensures drag.Some? && derive(SourceQuad(scene, drag.value), TargetQuad(scene, drag.value)).None? ==>
      r == RestQuads(scene)
    ensures drag.Some? && derive(SourceQuad(scene, drag.value), TargetQuad(scene, drag.value)).Some? ==>
      var m := derive(SourceQuad(scene, drag.value), TargetQuad(scene, drag.value)).value;
      forall i, j | 0 <= i < |scene| && 0 <= j < 4 :: r[i][j] == apply(m, scene[i].vertices[j])
  {
    var rest := RestQuads(scene);
    if drag.None? then rest
    else
      match derive(SourceQuad(scene, drag.value), TargetQuad(scene, drag.value))
      case None => rest
      case Some(m) =>
        var all := Flatten(rest);
        var moved := ApplyAll(m, all, apply);
        var r := Regroup(moved, |scene|);
        assert forall i, j | 0 <= i < |scene| && 0 <= j < 4 :: r[i][j] == moved[4 * i + j];
        r
  }

  /** When the derived transform interpolates its correspondence (each source
      corner lands on its destination corner), the dragged shape is shown with
      the dragged corner under the pointer and its other three corners at rest. */
  lemma DraggedShapeFollowsPointer<M>(scene: seq<Rectangle>, d: Drag,
                                      derive: (Quad, Quad) -> Option<M>, apply: (M, Point) -> Point)
    requires ValidDrag(Some(d), |scene|)
    requires derive(SourceQuad(scene, d), TargetQuad(scene, d)).Some?
    requires var m := derive(SourceQuad(scene, d), TargetQuad(scene, d)).value;
      forall k | 0 <= k < 4 :: apply(m, SourceQuad(scene, d)[k]) == TargetQuad(scene, d)[k]
    ensures Displayed(scene, Some(d), derive, apply)[d.rectIdx][d.vertexIdx] == d.pos
    ensures forall j | 0 <= j < 4 && j != d.vertexIdx ::
      Displayed(scene, Some(d), derive, apply)[d.rectIdx][j] == scene[d.rectIdx].vertices[j]
  {
  }

  /** The transform is global: a shape other than the dragged one is moved by the
      same transform, so it leaves its rest position whenever the transform moves
      one of its corners. */
  lemma OtherShapesMoveToo<M>(scene: seq<Rectangle>, d: Drag, i: nat, j: nat,
                              derive: (Quad, Quad) -> Option<M>, apply: (M, Point) -> Point)
    requires ValidDrag(Some(d), |scene|)
    requires i < |scene| && j < 4
    requires derive(SourceQuad(scene, d), TargetQuad(scene, d)).Some?
    requires apply(derive(SourceQuad(scene, d), TargetQuad(scene, d)).value, scene[i].vertices[j]) != scene[i].vertices[j]
    ensures Displayed(scene, Some(d), derive, apply)[i][j] != scene[i].vertices[j]
  {
  }
}
