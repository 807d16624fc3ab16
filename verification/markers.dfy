/** The vertex-marker colour rule of the render pass. */
module Markers {
  import opened Shapes
  import opened InputTracker

  /** Default marker colour (orange). */
  const VertexColor: Color := Color(0, 165, 255)

  /** The other corners of the dragged shape (blue). */
  const HintColor: Color := Color(255, 0, 0)

  /** The dragged corner (red). */
  const DragVertexColor: Color := Color(0, 0, 255)

  /** The colour of the marker of vertex j of shape i. */
  function MarkerColor(i: nat, j: nat, drag: DragState): (c: Color)
    ensures c == DragVertexColor <==> drag.Some? && i == drag.value.rectIdx && j == drag.value.vertexIdx
    ensures c == HintColor <==> drag.Some? && i == drag.value.rectIdx && j != drag.value.vertexIdx
    ensures c == VertexColor <==> drag.None? || i != drag.value.rectIdx
  {
    if drag.Some? && i == drag.value.rectIdx then
      if j == drag.value.vertexIdx then DragVertexColor else HintColor
    else
      VertexColor
  }

  /** During a drag, exactly one marker of the frame is drawn in the drag colour. */
  lemma OneDraggedMarker(n: nat, drag: DragState)
    requires drag.Some? && ValidDrag(drag, n)
    ensures (set i, j | 0 <= i < n && 0 <= j < 4 && MarkerColor(i, j, drag) == DragVertexColor :: (i, j))
         == {(drag.value.rectIdx, drag.value.vertexIdx)}
  {
  }

  /** During a drag, exactly three markers get the hint colour: the other corners
      of the dragged shape. */
  lemma ThreeHintMarkers(n: nat, drag: DragState)
    requires drag.Some? && ValidDrag(drag, n)
    ensures |set i, j | 0 <= i < n && 0 <= j < 4 && MarkerColor(i, j, drag) == HintColor :: (i, j)| == 3
  {
    var d := drag.value;
    var s := set i, j | 0 <= i < n && 0 <= j < 4 && MarkerColor(i, j, drag) == HintColor :: (i, j);
    var others := set j | 0 <= j < 4 && j != d.vertexIdx :: (d.rectIdx, j);
    assert s == others;
    var r := d.rectIdx;
    if d.vertexIdx == 0 {
      assert others == {(r, 1), (r, 2), (r, 3)};
    } else if d.vertexIdx == 1 {
      assert others == {(r, 0), (r, 2), (r, 3)};
    } else if d.vertexIdx == 2 {
      assert others == {(r, 0), (r, 1), (r, 3)};
    } else {
      assert others == {(r, 0), (r, 1), (r, 2)};
    }
  }
}
