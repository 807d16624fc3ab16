/** The frame loop: each iteration computes the displayed quads from the drag state
    at the start of the frame, and the pointer events delivered during that frame
    are hit-tested against those quads. */
module MainLoop {
  import opened Wrappers
  import opened Geometry
  import opened Shapes
  import opened InputTracker
  import opened Frame

  /** The drag state after a run of frames, each with the events delivered during it. */
  function RunFrames<M>(scene: seq<Rectangle>, s: DragState, frames: seq<seq<Event>>,
                        derive: (Quad, Quad) -> Option<M>, apply: (M, Point) -> Point): (r: DragState)
    requires ValidDrag(s, |scene|)
    ensures ValidDrag(r, |scene|)
    decreases |frames|
  {
    if |frames| == 0 then s
    else
      var displayed := Displayed(scene, s, derive, apply);
      HandleEventsKeepsValid(s, frames[0], displayed, |scene|);
      RunFrames(scene, HandleEvents(s, frames[0], displayed), frames[1..], derive, apply)
  }

  /** A run whose last frame ends with a pointer-up ends idle. */
  lemma {:induction false} ReleaseEndsRun<M>(scene: seq<Rectangle>, s: DragState, frames: seq<seq<Event>>, up: Point,
                                             derive: (Quad, Quad) -> Option<M>, apply: (M, Point) -> Point)
    requires ValidDrag(s, |scene|)
    requires |frames| > 0
    requires var last := frames[|frames| - 1]; |last| > 0 && last[|last| - 1] == ButtonUp(up)
    ensures RunFrames(scene, s, frames, derive, apply).None?
    decreases |frames|
  {
    var displayed := Displayed(scene, s, derive, apply);
    HandleEventsKeepsValid(s, frames[0], displayed, |scene|);
    var next := HandleEvents(s, frames[0], displayed);
    if |frames| == 1 {
      var f := frames[0];
      assert f == f[..|f| - 1] + [ButtonUp(up)];
      HandleEventsAppend(s, f[..|f| - 1], [ButtonUp(up)], displayed);
    } else {
      ReleaseEndsRun(scene, next, frames[1..], up, derive, apply);
    }
  }
}
