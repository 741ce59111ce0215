/** The drag-versus-click detector that `ifIclickoutsidegetout` installs on
    the document: a press records the pointer, a move farther than the
    threshold marks a drag, and a release that is not the end of a drag, made
    on the canvas and outside the toolkit panel, leaves customization for the
    carousel. */
module Gesture {
  import opened Base
  import opened Scene

  /** Pixels the pointer may move, on either axis, before a press is a drag. */
  const DragThreshold: real := 5.0

  /** Where a release happened: on the canvas (which exists), whether the
      toolkit panel exists, and whether the release was inside it. */
  datatype ClickTarget = ClickTarget(inCanvas: bool, toolkitFound: bool, inToolkit: bool)

  /** The three document events the detector listens to. */
  datatype MouseEvent = MouseDown(x: real, y: real) | MouseMove(x: real, y: real) | MouseUp(target: ClickTarget)

  /** The closure's `isDragging`, `mouseDownX` and `mouseDownY`, with the two
      component fields the release handler writes. */
  datatype Tracker = Tracker(isDragging: bool, downX: real, downY: real, viewMode: ViewMode, selectedPart: Option<string>)

  /** `Math.abs`. */
  function Abs(n: real): (r: real)
    ensures r >= 0.0 && (r == n || r == -n)
  {
    if n < 0.0 then -n else n
  }

  /** The pointer at (x, y) is beyond the threshold square around the press. */
  predicate Beyond(t: Tracker, x: real, y: real) {
    Abs(x - t.downX) > DragThreshold || Abs(y - t.downY) > DragThreshold
  }

  /** A release on the canvas and outside the toolkit panel. */
  predicate OutsideToolkit(c: ClickTarget) {
    c.inCanvas && c.toolkitFound && !c.inToolkit
  }

  /** One event handled. A press resets the drag flag and records the point;
      a move can only raise the flag; a release can only send the component
      from customization back to the carousel, and only when not dragging. */
  function Step(t: Tracker, e: MouseEvent): (r: Tracker)
    ensures e.MouseDown? ==> !r.isDragging && r.downX == e.x && r.downY == e.y
    ensures !e.MouseDown? ==> r.downX == t.downX && r.downY == t.downY && (t.isDragging ==> r.isDragging)
    ensures e.MouseMove? ==> (r.isDragging <==> t.isDragging || Beyond(t, e.x, e.y))
    ensures !e.MouseUp? ==> r.viewMode == t.viewMode && r.selectedPart == t.selectedPart
    ensures e.MouseUp? ==> r.isDragging == t.isDragging
    ensures e.MouseUp? ==>
      if !t.isDragging && t.viewMode == Customization && OutsideToolkit(e.target)
      then r.viewMode == Carousel && r.selectedPart == None
      else r.viewMode == t.viewMode && r.selectedPart == t.selectedPart
  {
    match e
    case MouseDown(x, y) => t.(isDragging := false, downX := x, downY := y)
    case MouseMove(x, y) =>
      if !t.isDragging && Beyond(t, x, y) then t.(isDragging := true) else t
    case MouseUp(c) =>
      if t.isDragging || t.viewMode != Customization then t
      else if OutsideToolkit(c) then t.(viewMode := Carousel, selectedPart := None)
      else t
  }

  /** The events of `es` handled in order. */
  function Replay(t: Tracker, es: seq<MouseEvent>): Tracker
    decreases |es|
  {
    if es == [] then t else Replay(Step(t, es[0]), es[1..])
  }

  /** Handling `a` and then `b` is handling `a + b`. */
  lemma {:induction false} ReplayConcat(t: Tracker, a: seq<MouseEvent>, b: seq<MouseEvent>)
    ensures Replay(t, a + b) == Replay(Replay(t, a), b)
    decreases |a|
  {
    if a != [] {
      assert (a + b)[1..] == a[1..] + b;
      ReplayConcat(Step(t, a[0]), a[1..], b);
    } else {
      assert a + b == b;
    }
  }

  /** A drag, once detected, lasts until the next press, and until then
      nothing changes: neither the recorded point nor the view mode. */
  lemma {:induction false} DragIsSticky(t: Tracker, es: seq<MouseEvent>)
    requires t.isDragging
    requires forall i :: 0 <= i < |es| ==> !es[i].MouseDown?
    ensures Replay(t, es) == t
    decreases |es|
  {
    if es != [] {
      assert Step(t, es[0]) == t;
      DragIsSticky(t, es[1..]);
    }
  }

  /** Over a run of moves the tracker is dragging exactly when it already was
      or some move went beyond the threshold; nothing else changes. */
  lemma {:induction false} DragDetected(t: Tracker, moves: seq<MouseEvent>)
    requires forall i :: 0 <= i < |moves| ==> moves[i].MouseMove?
    ensures Replay(t, moves).isDragging <==>
      t.isDragging || exists i :: 0 <= i < |moves| && Beyond(t, moves[i].x, moves[i].y)
    ensures Replay(t, moves).(isDragging := t.isDragging) == t
    decreases |moves|
  {
    if moves != [] {
      var s := Step(t, moves[0]);
      DragDetected(s, moves[1..]);
      assert Beyond(s, moves[0].x, moves[0].y) == Beyond(t, moves[0].x, moves[0].y);
      forall i | 0 <= i < |moves| - 1
        ensures Beyond(s, moves[1..][i].x, moves[1..][i].y) == Beyond(t, moves[i + 1].x, moves[i + 1].y)
      {
      }
      if t.isDragging || Beyond(t, moves[0].x, moves[0].y) {
      } else if Replay(s, moves[1..]).isDragging {
        var i :| 0 <= i < |moves[1..]| && Beyond(s, moves[1..][i].x, moves[1..][i].y);
        assert Beyond(t, moves[i + 1].x, moves[i + 1].y);
      } else {
        forall i | 0 <= i < |moves| ensures !Beyond(t, moves[i].x, moves[i].y) {
          if i > 0 {
            assert moves[i] == moves[1..][i - 1];
          }
        }
      }
    }
  }

  /** A press at (x, y), moves, and a release: the component leaves
      customization for the carousel (forgetting the selected part) exactly
      when it was customizing, every move stayed within the threshold square
      around (x, y), and the release was on the canvas outside the toolkit;
      otherwise the mode and selection are as before. */
  lemma ClickDecides(t: Tracker, x: real, y: real, moves: seq<MouseEvent>, c: ClickTarget)
    requires forall i :: 0 <= i < |moves| ==> moves[i].MouseMove?
    ensures var r := Replay(t, [MouseDown(x, y)] + moves + [MouseUp(c)]);
      var clicked := t.viewMode == Customization && OutsideToolkit(c) &&
        forall i :: 0 <= i < |moves| ==> Abs(moves[i].x - x) <= DragThreshold && Abs(moves[i].y - y) <= DragThreshold;
      && r.downX == x && r.downY == y
      && (if clicked then r.viewMode == Carousel && r.selectedPart == None
          else r.viewMode == t.viewMode && r.selectedPart == t.selectedPart)
  {
    var pressed := Step(t, MouseDown(x, y));
    ReplayConcat(t, [MouseDown(x, y)] + moves, [MouseUp(c)]);
    ReplayConcat(t, [MouseDown(x, y)], moves);
    assert Replay(t, [MouseDown(x, y)]) == pressed;
    DragDetected(pressed, moves);
    var moved := Replay(pressed, moves);
    assert Replay(moved, [MouseUp(c)]) == Step(moved, MouseUp(c));
  }
}
