/** The page's interaction state and the listeners that change it: mouse
    press, move and release on the canvas, the wheel, the context menu and
    the height slider. Each listener is a function from the state it reads
    to the state it leaves behind; Step dispatches an event to its listener
    and Run replays a sequence of events. */
module Interaction {
  import opened Arith
  import opened Transforms

  /** A canvas dimension in pixels; the canvas takes the size of its
      on-screen box, which is never empty here. */
  type Extent = n: nat | 0 < n witness 1

  datatype Canvas = Canvas(width: Extent, height: Extent)

  /** The page's globals that the listeners touch. */
  datatype State = State(
    dragging: bool,       // isDragging
    leftMouse: bool,      // leftMouse: the latched button was the left one
    startX: real,         // where the current drag was pressed
    startY: real,
    modelScale: real,     // wheel zoom factor
    deltaX: Transform,    // deltaXMatrix: rotation about y from horizontal drags
    deltaY: Transform,    // deltaYMatrix: rotation about x from vertical drags
    pan: Transform,       // panMatrix
    heightScale: real)    // vertical exaggeration from the slider

  datatype Event =
    | MouseDown(button: int, x: real, y: real)
    | MouseMove(x: real, y: real)
    | MouseUp
    | MouseLeave
    | Wheel(deltaY: real)
    | ContextMenu
    | HeightSlider(value: real)

  const MinScale: real := 0.1
  const MaxScale: real := 10.0
  /** The slider position that leaves heights unscaled. */
  const SliderUnit: real := 50.0

  /** The state when the page starts: no drag, unit zoom, identity
      transforms and unit height scale. The drag start is only read after a
      press has set it. */
  const Initial: State :=
    State(false, false, 0.0, 0.0, 1.0, Identity, Identity, Identity, 1.0)

  /** The wheel multiplies the scale by 1.1 when scrolled up (deltaY < 0) and
      by 0.9 otherwise, zero included, then clamps it into [0.1, 10]. */
  function Zoom(scale: real, deltaY: real): (r: real)
    ensures MinScale <= r <= MaxScale
    ensures var target := scale * (if deltaY < 0.0 then 1.1 else 0.9);
      && (MinScale <= target <= MaxScale ==> r == target)
      && (target < MinScale ==> r == MinScale)
      && (MaxScale < target ==> r == MaxScale)
  {
    var factor := if deltaY < 0.0 then 1.1 else 0.9;
    MinReal(MaxReal(MinScale, scale * factor), MaxScale)
  }

  /** mousedown: button 0 selects rotation, button 2 panning, any other
      button keeps the previous choice; in every case a drag starts at the
      pressed point. */
  function OnMouseDown(s: State, button: int, x: real, y: real): (r: State)
    ensures r.dragging && r.startX == x && r.startY == y
    ensures button == 0 ==> r.leftMouse
    ensures button == 2 ==> !r.leftMouse
    ensures button != 0 && button != 2 ==> r.leftMouse == s.leftMouse
    ensures r.modelScale == s.modelScale && r.heightScale == s.heightScale
    ensures r.deltaX == s.deltaX && r.deltaY == s.deltaY && r.pan == s.pan
  {
    var left := if button == 0 then true else if button == 2 then false else s.leftMouse;
    s.(dragging := true, leftMouse := left, startX := x, startY := y)
  }

  /** mousemove: ignored unless dragging. While dragging, the offset from
      the pressed point (not from the previous move) replaces the rotation
      pair with the left button and the pan otherwise. A horizontal drag
      across the whole canvas is one full turn about y, a vertical one a
      full turn about x; panning maps the canvas width and height to 2 units
      each, with screen y pointing down. */
  function OnMouseMove(c: Canvas, s: State, x: real, y: real): (r: State)
    ensures !s.dragging ==> r == s
    ensures s.dragging && s.leftMouse ==>
      && r.deltaX.RotY? && r.deltaX.turns * c.width as real == x - s.startX
      && r.deltaY.RotX? && r.deltaY.turns * c.height as real == y - s.startY
      && r.pan == s.pan
    ensures s.dragging && !s.leftMouse ==>
      && r.pan.Translate?
      && r.pan.tx * c.width as real == 2.0 * (x - s.startX)
      && r.pan.ty * c.height as real == -2.0 * (y - s.startY)
      && r.pan.tz == 0.0
      && r.deltaX == s.deltaX && r.deltaY == s.deltaY
    ensures r.dragging == s.dragging && r.leftMouse == s.leftMouse
    ensures r.startX == s.startX && r.startY == s.startY
    ensures r.modelScale == s.modelScale && r.heightScale == s.heightScale
  {
    if !s.dragging then s
    else
      var dx, dy := x - s.startX, y - s.startY;
      var w, h := c.width as real, c.height as real;
      if s.leftMouse then
        s.(deltaX := RotY(dx / w), deltaY := RotX(dy / h))
      else
        s.(pan := Translate(dx / w * 2.0, -dy / h * 2.0, 0.0))
  }

  /** The height slider: heightScale = value / 50, so the middle position 50
      leaves heights as they are. */
  function HeightScaleOf(value: real): (h: real)
    ensures h * SliderUnit == value
    ensures value == SliderUnit ==> h == 1.0
  {
    value / SliderUnit
  }

  /** One event applied to the state. mouseup and mouseleave end the drag;
      the context menu is suppressed and changes nothing. */
  function Step(c: Canvas, s: State, e: Event): (r: State)
    ensures e.MouseUp? || e.MouseLeave? ==> r == s.(dragging := false)
    ensures e.ContextMenu? ==> r == s
    ensures !e.MouseDown? && !e.MouseUp? && !e.MouseLeave? ==> r.dragging == s.dragging
    ensures !e.MouseDown? ==> r.leftMouse == s.leftMouse && r.startX == s.startX && r.startY == s.startY
    ensures !e.Wheel? ==> r.modelScale == s.modelScale
    ensures !e.HeightSlider? ==> r.heightScale == s.heightScale
    ensures !e.MouseMove? ==> r.deltaX == s.deltaX && r.deltaY == s.deltaY && r.pan == s.pan
  {
    match e
    case MouseDown(button, x, y) => OnMouseDown(s, button, x, y)
    case MouseMove(x, y) => OnMouseMove(c, s, x, y)
    case MouseUp => s.(dragging := false)
    case MouseLeave => s.(dragging := false)
    case Wheel(deltaY) => s.(modelScale := Zoom(s.modelScale, deltaY))
    case ContextMenu => s
    case HeightSlider(value) => s.(heightScale := HeightScaleOf(value))
  }

  /** The events es, in order, starting from s. */
  function Run(c: Canvas, s: State, es: seq<Event>): State
    decreases |es|
  {
    if es == [] then s else Run(c, Step(c, s, es[0]), es[1..])
  }

  /** The shapes the state can take: the zoom stays in [0.1, 10], the two
      rotations are either both untouched or a y-rotation and an
      x-rotation set together, and the pan is untouched or a translation in
      the screen plane. */
  predicate Consistent(s: State) {
    && MinScale <= s.modelScale <= MaxScale
    && (s.deltaX.Identity? <==> s.deltaY.Identity?)
    && (s.deltaX.Identity? || s.deltaX.RotY?)
    && (s.deltaY.Identity? || s.deltaY.RotX?)
    && (s.pan.Identity? || (s.pan.Translate? && s.pan.tz == 0.0))
  }

  lemma InitialIsConsistent()
    ensures Consistent(Initial)
    ensures !Initial.dragging && Initial.modelScale == 1.0 && Initial.heightScale == 1.0
    ensures Initial.deltaX == Identity && Initial.deltaY == Identity && Initial.pan == Identity && !Initial.leftMouse
  {
  }

  lemma StepPreservesConsistent(c: Canvas, s: State, e: Event)
    requires Consistent(s)
    ensures Consistent(Step(c, s, e))
  {
  }

  /** Whatever events arrive, the state keeps its shape; in particular the
      zoom never leaves [0.1, 10]. */
  lemma {:induction false} RunPreservesConsistent(c: Canvas, s: State, es: seq<Event>)
    requires Consistent(s)
    ensures Consistent(Run(c, s, es))
    ensures MinScale <= Run(c, s, es).modelScale <= MaxScale
    decreases |es|
  {
    if es != [] {
      StepPreservesConsistent(c, s, es[0]);
      RunPreservesConsistent(c, Step(c, s, es[0]), es[1..]);
    }
  }

  /** One wheel event brings any scale, however far out of range, into
      [0.1, 10]; at the limits further scrolling in that direction stays put. */
  lemma ZoomSaturates(scale: real, deltaY: real)
    ensures MinScale <= Zoom(scale, deltaY) <= MaxScale
    ensures deltaY >= 0.0 && scale <= MinScale ==> Zoom(scale, deltaY) == MinScale
    ensures deltaY < 0.0 && scale >= MaxScale ==> Zoom(scale, deltaY) == MaxScale
  {
  }

  /** Scrolling up never shrinks an in-range scale and scrolling down never
      grows it. */
  lemma ZoomDirection(scale: real, deltaY: real)
    requires MinScale <= scale <= MaxScale
    ensures deltaY < 0.0 ==> Zoom(scale, deltaY) >= scale
    ensures deltaY >= 0.0 ==> Zoom(scale, deltaY) <= scale
  {
  }

  /** Zooming in and then out is not the identity: away from the limits
      the scale ends at 0.99 of where it started. */
  lemma ZoomInOutLoses(scale: real)
    requires MinScale <= scale * 0.99 && scale * 1.1 <= MaxScale
    ensures Zoom(Zoom(scale, -1.0), 1.0) == scale * 0.99
  {
    assert scale * 1.1 * 0.9 == scale * 0.99;
  }

  /** n wheel events with the same deltaY. */
  function Scrolls(n: nat, deltaY: real): (es: seq<Event>)
    ensures |es| == n && forall k :: 0 <= k < n ==> es[k] == Wheel(deltaY)
  {
    seq(n, k => Wheel(deltaY))
  }

  /** The scale after n wheel events with the same deltaY. */
  function ZoomTimes(scale: real, n: nat, deltaY: real): real
    decreases n
  {
    if n == 0 then scale else ZoomTimes(Zoom(scale, deltaY), n - 1, deltaY)
  }

  /** Wheel events change the scale and nothing else. */
  lemma {:induction false} ScrollsOnlyZoom(c: Canvas, s: State, n: nat, deltaY: real)
    ensures Run(c, s, Scrolls(n, deltaY)) == s.(modelScale := ZoomTimes(s.modelScale, n, deltaY))
    decreases n
  {
    if n > 0 {
      var es := Scrolls(n, deltaY);
      assert es[1..] == Scrolls(n - 1, deltaY);
      ScrollsOnlyZoom(c, Step(c, s, es[0]), n - 1, deltaY);
    }
  }

  /** n scrolls up multiply an in-range scale by 1.1^n as long as that stays
      at most 10. */
  lemma {:induction false} ScrollUpsMultiply(scale: real, n: nat, deltaY: real)
    requires deltaY < 0.0 && MinScale <= scale <= MaxScale
    requires scale * Pow(1.1, n) <= MaxScale
    ensures ZoomTimes(scale, n, deltaY) == scale * Pow(1.1, n)
    decreases n
  {
    if n > 0 {
      var q := Pow(1.1, n - 1);
      assert Pow(1.1, n) == 1.1 * q;
      PowAtLeastBase(1.1, n);
      MulLeBound(scale, 1.1, Pow(1.1, n), MaxScale);
      assert Zoom(scale, deltaY) == scale * 1.1;
      assert scale * 1.1 * q == scale * Pow(1.1, n);
      ScrollUpsMultiply(scale * 1.1, n - 1, deltaY);
    }
  }

  /** n scrolls down multiply an in-range scale by 0.9^n as long as that
      stays at least 0.1. */
  lemma {:induction false} ScrollDownsMultiply(scale: real, n: nat, deltaY: real)
    requires deltaY >= 0.0 && MinScale <= scale <= MaxScale
    requires MinScale <= scale * Pow(0.9, n)
    ensures ZoomTimes(scale, n, deltaY) == scale * Pow(0.9, n)
    decreases n
  {
    if n > 0 {
      var q := Pow(0.9, n - 1);
      assert Pow(0.9, n) == 0.9 * q;
      PowAtMostBase(0.9, n);
      MulGeBound(scale, Pow(0.9, n), 0.9, MinScale);
      assert Zoom(scale, deltaY) == scale * 0.9;
      assert scale * 0.9 * q == scale * Pow(0.9, n);
      ScrollDownsMultiply(scale * 0.9, n - 1, deltaY);
    }
  }

  /** Ten scrolls up from the initial zoom enlarge the model 1.1^10 times
      (about 2.59), and the view is otherwise as it was. */
  lemma TenScrollsUpScenario(c: Canvas)
    ensures Run(c, Initial, Scrolls(10, -1.0)) == Initial.(modelScale := Pow(1.1, 10))
  {
    ScrollsOnlyZoom(c, Initial, 10, -1.0);
    ScrollUpsMultiply(1.0, 10, -1.0);
  }

  /** Ten scrolls down from the initial zoom shrink the model to 0.9^10
      (about 0.35) of its size, still above the 0.1 floor. */
  lemma TenScrollsDownScenario(c: Canvas)
    ensures Run(c, Initial, Scrolls(10, 1.0)) == Initial.(modelScale := Pow(0.9, 10))
    ensures MinScale < Pow(0.9, 10)
  {
    ScrollsOnlyZoom(c, Initial, 10, 1.0);
    assert Pow(0.9, 10) == 0.3486784401;
    ScrollDownsMultiply(1.0, 10, 1.0);
  }

  /** A move while no drag is in progress changes nothing at all. */
  lemma IdleMoveChangesNothing(c: Canvas, s: State, x: real, y: real)
    requires !s.dragging
    ensures Step(c, s, MouseMove(x, y)) == s
  {
  }

  /** Releasing the button or leaving the page ends the drag, after which
      moves are ignored. */
  lemma ReleaseEndsDrag(c: Canvas, s: State, release: Event, moves: seq<Event>)
    requires release.MouseUp? || release.MouseLeave?
    requires forall k :: 0 <= k < |moves| ==> moves[k].MouseMove?
    ensures !Step(c, s, release).dragging
    ensures Run(c, Step(c, s, release), moves) == Step(c, s, release)
  {
    IdleMovesChangeNothing(c, Step(c, s, release), moves);
  }

  lemma {:induction false} IdleMovesChangeNothing(c: Canvas, s: State, moves: seq<Event>)
    requires !s.dragging
    requires forall k :: 0 <= k < |moves| ==> moves[k].MouseMove?
    ensures Run(c, s, moves) == s
    decreases |moves|
  {
    if moves != [] {
      assert Step(c, s, moves[0]) == s;
      IdleMovesChangeNothing(c, s, moves[1..]);
    }
  }

  /** A second move overwrites what the first one set: nothing accumulates
      across moves, because both measure from the same pressed point. */
  lemma MovesOverwrite(c: Canvas, s: State, x1: real, y1: real, x2: real, y2: real)
    ensures Step(c, Step(c, s, MouseMove(x1, y1)), MouseMove(x2, y2)) == Step(c, s, MouseMove(x2, y2))
  {
  }

  /** However many moves a drag makes, the state afterwards is what the
      last move alone would have produced. */
  lemma {:induction false} DragIsLastMove(c: Canvas, s: State, moves: seq<Event>)
    requires |moves| > 0
    requires forall k :: 0 <= k < |moves| ==> moves[k].MouseMove?
    ensures Run(c, s, moves) == Step(c, s, moves[|moves| - 1])
    decreases |moves|
  {
    var first := moves[0];
    if |moves| == 1 {
      assert Run(c, Step(c, s, first), moves[1..]) == Step(c, s, first);
    } else {
      var last := moves[|moves| - 1];
      DragIsLastMove(c, Step(c, s, first), moves[1..]);
      assert moves[1..][|moves| - 2] == last;
      MovesOverwrite(c, s, first.x, first.y, last.x, last.y);
    }
  }

  /** A press followed by moves: the rotation (or pan) reflects the offset
      of the last move from the pressed point, whatever came in between. */
  lemma DragMeasuredFromPress(c: Canvas, s: State, button: int, x0: real, y0: real, moves: seq<Event>)
    requires |moves| > 0
    requires forall k :: 0 <= k < |moves| ==> moves[k].MouseMove?
    ensures var r := Run(c, s, [MouseDown(button, x0, y0)] + moves);
      var last := moves[|moves| - 1];
      && r.dragging
      && r == OnMouseMove(c, OnMouseDown(s, button, x0, y0), last.x, last.y)
  {
    var es := [MouseDown(button, x0, y0)] + moves;
    assert es[0] == MouseDown(button, x0, y0);
    assert es[1..] == moves;
    DragIsLastMove(c, OnMouseDown(s, button, x0, y0), moves);
  }

  /** An 800 x 600 canvas: pressing the left button at (100, 100), wobbling
      and letting go 100 pixels to the right, i.e. an eighth of the width,
      turns the model an eighth of a turn about y and not at all about x. */
  lemma LeftDragScenario()
    ensures var r := Run(Canvas(800, 600), Initial,
      [MouseDown(0, 100.0, 100.0), MouseMove(150.0, 130.0), MouseMove(200.0, 100.0), MouseUp]);
      && !r.dragging
      && r.deltaX == RotY(0.125) && r.deltaY == RotX(0.0) && r.pan == Identity
      && r.modelScale == 1.0
  {
  }

  /** A right-button drag from the centre of an 800 x 600 canvas 80 pixels
      right and 60 pixels up pans by 0.2 in x and 0.2 in y, leaving the
      rotations alone. */
  lemma RightDragScenario()
    ensures var r := Run(Canvas(800, 600), Initial,
      [MouseDown(2, 400.0, 300.0), MouseMove(480.0, 240.0)]);
      && r.dragging && !r.leftMouse
      && r.pan == Translate(0.2, 0.2, 0.0) && r.deltaX == Identity && r.deltaY == Identity
  {
  }
}
