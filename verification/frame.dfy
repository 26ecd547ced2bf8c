/** What the draw callback composes each frame: the model transform from
    the interaction state, and the fixed camera. The model matrix is the
    product heightScale * deltaY * deltaX * pan * zoom, so a vertex is zoomed
    first, then panned, rotated, and finally stretched vertically. */
module Frame {
  import opened Transforms
  import opened Interaction

  /** The factors of the model matrix, left to right. */
  function ModelTransforms(s: State): (ts: seq<Transform>)
    ensures |ts| == 5
    ensures ts[0] == Scale(1.0, s.heightScale, 1.0) && ts[4] == Scale(s.modelScale, s.modelScale, s.modelScale)
    ensures ts[1] == s.deltaY && ts[2] == s.deltaX && ts[3] == s.pan
  {
    [Scale(1.0, s.heightScale, 1.0), s.deltaY, s.deltaX, s.pan, Scale(s.modelScale, s.modelScale, s.modelScale)]
  }

  const Origin: Point := Point(0.0, 0.0, 0.0)

  /** The offset a pan transform adds; an untouched pan adds nothing. */
  function PanOffset(pan: Transform): (o: Point)
    requires pan.Identity? || pan.Translate?
    ensures pan.Identity? ==> o == Point(0.0, 0.0, 0.0)
  {
    if pan.Translate? then Point(pan.tx, pan.ty, pan.tz) else Point(0.0, 0.0, 0.0)
  }

  /** A state whose rotation pair is untouched or at a zero angle, with an
      untouched pan or a translation. */
  predicate Unrotated(s: State) {
    && (s.deltaX.Identity? || s.deltaX == RotY(0.0))
    && (s.deltaY.Identity? || s.deltaY == RotX(0.0))
    && (s.pan.Identity? || s.pan.Translate?)
  }

  /** Without rotation the model matrix acts on a vertex in this order:
      zoom first, then the pan, then the height stretch. */
  lemma ModelOrder(s: State, p: Point)
    requires Unrotated(s)
    ensures forall k :: 0 <= k < |ModelTransforms(s)| ==> Evaluable(ModelTransforms(s)[k])
    ensures ApplyAll(ModelTransforms(s), p) ==
      Apply(Scale(1.0, s.heightScale, 1.0), Apply(s.pan, Apply(Scale(s.modelScale, s.modelScale, s.modelScale), p)))
  {
    var ts := ModelTransforms(s);
    ApplyFive(ts, p);
    var q := Apply(ts[3], Apply(ts[4], p));
    assert Apply(ts[1], Apply(ts[2], q)) == q;
  }

  /** Zooming by m, panning by o and stretching heights by h maps p to
      (m * x + ox, h * (m * y + oy), m * z + oz): the zoom does not scale the
      pan, and the height scale stretches the vertical pan along with the
      terrain. */
  lemma ZoomPanStretch(m: real, h: real, pan: Transform, p: Point)
    requires pan.Identity? || pan.Translate?
    ensures var o := PanOffset(pan);
      Apply(Scale(1.0, h, 1.0), Apply(pan, Apply(Scale(m, m, m), p))) ==
      Point(m * p.x + o.x, h * (m * p.y + o.y), m * p.z + o.z)
  {
  }

  /** Changing the zoom leaves the image of the model origin where the pan
      put it. */
  lemma ZoomKeepsPannedOrigin(s: State, scale: real)
    requires Unrotated(s)
    ensures forall k :: 0 <= k < 5 ==> Evaluable(ModelTransforms(s.(modelScale := scale))[k])
    ensures ApplyAll(ModelTransforms(s.(modelScale := scale)), Origin) ==
            ApplyAll(ModelTransforms(s), Origin)
  {
    ModelOrder(s, Origin);
    ModelOrder(s.(modelScale := scale), Origin);
    assert Apply(Scale(scale, scale, scale), Origin) == Origin;
    assert Apply(Scale(s.modelScale, s.modelScale, s.modelScale), Origin) == Origin;
  }

  /** The fixed camera: eye at (0, 5, 5) looking at the origin, a 70-degree
      vertical field of view, the canvas aspect ratio, and clip planes at
      0.001 and 20. */
  datatype Camera = Camera(eye: Point, target: Point, fovDegrees: real, aspect: real, near: real, far: real)

  function CameraOf(c: Canvas): (cam: Camera)
    ensures cam.aspect * c.height as real == c.width as real
    ensures 0.0 < cam.near < cam.far
    ensures 0.0 < cam.fovDegrees < 180.0
    ensures cam.eye != cam.target
    ensures cam.eye == Point(0.0, 5.0, 5.0) && cam.target == Origin
    ensures cam.fovDegrees == 70.0 && cam.near == 0.001 && cam.far == 20.0
  {
    Camera(Point(0.0, 5.0, 5.0), Point(0.0, 0.0, 0.0), 70.0, c.width as real / c.height as real, 0.001, 20.0)
  }
}
