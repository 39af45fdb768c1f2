/**
 * The view-transform arithmetic of the map camera, as functions on values.
 *
 * A view is a 2x3 affine matrix [a, b, c, d, e, f], mapping a world point
 * (x, y) to the screen point (a*x + c*y + e, b*x + d*y + f), together with
 * a uniform scale factor and a cumulative clockwise angle theta. Every
 * coordinate and scale is a `real`: the algebra below holds exactly, where
 * the original holds it up to floating-point rounding.
 */
module Affine {

  /** Bounds the zoom is clamped to. */
  const MinScale: real := 0.125
  const MaxScale: real := 4.0

  /** JavaScript's Math.PI, written out. */
  const Pi: real := 3.141592653589793

  /**
   * The parts of JavaScript's Math that the camera calls. Their numeric
   * content is not modelled: the camera is given them, and whatever one
   * proves about rotation from their laws is stated as a hypothesis.
   */
  datatype MathLib = MathLib(
    cos: real -> real,
    sin: real -> real,
    atan2: (real, real) -> real,
    sqrt: real -> real)
  {
    // These wrappers give each call one heap-independent form, the same in
    // functions, lemmas and methods.
    function Cos(t: real): real { cos(t) }
    function Sin(t: real): real { sin(t) }
    function Atan2(y: real, x: real): real { atan2(y, x) }
    function Sqrt(t: real): real { sqrt(t) }
  }

  /** The six entries [a, b, c, d, e, f] of an affine matrix. */
  type Matrix = m: seq<real> | |m| == 6 witness [1.0, 0.0, 0.0, 1.0, 0.0, 0.0]

  const Identity: Matrix := [1.0, 0.0, 0.0, 1.0, 0.0, 0.0]

  datatype View = View(m: Matrix, scale: real, theta: real)

  /** The state a camera is created in. */
  const Initial: View := View(Identity, 1.0, 0.0)

  /** The screen point the matrix sends world point (x, y) to. */
  function Apply(m: Matrix, x: real, y: real): (real, real)
  {
    (m[0] * x + m[2] * y + m[4], m[1] * x + m[3] * y + m[5])
  }

  /** The linear part is rotation times uniform scale: d == a and c == -b. */
  predicate Symmetric(m: Matrix)
  {
    m[3] == m[0] && m[2] == -m[1]
  }

  /** What every operation keeps: the scale within its bounds and the symmetric shape. */
  predicate Valid(v: View)
  {
    MinScale <= v.scale <= MaxScale && Symmetric(v.m)
  }

  /** The linear part is exactly scale * [cos theta, sin theta, -sin theta, cos theta]. */
  predicate Conformal(lib: MathLib, v: View)
  {
    v.m[0] == v.scale * lib.Cos(v.theta) && v.m[1] == v.scale * lib.Sin(v.theta)
    && Symmetric(v.m)
  }

  /** The linear part is scale times the identity: no rotation is in effect. */
  predicate AxisAligned(v: View)
  {
    v.m[0] == v.scale && v.m[1] == 0.0 && v.m[2] == 0.0 && v.m[3] == v.scale
  }

  /** Math.min(Math.max(0.125, s), 4). */
  function Clamp(s: real): (r: real)
    ensures MinScale <= r <= MaxScale
    ensures MinScale <= s <= MaxScale ==> r == s
    ensures s < MinScale ==> r == MinScale
    ensures MaxScale < s ==> r == MaxScale
  {
    var atLeast := if MinScale >= s then MinScale else s;
    if atLeast <= MaxScale then atLeast else MaxScale
  }

  /**
   * The factor a zoom actually applies: the requested scale clamped, divided
   * by the current one.
   */
  function EffectiveFactor(scale: real, relativeScale: real): (k: real)
    requires scale > 0.0
    ensures k > 0.0
    ensures MinScale <= scale * k <= MaxScale
    ensures scale * k == Clamp(scale * relativeScale)
    ensures MinScale <= scale * relativeScale <= MaxScale ==> k == relativeScale
  {
    Clamp(scale * relativeScale) / scale
  }

  /** Every entry of the matrix multiplied by k. */
  function ScaleEntries(m: seq<real>, k: real): (r: seq<real>)
    ensures |r| == |m|
  {
    if |m| == 0 then [] else [m[0] * k] + ScaleEntries(m[1..], k)
  }

  /** The loop of scale: entry j of the result is entry j of m times k. */
  lemma {:induction false} ScaleEntriesAt(m: seq<real>, k: real)
    ensures forall j :: 0 <= j < |m| ==> ScaleEntries(m, k)[j] == m[j] * k
  {
    if |m| > 0 {
      ScaleEntriesAt(m[1..], k);
    }
  }

  /** translate(x, y): pan by a pixel delta. */
  function Translate(v: View, x: real, y: real): View
  {
    v.(m := v.m[4 := v.m[4] + x][5 := v.m[5] + y])
  }

  /**
   * The matrix part of a zoom: every entry multiplied by k, which keeps the
   * screen origin fixed, then a pan by the pivot (x, y) times centerFactor.
   * A zoom uses centerFactor = 1 - k.
   */
  function ZoomMatrix(v: View, k: real, centerFactor: real, x: real, y: real): View
  {
    Translate(v.(m := ScaleEntries(v.m, k)), x * centerFactor, y * centerFactor)
  }

  /** scale(relativeScale, x, y): zoom about the pivot pixel (x, y). */
  function Scale(v: View, relativeScale: real, x: real, y: real): (r: View)
    requires v.scale > 0.0
    ensures MinScale <= r.scale <= MaxScale
  {
    var k := EffectiveFactor(v.scale, relativeScale);
    View(ZoomMatrix(v, k, 1.0 - k, x, y).m, Clamp(v.scale * relativeScale), v.theta)
  }

  /** The length of the vector (x, y), as Math.sqrt computes it. */
  function Radius(lib: MathLib, x: real, y: real): real
  {
    lib.Sqrt(x * x + y * y)
  }

  /** rotate(delta, x, y, _): turn clockwise by delta about the pivot pixel (x, y). */
  function Rotate(lib: MathLib, v: View, delta: real, x: real, y: real): View
  {
    var turned := Turned(lib, v, delta);
    var offset := TurnOffset(lib, turned, delta, x, y);
    Translate(turned, offset.0, offset.1)
  }

  /**
   * The second half of rotate: the pan that moves the pointer's polar
   * position relative to the (turned) translation by delta. Like the source,
   * it reads the translation back from the matrix after the rebuild.
   */
  function TurnOffset(lib: MathLib, turned: View, delta: real, x: real, y: real): (real, real)
  {
    var relX := x - turned.m[4];
    var relY := y - turned.m[5];
    var rho := Radius(lib, relX, relY);
    var phiPrime := lib.Atan2(relY, relX) + delta;
    (relX - lib.Cos(phiPrime) * rho, relY - lib.Sin(phiPrime) * rho)
  }

  /**
   * The first half of rotate: theta advanced by delta and the linear part
   * rebuilt as scale * rotation(theta), the translation left as it was.
   */
  function Turned(lib: MathLib, v: View, delta: real): View
  {
    var theta := v.theta + delta;
    var a := v.scale * lib.Cos(theta);
    var b := v.scale * lib.Sin(theta);
    View([a, b, -b, a, v.m[4], v.m[5]], v.scale, theta)
  }

  /**
   * screenToWorld(x, y): removes the translation, then divides by the scale.
   * It ignores the rotation part of the matrix.
   */
  function ScreenToWorld(v: View, x: real, y: real): (w: (real, real))
    requires v.scale > 0.0
    ensures w.0 * v.scale + v.m[4] == x
    ensures w.1 * v.scale + v.m[5] == y
  {
    ((x - v.m[4]) / v.scale, (y - v.m[5]) / v.scale)
  }

  /** The angle the camera reports to the compass after rotating to theta. */
  function CompassAngle(theta: real): real
  {
    Pi - theta
  }

  // ---------------------------------------------------------------------
  // Gesture sequences

  /** One call of translate, scale or rotate, with its arguments. */
  datatype Gesture =
    | Pan(dx: real, dy: real)
    | Zoom(relativeScale: real, px: real, py: real)
    | Turn(delta: real, px: real, py: real, skipCompass: bool)

  function Step(lib: MathLib, v: View, g: Gesture): (r: View)
    requires v.scale > 0.0
    ensures r.scale > 0.0
  {
    match g
    case Pan(dx, dy) => Translate(v, dx, dy)
    case Zoom(rs, px, py) => Scale(v, rs, px, py)
    case Turn(delta, px, py, _) => Rotate(lib, v, delta, px, py)
  }

  /** The view after the gestures, applied in order. */
  function Run(lib: MathLib, v: View, gs: seq<Gesture>): (r: View)
    requires v.scale > 0.0
    ensures r.scale > 0.0
    decreases |gs|
  {
    if gs == [] then v else Run(lib, Step(lib, v, gs[0]), gs[1..])
  }

  /** The angles the compass is told, in order, while the gestures run. */
  function Notices(lib: MathLib, v: View, gs: seq<Gesture>): seq<real>
    requires v.scale > 0.0
    decreases |gs|
  {
    if gs == [] then []
    else
      var next := Step(lib, v, gs[0]);
      var here := if gs[0].Turn? && !gs[0].skipCompass then [CompassAngle(next.theta)] else [];
      here + Notices(lib, next, gs[1..])
  }

  /** How many gestures are rotations that do not skip the compass. */
  function NotifyingTurns(gs: seq<Gesture>): nat
    decreases |gs|
  {
    if gs == [] then 0
    else (if gs[0].Turn? && !gs[0].skipCompass then 1 else 0) + NotifyingTurns(gs[1..])
  }

  /** No gesture is a rotation. */
  predicate NoTurns(gs: seq<Gesture>)
  {
    forall i :: 0 <= i < |gs| ==> !gs[i].Turn?
  }

  // ---------------------------------------------------------------------
  // translate

  /** Panning moves every world point's image by exactly (x, y), and changes nothing else. */
  lemma TranslateMovesEveryPoint(v: View, x: real, y: real, wx: real, wy: real)
    ensures Apply(Translate(v, x, y).m, wx, wy)
         == (Apply(v.m, wx, wy).0 + x, Apply(v.m, wx, wy).1 + y)
    ensures Translate(v, x, y).m[4] == v.m[4] + x && Translate(v, x, y).m[5] == v.m[5] + y
    ensures forall i :: 0 <= i < 4 ==> Translate(v, x, y).m[i] == v.m[i]
    ensures Translate(v, x, y).scale == v.scale && Translate(v, x, y).theta == v.theta
  {
    var n := Translate(v, x, y).m;
    assert n[0] == v.m[0] && n[1] == v.m[1] && n[2] == v.m[2] && n[3] == v.m[3];
    assert Apply(n, wx, wy).0 == Apply(v.m, wx, wy).0 + x;
    assert Apply(n, wx, wy).1 == Apply(v.m, wx, wy).1 + y;
  }

  /** Panning keeps the invariants. */
  lemma TranslatePreserves(lib: MathLib, v: View, x: real, y: real)
    ensures Valid(v) ==> Valid(Translate(v, x, y))
    ensures Conformal(lib, v) ==> Conformal(lib, Translate(v, x, y))
    ensures AxisAligned(v) ==> AxisAligned(Translate(v, x, y))
  {
  }

  /** translate(0, 0) changes nothing. */
  lemma TranslateByZeroIsNoOp(v: View)
    ensures Translate(v, 0.0, 0.0) == v
  {
    assert Translate(v, 0.0, 0.0).m == v.m;
  }

  /** Two pans add up: translate(a, b) then translate(c, d) is translate(a + c, b + d). */
  lemma TranslateComposes(v: View, a: real, b: real, c: real, d: real)
    ensures Translate(Translate(v, a, b), c, d) == Translate(v, a + c, b + d)
  {
    assert Translate(Translate(v, a, b), c, d).m == Translate(v, a + c, b + d).m;
  }

  // ---------------------------------------------------------------------
  // scale

  /** The entries of a zoomed matrix, written out. */
  lemma ZoomMatrixEntries(v: View, k: real, cf: real, x: real, y: real)
    ensures var n := ZoomMatrix(v, k, cf, x, y).m;
            n[0] == v.m[0] * k && n[1] == v.m[1] * k
            && n[2] == v.m[2] * k && n[3] == v.m[3] * k
            && n[4] == v.m[4] * k + x * cf && n[5] == v.m[5] * k + y * cf
    ensures ZoomMatrix(v, k, cf, x, y).scale == v.scale && ZoomMatrix(v, k, cf, x, y).theta == v.theta
  {
    var scaled := ScaleEntries(v.m, k);
    ScaleEntriesAt(v.m, k);
    assert ZoomMatrix(v, k, cf, x, y).m == scaled[4 := scaled[4] + x * cf][5 := scaled[5] + y * cf];
  }

  /**
   * Zooming by any factor k about (x, y) and panning by (x, y) * (1 - k) keeps
   * whatever world point the old matrix showed at (x, y) there.
   */
  lemma ZoomMatrixKeepsPivot(v: View, k: real, x: real, y: real, wx: real, wy: real)
    requires Apply(v.m, wx, wy) == (x, y)
    ensures Apply(ZoomMatrix(v, k, 1.0 - k, x, y).m, wx, wy) == (x, y)
  {
    ZoomMatrixEntries(v, k, 1.0 - k, x, y);
    ScaledKeepsPivot(v.m, ZoomMatrix(v, k, 1.0 - k, x, y).m, k, x, y, wx, wy);
  }

  /** The matrix form of ScaledImageOfPivot, one row at a time. */
  lemma ScaledKeepsPivot(m: Matrix, n: Matrix, k: real, x: real, y: real, wx: real, wy: real)
    requires Apply(m, wx, wy) == (x, y)
    requires n[0] == m[0] * k && n[1] == m[1] * k && n[2] == m[2] * k && n[3] == m[3] * k
    requires n[4] == m[4] * k + x * (1.0 - k) && n[5] == m[5] * k + y * (1.0 - k)
    ensures Apply(n, wx, wy) == (x, y)
  {
    assert m[0] * wx + m[2] * wy + m[4] == x && m[1] * wx + m[3] * wy + m[5] == y;
    ScaledImageOfPivot(m[0], wx, m[2], wy, m[4], k, x, n[0], n[2], n[4]);
    ScaledImageOfPivot(m[1], wx, m[3], wy, m[5], k, y, n[1], n[3], n[5]);
    assert Apply(n, wx, wy).0 == x && Apply(n, wx, wy).1 == y;
  }

  /** Scaling an affine image by k and re-adding (1 - k) of its value gives it back. */
  lemma ScaledImageOfPivot(a: real, wx: real, c: real, wy: real, e: real, k: real, x: real,
                           na: real, nc: real, ne: real)
    requires a * wx + c * wy + e == x
    requires na == a * k && nc == c * k && ne == e * k + x * (1.0 - k)
    ensures na * wx + nc * wy + ne == x
  {
    calc {
      na * wx + nc * wy + ne;
      a * k * wx + c * k * wy + (e * k + x * (1.0 - k));
      k * (a * wx + c * wy + e) + x * (1.0 - k);
    }
  }

  /**
   * Multiplying the linear part and the scale of a conformal view by one
   * factor, at the same theta, gives a conformal view.
   */
  lemma ConformalScaled(lib: MathLib, v: View, r: View, k: real)
    requires Conformal(lib, v)
    requires r.m[0] == v.m[0] * k && r.m[1] == v.m[1] * k
    requires r.m[2] == v.m[2] * k && r.m[3] == v.m[3] * k
    requires r.scale == v.scale * k && r.theta == v.theta
    ensures Conformal(lib, r)
  {
    ScaledPolar(v.scale, lib.Cos(v.theta), k, v.m[0], r.m[0], r.scale);
    ScaledPolar(v.scale, lib.Sin(v.theta), k, v.m[1], r.m[1], r.scale);
  }

  /** Scaling both a = s * c and s by k keeps a equal to the new s times c. */
  lemma ScaledPolar(s: real, c: real, k: real, a: real, na: real, ns: real)
    requires a == s * c && na == a * k && ns == s * k
    ensures na == ns * c
  {
  }

  /**
   * Scale is the zoom about (x, y) by the effective factor k, with the
   * translation moved by (1 - k) times the pointer, and the clamped scale.
   * This is an unfolding step of Scale's definition, named so that
   * Camera.Scale can use it with its own local values for k and newScale.
   */
  lemma ScaleByEffectiveFactor(v: View, relativeScale: real, x: real, y: real, k: real, newScale: real)
    requires v.scale > 0.0 && k == EffectiveFactor(v.scale, relativeScale)
    requires newScale == Clamp(v.scale * relativeScale)
    ensures Scale(v, relativeScale, x, y) == View(ZoomMatrix(v, k, 1.0 - k, x, y).m, newScale, v.theta)
  {
  }

  /**
   * A zoom multiplies the linear part and the scale factor by one and the
   * same effective factor, the clamped one when the request was clamped.
   */
  lemma ScaleIsUniform(v: View, relativeScale: real, x: real, y: real)
    requires v.scale > 0.0
    ensures var r := Scale(v, relativeScale, x, y);
            var k := EffectiveFactor(v.scale, relativeScale);
            r.scale == v.scale * k
            && r.m[0] == v.m[0] * k && r.m[1] == v.m[1] * k
            && r.m[2] == v.m[2] * k && r.m[3] == v.m[3] * k
            && r.theta == v.theta
  {
    var k := EffectiveFactor(v.scale, relativeScale);
    ZoomMatrixEntries(v, k, 1.0 - k, x, y);
  }

  /** A zoom keeps the scale factor within its bounds and the matrix symmetric. */
  lemma ScalePreservesValid(v: View, relativeScale: real, x: real, y: real)
    requires Valid(v)
    ensures Valid(Scale(v, relativeScale, x, y))
  {
    var k := EffectiveFactor(v.scale, relativeScale);
    ZoomMatrixEntries(v, k, 1.0 - k, x, y);
  }

  /** A zoom keeps the linear part equal to scale * rotation(theta). */
  lemma ScalePreservesConformal(lib: MathLib, v: View, relativeScale: real, x: real, y: real)
    requires v.scale > 0.0 && Conformal(lib, v)
    ensures Conformal(lib, Scale(v, relativeScale, x, y))
  {
    ScaleIsUniform(v, relativeScale, x, y);
    ConformalScaled(lib, v, Scale(v, relativeScale, x, y), EffectiveFactor(v.scale, relativeScale));
  }

  /** A zoom without rotation in effect leaves none in effect. */
  lemma ScalePreservesAxisAligned(v: View, relativeScale: real, x: real, y: real)
    requires v.scale > 0.0 && AxisAligned(v)
    ensures AxisAligned(Scale(v, relativeScale, x, y))
  {
    ScaleIsUniform(v, relativeScale, x, y);
  }

  /**
   * The pivot pixel stays put: a world point the old matrix shows at (x, y)
   * is shown at (x, y) after zooming about (x, y), clamped or not.
   */
  lemma ScaleKeepsPivot(v: View, relativeScale: real, x: real, y: real, wx: real, wy: real)
    requires v.scale > 0.0
    requires Apply(v.m, wx, wy) == (x, y)
    ensures Apply(Scale(v, relativeScale, x, y).m, wx, wy) == (x, y)
  {
    ZoomMatrixKeepsPivot(v, EffectiveFactor(v.scale, relativeScale), x, y, wx, wy);
  }

  /** Zooming by a factor of exactly 1 changes nothing. */
  lemma ZoomMatrixByOne(v: View, x: real, y: real)
    ensures ZoomMatrix(v, 1.0, 1.0 - 1.0, x, y) == v
  {
    ZoomMatrixEntries(v, 1.0, 1.0 - 1.0, x, y);
    assert forall j :: 0 <= j < 6 ==> ZoomMatrix(v, 1.0, 1.0 - 1.0, x, y).m[j] == v.m[j];
    assert ZoomMatrix(v, 1.0, 1.0 - 1.0, x, y).m == v.m;
  }

  /** scale(1, x, y) changes nothing while the scale factor is in bounds. */
  lemma ScaleByOneIsNoOp(v: View, x: real, y: real)
    requires Valid(v)
    ensures Scale(v, 1.0, x, y) == v
  {
    assert EffectiveFactor(v.scale, 1.0) == 1.0;
    ZoomMatrixByOne(v, x, y);
  }

  /** A zoom pushing further past a bound already reached changes nothing. */
  lemma ScalePastBoundIsNoOp(v: View, relativeScale: real, x: real, y: real)
    requires (v.scale == MaxScale && relativeScale >= 1.0)
          || (v.scale == MinScale && relativeScale <= 1.0)
    ensures Scale(v, relativeScale, x, y) == v
  {
    if v.scale == MaxScale {
      assert v.scale * relativeScale >= MaxScale;
    } else {
      assert v.scale * relativeScale <= MinScale;
    }
    assert EffectiveFactor(v.scale, relativeScale) == 1.0;
    ZoomMatrixByOne(v, x, y);
  }

  // ---------------------------------------------------------------------
  // rotate

  /**
   * A rotation adds delta to theta, keeps the scale, rebuilds the linear part
   * as scale * rotation(theta), and so keeps the invariants.
   */
  lemma RotateShape(lib: MathLib, v: View, delta: real, x: real, y: real)
    ensures Rotate(lib, v, delta, x, y).theta == v.theta + delta
    ensures Rotate(lib, v, delta, x, y).scale == v.scale
    ensures Conformal(lib, Rotate(lib, v, delta, x, y))
    ensures Valid(v) ==> Valid(Rotate(lib, v, delta, x, y))
  {
  }

  /** The first half of rotate already restores the invariants. */
  lemma TurnedPreserves(lib: MathLib, v: View, delta: real)
    ensures Conformal(lib, Turned(lib, v, delta))
    ensures Valid(v) ==> Valid(Turned(lib, v, delta))
  {
  }

  /** The entries of a rotated matrix, written out. */
  lemma RotateEntriesAre(lib: MathLib, v: View, delta: real, x: real, y: real)
    ensures Rotate(lib, v, delta, x, y).m[0] == v.scale * lib.Cos(v.theta + delta)
    ensures Rotate(lib, v, delta, x, y).m[1] == v.scale * lib.Sin(v.theta + delta)
    ensures Rotate(lib, v, delta, x, y).m[2] == -Rotate(lib, v, delta, x, y).m[1]
    ensures Rotate(lib, v, delta, x, y).m[3] == Rotate(lib, v, delta, x, y).m[0]
    ensures Rotate(lib, v, delta, x, y).m[4] == v.m[4] + ((x - v.m[4])
              - lib.Cos(lib.Atan2(y - v.m[5], x - v.m[4]) + delta) * Radius(lib, x - v.m[4], y - v.m[5]))
    ensures Rotate(lib, v, delta, x, y).m[5] == v.m[5] + ((y - v.m[5])
              - lib.Sin(lib.Atan2(y - v.m[5], x - v.m[4]) + delta) * Radius(lib, x - v.m[4], y - v.m[5]))
  {
  }

  /** cos and sin obey the angle-sum formulas at p and q. */
  ghost predicate AngleSum(lib: MathLib, p: real, q: real)
  {
    lib.Cos(p + q) == lib.Cos(p) * lib.Cos(q) - lib.Sin(p) * lib.Sin(q)
    && lib.Sin(p + q) == lib.Sin(p) * lib.Cos(q) + lib.Cos(p) * lib.Sin(q)
  }

  /** sqrt and atan2 give the polar form of the vector (x, y). */
  ghost predicate Polar(lib: MathLib, x: real, y: real)
  {
    var phi := lib.Atan2(y, x);
    Radius(lib, x, y) * lib.Cos(phi) == x && Radius(lib, x, y) * lib.Sin(phi) == y
  }

  /**
   * The pivot pixel stays put under rotation, given the trigonometric laws
   * the computation relies on at the angles it uses: the angle sum at theta
   * and at the pivot's polar angle, and the polar form of the pivot relative
   * to the translation.
   */
  lemma RotateKeepsPivot(lib: MathLib, v: View, delta: real, x: real, y: real, wx: real, wy: real)
    requires Conformal(lib, v)
    requires AngleSum(lib, v.theta, delta)
    requires AngleSum(lib, lib.Atan2(y - v.m[5], x - v.m[4]), delta)
    requires Polar(lib, x - v.m[4], y - v.m[5])
    requires Apply(v.m, wx, wy) == (x, y)
    ensures Apply(Rotate(lib, v, delta, x, y).m, wx, wy) == (x, y)
  {
    RotateEntriesAre(lib, v, delta, x, y);
    TurnedMatrixKeepsPivot(lib, v, Rotate(lib, v, delta, x, y).m, delta, x, y, wx, wy);
  }

  /** RotateKeepsPivot for any matrix n with the entries rotate computes. */
  lemma TurnedMatrixKeepsPivot(lib: MathLib, v: View, n: Matrix, delta: real, x: real, y: real, wx: real, wy: real)
    requires Conformal(lib, v)
    requires AngleSum(lib, v.theta, delta)
    requires AngleSum(lib, lib.Atan2(y - v.m[5], x - v.m[4]), delta)
    requires Polar(lib, x - v.m[4], y - v.m[5])
    requires Apply(v.m, wx, wy) == (x, y)
    requires n[0] == v.scale * lib.Cos(v.theta + delta) && n[1] == v.scale * lib.Sin(v.theta + delta)
    requires n[2] == -n[1] && n[3] == n[0]
    requires n[4] == v.m[4] + ((x - v.m[4])
               - lib.Cos(lib.Atan2(y - v.m[5], x - v.m[4]) + delta) * Radius(lib, x - v.m[4], y - v.m[5]))
    requires n[5] == v.m[5] + ((y - v.m[5])
               - lib.Sin(lib.Atan2(y - v.m[5], x - v.m[4]) + delta) * Radius(lib, x - v.m[4], y - v.m[5]))
    ensures Apply(n, wx, wy) == (x, y)
  {
    TurnedLinearPart(lib, v, n, delta);
    TurnedTranslation(lib, v.m[4], v.m[5], n[4], n[5], delta, x, y);
    TurnAboutPivot(v.m, n, lib.Cos(delta), lib.Sin(delta), x, y, wx, wy);
  }

  /** The linear part rotate builds from theta + delta is v's turned by delta. */
  lemma TurnedLinearPart(lib: MathLib, v: View, n: Matrix, delta: real)
    requires Conformal(lib, v)
    requires AngleSum(lib, v.theta, delta)
    requires n[0] == v.scale * lib.Cos(v.theta + delta) && n[1] == v.scale * lib.Sin(v.theta + delta)
    ensures n[0] == v.m[0] * lib.Cos(delta) - v.m[1] * lib.Sin(delta)
    ensures n[1] == v.m[1] * lib.Cos(delta) + v.m[0] * lib.Sin(delta)
  {
    TurnPolar(v.scale, lib.Cos(v.theta), lib.Sin(v.theta), lib.Cos(delta), lib.Sin(delta),
              v.m[0], v.m[1], lib.Cos(v.theta + delta), lib.Sin(v.theta + delta));
  }

  /**
   * The translation rotate computes from the pivot's polar angle plus delta
   * moves (e, f) by the pivot offset minus that offset turned by delta.
   */
  lemma TurnedTranslation(lib: MathLib, e: real, f: real, n4: real, n5: real, delta: real, x: real, y: real)
    requires AngleSum(lib, lib.Atan2(y - f, x - e), delta)
    requires Polar(lib, x - e, y - f)
    requires n4 == e + ((x - e) - lib.Cos(lib.Atan2(y - f, x - e) + delta) * Radius(lib, x - e, y - f))
    requires n5 == f + ((y - f) - lib.Sin(lib.Atan2(y - f, x - e) + delta) * Radius(lib, x - e, y - f))
    ensures n4 - e == (x - e) - ((x - e) * lib.Cos(delta) - (y - f) * lib.Sin(delta))
    ensures n5 - f == (y - f) - ((y - f) * lib.Cos(delta) + (x - e) * lib.Sin(delta))
  {
    PanByPolarTurn(e, f, x - e, y - f, Radius(lib, x - e, y - f),
                   lib.Cos(lib.Atan2(y - f, x - e)), lib.Sin(lib.Atan2(y - f, x - e)),
                   lib.Cos(delta), lib.Sin(delta),
                   lib.Cos(lib.Atan2(y - f, x - e) + delta), lib.Sin(lib.Atan2(y - f, x - e) + delta), n4, n5);
  }

  /**
   * A matrix whose linear part is m's turned by an angle (cosine cd, sine sd)
   * and whose translation moved by the pivot offset minus the turned offset
   * shows at the pivot whatever m showed there.
   */
  lemma TurnAboutPivot(m: Matrix, n: Matrix, cd: real, sd: real, x: real, y: real, wx: real, wy: real)
    requires Symmetric(m)
    requires Apply(m, wx, wy).0 == x && Apply(m, wx, wy).1 == y
    requires n[0] == m[0] * cd - m[1] * sd && n[1] == m[1] * cd + m[0] * sd
    requires n[2] == -n[1] && n[3] == n[0]
    requires n[4] - m[4] == (x - m[4]) - ((x - m[4]) * cd - (y - m[5]) * sd)
    requires n[5] - m[5] == (y - m[5]) - ((y - m[5]) * cd + (x - m[4]) * sd)
    ensures Apply(n, wx, wy).0 == x && Apply(n, wx, wy).1 == y
  {
    assert m[0] * wx + m[2] * wy == x - m[4] && m[1] * wx + m[3] * wy == y - m[5];
    TurnKeepsOffset(m[0], m[1], m[2], m[3], cd, sd, wx, wy, x - m[4], y - m[5],
                    n[0], n[1], n[2], n[3], n[4] - m[4], n[5] - m[5]);
  }

  /**
   * The translation update of rotate, on plain numbers: panning by the offset
   * (relX, relY) minus its polar form turned by the angle sum leaves the
   * offset minus the offset turned by (cd, sd).
   */
  lemma PanByPolarTurn(e: real, f: real, relX: real, relY: real, rho: real,
                       cp: real, sp: real, cd: real, sd: real, tc: real, ts: real,
                       n4: real, n5: real)
    requires rho * cp == relX && rho * sp == relY
    requires tc == cp * cd - sp * sd && ts == sp * cd + cp * sd
    requires n4 == e + (relX - tc * rho) && n5 == f + (relY - ts * rho)
    ensures n4 - e == relX - (relX * cd - relY * sd)
    ensures n5 - f == relY - (relY * cd + relX * sd)
  {
    TurnPolar(rho, cp, sp, cd, sd, relX, relY, tc, ts);
  }

  /**
   * Turning the polar form (a, b) = s * (cos p, sin p) by an angle with cosine
   * cd and sine sd, when tc and ts are cos and sin of the angle sum.
   */
  lemma TurnPolar(s: real, cp: real, sp: real, cd: real, sd: real, a: real, b: real,
                  tc: real, ts: real)
    requires a == s * cp && b == s * sp
    requires tc == cp * cd - sp * sd && ts == sp * cd + cp * sd
    ensures s * tc == a * cd - b * sd && tc * s == a * cd - b * sd
    ensures s * ts == b * cd + a * sd && ts * s == b * cd + a * sd
  {
  }

  /**
   * Turning the linear part [a, b, c, d] and the world point's offset
   * (relX, relY) by the same angle, then panning by the offset minus the
   * turned offset, puts the world point back at the offset.
   */
  lemma TurnKeepsOffset(a: real, b: real, c: real, d: real, cd: real, sd: real,
                        wx: real, wy: real, relX: real, relY: real,
                        n0: real, n1: real, n2: real, n3: real, dx: real, dy: real)
    requires c == -b && d == a
    requires a * wx + c * wy == relX && b * wx + d * wy == relY
    requires n0 == a * cd - b * sd && n1 == b * cd + a * sd && n2 == -n1 && n3 == n0
    requires dx == relX - (relX * cd - relY * sd) && dy == relY - (relY * cd + relX * sd)
    ensures n0 * wx + n2 * wy + dx == relX
    ensures n1 * wx + n3 * wy + dy == relY
  {
    calc {
      n0 * wx + n2 * wy;
      (a * cd - b * sd) * wx - (b * cd + a * sd) * wy;
      cd * (a * wx + c * wy) - sd * (b * wx + d * wy);
    }
    calc {
      n1 * wx + n3 * wy;
      (b * cd + a * sd) * wx + (a * cd - b * sd) * wy;
      sd * (a * wx + c * wy) + cd * (b * wx + d * wy);
    }
  }

  /** rotate(0, x, y, _) changes nothing, given the polar form of the pivot. */
  lemma RotateByZeroIsNoOp(lib: MathLib, v: View, x: real, y: real)
    requires Conformal(lib, v)
    requires Polar(lib, x - v.m[4], y - v.m[5])
    ensures Rotate(lib, v, 0.0, x, y) == v
  {
    var relX, relY := x - v.m[4], y - v.m[5];
    var rho := Radius(lib, relX, relY);
    var phi := lib.Atan2(relY, relX);
    assert phi + 0.0 == phi && v.theta + 0.0 == v.theta;
    RotateEntriesAre(lib, v, 0.0, x, y);
    assert rho * lib.Cos(phi) == relX && rho * lib.Sin(phi) == relY;
    var n := Rotate(lib, v, 0.0, x, y).m;
    assert n[0] == v.m[0] && n[1] == v.m[1] && n[2] == v.m[2] && n[3] == v.m[3];
    assert n[4] == v.m[4] && n[5] == v.m[5];
    assert n == v.m;
  }

  // ---------------------------------------------------------------------
  // screenToWorld

  /**
   * With no rotation in effect, screenToWorld inverts the matrix: the world
   * point it returns is shown at the screen point it was given.
   */
  lemma ScreenToWorldRoundTrip(v: View, x: real, y: real)
    requires v.scale > 0.0 && AxisAligned(v)
    ensures Apply(v.m, ScreenToWorld(v, x, y).0, ScreenToWorld(v, x, y).1) == (x, y)
  {
    var w := ScreenToWorld(v, x, y);
    assert v.m[0] * w.0 + v.m[2] * w.1 + v.m[4] == w.0 * v.scale + v.m[4];
    assert v.m[1] * w.0 + v.m[3] * w.1 + v.m[5] == w.1 * v.scale + v.m[5];
    assert Apply(v.m, w.0, w.1).0 == x && Apply(v.m, w.0, w.1).1 == y;
  }

  /**
   * With a rotation in effect it does not: a matrix whose linear part is a
   * quarter turn at scale 1 shows the world point screenToWorld(1, 0) = (1, 0)
   * at (0, 1). The lemma is about that matrix only: it claims Valid, not
   * Conformal, so the theta it records is not tied to the matrix and the
   * view is not claimed to be a reachable camera state.
   */
  lemma ScreenToWorldIgnoresRotation()
    ensures var v := View([0.0, 1.0, -1.0, 0.0, 0.0, 0.0], 1.0, Pi / 2.0);
            Valid(v)
            && ScreenToWorld(v, 1.0, 0.0) == (1.0, 0.0)
            && Apply(v.m, 1.0, 0.0) == (0.0, 1.0)
  {
  }

  // ---------------------------------------------------------------------
  // Sequences of gestures

  /** The camera's initial state satisfies every invariant, given cos 0 = 1 and sin 0 = 0. */
  lemma InitialIsValid(lib: MathLib)
    requires lib.Cos(0.0) == 1.0 && lib.Sin(0.0) == 0.0
    ensures Valid(Initial) && AxisAligned(Initial) && Conformal(lib, Initial)
  {
  }

  lemma StepPreserves(lib: MathLib, v: View, g: Gesture)
    requires Valid(v) && Conformal(lib, v)
    ensures Valid(Step(lib, v, g)) && Conformal(lib, Step(lib, v, g))
  {
    match g
    case Pan(dx, dy) => TranslatePreserves(lib, v, dx, dy);
    case Zoom(rs, px, py) =>
      ScalePreservesValid(v, rs, px, py);
      ScalePreservesConformal(lib, v, rs, px, py);
    case Turn(delta, px, py, _) => RotateShape(lib, v, delta, px, py);
  }

  /**
   * However many gestures run, and however extreme, the scale factor stays
   * in [0.125, 4] and the linear part stays scale * rotation(theta).
   */
  lemma {:induction false} RunPreserves(lib: MathLib, v: View, gs: seq<Gesture>)
    requires Valid(v) && Conformal(lib, v)
    ensures Valid(Run(lib, v, gs)) && Conformal(lib, Run(lib, v, gs))
    decreases |gs|
  {
    if gs != [] {
      StepPreserves(lib, v, gs[0]);
      RunPreserves(lib, Step(lib, v, gs[0]), gs[1..]);
    }
  }

  /**
   * Pans and zooms alone never put a rotation in effect, so screenToWorld
   * inverts the matrix after any of them.
   */
  lemma {:induction false} RunWithoutTurnsStaysAxisAligned(lib: MathLib, v: View, gs: seq<Gesture>)
    requires v.scale > 0.0 && AxisAligned(v) && NoTurns(gs)
    ensures AxisAligned(Run(lib, v, gs))
    decreases |gs|
  {
    if gs != [] {
      assert !gs[0].Turn?;
      match gs[0] {
        case Pan(dx, dy) => TranslatePreserves(lib, v, dx, dy);
        case Zoom(rs, px, py) => ScalePreservesAxisAligned(v, rs, px, py);
      }
      assert NoTurns(gs[1..]) by {
        forall i | 0 <= i < |gs[1..]| ensures !gs[1..][i].Turn? {
          assert gs[1..][i] == gs[i + 1];
        }
      }
      RunWithoutTurnsStaysAxisAligned(lib, Step(lib, v, gs[0]), gs[1..]);
    }
  }

  /**
   * The compass hears exactly once from every rotation that does not skip it
   * and never from anything else.
   */
  lemma {:induction false} NoticesPerTurn(lib: MathLib, v: View, gs: seq<Gesture>)
    requires v.scale > 0.0
    ensures |Notices(lib, v, gs)| == NotifyingTurns(gs)
    decreases |gs|
  {
    if gs != [] {
      NoticesPerTurn(lib, Step(lib, v, gs[0]), gs[1..]);
    }
  }

  /**
   * The compass notice a rotation gives is pi minus the theta it leaves: the
   * rotation at index i, when it does not skip the compass, is told of at
   * place NotifyingTurns(gs[..i]) of the notices, with the theta of the view
   * after the first i + 1 gestures.
   */
  lemma {:induction false} NoticeOfTurn(lib: MathLib, v: View, gs: seq<Gesture>, i: nat)
    requires v.scale > 0.0
    requires i < |gs| && gs[i].Turn? && !gs[i].skipCompass
    ensures NotifyingTurns(gs[..i]) < |Notices(lib, v, gs)|
    ensures Notices(lib, v, gs)[NotifyingTurns(gs[..i])] == CompassAngle(Run(lib, v, gs[..i + 1]).theta)
    decreases |gs|
  {
    var next := Step(lib, v, gs[0]);
    if i == 0 {
      assert gs[..0] == [];
      assert gs[..1][1..] == [];
    } else {
      NoticeOfTurn(lib, next, gs[1..], i - 1);
      NoticesShift(lib, v, gs, i);
    }
  }

  /** One gesture more in front shifts the notices, the count and the run by that gesture. */
  lemma NoticesShift(lib: MathLib, v: View, gs: seq<Gesture>, i: nat)
    requires v.scale > 0.0 && 0 < i < |gs|
    ensures var h := if gs[0].Turn? && !gs[0].skipCompass then 1 else 0;
            && NotifyingTurns(gs[..i]) == h + NotifyingTurns(gs[1..][..i - 1])
            && Notices(lib, v, gs) == (if h == 1 then [CompassAngle(Step(lib, v, gs[0]).theta)] else [])
                                      + Notices(lib, Step(lib, v, gs[0]), gs[1..])
            && Run(lib, v, gs[..i + 1]) == Run(lib, Step(lib, v, gs[0]), gs[1..][..i])
  {
    assert gs[..i][1..] == gs[1..][..i - 1];
    assert gs[..i + 1][1..] == gs[1..][..i];
  }

  /** A rotation that does not skip the compass reports pi minus the new theta. */
  lemma TurnNotice(lib: MathLib, v: View, delta: real, x: real, y: real, skip: bool)
    requires v.scale > 0.0
    ensures Notices(lib, v, [Turn(delta, x, y, skip)])
         == if skip then [] else [Pi - (v.theta + delta)]
  {
    var gs := [Turn(delta, x, y, skip)];
    assert gs[1..] == [];
  }

  /**
   * From the initial state, scale(2, 100, 100) gives [2, 0, 0, 2, -100, -100]
   * at scale 2, and a following translate(10, -5) moves e, f to -90, -105.
   */
  lemma ZoomThenPanScenario()
    ensures Scale(Initial, 2.0, 100.0, 100.0)
         == View([2.0, 0.0, 0.0, 2.0, -100.0, -100.0], 2.0, 0.0)
    ensures Translate(Scale(Initial, 2.0, 100.0, 100.0), 10.0, -5.0)
         == View([2.0, 0.0, 0.0, 2.0, -90.0, -105.0], 2.0, 0.0)
  {
    assert EffectiveFactor(1.0, 2.0) == 2.0;
    assert Scale(Initial, 2.0, 100.0, 100.0).m == [2.0, 0.0, 0.0, 2.0, -100.0, -100.0];
  }
}
