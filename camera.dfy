/**
 * The map's Camera: an object holding the canvas view transform and updating
 * it in place as pointer gestures pan, zoom and rotate the view.
 *
 * Translate, Scale, Rotate and ScreenToWorld are proved against the function
 * of the same name in Affine, and the first three keep the object invariant
 * Valid(): the matrix has six entries, the scale factor lies in [0.125, 4],
 * and the linear part is exactly
 * scaleFactor * [cos theta, sin theta, -sin theta, cos theta].
 * The two steps MultiplyEntries and RebuildLinearPart are proved against
 * ScaleEntries and Turned. RebuildLinearPart keeps Valid(); after
 * MultiplyEntries the linear part no longer matches scaleFactor until Scale
 * stores the new factor, as in the source.
 */
module CanvasCamera {
  import opened Affine

  class Camera {
    /** The affine matrix [a, b, c, d, e, f]; the array itself never changes. */
    const transform: array<real>
    /** The uniform scale in effect. */
    var scaleFactor: real
    /** The cumulative clockwise rotation in radians. */
    var theta: real
    /** Math.cos, Math.sin, Math.atan2 and Math.sqrt, as the camera calls them. */
    const math: MathLib
    /** The angles passed to the compass's updateRotation, oldest first. */
    ghost var compassLog: seq<real>
    /** The matrices passed to the canvas context's setTransform, oldest first. */
    ghost var pushed: seq<seq<real>>

    /** The camera's state as a value. */
    ghost function State(): View
      reads this, transform
      requires transform.Length == 6
    {
      View(transform[..], scaleFactor, theta)
    }

    /**
     * Affine.Valid of the state, plus Conformal: the linear part is
     * scaleFactor times the rotation by theta.
     */
    ghost predicate Valid()
      reads this, transform
    {
      transform.Length == 6 && Affine.Valid(State()) && Conformal(math, State())
    }

    /**
     * A camera starts at the identity matrix, scale 1 and theta 0. The
     * conformal invariant then needs cos 0 = 1 and sin 0 = 0 of the math given.
     */
    constructor (math: MathLib)
      requires math.Cos(0.0) == 1.0 && math.Sin(0.0) == 0.0
      ensures Valid() && fresh(transform)
      ensures State() == Initial && this.math == math
      ensures compassLog == [] && pushed == []
    {
      transform := new real[6] [1.0, 0.0, 0.0, 1.0, 0.0, 0.0];
      scaleFactor := 1.0;
      theta := 0.0;
      this.math := math;
      compassLog := [];
      pushed := [];
      new;
      assert transform[..] == Identity;
      InitialIsValid(math);
    }

    /** translate(x, y): add the pointer's pixel delta to the translation entries. */
    method Translate(x: real, y: real)
      requires transform.Length == 6
      modifies transform, this`pushed
      ensures State() == Affine.Translate(old(State()), x, y)
      ensures pushed == old(pushed) + [transform[..]]
      ensures old(Valid()) ==> Valid()
    {
      transform[4] := transform[4] + x;
      transform[5] := transform[5] + y;
      pushed := pushed + [transform[..]];
      assert transform[..] == old(transform[..])[4 := old(transform[4]) + x][5 := old(transform[5]) + y];
      TranslatePreserves(math, old(State()), x, y);
    }

    /** The loop of scale: every matrix entry multiplied by k, in place. */
    method MultiplyEntries(k: real)
      requires transform.Length == 6
      modifies transform
      ensures transform[..] == ScaleEntries(old(transform[..]), k)
    {
      ghost var before := transform[..];
      for i := 0 to 6
        invariant forall j :: 0 <= j < i ==> transform[j] == before[j] * k
        invariant forall j :: i <= j < 6 ==> transform[j] == before[j]
      {
        transform[i] := transform[i] * k;
      }
      ScaleEntriesAt(before, k);
      assert forall j :: 0 <= j < 6 ==> transform[..][j] == ScaleEntries(before, k)[j];
    }

    /**
     * scale(relativeScale, x, y): zoom by relativeScale about the pointer
     * pixel (x, y), with the resulting scale clamped to [0.125, 4].
     */
    method Scale(relativeScale: real, x: real, y: real)
      requires Valid()
      modifies this, transform
      ensures Valid()
      ensures State() == Affine.Scale(old(State()), relativeScale, x, y)
      ensures pushed == old(pushed) + [transform[..], transform[..]]
      ensures compassLog == old(compassLog)
    {
      ghost var before := State();
      var newScale := Clamp(scaleFactor * relativeScale);
      // The factor actually applied, which differs from the request when clamped.
      var effective := newScale / scaleFactor;
      var centerFactor := 1.0 - effective;
      assert effective == EffectiveFactor(before.scale, relativeScale);
      ScaleByEffectiveFactor(before, relativeScale, x, y, effective, newScale);
      MultiplyEntries(effective);
      Translate(x * centerFactor, y * centerFactor);
      pushed := pushed + [transform[..]];
      scaleFactor := newScale;
      assert State().m == ZoomMatrix(before, effective, centerFactor, x, y).m;
      assert State().scale == newScale && State().theta == before.theta;
      ScalePreservesValid(before, relativeScale, x, y);
      ScalePreservesConformal(math, before, relativeScale, x, y);
    }

    /** The first half of rotate: theta advanced and the linear part rebuilt. */
    method RebuildLinearPart(delta: real)
      requires transform.Length == 6
      modifies this`theta, transform
      ensures State() == Turned(math, old(State()), delta)
      ensures old(Valid()) ==> Valid()
    {
      ghost var before := State();
      theta := theta + delta;
      transform[0] := scaleFactor * math.Cos(theta);
      transform[1] := scaleFactor * math.Sin(theta);
      transform[2] := -transform[1];
      transform[3] := transform[0];
      ghost var target := Turned(math, before, delta);
      assert transform[0] == target.m[0] && transform[1] == target.m[1];
      assert transform[2] == target.m[2] && transform[3] == target.m[3];
      assert transform[4] == target.m[4] && transform[5] == target.m[5];
      assert forall j :: 0 <= j < 6 ==> transform[..][j] == target.m[j];
      assert State() == target;
      TurnedPreserves(math, before, delta);
    }

    /**
     * rotate(delta, x, y, skipCompass): turn clockwise by delta radians about
     * the pointer pixel (x, y), rebuilding the linear part from scaleFactor and
     * the new theta, and tell the compass unless skipCompass is set.
     */
    method Rotate(delta: real, x: real, y: real, skipCompass: bool)
      requires Valid()
      modifies this, transform
      ensures Valid()
      ensures State() == Affine.Rotate(math, old(State()), delta, x, y)
      ensures theta == old(theta) + delta
      ensures compassLog == old(compassLog) + (if skipCompass then [] else [CompassAngle(theta)])
      ensures pushed == old(pushed) + [transform[..]]
    {
      ghost var before := State();
      RebuildLinearPart(delta);
      ghost var turned := State();
      var relX := x - transform[4];
      var relY := y - transform[5];
      var rho := Radius(math, relX, relY);
      var phiPrime := math.Atan2(relY, relX) + delta;
      var dx, dy := relX - math.Cos(phiPrime) * rho, relY - math.Sin(phiPrime) * rho;
      assert relX == x - turned.m[4] && relY == y - turned.m[5];
      assert dx == TurnOffset(math, turned, delta, x, y).0;
      assert dy == TurnOffset(math, turned, delta, x, y).1;
      Translate(dx, dy);
      if !skipCompass {
        compassLog := compassLog + [CompassAngle(theta)];
      }
      assert State().m == Affine.Translate(turned, dx, dy).m;
      assert State().scale == turned.scale && State().theta == turned.theta;
      RotateShape(math, before, delta, x, y);
    }

    /**
     * screenToWorld(x, y): the world point under screen pixel (x, y), found by
     * removing the translation and dividing by the scale factor. The rotation
     * part of the matrix is not undone.
     */
    method ScreenToWorld(x: real, y: real) returns (wx: real, wy: real)
      requires Valid()
      ensures (wx, wy) == Affine.ScreenToWorld(State(), x, y)
      ensures wx * scaleFactor + transform[4] == x && wy * scaleFactor + transform[5] == y
    {
      wx, wy := x, y;
      wx := wx - transform[4];
      wy := wy - transform[5];
      wx := wx / scaleFactor;
      wy := wy / scaleFactor;
    }
  }

  /**
   * A zoom, a pan and a rotation from a fresh camera, with the states and the
   * compass angle they lead to.
   */
  method ZoomPanTurn(math: MathLib)
    requires math.Cos(0.0) == 1.0 && math.Sin(0.0) == 0.0
  {
    var camera := new Camera(math);
    camera.Scale(2.0, 100.0, 100.0);
    ZoomThenPanScenario();
    assert camera.transform[..] == [2.0, 0.0, 0.0, 2.0, -100.0, -100.0];
    assert camera.scaleFactor == 2.0;
    camera.Translate(10.0, -5.0);
    assert camera.transform[4] == -90.0 && camera.transform[5] == -105.0;
    assert camera.transform[..4] == [2.0, 0.0, 0.0, 2.0];
    camera.Rotate(Pi / 4.0, 0.0, 0.0, false);
    assert camera.compassLog == [3.0 * Pi / 4.0];
    assert camera.theta == Pi / 4.0 && camera.scaleFactor == 2.0;
    assert camera.transform[0] == 2.0 * math.Cos(Pi / 4.0) && camera.transform[3] == camera.transform[0];
    assert camera.transform[1] == 2.0 * math.Sin(Pi / 4.0) && camera.transform[2] == -camera.transform[1];
    camera.Rotate(Pi / 4.0, 0.0, 0.0, true);
    assert camera.compassLog == [3.0 * Pi / 4.0];
    assert camera.theta == Pi / 2.0;
  }
}
