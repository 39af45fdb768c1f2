# Canvas camera of the campus map

The map draws onto an HTML canvas through a `Camera` object (js/camera.mjs).
The camera holds the canvas's 2x3 affine view matrix `[a, b, c, d, e, f]`.
That matrix sends a world point `(x, y)` to the screen point
`(a·x + c·y + e, b·x + d·y + f)`. The camera also holds a uniform scale factor
and a cumulative clockwise angle `theta`. Pointer gestures call four
operations:

- `translate`: pan by a pixel delta.
- `scale`: zoom about the pointer, clamped to the range [0.125, 4].
- `rotate`: turn about the pointer, and tell the compass the new heading.
- `screenToWorld`: convert a pointer pixel back to canvas coordinates.

The model has two modules.

- `Affine` (affine.dfy) is the camera's state as a value, `View(m, scale, theta)`.
  Each operation is a function on that value: `Translate`, `Scale`, `Rotate`
  (a `Turned` step, then a `TurnOffset` pan) and `ScreenToWorld`.
  The module also holds the lemmas about these functions.
  They cover the invariants every operation keeps:
  - the scale stays within its bounds;
  - the matrix has the shape `d = a`, `c = -b`;
  - the linear part is exactly `scale · rotation(theta)`.

  They also cover the pivot pixel staying put under zoom and rotation, the
  no-op cases, the compass notices, and the round trip of `screenToWorld`.
  `Run` and `Notices` apply a sequence of gestures. They carry the invariants,
  the compass count and the value of each notice across any number of gestures.
- `CanvasCamera` (camera.dfy) is the `Camera` class itself:
  - the matrix is an `array<real>` of six entries, updated in place;
  - `scaleFactor` and `theta` are mutable fields;
  - `scale` keeps its `for` loop over the six entries.

  The postconditions of `Translate`, `Scale` and `Rotate` equate the new
  state with the `Affine` function of the same name applied to the old
  state, and these three keep the class invariant `Valid()`.
  `ScreenToWorld` returns `Affine.ScreenToWorld` of the state and changes
  nothing. The two steps `MultiplyEntries` (the loop of `scale`) and
  `RebuildLinearPart` (the first half of `rotate`) are proved against
  `ScaleEntries` and `Turned`. `RebuildLinearPart` also keeps `Valid()`.
  `MultiplyEntries` does not: after it the linear part no longer matches
  `scaleFactor` until `Scale` stores the new factor, as in the source
  between js/camera.mjs:49 and :56. The method `ZoomPanTurn` (outside the
  class) runs a fresh camera through `scale(2, 100, 100)`,
  `translate(10, -5)`, `rotate(PI/4, 0, 0, false)` and
  `rotate(PI/4, 0, 0, true)` (js/camera.mjs:33-83). After `scale` it
  asserts the whole matrix and the scale factor; after `translate`, the
  whole matrix; after the first `rotate`, the compass history, theta, the
  scale factor and the linear part a = 2 cos(PI/4), b = 2 sin(PI/4),
  c = -b, d = a; after the second `rotate`, the compass history (unchanged)
  and theta. The translation after a `rotate` is not asserted.

Numbers are `real`. `Math.cos`, `Math.sin`, `Math.atan2` and `Math.sqrt`
belong to a `MathLib` value that is given to the camera when it is built.
The camera calls them, and nothing is assumed about their values beyond
cos 0 = 1 and sin 0 = 0. The
rotation results stated below need trigonometric facts. Those facts appear
only as explicit hypotheses: `AngleSum`, the angle-sum formulas at the angles
used; and `Polar`, sqrt and atan2 giving the polar form of the pivot offset.
`Math.PI` is the decimal constant `Pi`.

## Model

| member | source | states |
|---|---|---|
| Affine.Clamp | js/camera.mjs:44 | the result lies in [0.125, 4]; it equals its argument when the argument is in range, and the bound that was crossed otherwise |
| Affine.EffectiveFactor | js/camera.mjs:42-46 | the factor scale actually applies is positive, moves the scale into [0.125, 4], times the old scale gives the clamped request, and equals the requested factor when no clamping happens |
| Affine.ScaleEntriesAt | js/camera.mjs:47-49 | after the loop, entry j of the matrix is the old entry j times the factor, for every j |
| Affine.Scale | js/camera.mjs:41-57 | the scale factor after any zoom is within [0.125, 4] |
| Affine.Translate | js/camera.mjs:33-37 | the value-level translate; its contract is carried by TranslateMovesEveryPoint, TranslatePreserves, TranslateByZeroIsNoOp and TranslateComposes |
| Affine.ScaleEntries | js/camera.mjs:47-49 | the loop's effect on the matrix; it keeps the six entries, and ScaleEntriesAt gives every entry |
| Affine.ZoomMatrix | js/camera.mjs:47-54 | the matrix after the loop and the pan by the pivot times 1 - k; see ZoomMatrixKeepsPivot |
| Affine.ZoomMatrixKeepsPivot | js/camera.mjs:47-54 | for any factor k, scaling every entry by k and panning by (x, y)·(1 - k) keeps the world point shown at (x, y) there |
| Affine.Turned | js/camera.mjs:64-68 | the first half of rotate: theta advanced, linear part rebuilt; see RotateShape |
| Affine.TurnOffset | js/camera.mjs:70-79 | the pan of rotate, computed from the translation after the rebuild; see RotateKeepsPivot |
| Affine.TurnedPreserves | js/camera.mjs:64-68 | after the rebuild the linear part is scale times the rotation by theta, so the invariants hold again |
| Affine.Rotate | js/camera.mjs:62-79 | the value-level rotate, Turned then the TurnOffset pan; its contract is carried by RotateShape, RotateKeepsPivot and RotateByZeroIsNoOp |
| Affine.CompassAngle | js/camera.mjs:81 | the angle sent to the compass, PI minus theta; see TurnNotice and NoticeOfTurn |
| Affine.ScreenToWorld | js/camera.mjs:88-94 | the returned point times scaleFactor, plus the translation (e, f), gives back the screen point |
| Affine.TranslateMovesEveryPoint | js/camera.mjs:33-37 | a pan moves the screen image of every world point by exactly (x, y); it changes only e and f, and not scaleFactor or theta |
| Affine.TranslatePreserves | js/camera.mjs:33-37 | a pan keeps the bounds and shape invariant, the scale·rotation(theta) form, and the absence of a rotation |
| Affine.TranslateByZeroIsNoOp | js/camera.mjs:33-37 | translate(0, 0) leaves the state unchanged |
| Affine.TranslateComposes | js/camera.mjs:33-37 | translate(a, b) then translate(c, d) is translate(a + c, b + d) |
| Affine.ScaleIsUniform | js/camera.mjs:42-49 | a zoom multiplies a, b, c, d and the scale factor by one and the same effective factor, and leaves theta alone |
| Affine.ScalePreservesValid | js/camera.mjs:41-57 | a zoom keeps the scale in [0.125, 4] and the matrix shape d = a, c = -b |
| Affine.ScalePreservesConformal | js/camera.mjs:41-57 | a zoom keeps the linear part equal to scale·rotation(theta) |
| Affine.ScalePreservesAxisAligned | js/camera.mjs:41-57 | a zoom with no rotation in effect leaves the linear part at scale times the identity |
| Affine.ScaleKeepsPivot | js/camera.mjs:47-54 | the world point shown at the pointer (x, y) before a zoom is still shown at (x, y) after it, clamped or not |
| Affine.ScaleByOneIsNoOp | js/camera.mjs:41-57 | scale(1, x, y) leaves a valid state unchanged |
| Affine.ScalePastBoundIsNoOp | js/camera.mjs:44-56 | zooming in at scale 4, or zooming out at scale 0.125, leaves the state unchanged |
| Affine.RotateShape | js/camera.mjs:64-68 | rotate adds delta to theta, keeps the scale factor, rebuilds the linear part as scale·rotation(theta), and keeps the bounds and shape invariant |
| Affine.RotateKeepsPivot | js/camera.mjs:64-79 | the world point shown at the pointer (x, y) before a rotation is still shown there after it, given the angle-sum formulas and the polar form of the pivot offset |
| Affine.RotateByZeroIsNoOp | js/camera.mjs:62-79 | rotate(0, x, y) leaves a state in scale·rotation(theta) form unchanged, given the polar form of the pivot offset |
| Affine.ScreenToWorldRoundTrip | js/camera.mjs:88-94 | with no rotation in effect, the matrix shows the point screenToWorld returns at the screen point it was given |
| Affine.ScreenToWorldIgnoresRotation | js/camera.mjs:85-94 | with a quarter turn in effect, screenToWorld(1, 0) is (1, 0), which the matrix shows at (0, 1), not at (1, 0) |
| Affine.InitialIsValid | js/camera.mjs:14-19 | the initial identity matrix with scale 1 and theta 0 satisfies every invariant |
| Affine.RunPreserves | js/camera.mjs:33-83 | after any sequence of pans, zooms and rotations, the scale stays in [0.125, 4] and the linear part stays scale·rotation(theta) |
| Affine.RunWithoutTurnsStaysAxisAligned | js/camera.mjs:33-57 | pans and zooms alone never put a rotation in effect, so screenToWorld stays an exact inverse |
| Affine.NoticesPerTurn | js/camera.mjs:80-82 | the compass is told exactly once per rotation that does not skip it, and never by pans or zooms |
| Affine.NoticeOfTurn | js/camera.mjs:80-82 | in any gesture sequence, the rotation at index i that does not skip the compass is told of at place NotifyingTurns(gs[..i]) of the notices, with PI minus the theta after the first i + 1 gestures |
| Affine.TurnNotice | js/camera.mjs:80-82 | the compass is told PI minus the new theta, and nothing when skipCompass is set |
| Affine.ZoomThenPanScenario | js/camera.mjs:33-57 | from the initial state, scale(2, 100, 100) gives [2, 0, 0, 2, -100, -100] at scale 2, and translate(10, -5) then gives e, f = -90, -105 |
| CanvasCamera.Camera.constructor | js/camera.mjs:14-19 | a new camera has the identity matrix, scale 1, theta 0, and an empty compass and setTransform history |
| CanvasCamera.Camera.Translate | js/camera.mjs:33-37 | the new state is Affine.Translate of the old one; one matrix is pushed to setTransform; the invariant is kept |
| CanvasCamera.Camera.MultiplyEntries | js/camera.mjs:47-49 | the in-place loop leaves every entry multiplied by the factor |
| CanvasCamera.Camera.Scale | js/camera.mjs:41-57 | the new state is Affine.Scale of the old one; two matrices are pushed to setTransform; the compass is not told; the invariant is kept |
| CanvasCamera.Camera.RebuildLinearPart | js/camera.mjs:64-68 | theta is advanced and the linear part rebuilt as Affine.Turned says, and a valid camera stays valid |
| CanvasCamera.Camera.Rotate | js/camera.mjs:62-83 | the new state is Affine.Rotate of the old one; theta grows by delta; the compass is told PI minus the new theta unless skipCompass is set; one matrix is pushed; the invariant is kept |
| CanvasCamera.Camera.ScreenToWorld | js/camera.mjs:88-94 | the result is Affine.ScreenToWorld of the state: the point that, times scaleFactor plus (e, f), gives (x, y) |

## Left out

- The canvas context is not modelled, so the constructor does not take `ctx` (js/camera.mjs:27-28). `ctx.setTransform` (js/camera.mjs:36, :55) becomes the ghost history `pushed` of the matrices it receives. The second push in `scale` repeats the one `translate` already made, and the history records both.
- The `Compass` object is not modelled, including its construction in the constructor (js/camera.mjs:29). `compass.updateRotation` becomes the ghost history `compassLog` of the angles it receives. compass.mjs is not part of this model.
- The numeric content of `Math.cos`, `Math.sin`, `Math.atan2` and `Math.sqrt` is not modelled; they are the fields of a `MathLib` value, which the constructor takes as its parameter. Affine.RotateKeepsPivot therefore holds only under the hypotheses `AngleSum` (at theta and at the pivot's polar angle) and `Polar` (at the pivot offset), besides the invariant `Conformal`. Affine.RotateByZeroIsNoOp needs only `Polar` at the pivot offset, besides the invariant `Conformal`. The camera's constructor demands only cos 0 = 1 and sin 0 = 0.
- The relation a² + b² = scaleFactor² is not stated. It needs cos² + sin² = 1, which the model does not assume.
- Floating point is not modelled. Coordinates are exact reals, so the pivot and round-trip equalities hold exactly here, but only up to rounding in the original.
- Non-finite inputs (NaN, Infinity) are not modelled. In the original, `scale` with a NaN `relativeScale` makes `Math.max(0.125, NaN)` NaN, so `scaleFactor` leaves [0.125, 4] for good and the bounds invariant no longer holds. Every real the model takes is finite.
- Affine.ScreenToWorldRoundTrip is stated only with no rotation in effect, because `screenToWorld` does not undo the rotation part (js/camera.mjs:85 says so). The model keeps that behaviour as written, and Affine.ScreenToWorldIgnoresRotation exhibits it.
- The camera methods call the Affine function or lemma for each step. `Scale`, `Rotate` and `ScreenToWorld` require `Valid()` on entry; `Translate`, `MultiplyEntries` and `RebuildLinearPart` require only that the matrix has six entries. The source keeps the same facts implicitly. In particular, `scaleFactor > 0` is what makes the division in `scale` and `screenToWorld` defined.
- A zoom driven by a raw wheel delta and a sensitivity constant is not part of js/camera.mjs: `scale` receives a ready relative factor. That variant is not modelled.
