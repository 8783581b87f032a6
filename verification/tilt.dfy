/**
 The pointer tilt of the whole emblem: the pointer's offset from the viewport
 centre, as a fraction of the half-width and half-height, scaled to at most
 `MaxAngle` radians and written straight into the group's rotation.
 */
module Tilt {
  import opened Transform

  type PositiveReal = r: real | r > 0.0 witness 1.0

  /** The circle constant; only its sign matters to the properties below. */
  const Pi: PositiveReal

  /** `Math.PI / 8`, 22.5 degrees. */
  const MaxAngle: real := Pi / 8.0

  /** The two angles a pointer position maps to: yaw from the horizontal offset, and angleX, whose negation is stored as the pitch, from the vertical one. */
  datatype Angles = Angles(angleY: real, angleX: real)

  /** A pointer position inside the viewport, edges included. */
  predicate InViewport(clientX: real, clientY: real, innerWidth: real, innerHeight: real)
  {
    0.0 <= clientX <= innerWidth && 0.0 <= clientY <= innerHeight
  }

  /** The angle arithmetic of the pointer-move handler. */
  function TiltAngles(clientX: real, clientY: real, innerWidth: real, innerHeight: real): (a: Angles)
    requires innerWidth > 0.0 && innerHeight > 0.0
    ensures clientX == innerWidth / 2.0 ==> a.angleY == 0.0
    ensures clientY == innerHeight / 2.0 ==> a.angleX == 0.0
    ensures clientX == 0.0 ==> a.angleY == -MaxAngle
    ensures clientX == innerWidth ==> a.angleY == MaxAngle
    ensures clientY == 0.0 ==> a.angleX == MaxAngle
    ensures clientY == innerHeight ==> a.angleX == -MaxAngle
  {
    var centerX := innerWidth / 2.0;
    var centerY := innerHeight / 2.0;
    var x := clientX - centerX;
    var y := clientY - centerY;
    Angles(Scaled(x, centerX), -Scaled(y, centerY))
  }

  /** An offset from the centre as a fraction of the half-extent, times `MaxAngle`. */
  function Scaled(offset: real, half: real): real
    requires half > 0.0
  {
    (offset / half) * MaxAngle
  }

  /** The inverse of `Scaled`. */
  function Unscaled(angle: real, half: real): real
  {
    angle / MaxAngle * half
  }

  /** Inside the viewport neither angle exceeds `MaxAngle` in magnitude. */
  lemma TiltBounded(clientX: real, clientY: real, innerWidth: real, innerHeight: real)
    requires innerWidth > 0.0 && innerHeight > 0.0
    requires InViewport(clientX, clientY, innerWidth, innerHeight)
    ensures -MaxAngle <= TiltAngles(clientX, clientY, innerWidth, innerHeight).angleY <= MaxAngle
    ensures -MaxAngle <= TiltAngles(clientX, clientY, innerWidth, innerHeight).angleX <= MaxAngle
  {
    var cx, cy := innerWidth / 2.0, innerHeight / 2.0;
    UnitScaled(clientX - cx, cx);
    UnitScaled(clientY - cy, cy);
  }

  /** A fraction of at most one, scaled by `MaxAngle`, stays within `MaxAngle`. */
  lemma UnitScaled(offset: real, half: real)
    requires half > 0.0 && -half <= offset <= half
    ensures -MaxAngle <= Scaled(offset, half) <= MaxAngle
  {
    var f := offset / half;
    assert -1.0 <= f <= 1.0 by {
      assert f * half == offset;
    }
    assert MaxAngle > 0.0;
    assert -MaxAngle <= f * MaxAngle <= MaxAngle by {
      assert (1.0 - f) * MaxAngle >= 0.0;
      assert (1.0 + f) * MaxAngle >= 0.0;
    }
  }

  /** The pointer position a pair of angles comes from. */
  function PointerFromAngles(a: Angles, innerWidth: real, innerHeight: real): (p: (real, real))
    requires innerWidth > 0.0 && innerHeight > 0.0
  {
    var centerX := innerWidth / 2.0;
    var centerY := innerHeight / 2.0;
    (centerX + Unscaled(a.angleY, centerX), centerY + Unscaled(-a.angleX, centerY))
  }

  /**
   The map is invertible: the pointer position is recovered from the angles,
   so distinct positions give distinct tilts.
   */
  lemma TiltRoundTrip(clientX: real, clientY: real, innerWidth: real, innerHeight: real)
    requires innerWidth > 0.0 && innerHeight > 0.0
    ensures PointerFromAngles(TiltAngles(clientX, clientY, innerWidth, innerHeight), innerWidth, innerHeight) == (clientX, clientY)
  {
    var cx, cy := innerWidth / 2.0, innerHeight / 2.0;
    Unscale(clientX - cx, cx);
    Unscale(clientY - cy, cy);
  }

  /** `Unscaled` undoes `Scaled`. */
  lemma Unscale(offset: real, half: real)
    requires half > 0.0
    ensures Unscaled(Scaled(offset, half), half) == offset
  {
    var f := offset / half;
    assert f * half == offset;
    assert MaxAngle > 0.0;
    assert f * MaxAngle / MaxAngle == f;
  }

  /** `Scaled` preserves the order of offsets. */
  lemma ScaleMonotone(a: real, b: real, half: real)
    requires half > 0.0 && a <= b
    ensures Scaled(a, half) <= Scaled(b, half)
  {
    assert a / half <= b / half by {
      assert (b / half - a / half) * half == b - a;
    }
    assert MaxAngle > 0.0;
    assert (b / half) * MaxAngle - (a / half) * MaxAngle == (b / half - a / half) * MaxAngle;
  }

  /** Moving the pointer right turns the yaw up; moving it down lowers angleX, so the stored pitch rises. */
  lemma TiltMonotone(x1: real, x2: real, y1: real, y2: real, innerWidth: real, innerHeight: real)
    requires innerWidth > 0.0 && innerHeight > 0.0
    requires x1 <= x2 && y1 <= y2
    ensures TiltAngles(x1, y1, innerWidth, innerHeight).angleY <= TiltAngles(x2, y2, innerWidth, innerHeight).angleY
    ensures TiltAngles(x2, y2, innerWidth, innerHeight).angleX <= TiltAngles(x1, y1, innerWidth, innerHeight).angleX
  {
    var cx, cy := innerWidth / 2.0, innerHeight / 2.0;
    ScaleMonotone(x1 - cx, x2 - cx, cx);
    ScaleMonotone(y1 - cy, y2 - cy, cy);
  }

  /**
   Writing the angles into the group: yaw becomes `angleY`, pitch becomes
   `-angleX` (`rotation && -angleX`, where the rotation object is always
   truthy), roll is untouched, and an unset group ref is left alone.
   */
  function ApplyTilt(group: Ref<Euler>, a: Angles): (r: Ref<Euler>)
    ensures group.Unset? ==> r == group
    ensures group.Current? ==> r.Current? && r.value.z == group.value.z
    ensures group.Current? ==> r.value.y == a.angleY && r.value.x == -a.angleX
  {
    match group
    case Unset => Unset
    case Current(rotation) => Current(rotation.(y := a.angleY, x := -a.angleX))
  }

  /** The pointer-move handler: compute the angles and write them into the group. */
  function HandleMouseMove(group: Ref<Euler>, clientX: real, clientY: real, innerWidth: real, innerHeight: real): (r: Ref<Euler>)
    requires innerWidth > 0.0 && innerHeight > 0.0
    ensures group.Unset? ==> r == group
    ensures group.Current? ==> r.Current? && r.value.z == group.value.z
    ensures group.Current? ==> r.value.x * (innerHeight / 2.0) == (clientY - innerHeight / 2.0) * MaxAngle
    ensures group.Current? ==> r.value.y * (innerWidth / 2.0) == (clientX - innerWidth / 2.0) * MaxAngle
  {
    ApplyTilt(group, TiltAngles(clientX, clientY, innerWidth, innerHeight))
  }

  /**
   The tilt overwrites rather than accumulates: after two pointer moves the
   group carries exactly what the second alone would have left.
   */
  lemma TiltOverwrites(group: Ref<Euler>, a1: Angles, a2: Angles)
    ensures ApplyTilt(ApplyTilt(group, a1), a2) == ApplyTilt(group, a2)
  {
  }

  /** Inside the viewport the group's yaw and pitch stay within `MaxAngle`. */
  lemma HandleMouseMoveBounded(group: Ref<Euler>, clientX: real, clientY: real, innerWidth: real, innerHeight: real)
    requires innerWidth > 0.0 && innerHeight > 0.0
    requires InViewport(clientX, clientY, innerWidth, innerHeight)
    requires group.Current?
    ensures -MaxAngle <= HandleMouseMove(group, clientX, clientY, innerWidth, innerHeight).value.x <= MaxAngle
    ensures -MaxAngle <= HandleMouseMove(group, clientX, clientY, innerWidth, innerHeight).value.y <= MaxAngle
  {
    TiltBounded(clientX, clientY, innerWidth, innerHeight);
  }

  /** Worked examples on a 1000 by 800 viewport: pointer at the right edge, and at the top edge. */
  lemma EdgeScenarios()
    ensures TiltAngles(1000.0, 400.0, 1000.0, 800.0) == Angles(MaxAngle, 0.0)
    ensures TiltAngles(500.0, 0.0, 1000.0, 800.0) == Angles(0.0, MaxAngle)
    ensures HandleMouseMove(Current(Identity), 500.0, 0.0, 1000.0, 800.0) == Current(Euler(-MaxAngle, 0.0, 0.0))
  {
  }
}
