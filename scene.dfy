/** The per-frame rotation of the tree group in components/Scene.tsx
    (`InnerScene`'s `useFrame` callback): the group turns about its vertical
    axis at the gesture's rotation speed, except while a card is pinched or
    the speed is negligible. */
module Scene {
  import opened RealMath

  const SPEED_THRESHOLD: real := 0.001
  const SPEED_MULTIPLIER: real := 1.0

  /** The rotated group's Euler angles. */
  class Group {
    var rotationX: real
    var rotationY: real
    var rotationZ: real

    constructor (x: real, y: real, z: real)
      ensures rotationX == x && rotationY == y && rotationZ == z
    {
      rotationX, rotationY, rotationZ := x, y, z;
    }
  }

  /** How far one frame of `delta` seconds turns the group. It is zero while
      pinching or for a speed of magnitude at most 0.001, and otherwise
      `speed * delta`; for a positive `delta` it turns the way the speed
      points. */
  function RotationIncrement(isPinching: bool, speed: real, delta: real): (d: real)
    ensures isPinching ==> d == 0.0
    ensures Abs(speed) <= SPEED_THRESHOLD ==> d == 0.0
    ensures !isPinching && Abs(speed) > SPEED_THRESHOLD ==> d == speed * delta
    ensures delta > 0.0 ==> (d > 0.0 <==> !isPinching && speed > SPEED_THRESHOLD)
    ensures delta > 0.0 ==> (d < 0.0 <==> !isPinching && speed < -SPEED_THRESHOLD)
  {
    if isPinching || Abs(speed) <= SPEED_THRESHOLD then 0.0
    else
      var finalDelta := speed * SPEED_MULTIPLIER;
      if delta > 0.0 then MulSignsForPositive(finalDelta, delta); finalDelta * delta
      else finalDelta * delta
  }

  lemma MulSignsForPositive(a: real, b: real)
    requires b > 0.0
    ensures a * b > 0.0 <==> a > 0.0
    ensures a * b < 0.0 <==> a < 0.0
  {
    if a > 0.0 {
      MulStrict(a, b);
    } else if a < 0.0 {
      MulStrict(-a, b);
    }
  }

  lemma MulStrict(a: real, b: real)
    requires a > 0.0 && b > 0.0
    ensures a * b > 0.0
  {}

  /** The sum of the frame times. */
  function TotalTime(deltas: seq<real>): real
  {
    if deltas == [] then 0.0 else deltas[0] + TotalTime(deltas[1..])
  }

  /** The group's angle after a sequence of frames at a fixed speed and
      pinch state. */
  function RotateFrames(y: real, isPinching: bool, speed: real, deltas: seq<real>): real
    decreases |deltas|
  {
    if deltas == [] then y
    else RotateFrames(y + RotationIncrement(isPinching, speed, deltas[0]), isPinching, speed, deltas[1..])
  }

  /** Over many frames at a fixed, non-negligible speed the group turns by the
      speed times the elapsed time; while pinching it does not turn at all. */
  lemma {:induction false} RotateFramesTotal(y: real, isPinching: bool, speed: real, deltas: seq<real>)
    ensures isPinching || Abs(speed) <= SPEED_THRESHOLD ==> RotateFrames(y, isPinching, speed, deltas) == y
    ensures !isPinching && Abs(speed) > SPEED_THRESHOLD ==>
      RotateFrames(y, isPinching, speed, deltas) == y + speed * TotalTime(deltas)
    decreases |deltas|
  {
    if deltas != [] {
      var y1 := y + RotationIncrement(isPinching, speed, deltas[0]);
      RotateFramesTotal(y1, isPinching, speed, deltas[1..]);
      assert speed * deltas[0] + speed * TotalTime(deltas[1..]) == speed * TotalTime(deltas);
    }
  }

  /** `InnerScene` with its group ref, which is unset before the group mounts. */
  class InnerScene {
    var groupRef: Group?

    constructor (group: Group?)
      ensures groupRef == group
    {
      groupRef := group;
    }

    /** The `useFrame` callback for one frame of `delta` seconds. Only the
        group's vertical-axis angle changes, and with no group nothing does. */
    method OnFrame(isPinching: bool, rotationSpeed: real, delta: real)
      modifies groupRef
      ensures groupRef == old(groupRef)
      ensures groupRef != null ==>
        && groupRef.rotationY == old(groupRef.rotationY) + RotationIncrement(isPinching, rotationSpeed, delta)
        && groupRef.rotationX == old(groupRef.rotationX)
        && groupRef.rotationZ == old(groupRef.rotationZ)
    {
      if groupRef != null {
        if isPinching {
          return;
        }
        if Abs(rotationSpeed) > SPEED_THRESHOLD {
          var finalDelta := rotationSpeed * SPEED_MULTIPLIER;
          groupRef.rotationY := groupRef.rotationY + finalDelta * delta;
        }
      }
    }
  }
}
