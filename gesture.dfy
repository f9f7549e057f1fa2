/** The per-frame gesture classifier of the webcam controller: `predictWebcam`
    in components/GestureController.tsx. One call takes the video's current
    size and timestamp and the hand-landmark detector's answer for that frame,
    updates the two values the controller keeps between frames (the last
    processed video timestamp and the smoothed rotation speed) and, when the
    frame is processed, publishes three signals: assemble (a fist), pinching
    (thumb and index tips together) and the rotation speed. */
module Gesture {
  import opened Wrappers
  import opened RealMath

  /** A normalized landmark: x and y in image coordinates, z relative depth. */
  datatype Point = Point(x: real, y: real, z: real)

  /** One hand: the detector's landmarks, 21 of them for a well-formed hand. */
  type Hand = seq<Point>

  // Anatomical landmark positions used by the classifier.
  const WRIST: nat := 0
  const THUMB_TIP: nat := 4
  const INDEX_TIP: nat := 8
  const MIDDLE_TIP: nat := 12
  const RING_TIP: nat := 16
  const PINKY_TIP: nat := 20
  /** A hand with fewer landmarks lacks `PINKY_TIP`. */
  const LANDMARK_COUNT: nat := 21

  const FIST_THRESHOLD: real := 0.25
  const PINCH_THRESHOLD: real := 0.05
  const DEAD_ZONE: real := 0.1
  const ROTATION_GAIN: real := 4.0
  const SMOOTHING: real := 0.1

  /** What the controller reads off the video element for one animation frame. */
  datatype VideoFrame = VideoFrame(videoWidth: nat, videoHeight: nat, currentTime: real)

  /** The outcome of `detectForVideo`: it throws, or it returns a list of hands. */
  datatype Detection = Threw | Detected(hands: seq<Hand>)

  /** The values handed to `setAssemble`, `setIsPinching` and `setRotationSpeed`. */
  datatype Signals = Signals(assemble: bool, pinching: bool, rotationSpeed: real)

  /** The per-frame targets the classification computes before smoothing. */
  datatype Targets = Targets(assemble: bool, pinch: bool, rotation: real)

  /** `lastVideoTimeRef.current` and `rotationSpeedRef.current`. */
  datatype ClassifierState = ClassifierState(lastVideoTime: real, rotationSpeed: real)

  const INITIAL_STATE: ClassifierState := ClassifierState(-1.0, 0.0)

  /** One animation frame's inputs. */
  datatype Input = Input(frame: VideoFrame, detection: Detection)

  /** Planar distance `Math.sqrt((p.x - q.x)^2 + (p.y - q.y)^2)`; depth is ignored. */
  function Dist(sqrt: real -> real, p: Point, q: Point): (d: real)
    ensures IsSqrt(sqrt) ==> d >= 0.0 && d * d == Square(p.x - q.x) + Square(p.y - q.y)
  {
    sqrt(Square(p.x - q.x) + Square(p.y - q.y))
  }

  lemma DistIsNonNegativeAndSymmetric(sqrt: real -> real, p: Point, q: Point)
    requires IsSqrt(sqrt)
    ensures Dist(sqrt, p, q) >= 0.0
    ensures Dist(sqrt, p, q) == Dist(sqrt, q, p)
  {
    assert Square(p.x - q.x) == Square(q.x - p.x);
    assert Square(p.y - q.y) == Square(q.y - p.y);
  }

  /** The mean of the four fingertip-to-wrist distances (index, middle, ring,
      pinky), as a closed form. */
  function MeanTipDistance(sqrt: real -> real, hand: Hand): (m: real)
    requires |hand| >= LANDMARK_COUNT
    ensures IsSqrt(sqrt) ==> m >= 0.0
  {
    var w := hand[WRIST];
    (Dist(sqrt, hand[INDEX_TIP], w) + Dist(sqrt, hand[MIDDLE_TIP], w)
      + Dist(sqrt, hand[RING_TIP], w) + Dist(sqrt, hand[PINKY_TIP], w)) / 4.0
  }

  /** Sum of the distances from each of `tips` to `wrist`, in order. */
  function TipDistanceSum(sqrt: real -> real, tips: seq<Point>, wrist: Point): real
  {
    if tips == [] then 0.0
    else TipDistanceSum(sqrt, tips[..|tips| - 1], wrist) + Dist(sqrt, tips[|tips| - 1], wrist)
  }

  /** The `forEach` accumulation of the fingertip distances followed by the
      division by four. */
  method AverageTipDistance(sqrt: real -> real, hand: Hand) returns (avgDist: real)
    requires |hand| >= LANDMARK_COUNT
    ensures avgDist == MeanTipDistance(sqrt, hand)
  {
    var wrist := hand[WRIST];
    var tips := [hand[INDEX_TIP], hand[MIDDLE_TIP], hand[RING_TIP], hand[PINKY_TIP]];
    avgDist := 0.0;
    var i := 0;
    while i < |tips|
      invariant 0 <= i <= |tips|
      invariant avgDist == TipDistanceSum(sqrt, tips[..i], wrist)
    {
      assert tips[..i + 1][..i] == tips[..i];
      avgDist := avgDist + Dist(sqrt, tips[i], wrist);
      i := i + 1;
    }
    var d0, d1, d2, d3 := Dist(sqrt, tips[0], wrist), Dist(sqrt, tips[1], wrist),
                          Dist(sqrt, tips[2], wrist), Dist(sqrt, tips[3], wrist);
    assert tips[..1][..0] == [];
    assert TipDistanceSum(sqrt, tips[..1], wrist) == d0;
    assert tips[..2][..1] == tips[..1];
    assert TipDistanceSum(sqrt, tips[..2], wrist) == d0 + d1;
    assert tips[..3][..2] == tips[..2];
    assert TipDistanceSum(sqrt, tips[..3], wrist) == d0 + d1 + d2;
    assert tips[..4][..3] == tips[..3];
    assert avgDist == d0 + d1 + d2 + d3;
    avgDist := avgDist / 4.0;
  }

  /** A fist: the mean fingertip-to-wrist distance is below 0.25. Then the
      four distances sum to less than 1, so each fingertip lies within 1 of
      the wrist. */
  function IsFist(sqrt: real -> real, hand: Hand): (fist: bool)
    requires |hand| >= LANDMARK_COUNT
    ensures IsSqrt(sqrt) && fist ==>
      && Dist(sqrt, hand[INDEX_TIP], hand[WRIST]) < 1.0
      && Dist(sqrt, hand[MIDDLE_TIP], hand[WRIST]) < 1.0
      && Dist(sqrt, hand[RING_TIP], hand[WRIST]) < 1.0
      && Dist(sqrt, hand[PINKY_TIP], hand[WRIST]) < 1.0
  {
    MeanTipDistance(sqrt, hand) < FIST_THRESHOLD
  }

  /** A pinch: the thumb tip is closer than 0.05 to the index fingertip. */
  predicate IsPinch(sqrt: real -> real, hand: Hand)
    requires |hand| >= LANDMARK_COUNT
  {
    Dist(sqrt, hand[THUMB_TIP], hand[INDEX_TIP]) < PINCH_THRESHOLD
  }

  /** The pinch test is exactly a squared-distance test. */
  lemma PinchIffSquaredDistanceBelow(sqrt: real -> real, hand: Hand)
    requires IsSqrt(sqrt) && |hand| >= LANDMARK_COUNT
    ensures IsPinch(sqrt, hand) <==>
      Square(hand[THUMB_TIP].x - hand[INDEX_TIP].x) + Square(hand[THUMB_TIP].y - hand[INDEX_TIP].y) < 0.0025
  {
    var t, i := hand[THUMB_TIP], hand[INDEX_TIP];
    SqrtBelow(sqrt, Square(t.x - i.x) + Square(t.y - i.y), PINCH_THRESHOLD);
  }

  /** The rotation target from the wrist's horizontal position: zero inside the
      dead zone around the image centre, otherwise proportional to the wrist's
      offset to the left of the centre. */
  function TargetRotation(wristX: real): (r: real)
    ensures Abs(wristX - 0.5) <= DEAD_ZONE ==> r == 0.0
    ensures Abs(wristX - 0.5) > DEAD_ZONE ==> r == (0.5 - wristX) * ROTATION_GAIN
    ensures r > 0.0 <==> wristX < 0.4
    ensures r < 0.0 <==> wristX > 0.6
    ensures 0.0 <= wristX <= 1.0 ==> -2.0 <= r <= 2.0
  {
    if Abs(wristX - 0.5) > DEAD_ZONE then (0.5 - wristX) * ROTATION_GAIN else 0.0
  }

  /** First-order smoothing of the speed towards the target: the new speed lies
      between the old speed and the target and closes a tenth of the gap. */
  function Smooth(speed: real, target: real): (r: real)
    ensures speed <= target ==> speed <= r <= target
    ensures target <= speed ==> target <= r <= speed
    ensures Abs(r - target) == 0.9 * Abs(speed - target)
  {
    speed + (target - speed) * SMOOTHING
  }

  /** The classification of a processed frame: `None` when an exception is
      raised before any signal is published (the detector throws, or the hand
      has too few landmarks, so that reading a missing landmark's `x` throws a
      TypeError), otherwise the three targets. No hand gives the defaults. */
  function Classify(sqrt: real -> real, detection: Detection): (t: Option<Targets>)
    ensures t.Some? <==>
      detection.Detected? && (|detection.hands| == 0 || |detection.hands[0]| >= LANDMARK_COUNT)
    ensures detection.Detected? && detection.hands == [] ==> t == Some(Targets(false, false, 0.0))
    ensures t.Some? && detection.Detected? && detection.hands != [] && 0.0 <= detection.hands[0][WRIST].x <= 1.0 ==>
      -2.0 <= t.value.rotation <= 2.0
  {
    match detection
    case Threw => None
    case Detected(hands) =>
      if |hands| == 0 then Some(Targets(false, false, 0.0))
      else if |hands[0]| < LANDMARK_COUNT then None
      else
        var hand := hands[0];
        Some(Targets(IsFist(sqrt, hand), IsPinch(sqrt, hand), TargetRotation(hand[WRIST].x)))
  }

  /** One call of `predictWebcam`: the new state and the published signals, if any. */
  function Step(sqrt: real -> real, s: ClassifierState, input: Input): (res: (ClassifierState, Option<Signals>))
    ensures res.1.Some? ==> res.0 == ClassifierState(input.frame.currentTime, res.1.value.rotationSpeed)
    ensures res.1.None? ==> res.0.rotationSpeed == s.rotationSpeed
    ensures res.0.lastVideoTime == s.lastVideoTime || res.0.lastVideoTime == input.frame.currentTime
    ensures res.0 != s ==> input.frame.currentTime != s.lastVideoTime
  {
    var frame := input.frame;
    if frame.videoWidth == 0 || frame.videoHeight == 0 then (s, None)
    else if frame.currentTime == s.lastVideoTime then (s, None)
    else
      var seen := s.(lastVideoTime := frame.currentTime);
      match Classify(sqrt, input.detection)
      case None => (seen, None)
      case Some(t) =>
        var speed := Smooth(s.rotationSpeed, t.rotation);
        (seen.(rotationSpeed := speed), Some(Signals(t.assemble, t.pinch, speed)))
  }

  /** The state after a sequence of animation frames. */
  function Run(sqrt: real -> real, s: ClassifierState, inputs: seq<Input>): ClassifierState
    decreases |inputs|
  {
    if inputs == [] then s else Run(sqrt, Step(sqrt, s, inputs[0]).0, inputs[1..])
  }

  // ---------------------------------------------------------------------------
  // Properties of one step

  /** A frame whose timestamp was already seen is not processed at all. */
  lemma DuplicateTimestampIsSkipped(sqrt: real -> real, s: ClassifierState, input: Input)
    requires input.frame.currentTime == s.lastVideoTime
    ensures Step(sqrt, s, input) == (s, None)
  {}

  /** A zero-sized video is not processed at all. */
  lemma ZeroSizedVideoIsSkipped(sqrt: real -> real, s: ClassifierState, input: Input)
    requires input.frame.videoWidth == 0 || input.frame.videoHeight == 0
    ensures Step(sqrt, s, input) == (s, None)
  {}

  /** Processing a frame twice changes nothing the second time, whatever the
      detector would answer. */
  lemma StepIsIdempotentPerTimestamp(sqrt: real -> real, s: ClassifierState, frame: VideoFrame, d1: Detection, d2: Detection)
    ensures var s1 := Step(sqrt, s, Input(frame, d1)).0;
            Step(sqrt, s1, Input(frame, d2)) == (s1, None)
  {}

  /** No hand: neither assemble nor pinch, and the speed decays by a tenth. */
  lemma NoHandDecaysSpeed(sqrt: real -> real, s: ClassifierState, frame: VideoFrame)
    requires frame.videoWidth > 0 && frame.videoHeight > 0 && frame.currentTime != s.lastVideoTime
    ensures Step(sqrt, s, Input(frame, Detected([]))) ==
      (ClassifierState(frame.currentTime, 0.9 * s.rotationSpeed),
       Some(Signals(false, false, 0.9 * s.rotationSpeed)))
  {}

  /** A frame that raises an exception (from the detector or from a truncated
      hand) still consumes its timestamp: nothing is published, the speed is
      kept, and the frame is never classified again. */
  lemma FailedFrameIsNotRetried(sqrt: real -> real, s: ClassifierState, frame: VideoFrame, d: Detection, retry: Detection)
    requires frame.videoWidth > 0 && frame.videoHeight > 0 && frame.currentTime != s.lastVideoTime
    requires d.Threw? || (|d.hands| > 0 && |d.hands[0]| < LANDMARK_COUNT)
    ensures Step(sqrt, s, Input(frame, d)) == (s.(lastVideoTime := frame.currentTime), None)
    ensures Step(sqrt, s.(lastVideoTime := frame.currentTime), Input(frame, retry)).1 == None
  {}

  /** The published values for a processed, well-formed hand. */
  lemma HandSignals(sqrt: real -> real, s: ClassifierState, frame: VideoFrame, hands: seq<Hand>)
    requires IsSqrt(sqrt)
    requires frame.videoWidth > 0 && frame.videoHeight > 0 && frame.currentTime != s.lastVideoTime
    requires |hands| > 0 && |hands[0]| >= LANDMARK_COUNT
    ensures var step, h := Step(sqrt, s, Input(frame, Detected(hands))), hands[0];
            && step.1.Some?
            && (step.1.value.assemble <==> MeanTipDistance(sqrt, h) < 0.25)
            && (step.1.value.pinching <==>
                  Square(h[THUMB_TIP].x - h[INDEX_TIP].x) + Square(h[THUMB_TIP].y - h[INDEX_TIP].y) < 0.0025)
            && step.1.value.rotationSpeed == step.0.rotationSpeed
            && step.0 == ClassifierState(frame.currentTime, Smooth(s.rotationSpeed, TargetRotation(h[WRIST].x)))
  {
    PinchIffSquaredDistanceBelow(sqrt, hands[0]);
  }

  /** With every wrist inside the image, a speed within [-2, 2] stays there. */
  lemma SpeedStaysBounded(sqrt: real -> real, s: ClassifierState, input: Input)
    requires -2.0 <= s.rotationSpeed <= 2.0
    requires input.detection.Detected? && |input.detection.hands| > 0 && |input.detection.hands[0]| > WRIST
      ==> 0.0 <= input.detection.hands[0][WRIST].x <= 1.0
    ensures -2.0 <= Step(sqrt, s, input).0.rotationSpeed <= 2.0
  {}

  // ---------------------------------------------------------------------------
  // Properties of repeated steps

  /** The speed after `n` smoothing steps towards a fixed target. */
  function SmoothN(speed: real, target: real, n: nat): real
    decreases n
  {
    if n == 0 then speed else SmoothN(Smooth(speed, target), target, n - 1)
  }

  lemma {:induction false} PowNinetyBounds(n: nat)
    ensures 0.0 < Pow(0.9, n) <= 1.0
  {
    if n > 0 {
      PowNinetyBounds(n - 1);
    }
  }

  /** After `n` steps the remaining gap to the target is 0.9^n of the first. */
  lemma {:induction false} SmoothNGap(speed: real, target: real, n: nat)
    ensures SmoothN(speed, target, n) - target == Pow(0.9, n) * (speed - target)
    decreases n
  {
    if n > 0 {
      SmoothNGap(Smooth(speed, target), target, n - 1);
      var p := Pow(0.9, n - 1);
      assert Smooth(speed, target) - target == 0.9 * (speed - target);
      assert p * (0.9 * (speed - target)) == (0.9 * p) * (speed - target);
    }
  }

  /** Smoothing towards a fixed target never overshoots it, however many steps. */
  lemma SmoothNNeverOvershoots(speed: real, target: real, n: nat)
    ensures speed <= target ==> speed <= SmoothN(speed, target, n) <= target
    ensures target <= speed ==> target <= SmoothN(speed, target, n) <= speed
  {
    SmoothNGap(speed, target, n);
    PowNinetyBounds(n);
    var p, g := Pow(0.9, n), speed - target;
    if g <= 0.0 {
      MulSignNonPos(p, g);
      MulSignNonPos(1.0 - p, g);
    } else {
      MulSignNonNeg(p, g);
      MulSignNonNeg(1.0 - p, g);
    }
  }

  /** Each input is processed: the video has a size and a timestamp that differs
      from the one before it. No hand is seen. */
  ghost predicate NoHandFrames(last: real, inputs: seq<Input>)
    decreases |inputs|
  {
    inputs == [] ||
    (inputs[0].frame.videoWidth > 0 && inputs[0].frame.videoHeight > 0
     && inputs[0].frame.currentTime != last
     && inputs[0].detection == Detected([])
     && NoHandFrames(inputs[0].frame.currentTime, inputs[1..]))
  }

  /** A run of processed no-hand frames decays the speed geometrically to zero. */
  lemma {:induction false} NoHandRunDecays(sqrt: real -> real, s: ClassifierState, inputs: seq<Input>)
    requires NoHandFrames(s.lastVideoTime, inputs)
    ensures Run(sqrt, s, inputs).rotationSpeed == Pow(0.9, |inputs|) * s.rotationSpeed
    decreases |inputs|
  {
    if inputs != [] {
      var s1 := Step(sqrt, s, inputs[0]).0;
      assert s1 == ClassifierState(inputs[0].frame.currentTime, 0.9 * s.rotationSpeed);
      NoHandRunDecays(sqrt, s1, inputs[1..]);
      var p := Pow(0.9, |inputs| - 1);
      assert p * (0.9 * s.rotationSpeed) == (0.9 * p) * s.rotationSpeed;
    }
  }

  // ---------------------------------------------------------------------------
  // The controller object

  /** The controller component with its two refs. */
  class GestureController {
    var lastVideoTime: real
    var rotationSpeed: real

    function State(): ClassifierState
      reads this
    {
      ClassifierState(lastVideoTime, rotationSpeed)
    }

    constructor ()
      ensures State() == INITIAL_STATE
    {
      lastVideoTime := -1.0;
      rotationSpeed := 0.0;
    }

    /** `predictWebcam`, from the video-size check to the end of the
        try/catch. Returns the signals passed to the three setters, or `None`
        when no setter is called. */
    method PredictWebcam(sqrt: real -> real, frame: VideoFrame, detection: Detection)
      returns (published: Option<Signals>)
      modifies this
      ensures (State(), published) == Step(sqrt, old(State()), Input(frame, detection))
    {
      published := None;
      if frame.videoWidth == 0 || frame.videoHeight == 0 {
        return;
      }
      if frame.currentTime != lastVideoTime {
        lastVideoTime := frame.currentTime;
        match detection
        case Threw =>
          // caught and logged
        case Detected(hands) =>
          var targetAssemble, targetPinch, targetRot := false, false, 0.0;
          if |hands| > 0 {
            var hand := hands[0];
            if |hand| < LANDMARK_COUNT {
              // reading a missing landmark throws; caught and logged
              return;
            }
            var wrist := hand[WRIST];
            var avgDist := AverageTipDistance(sqrt, hand);
            if avgDist < FIST_THRESHOLD {
              targetAssemble := true;
            }
            var pinchDist := Dist(sqrt, hand[THUMB_TIP], hand[INDEX_TIP]);
            if pinchDist < PINCH_THRESHOLD {
              targetPinch := true;
            }
            var centerX := wrist.x;
            if Abs(centerX - 0.5) > DEAD_ZONE {
              targetRot := (0.5 - centerX) * ROTATION_GAIN;
            }
          }
          rotationSpeed := rotationSpeed + (targetRot - rotationSpeed) * SMOOTHING;
          published := Some(Signals(targetAssemble, targetPinch, rotationSpeed));
      }
    }
  }
}
