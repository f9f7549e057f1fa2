# Gesture-driven Christmas tree: the stateful logic

This project is a Dafny model of the four small pieces of sequential logic
inside a browser app. The app draws a particle Christmas tree and steers it
with hand gestures seen by the webcam:

- **Gesture classifier** (`Gesture`, components/GestureController.tsx).
  Each animation frame, `predictWebcam` looks at the video. It skips a
  zero-sized video and a timestamp equal to the one of the previous processed
  call (only that single timestamp is kept). Otherwise it
  records the timestamp and classifies the detector's hand landmarks:
  - a fist (mean fingertip-to-wrist distance below 0.25) means *assemble*;
  - a pinch (thumb tip within 0.05 of the index tip) means *pinching*;
  - the wrist's horizontal offset from the centre, outside a 0.1 dead zone
    and scaled by 4, is the rotation target.

  It then smooths the rotation speed towards that target by a tenth of the
  gap and publishes the three signals. The controller is a class whose two
  fields are the component's two refs. `PredictWebcam` is proved against the
  step function `Step`, and the properties are lemmas about `Step`, `Smooth`
  and runs of several frames.
- **Gift registry and weighted draw** (`Gifts`, constants.ts). There are ten
  gifts whose weights add up to 154. `getRandomGift` scales a random number
  in [0, 1) by the total. It walks the registry, subtracting weights, until
  the remainder drops below an item's weight. The last item is the fallback.
  The loop is proved against a scan function. The lemmas show that the draw
  picks the item whose cumulative-weight interval holds the number, that it
  is monotone in the number, and what it does at the edges. The height and
  radius bounds of the tree placement `getTreePos` sit beside it.
- **Card gallery** (`Gallery`, components/ImageGallery.tsx). There are eight
  cards. Each is pushed out from the trunk when its horizontal radius
  exceeds 0.1, and each has a mystery texture. When a pinch starts with no
  card chosen, one card is picked at random and a gift is drawn. Releasing
  the pinch resets the choice. At most one card is ever active. The gift's
  picture and name show only on the active card.
- **Scene rotation** (`Scene`, components/Scene.tsx). Each render frame turns
  the tree group about its vertical axis by `speed * delta`. It does not turn
  while pinching, or when the speed is at most 0.001 in magnitude.

Randomness, time and the hand detector are parameters. Every
`Math.random()` draw, the video's size and timestamp, and the detector's
answer are inputs. Where a contract needs it, a draw is required to lie
in [0, 1), the range `Math.random()` guarantees.

Dafny's `real` has no square root, so `Math.sqrt` is the parameter `sqrt`.
The predicate `RealMath.IsSqrt` says it returns the non-negative root. From
that the model proves:
- the planar distance is non-negative and symmetric;
- the pinch test is exactly "squared distance < 0.0025";
- the push-out test is exactly "squared horizontal radius > 0.01".

Coordinates, speeds and angles are `real`, so floating-point rounding is
not modelled.

## What the code does not do

- components/GestureController.tsx has no debounce counters, no pinch
  hysteresis and no roll-angle dead zone. It uses instantaneous thresholds:
  fist, pinch, and a wrist-position dead zone of 0.1 with gain 4 and
  smoothing factor 0.1. It does not snap small speeds to zero and does not
  force the rotation to zero while pinching. The scene instead stops
  applying rotation while pinching (components/Scene.tsx:26-31).
- A hand with too few landmarks does not count as "no hand". Reading
  a missing landmark of a shorter hand gives `undefined`, and reading the
  first missing fingertip's `x` throws inside the `try`. So such a frame behaves like a failed detection:
  the timestamp is consumed, nothing is published and the speed is kept.
  `Classify` and `FailedFrameIsNotRetried` state this.

## Model

| member | source | states |
|---|---|---|
| `Gesture.GestureController.constructor` | components/GestureController.tsx:20-21 | The controller starts with last video time -1 and rotation speed 0. |
| `Gesture.GestureController.PredictWebcam` | components/GestureController.tsx:99-167 | One call changes the two refs and returns the published signals (or none) exactly as `Step` says for the old state and the inputs. |
| `Gesture.AverageTipDistance` | components/GestureController.tsx:128-135 | The `forEach` accumulation divided by four equals the closed-form mean of the four fingertip-to-wrist distances. |
| `Gesture.Dist` | components/GestureController.tsx:131-133 | With a true square root, the planar landmark distance is non-negative and its square is the squared planar offset; the same formula is used for the pinch at lines 142-145. |
| `Gesture.MeanTipDistance` | components/GestureController.tsx:128-135 | The mean of the four fingertip-to-wrist distances is non-negative; `AverageTipDistance` is proved to compute it. |
| `Gesture.IsFist` | components/GestureController.tsx:137-139 | Assemble is "mean tip distance below 0.25"; when it holds, each of the fingertips 8, 12, 16 and 20 lies within 1 of the wrist. |
| `Gesture.IsPinch` | components/GestureController.tsx:141-148 | Pinching is "thumb tip within 0.05 of the index tip"; `PinchIffSquaredDistanceBelow` proves it is exactly a squared distance below 0.0025. |
| `Gesture.DistIsNonNegativeAndSymmetric` | components/GestureController.tsx:131-133 | The planar landmark distance is non-negative and symmetric. |
| `Gesture.PinchIffSquaredDistanceBelow` | components/GestureController.tsx:141-148 | Pinching holds exactly when the squared planar distance between landmarks 4 and 8 is below 0.0025. |
| `Gesture.TargetRotation` | components/GestureController.tsx:150-155 | The target is 0 within 0.1 of the centre and (0.5 - x) * 4 outside it; it is positive exactly when the wrist is left of 0.4, negative exactly when right of 0.6, and within [-2, 2] for x in [0, 1]. |
| `Gesture.Smooth` | components/GestureController.tsx:161 | The new speed lies between the old speed and the target and is 0.9 times as far from the target: it never overshoots. |
| `Gesture.Classify` | components/GestureController.tsx:111-156 | A frame is classified exactly when detection returns and the first hand is absent or has all 21 landmarks; no hand gives the defaults (false, false, 0); a wrist inside the image gives a rotation target in [-2, 2]. |
| `Gesture.Step` | components/GestureController.tsx:99-166 | A publishing call stores the frame's timestamp and exactly the published speed; a call that publishes nothing keeps the speed; the timestamp is either kept or becomes the frame's; the state changes only for a new timestamp. |
| `Gesture.DuplicateTimestampIsSkipped` | components/GestureController.tsx:107 | A frame whose timestamp equals the last one changes no state and publishes nothing. |
| `Gesture.ZeroSizedVideoIsSkipped` | components/GestureController.tsx:99-102 | A video of width or height 0 changes no state and publishes nothing. |
| `Gesture.StepIsIdempotentPerTimestamp` | components/GestureController.tsx:107-108 | Feeding the same frame twice, with any detector answers, changes nothing the second time. |
| `Gesture.NoHandDecaysSpeed` | components/GestureController.tsx:113-118 | With no hand it publishes assemble false and pinching false, and the speed becomes 0.9 times the old speed. |
| `Gesture.FailedFrameIsNotRetried` | components/GestureController.tsx:108-166 | When detection throws, or the hand is too short so that a landmark read throws, the timestamp is still recorded, the speed is kept, nothing is published, and re-delivering that frame straight away is not classified. |
| `Gesture.HandSignals` | components/GestureController.tsx:118-162 | For a well-formed hand it publishes the fist test, the squared-distance pinch test and the smoothed speed, which is also the new state's speed; the new timestamp is the frame's. |
| `Gesture.SpeedStaysBounded` | components/GestureController.tsx:150-161 | While every seen wrist lies inside the image, a rotation speed within [-2, 2] stays within [-2, 2]. |
| `Gesture.PowNinetyBounds` | components/GestureController.tsx:161 | The decay factor after n frames, 0.9^n, lies in (0, 1]. |
| `Gesture.SmoothNGap` | components/GestureController.tsx:161 | After n smoothing steps towards a fixed target, the gap to the target is 0.9^n times the first gap. |
| `Gesture.SmoothNNeverOvershoots` | components/GestureController.tsx:161 | However many steps are taken, smoothing towards a fixed target stays between the starting speed and the target. |
| `Gesture.NoHandRunDecays` | components/GestureController.tsx:107-162 | Over n processed frames without a hand, the speed becomes 0.9^n times its starting value. |
| `Gifts.RegistryMirrorsRawGifts` | constants.ts:106-112 | The registry has the raw list's ten entries in order, with the same name, value, weight and icon, and an unlabelled, non-mystery card of the gift's icon and colour. |
| `Gifts.ToGiftItem` | constants.ts:106-112 | One registry entry: the raw gift's fields and a card of its icon and colour with no label; `RegistryMirrorsRawGifts` proves the registry is this map over the raw list. |
| `Gifts.PrefixWeight` | constants.ts:116 | The left-fold sum of the first k weights is non-negative for non-negative weights, and at least k for positive ones. |
| `Gifts.TotalWeight` | constants.ts:116 | The `reduce` total; `RegistryWeights` proves it is 154 for the registry. |
| `Gifts.RegistryWeights` | constants.ts:83-116 | Every registry weight is positive and the total weight is 154. |
| `Gifts.PrefixWeightMonotone` | constants.ts:116-124 | Cumulative weights strictly increase along the registry when weights are positive. |
| `Gifts.ScanFrom` | constants.ts:119-124 | The loop, resumed at item i, stops (if it does) at an item index between i and the end. |
| `Gifts.DrawIndex` | constants.ts:119-125 | The drawn index, the loop's hit or the last-item fallback, is always a valid registry index. |
| `Gifts.ScanFromInterval` | constants.ts:117-124 | The loop stops at an item k with prefix(k) <= r < prefix(k) + weight(k), and runs out only when r reaches the total. |
| `Gifts.DrawIndexIsInterval` | constants.ts:116-124 | For r in [0, total), item k is drawn exactly when prefix(k) <= r < prefix(k+1), so each item's interval is as long as its weight. |
| `Gifts.DrawIndexOutOfRange` | constants.ts:119-125 | A number at or above the total falls back to the last item; a negative one draws the first. |
| `Gifts.DrawIndexMonotone` | constants.ts:119-124 | A larger random number never draws an earlier item. |
| `Gifts.RegistryBoundaryDraws` | constants.ts:83-125 | Zero draws "iPad Pro"; every number from 142 on (the last interval, and the fallback above 154) draws the last gift. |
| `Gifts.GetRandomGift` | constants.ts:115-126 | It returns the registry item at the drawn index for `Math.random() * total`. |
| `Gifts.RandomGiftIsWeighted` | constants.ts:115-126 | For a random value u in [0, 1), item k is returned exactly when u * 154 lies in k's cumulative interval. |
| `Gifts.TreePosition` | constants.ts:149-156 | With the draws in [0, 1), the height lies in [0, 12] (below 0.2 on the bottom branch), the radius bound 3.8 (1 - h / 12.5) lies in (0, 3.8], and the radius lies in [0, bound]. |
| `Gallery.PushOutEffect` | components/ImageGallery.tsx:164-170 | The height is kept; x and z are scaled by 1.3 exactly when the squared horizontal radius exceeds 0.01, otherwise the point is unchanged; no card ends with a squared horizontal radius in (0.01, 0.0169]. |
| `Gallery.PushOut` | components/ImageGallery.tsx:164-170 | The height is kept and the point is either unchanged or scaled by 1.3 in x and z; `PushOutEffect` says which. |
| `Gallery.BuildItems` | components/ImageGallery.tsx:162-179 | It builds eight cards; card i has id i, mystery texture i mod 5 (always in range), its scatter position and its pushed-out tree position. |
| `Gallery.IsActive` | components/ImageGallery.tsx:38 | A card is active when pinching and it is the chosen index; `AtMostOneCardActive` proves at most one is. |
| `Gallery.ViewOf` | components/ImageGallery.tsx:38-43 | The card's active flag, texture, main text and sub text; `CardViewCases` states its three looks. |
| `Gallery.CardViewCases` | components/ImageGallery.tsx:38-43 | A card is active exactly when pinching and it is the chosen id. An inactive card shows its mystery texture and no text. The active card shows the congratulation line, plus the gift's texture and name only when a gift is revealed. |
| `Gallery.AtMostOneCardActive` | components/ImageGallery.tsx:38 | With ids equal to positions, at most one card is active, and exactly one is active when pinching with a chosen id in range. |
| `Gallery.ImageGallery.constructor` | components/ImageGallery.tsx:147-179 | The gallery starts with eight cards, card i having id i, mystery texture i mod 5, its scatter position and its pushed-out tree position, with no chosen card (-1), no revealed gift and no pending clear. |
| `Gallery.ImageGallery.OnPinchChange` | components/ImageGallery.tsx:182-221 | A pinch with no chosen card picks card floor(u * 8), which lies in [0, 8), and reveals the drawn gift. A pinch with a chosen card changes nothing and draws nothing. A release resets the choice to -1 and schedules the clear. Every run cancels a previously pending clear, and the card invariant is preserved. |
| `Gallery.ImageGallery.ClearTimerFires` | components/ImageGallery.tsx:216-219 | A pending clear resets the revealed gift; the chosen card is untouched. |
| `Scene.RotationIncrement` | components/Scene.tsx:26-36 | The per-frame turn is 0 while pinching or when abs(speed) <= 0.001, and speed * delta otherwise; for delta > 0 its sign is the sign of the speed. |
| `Scene.RotateFramesTotal` | components/Scene.tsx:23-38 | Over many frames at a fixed speed the group turns by speed times the elapsed time, or not at all while pinching or for a negligible speed. |
| `Scene.InnerScene.OnFrame` | components/Scene.tsx:23-38 | Only the group's y rotation changes, by `RotationIncrement`; with no group nothing changes. |

## Left out

- Model loading, webcam start-up and teardown (components/GestureController.tsx:28-89, 172-183): asynchronous browser I/O.
- The guard at components/GestureController.tsx:92 (no landmarker, no video element, cancelled): it belongs to that lifecycle.
- `HandLandmarker.detectForVideo` and `performance.now()` (components/GestureController.tsx:105, 111): a foreign inference call and a clock. The detector's answer is an input.
- `requestAnimationFrame` scheduling and cancellation: event-loop plumbing. Each model call is one frame.
- The three setter callbacks: they are modelled as the value that `PredictWebcam` returns.
- Floating-point rounding, NaN and infinities: every quantity is a `real`.
- `Math.sqrt` and `Math.cbrt`: no real counterpart in Dafny. `sqrt` is a parameter constrained by `IsSqrt`. The cube-root and square-root draws of `getTreePos` are parameters in [0, 1).
- The trigonometric parts of `getTreePos` and all of `getScatterPos` (constants.ts:138-162): random angles and `sin`/`cos`. The gallery receives the resulting positions as inputs.
- Gifts.TreePosition: does not model which `Math.random()` calls are made. With `forceBottom` set, the 0.08 draw is not taken.
- `createCardTexture` (constants.ts:14-71): canvas drawing. A texture is modelled by what it is asked to draw (`CardTexture`).
- `GiftItem` values carry no copy of the raw `color` field, which the object spread would bring along. The colour only reaches the card texture.
- Audio playback and the 300 ms duration of the release timer (components/ImageGallery.tsx:151-159, 195-205, 216-219): I/O and timing. The timer is one pending flag and one "fires" operation.
- Gallery.BuildItems: models the in-place scaling of each fresh `tPos` vector on values. Each vector is local to its card, so no aliasing is lost.
- Render timing and React's same-value bail-out (components/ImageGallery.tsx:38, 189, 193, 219): a card's view is modelled as a function of the current `activeRef`, but in the code `isActive` is evaluated only when the gallery re-renders, and writing `activeRef.current` does not cause a render. So a re-pinch within 300 ms, which cancels the pending clear and then draws the very same gift object, may show no active card until something else re-renders the gallery. This follows from reading the code only.
- `console.error` and `console.warn` (components/GestureController.tsx:165, components/ImageGallery.tsx:202): logging only, with no effect on state.
- The pinch effect's run at mount (components/ImageGallery.tsx:207-219, App.tsx:62): `isPinching` starts false, so that run arms a clear at once. The constructor starts with no pending clear; as no gift is revealed yet, the clear would change nothing.
- `easing.damp`, `lerpVectors`, `lookAt`, camera-relative zoom and text opacity (components/ImageGallery.tsx:45-95): foreign library maths.
- components/Ornaments.tsx, components/Foliage.tsx, components/Background.tsx, App.tsx, components/Overlay.tsx: rendering and UI composition with no state machine.
- Debounce counters, pinch hysteresis, a roll-angle dead zone and a small-speed snap to zero: none of these are in the code.
