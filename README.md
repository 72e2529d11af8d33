# Snowball Thrower: a verified model of the throw detector and the charge meter

Snowball Thrower is a browser game. The player throws snowballs either with the
space bar or with a throwing gesture in front of the webcam. Two pieces of its
logic are modelled here:

- **The throw-gesture detector** (`detectThrow` in `src/handTracker.js`).
  Each camera frame it receives no hand or one hand's landmarks. It keeps the
  last five raw wrist positions and averages them into a smoothed wrist. The
  difference from the previous smoothed wrist is a velocity. A throw fires when
  the smoothed wrist moves more than 0.05 in a frame with a downward component,
  the throw latch is open and the frame cooldown has run out. Each hand frame
  also reports the smoothed wrist and an extrapolated elbow.
  - Module `HandTracker` (`hand_tracker.dfy`) states the detector twice.
    `Observe` is a pure step function on a `DetectorState` value.
    `Detector` is a class holding the same state in fields. Its method
    `DetectThrow` shifts the history in place and averages it with a loop
    (`Average`), and it is proved equal to `Observe`.
  - Multi-frame properties are lemmas about `After` (the state after a run of
    frames) and `Reports` (what each frame of a run reported).
- **The charge meter and the keyboard cooldown** of the game scene
  (`src/Scene/gameScene.js`). Holding Q turns a throw into charge. The next
  real throw spends all the charge on a bigger, slower snowball. Charge leaks
  0.005 per frame. Space-bar throws are rate-limited by a module-level frame
  counter.
  - Module `GameScene` (`game_scene.dfy`) has pure functions for the
    arithmetic.
  - The class `Scene` has one method per event handler. Each method keeps the
    invariant that the charge stays in [0, 1] and the bar width matches it.

`Wrappers` (`wrappers.dfy`) holds the `Option` type. It stands for "no hand"
and "no throw".

Behaviour of the code worth knowing:

- **No first-frame guard.** The previous wrist starts at the origin, so the
  very first hand frame can fire (`FirstFrameMayFire`).
- **No-hand frames leave the cooldown alone.** A frame without a hand returns
  before the cooldown decrement.
- **The cooldown ends a firing frame at 9.** A throw sets the cooldown to 10,
  and the same call then decrements it to 9. So the cooldown blocks the next
  nine hand frames (`NoRefireAfterThrow`, `TwoFrameTrace`).
- **The latch outlasts the cooldown.** After a throw, hand frames that keep
  the smoothed wrist moving at least 0.02 never fire, even once the cooldown
  has run out (`LatchHoldsFire`).

## Model

| member | source | states |
|---|---|---|
| HandTracker.Initial | src/handTracker.js:4-10 | At module load the detector is not ready, the history is empty, the last wrist is the origin, the latch is open, the cooldown is 0, and the detector invariant holds |
| HandTracker.Push | src/handTracker.js:54-55 | The new raw wrist becomes the last history element. A history of at most 5 becomes the last 5 of (history + wrist), so at most 5 points, oldest dropped first. Below 5 nothing is dropped |
| HandTracker.Mean | src/handTracker.js:56-64 | The smoothed wrist times the window length gives back the window's total, in each coordinate. A window of one sample is smoothed to that sample |
| HandTracker.MeanWithin | src/handTracker.js:56-64 | The average of the window lies between any lower and upper bound that every sample meets, coordinate by coordinate |
| HandTracker.MeanOfConstant | src/handTracker.js:56-64 | If every history entry is the same point, the smoothed wrist is exactly that point |
| HandTracker.Average | src/handTracker.js:56-64 | The accumulation loop over the history, divided by its length, yields the arithmetic mean of the history |
| HandTracker.KnuckleMid | src/handTracker.js:47 | The knuckle midpoint is equally far from the index and the pinky knuckle, in each coordinate |
| HandTracker.Elbow | src/handTracker.js:47-51 | The wrist lies on the segment from the extrapolated elbow to the knuckle midpoint, at 0.6/1.6 = 0.375 of the way, in both coordinates. The elbow equals the raw wrist when the knuckle midpoint coincides with it |
| HandTracker.Velocity | src/handTracker.js:66-67 | The previous smoothed wrist moved by the velocity lands exactly on the new smoothed wrist |
| HandTracker.SpeedSquared | src/handTracker.js:68 | The squared speed is at least the square of either velocity component, so it is never negative. It is 0 for a wrist that did not move |
| HandTracker.CanFire | src/handTracker.js:71 | A frame that passes the throw gate moves faster than 0.02, so the same call cannot re-open the latch. A closed latch or a running cooldown blocks every movement. With the latch open and the cooldown expired, any downward movement whose horizontal part alone exceeds 0.05 fires, however sideways it is |
| HandTracker.Observe | src/handTracker.js:34-91 | One call never changes readiness, and a throw can fire only on a ready frame with a hand |
| HandTracker.InertFrame | src/handTracker.js:35-41 | Before the landmarker is ready a call changes nothing and reports nothing. A ready frame without a hand changes nothing (history, last wrist, latch and cooldown stay as they were) and reports a null pose with no throw |
| HandTracker.HandFrame | src/handTracker.js:43-91 | On a ready hand frame the history is the pushed history and the last wrist is its mean. The pose is (smoothed wrist, elbow). A throw fires iff speed² > 0.05², vy > 0, the latch is open and cooldown <= 0. A throw carries power² = 400²·speed² and the smoothed wrist, and leaves cooldown 9 with the latch closed. Without a throw the cooldown drops by exactly 1, unclamped, and the latch stays closed iff it was closed and speed² >= 0.02² |
| HandTracker.ThrowPowerAboveTwenty | src/handTracker.js:71-73 | Every fired throw has power above 400·0.05 = 20 (its square exceeds 20²) |
| HandTracker.ObservePreservesInvariant | src/handTracker.js:34-91 | Every call keeps the detector invariant: history of at most 5 points, last wrist equal to the mean of the history (origin while empty), cooldown below 10 |
| HandTracker.After | src/handTracker.js:34-91 | A run of calls never changes readiness |
| HandTracker.AfterPreservesInvariant | src/handTracker.js:34-91 | The detector invariant holds after any run of calls that starts in it |
| HandTracker.Reports | src/handTracker.js:34-91 | A run of calls yields exactly one report per frame |
| HandTracker.NextHistory | src/handTracker.js:38-41 | On a ready detector one call leaves as history the last 5 of the old history plus this frame's wrist (none on a no-hand frame) |
| HandTracker.HistoryIsRecentWrists | src/handTracker.js:54-55 | After any run on a ready detector the history is the last 5 of the old history followed by every raw wrist of the run, in order |
| HandTracker.CooldownHoldsFire | src/handTracker.js:71 | While fewer hand frames have passed than the cooldown, no frame fires. The cooldown drops by exactly the number of hand frames, and no-hand frames do not count |
| HandTracker.NoRefireAfterThrow | src/handTracker.js:71-80 | After a throw, none of the next 9 hand frames can fire, whatever the input. After those frames the cooldown is 9 minus their number |
| HandTracker.LatchHoldsFire | src/handTracker.js:71-79 | Starting with the latch closed, a run whose every hand frame moves the smoothed wrist at least 0.02 fires nothing, whatever the cooldown, and ends with the latch still closed |
| HandTracker.SteadyWristIsExact | src/handTracker.js:54-64 | After at least 5 hand frames with the same raw wrist, the history is five copies of it and the last wrist is exactly that point |
| HandTracker.FirstFrameMayFire | src/handTracker.js:5-6 | Without a first-frame guard, the first hand frame after loading fires for every raw wrist whose y exceeds 0.05 |
| HandTracker.TwoFrameTrace | src/handTracker.js:54-83 | A concrete two-frame run. The first frame fires. The second frame, moving further down, reports the averaged wrist (0.5, 0.575) and no throw, because both the closed latch and the cooldown of 9 hold it back. It leaves the latch closed and the cooldown at 8 |
| HandTracker.Detector.constructor | src/handTracker.js:4-10 | A fresh detector holds the module-load state |
| HandTracker.Detector.LandmarkerReady | src/handTracker.js:23 | Once the landmarker is created the detector is ready, and nothing else changes |
| HandTracker.Detector.DetectThrow | src/handTracker.js:34-91 | Updating the fields in place (push/shift, averaging loop, gate, latch, cooldown tick, last wrist) gives exactly the state and the report of `Observe`. It keeps the invariant |
| GameScene.AddCharge | src/Scene/gameScene.js:64 | Adding charge caps at 1. Below the cap the amount is added exactly. A non-negative amount never lowers an in-range charge |
| GameScene.CameraCharge | src/Scene/gameScene.js:64 | A camera throw of power p adds 0.1·p/20 of charge. That is non-negative for p >= 0, equal to one key press at p = 20 and more above |
| GameScene.Decay | src/Scene/gameScene.js:136 | One frame lowers charge by 0.005, floored at 0, and never raises a non-negative charge |
| GameScene.Multiplier | src/Scene/gameScene.js:98 | The size multiplier lies in [1, 5] for a charge in [0, 1]. It is 1 when empty and 5 when full |
| GameScene.LaunchSpeed | src/Scene/gameScene.js:105 | Speed times multiplier is 200 + 5·power. Uncharged it is exactly 200 + 5·power. For a non-negative power it lies between a fifth of that and all of it |
| GameScene.BarWidth | src/Scene/gameScene.js:117 | The bar width is within [0, 80] for a charge in [0, 1]. It is 0 when empty and 80 when full |
| GameScene.Launch | src/Scene/gameScene.js:97-106 | A spawned ball has radius in [10, 50] and upward speed `LaunchSpeed`. Radius × speed equals 10·(200 + 5·power) whatever the charge |
| GameScene.PressesSaturate | src/Scene/gameScene.js:80 | n charging presses give min(charge + 0.1·n, 1) |
| GameScene.FramesDrain | src/Scene/gameScene.js:136 | n frames give max(0, charge − 0.005·n) |
| GameScene.Scene.constructor | src/Scene/gameScene.js:31 | A new scene starts with an empty charge and bar. The module-level cooldown keeps its current value |
| GameScene.Scene.UpdateChargeBar | src/Scene/gameScene.js:115-119 | The bar width becomes 80·charge |
| GameScene.Scene.ThrowSnowball | src/Scene/gameScene.js:97-114 | Spawns `Launch(power, charge)` and empties the charge and the bar |
| GameScene.Scene.SpacePressed | src/Scene/gameScene.js:77-86 | With Q held: adds 0.1 (capped at 1), throws nothing, leaves the cooldown. Without Q and with cooldown <= 0: throws with power 20, empties the charge, sets the cooldown to 40. Otherwise nothing changes. The charge stays in [0, 1] |
| GameScene.Scene.CameraThrow | src/Scene/gameScene.js:62-69 | With Q held: adds 0.1·power/20 (capped at 1) instead of throwing. Without Q: throws with the gesture's power and empties the charge. The charge stays in [0, 1] |
| GameScene.Scene.Update | src/Scene/gameScene.js:121-137 | The module cooldown drops by exactly 1, unclamped. The charge leaks 0.005, floored at 0, and stays in [0, 1] |

## Left out

- Loading and running the MediaPipe hand landmarker (`createHandLandmarker`, `detectForVideo`). These are foreign asynchronous calls. The detector's input is an `Option` of the three landmarks it reads (indices 0, 5 and 17), and "landmarker created" is a boolean set by `LandmarkerReady`.
- Callback registration (`setOnThrow`, `setOnLandmarks`). `DetectThrow` returns what the listeners would receive instead of calling them. Listeners are assumed registered, so "no listener" is not modelled.
- `Math.hypot` and the square root. Speeds are compared through their squares, which is exact over the reals.
- HandTracker.HandFrame: states the power of a throw as its square (400²·speed²) rather than as 400·speed, because no square root is modelled.
- GameScene.Scene.CameraThrow: takes the gesture's power as an input and requires it to be non-negative. The detector only produces non-negative powers, and the model does not connect the two modules through a square root.
- IEEE floating point. All coordinates and charges are exact reals, so no rounding or NaN behaviour is modelled. For example, ten presses of 0.1 give exactly 1 here.
- Phaser and the browser: the webcam stream, the DOM video styling, the player's movement, physics bodies, world-bounds destruction, keyboard polling and the overlay drawing. Key states are boolean inputs, a spawned snowball is returned as a value (radius and upward speed), and the charge bar is its width.
- The spawn position of a snowball and the `wrist` argument of `throwSnowball`. The argument is never used there.
- The choice between camera and keyboard mode (`window.useCamera`). `SpacePressed` and `CameraThrow` are the two handlers, and a caller uses whichever one its mode registers.
- The module-level `cooldown` of the scene is a field of `Scene`. A scene created again receives the counter's current value, so it is not reset.
- `src/gameScene.js` (an older variant of the scene) is not part of this model. Neither are the title and settings scenes or the engine configuration in `src/main.js`.
