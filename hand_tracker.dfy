/**
 * The webcam throw-gesture detector of src/handTracker.js.
 *
 * Each camera frame the detector receives either "no hand" or the three
 * landmarks it uses (wrist, index knuckle, pinky knuckle). It smooths the
 * wrist over a window of the last five raw samples, takes the difference to
 * the previous smoothed wrist as a velocity, fires at most one throw when the
 * smoothed wrist moves more than 0.05 in a frame with a downward component,
 * and keeps a latch and a frame cooldown so that one gesture does not fire
 * twice.
 *
 * `Observe` is the step function on a state value; the class `Detector` holds
 * the same state in fields and its method `DetectThrow` performs the update in
 * place, with the averaging loop of `detectThrow`, proved equal to `Observe`.
 * Speeds are compared through their squares (exact over the reals), so no
 * square root is needed; a throw event carries the square of its power.
 */
module HandTracker {
  import opened Wrappers

  /** Number of raw wrist samples kept for smoothing. */
  const HistoryLength: nat := 5
  /** A frame may fire only when the smoothed wrist moved more than this. */
  const ThrowSpeed: real := 0.05
  /** The throw latch re-arms when the smoothed wrist moved less than this. */
  const SettleSpeed: real := 0.02
  /** Value the cooldown is set to when a throw fires (before that frame's tick). */
  const CooldownFrames: int := 10
  /** power = PowerScale * speed. */
  const PowerScale: real := 400.0
  /** How far the elbow is extrapolated beyond the wrist, relative to wrist - knuckles. */
  const ElbowExtension: real := 0.6

  /** A point in normalised image coordinates (y grows downwards). */
  datatype Point = Point(x: real, y: real)

  /** The landmarks the detector reads: indices 0, 5 and 17 of the hand model. */
  datatype Landmarks = Landmarks(wrist: Point, indexMcp: Point, pinkyMcp: Point)

  /** What the landmarks listener receives on a frame with a hand. */
  datatype Pose = Pose(wrist: Point, elbow: Point)

  /** A throw event: the square of its power, and the smoothed wrist it fired at. */
  datatype Throw = Throw(powerSquared: real, at: Point)

  /** What one call reports to its listeners. */
  datatype Report =
    | Silent                                       // landmarker not loaded: no listener is called
    | NoHand                                       // the landmarks listener receives null
    | Tracked(pose: Pose, thrown: Option<Throw>)   // pose always, at most one throw
  {
    predicate Fired() { Tracked? && thrown.Some? }
  }

  /** The module-level state of the detector. */
  datatype DetectorState = DetectorState(
    ready: bool,            // the hand landmarker has been created
    history: seq<Point>,    // raw wrist samples, oldest first
    lastWrist: Point,       // smoothed wrist of the previous hand frame
    isThrowing: bool,       // latch: a throw fired and the hand has not settled yet
    cooldown: int)          // frames until the next throw may fire; never clamped

  datatype Transition = Transition(next: DetectorState, report: Report)

  /** The state every reachable detector state satisfies. */
  predicate Invariant(s: DetectorState) {
    && |s.history| <= HistoryLength
    && s.lastWrist == (if s.history == [] then Point(0.0, 0.0) else Mean(s.history))
    && s.cooldown < CooldownFrames
  }

  /** The state at module load: empty history, last wrist at the origin, no cooldown. */
  function Initial(): (s: DetectorState)
    ensures Invariant(s) && !s.ready && s.history == []
    ensures s.lastWrist == Point(0.0, 0.0) && !s.isThrowing && s.cooldown == 0
  {
    DetectorState(false, [], Point(0.0, 0.0), false, 0)
  }

  // ---------------------------------------------------------------------------
  // Smoothing window

  /** The most recent HistoryLength samples of `h` (all of them when there are fewer). */
  function Keep(h: seq<Point>): seq<Point> {
    if |h| <= HistoryLength then h else h[|h| - HistoryLength..]
  }

  /** Append a raw wrist and drop the oldest sample once there are more than five. */
  function Push(h: seq<Point>, p: Point): (r: seq<Point>)
    ensures |r| > 0 && r[|r| - 1] == p
    ensures |h| <= HistoryLength ==> r == Keep(h + [p]) && |r| <= HistoryLength
    ensures |h| < HistoryLength ==> r == h + [p]
  {
    var pushed := h + [p];
    if |pushed| > HistoryLength then pushed[1..] else pushed
  }

  /** Component-wise sum, accumulated from the oldest sample to the newest. */
  function Sum(s: seq<Point>): Point {
    if s == [] then Point(0.0, 0.0)
    else
      var p := Sum(s[..|s| - 1]);
      Point(p.x + s[|s| - 1].x, p.y + s[|s| - 1].y)
  }

  /** Arithmetic mean of a non-empty window. */
  function Mean(s: seq<Point>): (m: Point)
    requires |s| > 0
    // the mean times the number of samples gives back the total
    ensures (|s| as real) * m.x == Sum(s).x && (|s| as real) * m.y == Sum(s).y
    // a single sample is its own mean
    ensures |s| == 1 ==> m == s[0]
  {
    assert |s| == 1 ==> s[..0] == [];
    Point(Sum(s).x / (|s| as real), Sum(s).y / (|s| as real))
  }

  /** One coordinate of a point: y when `vertical`, x otherwise. */
  function Coord(p: Point, vertical: bool): real {
    if vertical then p.y else p.x
  }

  lemma {:induction false} SumWithin(s: seq<Point>, vertical: bool, lo: real, hi: real)
    requires forall i | 0 <= i < |s| :: lo <= Coord(s[i], vertical) <= hi
    ensures (|s| as real) * lo <= Coord(Sum(s), vertical) <= (|s| as real) * hi
  {
    if s != [] {
      var init := s[..|s| - 1];
      var last := s[|s| - 1];
      forall i | 0 <= i < |init|
        ensures lo <= Coord(init[i], vertical) <= hi
      {
        assert init[i] == s[i];
      }
      SumWithin(init, vertical, lo, hi);
      assert Coord(Sum(s), vertical) == Coord(Sum(init), vertical) + Coord(last, vertical);
      BoundStep(|init| as real, |s| as real, Coord(Sum(init), vertical), Coord(last, vertical), lo, hi);
    }
  }

  lemma BoundStep(m: real, n: real, sum: real, x: real, lo: real, hi: real)
    requires n == m + 1.0
    requires m * lo <= sum <= m * hi && lo <= x <= hi
    ensures n * lo <= sum + x <= n * hi
  {
  }

  lemma DivideBounds(a: real, n: real, lo: real, hi: real)
    requires n > 0.0 && n * lo <= a <= n * hi
    ensures lo <= a / n <= hi
  {
    var q := a / n;
    assert q * n == a;
    assert (q - lo) * n == a - n * lo;
    assert (hi - q) * n == n * hi - a;
  }

  /** In each coordinate, the smoothed wrist lies within the range of the window's samples. */
  lemma MeanWithin(s: seq<Point>, vertical: bool, lo: real, hi: real)
    requires |s| > 0
    requires forall i | 0 <= i < |s| :: lo <= Coord(s[i], vertical) <= hi
    ensures lo <= Coord(Mean(s), vertical) <= hi
  {
    SumWithin(s, vertical, lo, hi);
    DivideBounds(Coord(Sum(s), vertical), |s| as real, lo, hi);
  }

  /** A window whose samples are all `p` is smoothed to exactly `p`. */
  lemma MeanOfConstant(s: seq<Point>, p: Point)
    requires |s| > 0
    requires forall i | 0 <= i < |s| :: s[i] == p
    ensures Mean(s) == p
  {
    MeanWithin(s, false, p.x, p.x);
    MeanWithin(s, true, p.y, p.y);
  }

  // ---------------------------------------------------------------------------
  // Elbow extrapolation

  /** Midpoint of the index and pinky knuckles. */
  function KnuckleMid(lm: Landmarks): (m: Point)
    // equally far from both knuckles, in each coordinate
    ensures m.x - lm.indexMcp.x == lm.pinkyMcp.x - m.x
    ensures m.y - lm.indexMcp.y == lm.pinkyMcp.y - m.y
  {
    Point((lm.indexMcp.x + lm.pinkyMcp.x) / 2.0, (lm.indexMcp.y + lm.pinkyMcp.y) / 2.0)
  }

  /**
   * The elbow estimate: the raw wrist pushed away from the knuckle midpoint by
   * 0.6 of the wrist-to-knuckles offset.
   */
  function Elbow(lm: Landmarks): (e: Point)
    // coincident knuckle midpoint and wrist: the elbow collapses onto the wrist
    ensures KnuckleMid(lm) == lm.wrist ==> e == lm.wrist
    // the wrist lies on the segment from the elbow to the knuckle midpoint, 3/8 of the way
    ensures lm.wrist.x == e.x + 0.375 * (KnuckleMid(lm).x - e.x)
    ensures lm.wrist.y == e.y + 0.375 * (KnuckleMid(lm).y - e.y)
  {
    var mid := KnuckleMid(lm);
    Point(lm.wrist.x + (lm.wrist.x - mid.x) * ElbowExtension,
          lm.wrist.y + (lm.wrist.y - mid.y) * ElbowExtension)
  }

  // ---------------------------------------------------------------------------
  // One frame

  /** The smoothed wrist of a hand frame: the mean of the updated window. */
  function Smoothed(s: DetectorState, lm: Landmarks): Point {
    Mean(Push(s.history, lm.wrist))
  }

  /** Movement of the smoothed wrist since the previous hand frame. */
  function Velocity(s: DetectorState, lm: Landmarks): (v: Point)
    // the previous smoothed wrist moved by `v` lands on the new smoothed wrist
    ensures s.lastWrist.x + v.x == Smoothed(s, lm).x && s.lastWrist.y + v.y == Smoothed(s, lm).y
  {
    var w := Smoothed(s, lm);
    Point(w.x - s.lastWrist.x, w.y - s.lastWrist.y)
  }

  /** Square of the Euclidean length of `v` (what Math.hypot returns, squared). */
  function SpeedSquared(v: Point): (r: real)
    // never below the square of either component, so never negative
    ensures 0.0 <= v.x * v.x <= r && 0.0 <= v.y * v.y <= r
    // a wrist that did not move has speed 0
    ensures v == Point(0.0, 0.0) ==> r == 0.0
  {
    SquareNonNegative(v.x);
    SquareNonNegative(v.y);
    v.x * v.x + v.y * v.y
  }

  lemma SquareNonNegative(a: real)
    ensures a * a >= 0.0
  {
    if a < 0.0 {
      assert a * a == (-a) * (-a);
    }
  }

  /** The throw gate: fast enough, moving down, latch open, cooldown expired. */
  function CanFire(s: DetectorState, v: Point): (fire: bool)
    // a frame that fires is too fast to re-arm the latch in the same call
    ensures fire ==> SpeedSquared(v) > SettleSpeed * SettleSpeed
    // a closed latch or a running cooldown blocks every movement
    ensures s.isThrowing || s.cooldown > 0 ==> !fire
    // with the latch open and the cooldown expired, any movement faster than 0.05
    // with a downward component fires, however sideways it is
    ensures !s.isThrowing && s.cooldown <= 0 && v.y > 0.0 && v.x * v.x > ThrowSpeed * ThrowSpeed ==> fire
  {
    SpeedSquared(v) > ThrowSpeed * ThrowSpeed && v.y > 0.0 && !s.isThrowing && s.cooldown <= 0
  }

  /** One call of the detector on the frame's hand landmarks, if any. */
  function Observe(s: DetectorState, sample: Option<Landmarks>): (r: Transition)
    ensures r.next.ready == s.ready
    ensures r.report.Fired() ==> s.ready && sample.Some?
  {
    if !s.ready then Transition(s, Silent)
    else match sample
      case None => Transition(s, NoHand)
      case Some(lm) =>
        var history := Push(s.history, lm.wrist);
        var wrist := Mean(history);
        var v := Point(wrist.x - s.lastWrist.x, wrist.y - s.lastWrist.y);
        var fire := CanFire(s, v);
        var latched := if fire then true else s.isThrowing;
        var throwing := if SpeedSquared(v) < SettleSpeed * SettleSpeed then false else latched;
        var cooldown := (if fire then CooldownFrames else s.cooldown) - 1;
        var thrown := if fire then Some(Throw(PowerScale * PowerScale * SpeedSquared(v), wrist)) else None;
        Transition(DetectorState(true, history, wrist, throwing, cooldown),
                   Tracked(Pose(wrist, Elbow(lm)), thrown))
  }

  /** Before the landmarker is ready, or on a frame without a hand, a call changes nothing. */
  lemma InertFrame(s: DetectorState, sample: Option<Landmarks>)
    requires !s.ready || sample.None?
    ensures Observe(s, sample) == Transition(s, if s.ready then NoHand else Silent)
  {
  }

  /** What a hand frame does once the landmarker is ready. */
  lemma HandFrame(s: DetectorState, lm: Landmarks)
    requires s.ready
    ensures var r := Observe(s, Some(lm));
      var v := Velocity(s, lm);
      // the window gains the raw wrist; the smoothed wrist is its mean and is remembered
      && r.next.history == Push(s.history, lm.wrist)
      && r.next.lastWrist == Mean(r.next.history)
      && r.report.Tracked? && r.report.pose == Pose(r.next.lastWrist, Elbow(lm))
      // the throw gate, both ways
      && (r.report.Fired() <==> CanFire(s, v))
      && (r.report.Fired() ==>
            && r.report.thrown.value == Throw(PowerScale * PowerScale * SpeedSquared(v), r.next.lastWrist)
            && r.next.cooldown == CooldownFrames - 1
            && r.next.isThrowing)
      && (!r.report.Fired() ==>
            && r.next.cooldown == s.cooldown - 1
            && (r.next.isThrowing <==> s.isThrowing && SpeedSquared(v) >= SettleSpeed * SettleSpeed))
  {
  }

  /** Every throw has power above 400 * 0.05 = 20. */
  lemma ThrowPowerAboveTwenty(s: DetectorState, sample: Option<Landmarks>)
    requires Observe(s, sample).report.Fired()
    ensures Observe(s, sample).report.thrown.value.powerSquared > (PowerScale * ThrowSpeed) * (PowerScale * ThrowSpeed)
  {
    HandFrame(s, sample.value);
  }

  /** Every call keeps the detector invariant. */
  lemma ObservePreservesInvariant(s: DetectorState, sample: Option<Landmarks>)
    ensures Invariant(s) ==> Invariant(Observe(s, sample).next)
  {
  }

  // ---------------------------------------------------------------------------
  // Runs of several frames

  /** The state after feeding `samples` one call at a time. */
  function After(s: DetectorState, samples: seq<Option<Landmarks>>): (t: DetectorState)
    ensures t.ready == s.ready
    decreases |samples|
  {
    if samples == [] then s else After(Observe(s, samples[0]).next, samples[1..])
  }

  /** Every run keeps the detector invariant. */
  lemma {:induction false} AfterPreservesInvariant(s: DetectorState, samples: seq<Option<Landmarks>>)
    requires Invariant(s)
    ensures Invariant(After(s, samples))
    decreases |samples|
  {
    if samples != [] {
      ObservePreservesInvariant(s, samples[0]);
      AfterPreservesInvariant(Observe(s, samples[0]).next, samples[1..]);
    }
  }

  /** What each of those calls reports. */
  function Reports(s: DetectorState, samples: seq<Option<Landmarks>>): (r: seq<Report>)
    ensures |r| == |samples|
    decreases |samples|
  {
    if samples == [] then []
    else
      var t := Observe(s, samples[0]);
      [t.report] + Reports(t.next, samples[1..])
  }

  /** The raw wrist of a frame that has a hand. */
  function WristOf(sample: Option<Landmarks>): seq<Point> {
    if sample.Some? then [sample.value.wrist] else []
  }

  /** The raw wrists of the frames that had a hand, in order. */
  function Wrists(samples: seq<Option<Landmarks>>): seq<Point>
    decreases |samples|
  {
    if samples == [] then [] else WristOf(samples[0]) + Wrists(samples[1..])
  }

  /** One call pushes the raw wrist of a hand frame into the window and nothing else. */
  lemma NextHistory(s: DetectorState, sample: Option<Landmarks>)
    requires s.ready && |s.history| <= HistoryLength
    ensures Observe(s, sample).next.history == Keep(s.history + WristOf(sample))
  {
    if sample.None? {
      assert s.history + WristOf(sample) == s.history;
    }
  }

  lemma KeepAppend(h: seq<Point>, a: seq<Point>, b: seq<Point>)
    ensures Keep(Keep(h + a) + b) == Keep(h + (a + b))
  {
    assert h + a + b == h + (a + b);
    KeepTail(h + a, b);
  }

  lemma KeepTail(a: seq<Point>, b: seq<Point>)
    ensures Keep(Keep(a) + b) == Keep(a + b)
  {
    if |a| > HistoryLength {
      var k := |a| - HistoryLength;
      assert Keep(a) + b == (a + b)[k..];
    }
  }

  /**
   * Across any run, the window holds exactly the most recent (at most five)
   * raw wrists of the hand frames; frames without a hand leave it alone.
   */
  lemma {:induction false} HistoryIsRecentWrists(s: DetectorState, samples: seq<Option<Landmarks>>)
    requires s.ready && |s.history| <= HistoryLength
    ensures After(s, samples).history == Keep(s.history + Wrists(samples))
    decreases |samples|
  {
    if samples == [] {
      assert s.history + Wrists(samples) == s.history;
    } else {
      var next := Observe(s, samples[0]).next;
      var rest := samples[1..];
      var first := WristOf(samples[0]);
      assert next.ready && next.history == Keep(s.history + first) && |next.history| <= HistoryLength by {
        NextHistory(s, samples[0]);
      }
      assert After(next, rest).history == Keep(next.history + Wrists(rest)) by {
        HistoryIsRecentWrists(next, rest);
      }
      assert Keep(Keep(s.history + first) + Wrists(rest)) == Keep(s.history + Wrists(samples)) by {
        assert Wrists(samples) == first + Wrists(rest);
        KeepAppend(s.history, first, Wrists(rest));
      }
    }
  }

  /** Fewer hand frames than the cooldown: none of them fires, and each ticks the cooldown once. */
  lemma {:induction false} CooldownHoldsFire(s: DetectorState, samples: seq<Option<Landmarks>>)
    requires |Wrists(samples)| <= s.cooldown
    ensures forall i | 0 <= i < |samples| :: !Reports(s, samples)[i].Fired()
    ensures After(s, samples).cooldown == if s.ready then s.cooldown - |Wrists(samples)| else s.cooldown
    decreases |samples|
  {
    if samples != [] {
      var t := Observe(s, samples[0]);
      var rest := samples[1..];
      CooldownHoldsFire(t.next, rest);
      assert !t.report.Fired();
      forall i | 0 <= i < |samples| ensures !Reports(s, samples)[i].Fired() {
        if i > 0 {
          assert Reports(s, samples)[i] == Reports(t.next, rest)[i - 1];
        }
      }
    }
  }

  /**
   * While the latch is closed and every hand frame keeps moving at least 0.02,
   * nothing fires, whatever the cooldown, and the latch stays closed.
   */
  lemma {:induction false} LatchHoldsFire(s: DetectorState, samples: seq<Option<Landmarks>>)
    requires s.isThrowing
    requires forall k | 0 <= k < |samples| && samples[k].Some? ::
      SpeedSquared(Velocity(After(s, samples[..k]), samples[k].value)) >= SettleSpeed * SettleSpeed
    ensures forall i | 0 <= i < |samples| :: !Reports(s, samples)[i].Fired()
    ensures After(s, samples).isThrowing
    decreases |samples|
  {
    if samples != [] {
      var t := Observe(s, samples[0]);
      var rest := samples[1..];
      assert !t.report.Fired() && t.next.isThrowing by {
        if s.ready && samples[0].Some? {
          assert After(s, samples[..0]) == s;
          HandFrame(s, samples[0].value);
        }
      }
      forall k | 0 <= k < |rest| && rest[k].Some?
        ensures SpeedSquared(Velocity(After(t.next, rest[..k]), rest[k].value)) >= SettleSpeed * SettleSpeed
      {
        assert samples[..k + 1][0] == samples[0] && samples[..k + 1][1..] == rest[..k];
        assert After(s, samples[..k + 1]) == After(t.next, rest[..k]);
        assert samples[k + 1] == rest[k];
      }
      LatchHoldsFire(t.next, rest);
      forall i | 0 <= i < |samples| ensures !Reports(s, samples)[i].Fired() {
        if i > 0 {
          assert Reports(s, samples)[i] == Reports(t.next, rest)[i - 1];
        }
      }
    }
  }

  /**
   * After a throw, none of the next nine hand frames can fire, whatever they
   * hold; after exactly nine the cooldown has reached 0 and no longer blocks.
   */
  lemma NoRefireAfterThrow(s: DetectorState, lm: Landmarks, samples: seq<Option<Landmarks>>)
    requires Observe(s, Some(lm)).report.Fired()
    requires |Wrists(samples)| <= CooldownFrames - 1
    ensures forall i | 0 <= i < |samples| :: !Reports(Observe(s, Some(lm)).next, samples)[i].Fired()
    ensures After(Observe(s, Some(lm)).next, samples).cooldown == CooldownFrames - 1 - |Wrists(samples)|
  {
    CooldownHoldsFire(Observe(s, Some(lm)).next, samples);
  }

  lemma {:induction false} WristsOfSteadyHand(samples: seq<Option<Landmarks>>, w: Point)
    requires forall i | 0 <= i < |samples| :: samples[i].Some? && samples[i].value.wrist == w
    ensures |Wrists(samples)| == |samples|
    ensures forall i | 0 <= i < |samples| :: Wrists(samples)[i] == w
    decreases |samples|
  {
    if samples != [] {
      WristsOfSteadyHand(samples[1..], w);
      assert Wrists(samples) == [w] + Wrists(samples[1..]);
    }
  }

  /**
   * Five or more hand frames whose wrist stays at `w` fill the window with `w`,
   * and the smoothed wrist (the reported pose wrist) is then exactly `w`.
   */
  lemma SteadyWristIsExact(s: DetectorState, samples: seq<Option<Landmarks>>, w: Point)
    requires s.ready && Invariant(s)
    requires |samples| >= HistoryLength
    requires forall i | 0 <= i < |samples| :: samples[i].Some? && samples[i].value.wrist == w
    ensures After(s, samples).history == seq(HistoryLength, _ => w)
    ensures After(s, samples).lastWrist == w
  {
    var t := After(s, samples);
    var ws := Wrists(samples);
    assert t.history == seq(HistoryLength, _ => w) by {
      WristsOfSteadyHand(samples, w);
      HistoryIsRecentWrists(s, samples);
      KeepSteady(s.history, ws, w);
    }
    assert Invariant(t) by {
      AfterPreservesInvariant(s, samples);
    }
    MeanOfConstant(t.history, w);
  }

  lemma KeepSteady(h: seq<Point>, ws: seq<Point>, w: Point)
    requires |ws| >= HistoryLength
    requires forall i | 0 <= i < |ws| :: ws[i] == w
    ensures Keep(h + ws) == seq(HistoryLength, _ => w)
  {
    var all := h + ws;
    forall i | 0 <= i < HistoryLength
      ensures Keep(all)[i] == w
    {
      assert Keep(all)[i] == ws[|ws| - HistoryLength + i];
    }
  }

  /**
   * There is no first-frame guard: the previous wrist starts at the origin, so
   * the very first hand frame fires whenever its wrist is more than 0.05 below
   * the top edge of the image.
   */
  lemma FirstFrameMayFire(lm: Landmarks)
    requires lm.wrist.y > ThrowSpeed
    ensures Observe(Initial().(ready := true), Some(lm)).report.Fired()
  {
    assert Push([], lm.wrist) == [lm.wrist];
    assert Velocity(Initial().(ready := true), lm) == lm.wrist;
    assert lm.wrist.y * lm.wrist.y > ThrowSpeed * ThrowSpeed;
    assert lm.wrist.x * lm.wrist.x >= 0.0;
  }

  /**
   * Wrist at (0.5, 0.5) and then (0.5, 0.65): the first frame fires; the second
   * is fast and downward (smoothed wrist (0.5, 0.575)) but the latch and the
   * cooldown hold it back.
   */
  lemma TwoFrameTrace()
    ensures var lm1 := Landmarks(Point(0.5, 0.5), Point(0.5, 0.4), Point(0.6, 0.4));
            var lm2 := Landmarks(Point(0.5, 0.65), Point(0.5, 0.55), Point(0.6, 0.55));
            var t1 := Observe(Initial().(ready := true), Some(lm1));
            var t2 := Observe(t1.next, Some(lm2));
            && t1.report.Fired()
            && t2.report == Tracked(Pose(Point(0.5, 0.575), Elbow(lm2)), None)
            && t2.next.isThrowing && t2.next.cooldown == 8
  {
    var lm1 := Landmarks(Point(0.5, 0.5), Point(0.5, 0.4), Point(0.6, 0.4));
    var lm2 := Landmarks(Point(0.5, 0.65), Point(0.5, 0.55), Point(0.6, 0.55));
    var p1 := Point(0.5, 0.5);
    var t1 := Observe(Initial().(ready := true), Some(lm1));
    assert Mean([p1]) == p1 by {
      assert [p1][..0] == [];
    }
    assert t1.next == DetectorState(true, [p1], p1, true, 9) && t1.report.Fired();
    var h2 := [p1, Point(0.5, 0.65)];
    assert Push([p1], lm2.wrist) == h2;
    assert Mean(h2) == Point(0.5, 0.575) by {
      assert h2[..1] == [p1];
      assert Sum(h2) == Point(1.0, 1.15);
    }
  }

  /** The smoothing loop: sums the window from oldest to newest and divides by its length. */
  method Average(h: seq<Point>) returns (wrist: Point)
    requires |h| > 0
    ensures wrist == Mean(h)
  {
    var avgX, avgY := 0.0, 0.0;
    for i := 0 to |h|
      invariant Point(avgX, avgY) == Sum(h[..i])
    {
      assert h[..i + 1][..i] == h[..i];
      avgX := avgX + h[i].x;
      avgY := avgY + h[i].y;
    }
    assert h[..|h|] == h;
    wrist := Point(avgX / (|h| as real), avgY / (|h| as real));
  }

  // ---------------------------------------------------------------------------
  // The detector as `detectThrow` keeps it: module-level state updated in place

  class Detector {
    var ready: bool
    var history: seq<Point>
    var lastWrist: Point
    var isThrowing: bool
    var cooldown: int

    function State(): DetectorState
      reads this
    {
      DetectorState(ready, history, lastWrist, isThrowing, cooldown)
    }

    ghost predicate Valid()
      reads this
    {
      Invariant(State())
    }

    constructor ()
      ensures Valid() && State() == Initial()
    {
      ready, history, lastWrist, isThrowing, cooldown := false, [], Point(0.0, 0.0), false, 0;
    }

    /** The asynchronous landmarker creation has completed. */
    method LandmarkerReady()
      modifies this`ready
      ensures State() == old(State()).(ready := true)
    {
      ready := true;
    }

    /** One frame: update the state in place and report what the listeners receive. */
    method DetectThrow(sample: Option<Landmarks>) returns (report: Report)
      modifies this
      ensures State() == Observe(old(State()), sample).next
      ensures report == Observe(old(State()), sample).report
      ensures old(Valid()) ==> Valid()
    {
      if !ready {
        return Silent;
      }
      if sample.None? {
        return NoHand;
      }
      var lm := sample.value;
      ghost var s0 := State();
      ghost var t := Observe(s0, Some(lm));
      var knuckleMid := Point((lm.indexMcp.x + lm.pinkyMcp.x) / 2.0, (lm.indexMcp.y + lm.pinkyMcp.y) / 2.0);
      var elbow := Point(lm.wrist.x + (lm.wrist.x - knuckleMid.x) * ElbowExtension,
                         lm.wrist.y + (lm.wrist.y - knuckleMid.y) * ElbowExtension);

      history := history + [lm.wrist];
      if |history| > HistoryLength {
        history := history[1..];
      }
      assert history == t.next.history;
      var wrist := Average(history);
      assert wrist == t.next.lastWrist;

      var vx := wrist.x - lastWrist.x;
      var vy := wrist.y - lastWrist.y;
      var speedSquared := vx * vx + vy * vy;
      ghost var v := Velocity(s0, lm);
      assert v == Point(vx, vy) && SpeedSquared(v) == speedSquared;
      ghost var fire := CanFire(s0, v);
      assert fire <==> speedSquared > ThrowSpeed * ThrowSpeed && vy > 0.0 && !isThrowing && cooldown <= 0;

      var thrown := None;
      if speedSquared > ThrowSpeed * ThrowSpeed && vy > 0.0 && !isThrowing && cooldown <= 0 {
        cooldown := CooldownFrames;
        thrown := Some(Throw(PowerScale * PowerScale * speedSquared, wrist));
        isThrowing := true;
      }
      assert thrown == t.report.thrown;
      if speedSquared < SettleSpeed * SettleSpeed {
        isThrowing := false;
      }
      cooldown := cooldown - 1;
      assert isThrowing == t.next.isThrowing && cooldown == t.next.cooldown;

      lastWrist := wrist;
      report := Tracked(Pose(wrist, elbow), thrown);
      assert elbow == Elbow(lm);
      assert State() == t.next;
      assert Invariant(s0) ==> Invariant(t.next) by {
        ObservePreservesInvariant(s0, Some(lm));
      }
    }
  }
}
