/**
 * The charge meter and the keyboard cooldown of the game scene
 * (src/Scene/gameScene.js).
 *
 * Holding Q turns a throw (a space press, or a throw gesture seen by the
 * camera) into charge instead; the next real throw spends the charge on a
 * bigger, slower snowball. The charge leaks away a little every frame. Space
 * bar throws are rate-limited by a frame counter that lives at module level,
 * so it survives the scene being re-created.
 *
 * Key states, Phaser's physics bodies and the drawing of the bar are outside
 * the model: key states are boolean inputs, a spawned snowball is returned as
 * a value, and the bar is its width.
 */
module GameScene {
  import opened Wrappers

  /** Charge added by one space press with Q held. */
  const ChargeStep: real := 0.1
  /** Charge lost every frame. */
  const ChargeDecay: real := 0.005
  /** Frames a space-bar throw blocks the next one. */
  const KeyCooldown: int := 40
  /** Power of a space-bar throw. */
  const KeyPower: real := 20.0
  /** Width of the charge bar when the charge is full. */
  const BarScale: real := 80.0
  /** Radius of an uncharged snowball. */
  const BaseRadius: real := 10.0
  /** Launch speed of an uncharged snowball of power 0, and the speed added per unit of power. */
  const BaseSpeed: real := 200.0
  const SpeedPerPower: real := 5.0

  /** A spawned snowball: its radius and the speed at which it flies straight up. */
  datatype Snowball = Snowball(radius: real, upwardSpeed: real)

  function Min(a: real, b: real): real { if a <= b then a else b }
  function Max(a: real, b: real): real { if a >= b then a else b }

  // ---------------------------------------------------------------------------
  // Charge arithmetic

  /** Charge after adding `amount`, capped at a full bar. */
  function AddCharge(charge: real, amount: real): (r: real)
    ensures r <= 1.0
    ensures charge + amount <= 1.0 ==> r == charge + amount
    ensures charge + amount >= 1.0 ==> r == 1.0
    // a non-negative amount never lowers a charge that is in range
    ensures 0.0 <= charge <= 1.0 && 0.0 <= amount ==> charge <= r
  {
    Min(charge + amount, 1.0)
  }

  /** Charge a camera throw adds when Q is held: a power-20 gesture counts as one space press. */
  function CameraCharge(power: real): (a: real)
    ensures power >= 0.0 ==> a >= 0.0
    ensures power == KeyPower ==> a == ChargeStep
    ensures power > KeyPower ==> a > ChargeStep
  {
    ChargeStep * power / KeyPower
  }

  /** Charge after one frame's leak, floored at an empty bar. */
  function Decay(charge: real): (r: real)
    ensures r >= 0.0
    ensures charge >= ChargeDecay ==> r == charge - ChargeDecay
    ensures charge <= ChargeDecay ==> r == 0.0
    ensures charge >= 0.0 ==> r <= charge
  {
    Max(0.0, charge - ChargeDecay)
  }

  /** Size multiplier of a snowball thrown with the given charge. */
  function Multiplier(charge: real): (m: real)
    ensures 0.0 <= charge <= 1.0 ==> 1.0 <= m <= 5.0
    ensures charge == 0.0 ==> m == 1.0
    ensures charge == 1.0 ==> m == 5.0
  {
    1.0 + charge * 4.0
  }

  /** Upward launch speed: a charged snowball is bigger and proportionally slower. */
  function LaunchSpeed(power: real, charge: real): (v: real)
    requires 0.0 <= charge <= 1.0
    ensures v * Multiplier(charge) == BaseSpeed + SpeedPerPower * power
    ensures charge == 0.0 ==> v == BaseSpeed + SpeedPerPower * power
    // with a non-negative power the speed lies between a fifth of the uncharged speed and all of it
    ensures power >= 0.0 ==> (BaseSpeed + SpeedPerPower * power) / 5.0 <= v <= BaseSpeed + SpeedPerPower * power
  {
    var m := Multiplier(charge);
    var a := BaseSpeed + SpeedPerPower * power;
    var v := a / m;
    assert v * m == a;
    assert power >= 0.0 ==> a / 5.0 <= v <= a by {
      if power >= 0.0 { QuotientBetween(a, m, v); }
    }
    v
  }

  /** A non-negative quantity divided by a factor between 1 and 5 lies between a fifth of it and all of it. */
  lemma QuotientBetween(a: real, m: real, v: real)
    requires 0.0 <= a && 1.0 <= m <= 5.0 && v * m == a
    ensures a / 5.0 <= v <= a
  {
    assert a - v == v * (m - 1.0);
    assert a - 5.0 * v == v * (m - 5.0);
    if v < 0.0 {
      ProductNonNegative(-v, m - 1.0);
      assert false;
    }
    ProductNonNegative(v, m - 1.0);
    ProductNonNegative(v, 5.0 - m);
    assert v * (5.0 - m) == -(v * (m - 5.0));
  }

  lemma ProductNonNegative(x: real, y: real)
    requires 0.0 <= x && 0.0 <= y
    ensures 0.0 <= x * y
  {
  }

  /** Width of the charge bar. */
  function BarWidth(charge: real): (w: real)
    ensures 0.0 <= charge <= 1.0 ==> 0.0 <= w <= BarScale
    ensures charge == 0.0 ==> w == 0.0
    ensures charge == 1.0 ==> w == BarScale
  {
    charge * BarScale
  }

  /** The snowball `throwSnowball` spawns. */
  function Launch(power: real, charge: real): (ball: Snowball)
    requires 0.0 <= charge <= 1.0
    ensures BaseRadius <= ball.radius <= 5.0 * BaseRadius
    ensures ball.upwardSpeed == LaunchSpeed(power, charge)
    ensures ball.radius * ball.upwardSpeed == BaseRadius * (BaseSpeed + SpeedPerPower * power)
  {
    Snowball(BaseRadius * Multiplier(charge), LaunchSpeed(power, charge))
  }

  // ---------------------------------------------------------------------------
  // Repeated events

  /** Charge after `n` space presses with Q held. */
  function ChargeAfterPresses(charge: real, n: nat): real {
    if n == 0 then charge else AddCharge(ChargeAfterPresses(charge, n - 1), ChargeStep)
  }

  /** Presses add 0.1 each until the bar is full: ten presses fill an empty bar. */
  lemma {:induction false} PressesSaturate(charge: real, n: nat)
    ensures ChargeAfterPresses(charge, n) == if n == 0 then charge else Min(charge + ChargeStep * (n as real), 1.0)
  {
    if n > 1 {
      PressesSaturate(charge, n - 1);
    }
  }

  /** Charge after `n` frames without any throw or press. */
  function ChargeAfterFrames(charge: real, n: nat): real {
    if n == 0 then charge else Decay(ChargeAfterFrames(charge, n - 1))
  }

  /** Frames drain 0.005 each down to an empty bar: 200 frames drain a full one. */
  lemma {:induction false} FramesDrain(charge: real, n: nat)
    ensures ChargeAfterFrames(charge, n) == if n == 0 then charge else Max(0.0, charge - ChargeDecay * (n as real))
  {
    if n > 1 {
      FramesDrain(charge, n - 1);
    }
  }

  // ---------------------------------------------------------------------------
  // The scene

  class Scene {
    /** this.charge: charge in [0, 1]. */
    var charge: real
    /** The module-level space-bar cooldown; counts down every frame, never clamped. */
    var cooldown: int
    /** Width of the green charge bar. */
    var barWidth: real

    ghost predicate Valid()
      reads this
    {
      0.0 <= charge <= 1.0 && barWidth == BarWidth(charge)
    }

    /**
     * `create`: the charge starts empty. The cooldown is not reset: it is
     * whatever the module-level counter holds (10 when the module is first loaded).
     */
    constructor (moduleCooldown: int)
      ensures Valid() && charge == 0.0 && barWidth == 0.0 && cooldown == moduleCooldown
    {
      charge, cooldown, barWidth := 0.0, moduleCooldown, 0.0;
    }

    method UpdateChargeBar()
      modifies this`barWidth
      ensures barWidth == BarWidth(charge)
    {
      barWidth := charge * BarScale;
    }

    /** Spawn a snowball, spending all the charge. */
    method ThrowSnowball(power: real) returns (ball: Snowball)
      requires Valid()
      modifies this`charge, this`barWidth
      ensures Valid() && charge == 0.0
      ensures ball == Launch(power, old(charge))
    {
      var multiplier := 1.0 + charge * 4.0;
      var velocity := (BaseSpeed + power * SpeedPerPower) / multiplier;
      ball := Snowball(BaseRadius * multiplier, velocity);
      charge := 0.0;
      UpdateChargeBar();
    }

    /** The space-bar handler (keyboard mode). */
    method SpacePressed(qDown: bool) returns (ball: Option<Snowball>)
      requires Valid()
      modifies this
      ensures Valid()
      ensures qDown ==>
        ball == None && charge == AddCharge(old(charge), ChargeStep) && cooldown == old(cooldown)
      ensures !qDown && old(cooldown) <= 0 ==>
        ball == Some(Launch(KeyPower, old(charge))) && charge == 0.0 && cooldown == KeyCooldown
      ensures !qDown && old(cooldown) > 0 ==>
        ball == None && charge == old(charge) && cooldown == old(cooldown)
    {
      ball := None;
      if qDown {
        charge := Min(charge + ChargeStep, 1.0);
        UpdateChargeBar();
      } else if cooldown <= 0 {
        cooldown := KeyCooldown;
        var b := ThrowSnowball(KeyPower);
        ball := Some(b);
      }
    }

    /** The throw listener registered with the detector (camera mode). */
    method CameraThrow(qDown: bool, power: real) returns (ball: Option<Snowball>)
      requires Valid() && power >= 0.0
      modifies this`charge, this`barWidth
      ensures Valid()
      ensures qDown ==> ball == None && charge == AddCharge(old(charge), CameraCharge(power))
      ensures !qDown ==> ball == Some(Launch(power, old(charge))) && charge == 0.0
    {
      if qDown {
        charge := Min(charge + (ChargeStep * power) / KeyPower, 1.0);
        UpdateChargeBar();
        ball := None;
      } else {
        var b := ThrowSnowball(power);
        ball := Some(b);
      }
    }

    /** The per-frame bookkeeping of `update`: tick the cooldown, leak charge. */
    method Update()
      requires Valid()
      modifies this
      ensures Valid()
      ensures cooldown == old(cooldown) - 1 && charge == Decay(old(charge))
    {
      cooldown := cooldown - 1;
      charge := Max(0.0, charge - ChargeDecay);
      UpdateChargeBar();
    }
  }
}
