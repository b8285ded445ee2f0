/** The fixed-timestep clock: the frame gate, the catch-up count and the
    interpolation fraction handed to the renderer. */
module Clock {
  import opened Entities

  const Fps: real := 60.0

  /** Simulated time per update, in milliseconds. */
  const Timestep: real := 1000.0 / Fps

  /** Frames arriving sooner than this after the last processed frame are skipped. */
  const FrameGate: real := 1000.0 / 60.0

  /** A frame at `timestamp` is processed; otherwise it is skipped. */
  predicate FrameDue(timestamp: real, lastFrameTimeMs: real) {
    !(timestamp < lastFrameTimeMs + FrameGate)
  }

  /** The number of whole timesteps an accumulator of `acc` milliseconds holds. */
  function CatchUpTicks(acc: real): int {
    (acc / Timestep).Floor
  }

  /** The number of whole timesteps in `acc` is the `n` that leaves a
      remainder in [0, Timestep) once `n` timesteps are taken out. */
  lemma CatchUpTicksUnique(acc: real, n: nat)
    requires 0.0 <= acc - Repeated(Timestep, n) < Timestep
    ensures CatchUpTicks(acc) == n
  {
    RepeatedIsProduct(Timestep, n);
    var q := acc / Timestep;
    assert acc == q * Timestep;
    assert (n as real) <= q < (n as real) + 1.0;
  }

  /** An accumulator from which `n` timesteps can be taken holds at least `n`. */
  lemma CatchUpTicksAtLeast(acc: real, n: nat)
    requires Repeated(Timestep, n) <= acc
    ensures n <= CatchUpTicks(acc)
  {
    RepeatedIsProduct(Timestep, n);
    var q := acc / Timestep;
    assert acc == q * Timestep;
    assert (n as real) <= q;
  }

  /** The interpolation fraction of a remainder smaller than one timestep lies in [0, 1). */
  function Interpolation(delta: real): (f: real)
    requires 0.0 <= delta < Timestep
    ensures 0.0 <= f < 1.0
    ensures f * Timestep == delta
  {
    delta / Timestep
  }

  /** Where the car is drawn: its simulated position advanced by the given
      fraction of one tick's movement. */
  function InterpolatedCarX(carX: real, carVelocity: real, interpolation: real): real {
    carX + carVelocity * interpolation
  }

  /** With a fraction in [0, 1) the car is drawn between its position now and
      its position after the next tick, and exactly at its position when the
      fraction is zero. The drawn position splits the next tick's movement
      into the part already covered and the part still ahead, and both parts
      have the velocity's sign. */
  lemma InterpolatedCarBetween(carX: real, carVelocity: real, interpolation: real)
    requires 0.0 <= interpolation < 1.0
    ensures carVelocity >= 0.0 ==>
              carX <= InterpolatedCarX(carX, carVelocity, interpolation) <= carX + carVelocity
    ensures carVelocity <= 0.0 ==>
              carX + carVelocity <= InterpolatedCarX(carX, carVelocity, interpolation) <= carX
    ensures interpolation == 0.0 ==> InterpolatedCarX(carX, carVelocity, interpolation) == carX
  {
    var x := InterpolatedCarX(carX, carVelocity, interpolation);
    var covered, ahead := carVelocity * interpolation, carVelocity * (1.0 - interpolation);
    assert x == carX + covered;
    assert covered + ahead == carVelocity;
    if carVelocity >= 0.0 {
      ProductNonnegative(carVelocity, interpolation);
      ProductNonnegative(carVelocity, 1.0 - interpolation);
    } else {
      ProductNonnegative(-carVelocity, interpolation);
      ProductNonnegative(-carVelocity, 1.0 - interpolation);
      assert (-carVelocity) * interpolation == -covered;
      assert (-carVelocity) * (1.0 - interpolation) == -ahead;
    }
    if interpolation == 0.0 {
      assert covered == 0.0;
    }
  }

  /** The product of two non-negative reals is non-negative. */
  lemma ProductNonnegative(a: real, b: real)
    requires 0.0 <= a && 0.0 <= b
    ensures 0.0 <= a * b
  {
  }
}
