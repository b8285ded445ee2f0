/** The game's mutable state and its four entry points: the per-tick update,
    the per-frame loop driver and the two keyboard listeners. */
module GameLoop {
  import opened Entities
  import opened Collision
  import opened Simulation
  import opened Input
  import opened Clock

  /** What a call of the frame callback does with the renderer: nothing, or
      draw with the given interpolation fraction. */
  datatype Frame = Skipped | Drawn(interpolation: real)

  class Game {
    var carX: real
    var carVelocity: real
    var score: nat
    /** Real time accumulated but not yet simulated, in milliseconds. */
    var delta: real
    /** Timestamp of the last frame that was not skipped. */
    var lastFrameTimeMs: real
    const canvasHeight: real
    const balloons: array<Balloon>
    /** The number of updates run since the game started. */
    ghost var ticks: nat

    /** The accumulator holds less than one timestep, the car is still or at
        full speed, and simulated time plus the leftover accumulator is
        exactly the time of the last processed frame. */
    ghost predicate Valid()
      reads this
    {
      0.0 <= delta < Timestep &&
      ValidVelocity(carVelocity) &&
      Repeated(Timestep, ticks) + delta == lastFrameTimeMs
    }

    /** The simulated part of the state, as a value. */
    ghost function AbstractWorld(): World
      reads this`carX, this`carVelocity, this`score, balloons
    {
      World(carX, carVelocity, score, balloons[..])
    }

    /** The state at start-up, on a canvas of the given height. */
    constructor (canvasHeight: real)
      ensures Valid() && fresh(balloons)
      ensures this.canvasHeight == canvasHeight
      ensures AbstractWorld() == World(0.0, 0.0, 0, InitialBalloons())
      ensures delta == 0.0 && lastFrameTimeMs == 0.0 && ticks == 0
    {
      carX, carVelocity, score := 0.0, 0.0, 0;
      delta, lastFrameTimeMs := 0.0, 0.0;
      this.canvasHeight := canvasHeight;
      var init := InitialBalloons();
      balloons := new Balloon[4] [init[0], init[1], init[2], init[3]];
      ticks := 0;
    }

    /** One simulation tick, in place: move the car, then run the balloon
        callback on each balloon in turn. */
    method Update()
      modifies this`carX, this`score, balloons
      ensures AbstractWorld() == TickWorld(old(AbstractWorld()), canvasHeight)
    {
      carX := carX + carVelocity;
      ghost var before := old(balloons[..]);
      var i := 0;
      while i < balloons.Length
        invariant 0 <= i <= balloons.Length
        invariant carX == old(carX) + carVelocity
        invariant forall j :: 0 <= j < i ==> balloons[j] == Advance(carX, before[j], canvasHeight)
        invariant forall j :: i <= j < balloons.Length ==> balloons[j] == before[j]
        invariant score == old(score) + HitCount(carX, before[..i], canvasHeight)
      {
        HitCountPrefix(carX, before, canvasHeight, i);
        UpdateBalloon(i);
        i := i + 1;
      }
      assert before[..i] == before;
      assert balloons[..] == AdvanceAll(carX, before, canvasHeight);
      TickWorldFrom(old(AbstractWorld()), canvasHeight, AbstractWorld());
    }

    /** The per-balloon callback of the update: the balloon rises by its speed
        and re-enters at the bottom once it is entirely above the top edge;
        then, if it collides with the car, it is recycled the same way and the
        score goes up by one. */
    method UpdateBalloon(i: nat)
      requires i < balloons.Length
      modifies this`score, balloons
      ensures balloons[i] == Advance(carX, old(balloons[i]), canvasHeight)
      ensures forall j :: 0 <= j < balloons.Length && j != i ==> balloons[j] == old(balloons[j])
      ensures score == old(score) + if Hit(carX, old(balloons[i]), canvasHeight) then 1 else 0
    {
      var b := balloons[i];
      b := b.(y := b.y - b.speed);
      if b.y + BalloonRadius < 0.0 {
        b := b.(y := canvasHeight + BalloonRadius);
      }
      if DetectCollision(carX, b) {
        b := b.(y := canvasHeight + BalloonRadius);
        score := score + 1;
      }
      balloons[i] := b;
    }

    /** The frame callback. A frame arriving less than FrameGate after the last
        processed one changes nothing. Otherwise the elapsed time is added to
        the accumulator, one update is run per whole timestep it holds, and the
        renderer is given the leftover as a fraction of a timestep. */
    method MainLoop(timestamp: real) returns (frame: Frame)
      requires Valid()
      modifies this, balloons
      ensures Valid()
      ensures !FrameDue(timestamp, old(lastFrameTimeMs)) ==>
                frame == Skipped && unchanged(this) && unchanged(balloons)
      ensures FrameDue(timestamp, old(lastFrameTimeMs)) ==>
                var n := CatchUpTicks(old(delta) + (timestamp - old(lastFrameTimeMs)));
                n >= 1 &&
                AbstractWorld() == Ticks(old(AbstractWorld()), canvasHeight, n) &&
                ticks == old(ticks) + n &&
                lastFrameTimeMs == timestamp &&
                delta == old(delta) + (timestamp - old(lastFrameTimeMs)) - Repeated(Timestep, n) &&
                frame == Drawn(delta / Timestep)
      ensures frame.Drawn? ==> 0.0 <= frame.interpolation < 1.0
      ensures old(score) <= score && carVelocity == old(carVelocity)
    {
      ghost var w0 := AbstractWorld();
      if timestamp < lastFrameTimeMs + FrameGate {
        return Skipped;
      }
      delta := delta + (timestamp - lastFrameTimeMs);
      lastFrameTimeMs := timestamp;
      CatchUpTicksAtLeast(delta, 1);
      CatchUp();
      TicksScoreBounds(w0, canvasHeight, CatchUpTicks(old(delta) + (timestamp - old(lastFrameTimeMs))));
      TicksMoveCar(w0, canvasHeight, CatchUpTicks(old(delta) + (timestamp - old(lastFrameTimeMs))));
      frame := Drawn(Interpolation(delta));
    }

    /** The catch-up loop of the frame callback: run one update per whole
        timestep in the accumulator, taking each timestep out as it is run. */
    method CatchUp()
      requires delta >= 0.0
      modifies this`carX, this`score, this`delta, this`ticks, balloons
      ensures var n := CatchUpTicks(old(delta));
              AbstractWorld() == Ticks(old(AbstractWorld()), canvasHeight, n) &&
              ticks == old(ticks) + n &&
              delta == old(delta) - Repeated(Timestep, n)
      ensures 0.0 <= delta < Timestep
      ensures Repeated(Timestep, ticks) + delta == Repeated(Timestep, old(ticks)) + old(delta)
    {
      ghost var start, ticks0, k := AbstractWorld(), ticks, 0;
      while delta >= Timestep
        invariant 0.0 <= delta == old(delta) - Repeated(Timestep, k)
        invariant k <= CatchUpTicks(old(delta))
        invariant ticks == ticks0 + k
        invariant AbstractWorld() == Ticks(start, canvasHeight, k)
        decreases CatchUpTicks(old(delta)) - k
      {
        CatchUpTicksAtLeast(old(delta), k + 1);
        TicksSucc(start, canvasHeight, k);
        Update();
        delta := delta - Timestep;
        k := k + 1;
        ticks := ticks + 1;
      }
      CatchUpTicksUnique(old(delta), k);
      RepeatedAdd(Timestep, ticks0, k);
    }

    /** The keydown listener. */
    method OnKeyDown(key: Key)
      requires Valid()
      modifies this`carVelocity
      ensures Valid()
      ensures carVelocity == Apply(KeyDown(key), old(carVelocity))
      ensures key == ArrowRight ==> carVelocity == CarMoveSpeed
      ensures key == ArrowLeft ==> carVelocity == -CarMoveSpeed
      ensures key == Other ==> carVelocity == old(carVelocity)
    {
      if key == ArrowRight {
        carVelocity := CarMoveSpeed;
      } else if key == ArrowLeft {
        carVelocity := -CarMoveSpeed;
      }
    }

    /** The keyup listener. */
    method OnKeyUp(key: Key)
      requires Valid()
      modifies this`carVelocity
      ensures Valid()
      ensures carVelocity == Apply(KeyUp(key), old(carVelocity))
      ensures IsArrow(key) ==> carVelocity == 0.0
      ensures !IsArrow(key) ==> carVelocity == old(carVelocity)
    {
      if key == ArrowRight || key == ArrowLeft {
        carVelocity := 0.0;
      }
    }
  }
}
