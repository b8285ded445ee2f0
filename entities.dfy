/** The entities of the balloon game and the fixed numbers the game logic uses. */
module Entities {

  /** Vertical position of the car's centre; the car only moves horizontally. */
  const CarY: real := 300.0

  /** Car dimensions used for collision detection. */
  const CarWidth: real := 100.0
  const CarHeight: real := 40.0

  /** Half the side of the square that approximates a balloon for collisions. */
  const BalloonRadius: real := 30.0

  /** Speed given to the car while an arrow key is held, in units per tick. */
  const CarMoveSpeed: real := 5.0

  /** A balloon: a fixed column `x`, a height `y` that changes every tick,
      the constant amount `speed` it rises per tick, and a display colour. */
  datatype Balloon = Balloon(x: real, y: real, color: string, speed: real)

  /** The four balloons the game starts with. */
  function InitialBalloons(): (bs: seq<Balloon>)
    ensures |bs| == 4
    ensures forall i :: 0 <= i < |bs| ==> bs[i].y == 600.0 && bs[i].speed > 0.0
  {
    [ Balloon(150.0, 600.0, "red", 0.7),
      Balloon(350.0, 600.0, "blue", 0.9),
      Balloon(550.0, 600.0, "green", 0.6),
      Balloon(750.0, 600.0, "yellow", 0.8) ]
  }

  /** `v` added up `n` times: the amount a per-tick quantity adds up to over `n` ticks. */
  function Repeated(v: real, n: nat): real {
    if n == 0 then 0.0 else Repeated(v, n - 1) + v
  }

  lemma {:induction false} RepeatedIsProduct(v: real, n: nat)
    ensures Repeated(v, n) == (n as real) * v
  {
    if n > 0 {
      RepeatedIsProduct(v, n - 1);
    }
  }

  lemma {:induction false} RepeatedAdd(v: real, m: nat, n: nat)
    ensures Repeated(v, m + n) == Repeated(v, m) + Repeated(v, n)
  {
    if n > 0 {
      RepeatedAdd(v, m, n - 1);
    }
  }
}
