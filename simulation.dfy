/** One simulation tick as a function on the game's state: the car moves by
    its velocity, every balloon rises and is recycled at the bottom when it
    leaves the top or hits the car, and every hit scores one point. */
module Simulation {
  import opened Entities
  import opened Collision

  /** The part of the game state a tick reads and writes. */
  datatype World = World(carX: real, carVelocity: real, score: nat, balloons: seq<Balloon>)

  /** The height at which a recycled balloon re-enters, just below the canvas. */
  function RecycleY(canvasHeight: real): real { canvasHeight + BalloonRadius }

  /** The balloon after rising by its speed, recycled if it is entirely above the top edge. */
  function Rise(b: Balloon, canvasHeight: real): (r: Balloon)
    ensures r.x == b.x && r.speed == b.speed && r.color == b.color
    ensures b.y - b.speed + BalloonRadius < 0.0 ==> r.y == RecycleY(canvasHeight)
    ensures b.y - b.speed + BalloonRadius >= 0.0 ==> r.y == b.y - b.speed
  {
    var moved := b.(y := b.y - b.speed);
    if moved.y + BalloonRadius < 0.0 then moved.(y := RecycleY(canvasHeight)) else moved
  }

  /** The balloon is hit in this tick: the car, already at its new position,
      collides with the balloon where it stands after rising and wrapping. */
  predicate Hit(carX: real, b: Balloon, canvasHeight: real) {
    DetectCollision(carX, Rise(b, canvasHeight))
  }

  /** One balloon at the end of a tick in which the car stands at `carX`. */
  function Advance(carX: real, b: Balloon, canvasHeight: real): (r: Balloon)
    ensures r.x == b.x && r.speed == b.speed && r.color == b.color
    ensures r.y == b.y - b.speed || r.y == RecycleY(canvasHeight)
    ensures Hit(carX, b, canvasHeight) ==> r.y == RecycleY(canvasHeight)
    ensures b.y - b.speed + BalloonRadius < 0.0 ==> r.y == RecycleY(canvasHeight)
    ensures r.y != b.y - b.speed ==>
              Hit(carX, b, canvasHeight) || b.y - b.speed + BalloonRadius < 0.0
  {
    var risen := Rise(b, canvasHeight);
    if DetectCollision(carX, risen) then risen.(y := RecycleY(canvasHeight)) else risen
  }

  /** Every balloon advanced independently, in place. */
  function AdvanceAll(carX: real, bs: seq<Balloon>, canvasHeight: real): (r: seq<Balloon>)
    ensures |r| == |bs|
  {
    seq(|bs|, i requires 0 <= i < |bs| => Advance(carX, bs[i], canvasHeight))
  }

  /** How many entries of `flags` are true, counted front to back. */
  function CountTrue(flags: seq<bool>): (n: nat)
    ensures n <= |flags|
  {
    if flags == [] then 0
    else CountTrue(flags[..|flags| - 1]) + (if flags[|flags| - 1] then 1 else 0)
  }

  /** The positions holding `true`. */
  ghost function TrueIndices(flags: seq<bool>): set<nat> {
    set i: nat | i < |flags| && flags[i]
  }

  /** Appending an entry adds its position to the set when the entry is true. */
  lemma TrueIndicesSnoc(flags: seq<bool>)
    requires flags != []
    ensures var front, last := flags[..|flags| - 1], |flags| - 1;
            TrueIndices(flags) == TrueIndices(front) + (if flags[last] then {last} else {}) &&
            last !in TrueIndices(front)
  {
    var front := flags[..|flags| - 1];
    forall i: nat | i < |front| ensures (i in TrueIndices(flags)) == (i in TrueIndices(front)) {
      assert flags[i] == front[i];
    }
  }

  /** Counting the true entries one by one gives the size of the set of their positions. */
  lemma {:induction false} CountTrueIsCardinality(flags: seq<bool>)
    ensures CountTrue(flags) == |TrueIndices(flags)|
  {
    if flags != [] {
      CountTrueIsCardinality(flags[..|flags| - 1]);
      TrueIndicesSnoc(flags);
    }
  }

  /** For each balloon, whether the car at `carX` hits it in this tick. */
  function HitFlags(carX: real, bs: seq<Balloon>, canvasHeight: real): (flags: seq<bool>)
    ensures |flags| == |bs|
  {
    seq(|bs|, i requires 0 <= i < |bs| => Hit(carX, bs[i], canvasHeight))
  }

  /** How many of the balloons are hit in this tick. */
  function HitCount(carX: real, bs: seq<Balloon>, canvasHeight: real): (n: nat)
    ensures n <= |bs|
  {
    CountTrue(HitFlags(carX, bs, canvasHeight))
  }

  /** Counting one more balloon adds one exactly when that balloon is hit. */
  lemma HitCountPrefix(carX: real, bs: seq<Balloon>, canvasHeight: real, i: nat)
    requires i < |bs|
    ensures HitCount(carX, bs[..i + 1], canvasHeight) ==
            HitCount(carX, bs[..i], canvasHeight) + if Hit(carX, bs[i], canvasHeight) then 1 else 0
  {
    var longer := HitFlags(carX, bs[..i + 1], canvasHeight);
    assert longer[..i] == HitFlags(carX, bs[..i], canvasHeight);
  }

  /** The positions of the balloons hit in this tick. */
  ghost function HitIndices(carX: real, bs: seq<Balloon>, canvasHeight: real): set<nat> {
    set i: nat | i < |bs| && Hit(carX, bs[i], canvasHeight)
  }

  /** The score gained in a tick is the number of distinct balloons hit:
      each balloon scores at most once per tick. */
  lemma HitCountIsNumberOfBalloonsHit(carX: real, bs: seq<Balloon>, canvasHeight: real)
    ensures HitCount(carX, bs, canvasHeight) == |HitIndices(carX, bs, canvasHeight)|
  {
    var flags := HitFlags(carX, bs, canvasHeight);
    CountTrueIsCardinality(flags);
    assert TrueIndices(flags) == HitIndices(carX, bs, canvasHeight);
  }

  /** One tick: the car moves first, then each balloon rises, wraps and is
      checked against the car at its new position; the score gains one point
      per balloon hit. */
  function TickWorld(w: World, canvasHeight: real): (r: World)
    ensures r.carX == w.carX + w.carVelocity && r.carVelocity == w.carVelocity
    ensures w.score <= r.score <= w.score + |w.balloons|
    ensures |r.balloons| == |w.balloons|
  {
    var carX := w.carX + w.carVelocity;
    World(carX, w.carVelocity, w.score + HitCount(carX, w.balloons, canvasHeight),
          AdvanceAll(carX, w.balloons, canvasHeight))
  }

  /** A world whose car has moved, whose balloons have each advanced and whose
      score has gained the hits is the one the tick produces. */
  lemma TickWorldFrom(w: World, canvasHeight: real, r: World)
    requires r.carX == w.carX + w.carVelocity && r.carVelocity == w.carVelocity
    requires r.score == w.score + HitCount(r.carX, w.balloons, canvasHeight)
    requires r.balloons == AdvanceAll(r.carX, w.balloons, canvasHeight)
    ensures TickWorld(w, canvasHeight) == r
  {
  }

  /** The score grows by exactly the number of balloons hit by the car at its
      new position. */
  lemma TickScoresHits(w: World, canvasHeight: real)
    ensures TickWorld(w, canvasHeight).score ==
            w.score + |HitIndices(w.carX + w.carVelocity, w.balloons, canvasHeight)|
  {
    HitCountIsNumberOfBalloonsHit(w.carX + w.carVelocity, w.balloons, canvasHeight);
  }

  /** After a tick each balloon is its callback's result for the car's new
      position: it keeps its column, speed and colour; it is at the recycle
      height when it was hit or had risen wholly above the top edge, and
      otherwise it is its old height minus its speed. */
  lemma TickMovesBalloons(w: World, canvasHeight: real, i: nat)
    requires i < |w.balloons|
    ensures TickWorld(w, canvasHeight).balloons[i] == Advance(w.carX + w.carVelocity, w.balloons[i], canvasHeight)
    ensures var b, r := w.balloons[i], TickWorld(w, canvasHeight).balloons[i];
            r.x == b.x && r.speed == b.speed && r.color == b.color &&
            (r.y == b.y - b.speed || r.y == RecycleY(canvasHeight)) &&
            (Hit(w.carX + w.carVelocity, b, canvasHeight) ==> r.y == RecycleY(canvasHeight)) &&
            (b.y - b.speed + BalloonRadius < 0.0 ==> r.y == RecycleY(canvasHeight)) &&
            (b.y - b.speed + BalloonRadius >= 0.0 && !Hit(w.carX + w.carVelocity, b, canvasHeight) ==>
               r.y == b.y - b.speed)
  {
  }

  /** `n` applications of `step`, starting from `x`. */
  function Iterate<T>(step: T -> T, x: T, n: nat): T {
    if n == 0 then x else step(Iterate(step, x, n - 1))
  }

  /** A property of the iteration count and the state that holds at the start
      and is carried from each step to the next holds after `n` steps. */
  lemma {:induction false} IterateInduction<T>(step: T -> T, inv: (nat, T) -> bool, x: T, n: nat)
    requires inv(0, x)
    requires forall k: nat, y: T :: inv(k, y) ==> inv(k + 1, step(y))
    ensures inv(n, Iterate(step, x, n))
  {
    if n > 0 {
      IterateInduction(step, inv, x, n - 1);
    }
  }

  /** The simulation step for a canvas of the given height. */
  function TickStep(canvasHeight: real): World -> World {
    w => TickWorld(w, canvasHeight)
  }

  /** `n` consecutive ticks. */
  function Ticks(w: World, canvasHeight: real, n: nat): World {
    Iterate(TickStep(canvasHeight), w, n)
  }

  /** One more tick is one more application of the step. */
  lemma TicksSucc(w: World, canvasHeight: real, n: nat)
    ensures Ticks(w, canvasHeight, n + 1) == TickWorld(Ticks(w, canvasHeight, n), canvasHeight)
  {
  }

  /** Over `n` ticks the velocity does not change and the car travels the
      velocity added `n` times. */
  lemma TicksTravel(w: World, canvasHeight: real, n: nat)
    ensures Ticks(w, canvasHeight, n).carVelocity == w.carVelocity
    ensures Ticks(w, canvasHeight, n).carX == w.carX + Repeated(w.carVelocity, n)
  {
    var inv := (k: nat, y: World) => y.carVelocity == w.carVelocity && y.carX == w.carX + Repeated(w.carVelocity, k);
    IterateInduction(TickStep(canvasHeight), inv, w, n);
  }

  /** Over `n` ticks the velocity does not change and the car travels `n`
      times that velocity. */
  lemma TicksMoveCar(w: World, canvasHeight: real, n: nat)
    ensures Ticks(w, canvasHeight, n).carVelocity == w.carVelocity
    ensures Ticks(w, canvasHeight, n).carX == w.carX + (n as real) * w.carVelocity
  {
    TicksTravel(w, canvasHeight, n);
    RepeatedIsProduct(w.carVelocity, n);
  }

  /** Over any number of ticks the score never decreases, and it gains at
      most one point per balloon per tick. */
  lemma TicksScoreBounds(w: World, canvasHeight: real, n: nat)
    ensures w.score <= Ticks(w, canvasHeight, n).score <= w.score + n * |w.balloons|
  {
    var m := |w.balloons|;
    var inv := (k: nat, y: World) => |y.balloons| == m && w.score <= y.score <= w.score + k * m;
    forall k: nat, y: World | inv(k, y) ensures inv(k + 1, TickStep(canvasHeight)(y)) {
      BoundStep(y.score, w.score, k, m);
    }
    IterateInduction(TickStep(canvasHeight), inv, w, n);
  }

  lemma BoundStep(a: nat, b: nat, k: nat, m: nat)
    requires a <= b + k * m
    ensures a + m <= b + (k + 1) * m
  {
  }

  /** Ticks never create, remove or reorder balloons, and change only their heights. */
  lemma TicksKeepBalloons(w: World, canvasHeight: real, n: nat)
    ensures |Ticks(w, canvasHeight, n).balloons| == |w.balloons|
    ensures forall i :: 0 <= i < |w.balloons| ==>
              var b, r := w.balloons[i], Ticks(w, canvasHeight, n).balloons[i];
              r.x == b.x && r.speed == b.speed && r.color == b.color
  {
    var inv := (k: nat, y: World) => |y.balloons| == |w.balloons| &&
      forall i :: 0 <= i < |w.balloons| ==>
        y.balloons[i].x == w.balloons[i].x && y.balloons[i].speed == w.balloons[i].speed &&
        y.balloons[i].color == w.balloons[i].color;
    IterateInduction(TickStep(canvasHeight), inv, w, n);
  }
}
