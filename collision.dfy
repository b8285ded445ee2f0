/** Axis-aligned bounding-box collision between the car and one balloon. */
module Collision {
  import opened Entities

  /** An axis-aligned box; `top` is the smaller y, as on a canvas. */
  datatype Box = Box(left: real, right: real, top: real, bottom: real)
  {
    /** The point lies strictly inside the box. */
    predicate Contains(px: real, py: real) {
      left < px < right && top < py < bottom
    }

    /** The two boxes share an interior point; edges that only touch do not count. */
    predicate Overlaps(other: Box) {
      right > other.left && left < other.right && bottom > other.top && top < other.bottom
    }
  }

  function Abs(r: real): real { if r < 0.0 then -r else r }

  /** The car's box: centred on (carX, CarY), CarWidth wide and CarHeight high. */
  function CarBox(carX: real): Box {
    Box(carX - CarWidth / 2.0, carX + CarWidth / 2.0, CarY - CarHeight / 2.0, CarY + CarHeight / 2.0)
  }

  /** The balloon's box: a square of half-side BalloonRadius around its centre. */
  function BalloonBox(b: Balloon): Box {
    Box(b.x - BalloonRadius, b.x + BalloonRadius, b.y - BalloonRadius, b.y + BalloonRadius)
  }

  /** The collision test of the game: strict overlap of the car's box (at
      the car's current position) with the balloon's box. It holds exactly
      when the centres are closer than the sum of the half-widths on the x
      axis (50 + 30) and of the half-heights on the y axis (20 + 30). */
  function DetectCollision(carX: real, b: Balloon): (hit: bool)
    ensures hit <==> (Abs(b.x - carX) < CarWidth / 2.0 + BalloonRadius &&
                      Abs(b.y - CarY) < CarHeight / 2.0 + BalloonRadius)
  {
    var carTop := CarY - CarHeight / 2.0;
    var carBottom := CarY + CarHeight / 2.0;
    var carLeft := carX - CarWidth / 2.0;
    var carRight := carX + CarWidth / 2.0;
    var balloonTop := b.y - BalloonRadius;
    var balloonBottom := b.y + BalloonRadius;
    var balloonLeft := b.x - BalloonRadius;
    var balloonRight := b.x + BalloonRadius;
    carRight > balloonLeft && carLeft < balloonRight && carBottom > balloonTop && carTop < balloonBottom
  }

  /** The test is the overlap of the two boxes, and overlap is symmetric:
      it does not matter which of car and balloon is taken first. */
  lemma CollisionIsSymmetricOverlap(carX: real, b: Balloon)
    ensures DetectCollision(carX, b) == CarBox(carX).Overlaps(BalloonBox(b))
    ensures DetectCollision(carX, b) == BalloonBox(b).Overlaps(CarBox(carX))
  {
  }

  /** The car and a balloon collide exactly when some point lies strictly
      inside both boxes. */
  lemma CollisionIffCommonPoint(carX: real, b: Balloon)
    ensures DetectCollision(carX, b) <==>
            exists px: real, py: real :: CarBox(carX).Contains(px, py) && BalloonBox(b).Contains(px, py)
  {
    var car, bal := CarBox(carX), BalloonBox(b);
    if DetectCollision(carX, b) {
      var l := if car.left < bal.left then bal.left else car.left;
      var r := if car.right < bal.right then car.right else bal.right;
      var t := if car.top < bal.top then bal.top else car.top;
      var u := if car.bottom < bal.bottom then car.bottom else bal.bottom;
      assert car.Contains((l + r) / 2.0, (t + u) / 2.0) && bal.Contains((l + r) / 2.0, (t + u) / 2.0);
    }
  }

  /** Boxes that only touch along an edge do not collide: every comparison is strict. */
  lemma TouchingEdgesDoNotCollide(carX: real, b: Balloon)
    requires CarBox(carX).right == BalloonBox(b).left || CarBox(carX).left == BalloonBox(b).right
          || CarBox(carX).bottom == BalloonBox(b).top || CarBox(carX).top == BalloonBox(b).bottom
    ensures !DetectCollision(carX, b)
  {
  }

  /** A car at x = 0 and a balloon at (30, 300) overlap by 20 on the x axis. */
  lemma NearBalloonCollides()
    ensures DetectCollision(0.0, Balloon(30.0, 300.0, "red", 0.7))
  {
  }

  /** A car at x = 0 and a balloon at (200, 300) are 120 apart horizontally. */
  lemma FarBalloonMisses()
    ensures !DetectCollision(0.0, Balloon(200.0, 300.0, "red", 0.7))
  {
  }
}
