/** Points and direction vectors of the playfield.

    Coordinates are the integer pixel offsets the game keeps for the snake's
    head, its tail segments and the food. A direction is stored, as in the
    game, as a vector whose components are multiplied by the speed on every
    tick.
 */
module Geometry {

  datatype Point = Point(x: int, y: int)

  /** A direction as the game stores it: the change of position per unit of speed. */
  datatype Vec = Vec(x: int, y: int)

  /** The four headings the arrow keys select. */
  datatype Heading = North | South | West | East

  /** The vector each heading is stored as (screen y grows downwards). */
  function Vector(h: Heading): Vec
  {
    match h
    case North => Vec(0, -1)
    case South => Vec(0, 1)
    case West => Vec(-1, 0)
    case East => Vec(1, 0)
  }

  function Opposite(v: Vec): Vec
  {
    Vec(-v.x, -v.y)
  }

  /** The directions the game can be heading in: exactly the four unit vectors. */
  predicate IsUnit(v: Vec)
  {
    v == Vec(1, 0) || v == Vec(-1, 0) || v == Vec(0, 1) || v == Vec(0, -1)
  }

  /** The unit vectors are exactly the vectors of the four headings. */
  lemma UnitIsHeading(v: Vec)
    ensures IsUnit(v) <==> exists h :: Vector(h) == v
  {
    if IsUnit(v) {
      var h := if v == Vec(1, 0) then East
               else if v == Vec(-1, 0) then West
               else if v == Vec(0, 1) then South
               else North;
      assert Vector(h) == v;
    }
  }

  /** The point reached from `p` after one step of `speed` units along `d`.
      Along a unit direction the step covers exactly `speed` pixels on one
      axis and none on the other. */
  function Move(p: Point, d: Vec, speed: int): (q: Point)
    ensures IsUnit(d) ==> Abs(q.x - p.x) + Abs(q.y - p.y) == Abs(speed)
    ensures IsUnit(d) ==> q.x == p.x || q.y == p.y
  {
    Point(p.x + d.x * speed, p.y + d.y * speed)
  }

  /** A step along the opposite direction undoes a step. */
  lemma MoveBack(p: Point, d: Vec, speed: int)
    ensures Move(Move(p, d, speed), Opposite(d), speed) == p
  {
  }

  function Abs(n: int): nat
  {
    if n < 0 then -n else n
  }
}
