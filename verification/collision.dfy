/** The three collision tests of the game: food, wall and self.

    The head position is the snake container's offset, which is drawn 300
    pixels away from where the food and the walls are measured; the tests
    carry that 300-pixel correction in their constants.
 */
module Collision {
  import opened Geometry
  import opened Food

  /** The head touches the food when both coordinates, corrected by 300,
      are within 20 pixels of the food's. Equivalently the head lies in the
      41 x 41 window whose corners are the food position minus 320 and
      minus 280. */
  predicate FoodHit(head: Point, food: Point)
    ensures FoodHit(head, food) <==>
              && food.x - 320 <= head.x <= food.x - 280
              && food.y - 320 <= head.y <= food.y - 280
  {
    Abs(head.x - food.x + 300) <= 20 && Abs(head.y - food.y + 300) <= 20
  }

  /** The head has left the playfield: the game is over. In the head's
      coordinates the playfield is [-300, 1579] x [-300, 739]. */
  predicate HitsWall(head: Point)
    ensures !HitsWall(head) <==> -300 <= head.x < 1580 && -300 <= head.y < 740
  {
    head.x < -300 || head.x >= 1880 - 300 || head.y < -300 || head.y >= 1040 - 300
  }

  /** A head that touches food placed by `Spawn` and hits a wall in the same
      position can only be at the bottom wall: food near the other three
      walls lies too far inside the playfield to be reached from beyond them. */
  lemma FoodAndWallOnlyAtBottom(head: Point, food: Point)
    requires InFoodRange(food)
    requires FoodHit(head, food) && HitsWall(head)
    ensures -290 <= head.x < 1580 && 740 <= head.y <= 749
  {
  }

  /** The head sits on one of the tail segments other than the first. */
  predicate SelfCollides(head: Point, tail: seq<Point>)
  {
    exists i :: 1 <= i < |tail| && tail[i] == head
  }

  /** The self-collision scan: walks the tail from the second segment on and
      reports whether one of them is at the head's position. The first
      segment is never looked at. */
  method CheckSelfCollision(head: Point, tail: seq<Point>) returns (hit: bool)
    ensures hit <==> exists i :: 1 <= i < |tail| && tail[i] == head
  {
    var i := 1;
    while i < |tail|
      invariant 1 <= i
      invariant forall j :: 1 <= j < i && j < |tail| ==> tail[j] != head
    {
      if tail[i] == head {
        return true;
      }
      i := i + 1;
    }
    return false;
  }

  /** The first segment never decides a self-collision: replacing it by any
      point leaves the answer unchanged. */
  lemma FirstSegmentIgnored(head: Point, tail: seq<Point>, q: Point)
    requires |tail| > 0
    ensures SelfCollides(head, tail) <==> SelfCollides(head, [q] + tail[1..])
  {
    var t' := [q] + tail[1..];
    forall i | 1 <= i < |tail|
      ensures t'[i] == tail[i]
    {
    }
  }
}
