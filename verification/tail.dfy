/** The snake's tail: the trailing segment positions, newest first.

    Every tick the game puts the head's new position at the front of the
    tail and then, when the tail holds more than `Cap` segments, removes the
    last one. Only one segment is removed per tick, so `Cap` bounds the tail
    only while no food is eaten: eating appends one more segment at the end
    before the update runs.
 */
module Tail {
  import opened Geometry

  const Cap: nat := 3

  /** The tail after one tick's update: the head position is put in front,
      and the last segment is dropped when the tail, with the head in front,
      holds more than `Cap` segments. At most one segment is dropped, so an
      update that drops one leaves at least `Cap`. */
  function UpdateTail(tail: seq<Point>, head: Point): (r: seq<Point>)
    ensures |r| == if |tail| < Cap then |tail| + 1 else |tail|
    ensures r[0] == head
    ensures r[1..] == tail[..|r| - 1]
  {
    var grown := [head] + tail;
    if |grown| > Cap then grown[..|grown| - 1] else grown
  }

  /** A segment appended at the end of the tail, as eating does. */
  function Append(tail: seq<Point>, p: Point): (r: seq<Point>)
    ensures |r| == |tail| + 1 && r[..|tail|] == tail && r[|tail|] == p
  {
    tail + [p]
  }

  /** The tail never shrinks over a tick, and how eating changes the length:
      a plain tick takes n segments to n + 1 below `Cap` and keeps n from
      `Cap` on; a tick that eats ends with one segment more than a plain
      tick would, except from exactly two segments, where the appended
      segment is dropped again and both end with three. */
  lemma TickTailLength(tail: seq<Point>, head: Point)
    ensures |UpdateTail(tail, head)| >= |tail|
    ensures |UpdateTail(Append(tail, head), head)| > |tail|
    ensures |UpdateTail(Append(tail, head), head)|
            == |UpdateTail(tail, head)| + (if |tail| == Cap - 1 then 0 else 1)
  {
  }

  /** Once the tail holds at least two segments, the segment appended by
      eating is the one the same tick's update removes: the tail becomes the
      head followed by the whole old tail. */
  lemma EatKeepsWholeTail(tail: seq<Point>, head: Point)
    requires |tail| >= Cap - 1
    ensures UpdateTail(Append(tail, head), head) == [head] + tail
  {
    var r := UpdateTail(Append(tail, head), head);
    assert |r| == |tail| + 1;
    assert r[1..] == Append(tail, head)[..|tail|] == tail;
    assert r == [r[0]] + r[1..];
  }
}
