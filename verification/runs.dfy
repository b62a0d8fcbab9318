/** Sequences of events: what the game looks like after any number of
    inputs and ticks. */
module Runs {
  import opened Geometry
  import opened Food
  import opened Tail
  import opened Collision
  import opened Game

  /** The state after the events of `es`, in order. */
  function Run(s: State, es: seq<Event>): State
    decreases |es|
  {
    if es == [] then s else Run(Step(s, es[0]), es[1..])
  }

  /** No arrow key and no Enter: the game loop alone. */
  predicate OnlyTicks(es: seq<Event>)
  {
    forall i :: 0 <= i < |es| ==> es[i].Frame?
  }

  predicate NoEnter(es: seq<Event>)
  {
    forall i :: 0 <= i < |es| ==> !es[i].EnterKey?
  }

  lemma {:induction false} RunAppend(s: State, a: seq<Event>, b: seq<Event>)
    ensures Run(s, a + b) == Run(Run(s, a), b)
    decreases |a|
  {
    if a == [] {
      assert a + b == b;
    } else {
      assert (a + b)[0] == a[0];
      assert (a + b)[1..] == a[1..] + b;
      RunAppend(Step(s, a[0]), a[1..], b);
    }
  }

  /** Every state reachable from a fresh game satisfies the invariant: the
      direction is a unit vector, the food lies in its rectangle, and the
      overlay shows the current score. */
  lemma {:induction false} RunPreservesInv(s: State, es: seq<Event>)
    requires Inv(s)
    ensures Inv(Run(s, es))
    decreases |es|
  {
    if es != [] {
      StepPreservesInv(s, es[0]);
      RunPreservesInv(Step(s, es[0]), es[1..]);
    }
  }

  lemma ReachableInv(roll: Roll, es: seq<Event>)
    ensures var r := Run(Init(roll), es);
      && IsUnit(r.dir) && InFoodRange(r.food)
      && (r.phase.GameOver? ==> r.phase.shown == r.score)
  {
    InitInv(roll);
    RunPreservesInv(Init(roll), es);
  }

  /** Without Enter, neither the score nor the length of the tail ever goes
      down, and the score goes up by at most one per event. */
  lemma {:induction false} RunWithoutEnter(s: State, es: seq<Event>)
    requires NoEnter(es)
    ensures s.score <= Run(s, es).score <= s.score + |es|
    ensures |Run(s, es).tail| >= |s.tail|
    decreases |es|
  {
    if es != [] {
      StepScore(s, es[0]);
      StepTailNeverShrinks(s, es[0]);
      assert NoEnter(es[1..]) by {
        forall i | 0 <= i < |es[1..]|
          ensures !es[1..][i].EnterKey?
        {
          assert es[1..][i] == es[i + 1];
        }
      }
      RunWithoutEnter(Step(s, es[0]), es[1..]);
    }
  }

  /** Once the game is over, the game loop changes nothing. */
  lemma {:induction false} TicksAfterGameOver(s: State, es: seq<Event>)
    requires s.phase.GameOver? && OnlyTicks(es)
    ensures Run(s, es) == s
    decreases |es|
  {
    if es != [] {
      assert es[0].Frame?;
      assert OnlyTicks(es[1..]) by {
        forall i | 0 <= i < |es[1..]|
          ensures es[1..][i].Frame?
        {
          assert es[1..][i] == es[i + 1];
        }
      }
      TicksAfterGameOver(Step(s, es[0]), es[1..]);
    }
  }

  /** Heading right along y = 300 with no key pressed, every tick moves the
      head 5 pixels right, whatever food it eats on the way; the game stays
      on until the tick that takes the head to x = 1580, which ends it. */
  lemma {:induction false} RightwardTicks(s: State, es: seq<Event>)
    requires s.phase == Playing && s.dir == Vector(East)
    requires s.head.y == 300 && -300 <= s.head.x < 1580
    requires OnlyTicks(es)
    requires s.head.x + 5 * |es| <= 1580
    ensures Run(s, es).head == Point(s.head.x + 5 * |es|, 300)
    ensures Run(s, es).dir == Vector(East)
    ensures Run(s, es).phase.Playing? <==> s.head.x + 5 * |es| < 1580
    decreases |es|
  {
    if es != [] {
      assert es[0].Frame?;
      var s' := Step(s, es[0]);
      assert s'.head == Point(s.head.x + 5, 300);
      assert OnlyTicks(es[1..]) by {
        forall i | 0 <= i < |es[1..]|
          ensures es[1..][i].Frame?
        {
          assert es[1..][i] == es[i + 1];
        }
      }
      if |es| == 1 {
        assert s'.phase.Playing? <==> s.head.x + 5 < 1580;
      } else {
        RightwardTicks(s', es[1..]);
      }
    }
  }

  /** From a fresh game with no key pressed, after k <= 256 ticks the head
      is at (300 + 5k, 300), and the game is still on exactly when k < 256:
      the 256th tick ends it. */
  lemma TicksFromStart(roll: Roll, es: seq<Event>)
    requires OnlyTicks(es) && |es| <= 256
    ensures Run(Init(roll), es).head == Point(300 + 5 * |es|, 300)
    ensures Run(Init(roll), es).phase.Playing? <==> |es| < 256
  {
    RightwardTicks(Init(roll), es);
  }

  /** After the 256th tick of a new game with no key pressed, further ticks
      change nothing: the head stays at (1580, 300) and the game stays over. */
  lemma TicksBeyondWall(roll: Roll, es: seq<Event>)
    requires OnlyTicks(es) && |es| >= 256
    ensures Run(Init(roll), es).head == Point(1580, 300)
    ensures Run(Init(roll), es).phase.GameOver?
  {
    var a, b := es[..256], es[256..];
    assert es == a + b;
    assert OnlyTicks(a) by {
      forall i | 0 <= i < |a|
        ensures a[i].Frame?
      {
        assert a[i] == es[i];
      }
    }
    assert OnlyTicks(b) by {
      forall i | 0 <= i < |b|
        ensures b[i].Frame?
      {
        assert b[i] == es[256 + i];
      }
    }
    TicksFromStart(roll, a);
    RunAppend(Init(roll), a, b);
    TicksAfterGameOver(Run(Init(roll), a), b);
  }

  lemma RunCons(s: State, e: Event, es: seq<Event>)
    ensures Run(s, [e] + es) == Run(Step(s, e), es)
  {
    assert ([e] + es)[1..] == es;
  }

  /** A tick that neither eats nor hits a wall only moves the head and
      updates the tail. */
  lemma PlainTick(s: State, roll: Roll)
    requires s.phase == Playing
    requires !FoodHit(Move(s.head, s.dir, Speed), s.food)
    requires !HitsWall(Move(s.head, s.dir, Speed))
    ensures Step(s, Frame(roll)).head == Move(s.head, s.dir, Speed)
    ensures Step(s, Frame(roll)).tail == UpdateTail(s.tail, Move(s.head, s.dir, Speed))
    ensures Step(s, Frame(roll)) == s.(head := Step(s, Frame(roll)).head, tail := Step(s, Frame(roll)).tail)
  {
  }

  /** The no-reverse rule looks at one key press at a time. Each handler
      tests the direction the previous key press may already have replaced,
      so two arrow keys between ticks reverse the snake: heading right, Up
      then Left turns it to the left, and the next tick puts the head back
      on a position it held two ticks earlier. */
  lemma TwoKeysReverse(roll: Roll)
    requires Spawn(roll).x >= 700
    ensures var es := [Frame(roll), Frame(roll), Arrow(North), Arrow(West), Frame(roll)];
      var r := Run(Init(roll), es);
      && r.dir == Opposite(Init(roll).dir)
      && r.phase == Playing
      && r.head == Point(305, 300)
      && SelfCollides(r.head, r.tail)
  {
    var s0 := Init(roll);
    var f := s0.food;
    PlainTick(s0, roll);
    var s1 := Step(s0, Frame(roll));
    assert s1 == s0.(head := Point(305, 300), tail := [Point(305, 300)]);
    PlainTick(s1, roll);
    var s2 := Step(s1, Frame(roll));
    assert s2 == s1.(head := Point(310, 300), tail := [Point(310, 300), Point(305, 300)]);
    var s3 := Step(s2, Arrow(North));
    assert s3 == s2.(dir := Vector(North));
    var s4 := Step(s3, Arrow(West));
    assert s4 == s2.(dir := Vector(West));
    PlainTick(s4, roll);
    var s5 := Step(s4, Frame(roll));
    assert s5.tail == [Point(305, 300), Point(310, 300), Point(305, 300)];
    assert s5 == s4.(head := Point(305, 300), tail := s5.tail);
    var es := [Frame(roll), Frame(roll), Arrow(North), Arrow(West), Frame(roll)];
    assert es == [Frame(roll)] + ([Frame(roll)] + ([Arrow(North)] + ([Arrow(West)] + ([Frame(roll)] + []))));
    RunCons(s0, Frame(roll), es[1..]);
    RunCons(s1, Frame(roll), es[2..]);
    RunCons(s2, Arrow(North), es[3..]);
    RunCons(s3, Arrow(West), es[4..]);
    RunCons(s4, Frame(roll), []);
    assert s5.tail[2] == s5.head;
  }
}
