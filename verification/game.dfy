/** The game-state machine of the snake game.

    The state is immutable; every handler of the game is a function from the
    state before to the state after. The game-over overlay's visibility is
    the phase: `GameOver(shown)` carries the score the overlay displays.
 */
module Game {
  import opened Geometry
  import opened Food
  import opened Tail
  import opened Collision

  /** `GameOver(shown)`: the overlay is visible and displays `shown`. */
  datatype Phase = Playing | GameOver(shown: nat)

  datatype State = State(
    head: Point,
    dir: Vec,
    tail: seq<Point>,
    food: Point,
    score: nat,
    phase: Phase)

  const Start: Point := Point(300, 300)
  const Speed: int := 5

  /** The state a fresh game starts in: the snake as it is created, food
      drawn from `roll`, playing. */
  function Init(roll: Roll): (s: State)
    ensures s.head == Point(300, 300) && s.dir == Vector(East)
    ensures s.tail == [] && s.score == 0 && s.phase == Playing
    ensures InFoodRange(s.food) && s.food == Spawn(roll)
  {
    State(Start, Vector(East), [], Spawn(roll), 0, Playing)
  }

  // The four arrow-key handlers. Each tests one component of the current
  // direction, so a key that would reverse the snake is ignored. They act
  // in every phase; while the game is over the direction they set is
  // overwritten by the next restart.

  function HandleDown(s: State): (r: State)
    ensures r == s.(dir := r.dir)
    ensures r.dir == s.dir || r.dir == Vector(South)
    ensures IsUnit(s.dir) ==> IsUnit(r.dir) && r.dir != Opposite(s.dir)
  {
    if s.dir.y != -1 then s.(dir := Vector(South)) else s
  }

  function HandleLeft(s: State): (r: State)
    ensures r == s.(dir := r.dir)
    ensures r.dir == s.dir || r.dir == Vector(West)
    ensures IsUnit(s.dir) ==> IsUnit(r.dir) && r.dir != Opposite(s.dir)
  {
    if s.dir.x != 1 then s.(dir := Vector(West)) else s
  }

  function HandleRight(s: State): (r: State)
    ensures r == s.(dir := r.dir)
    ensures r.dir == s.dir || r.dir == Vector(East)
    ensures IsUnit(s.dir) ==> IsUnit(r.dir) && r.dir != Opposite(s.dir)
  {
    if s.dir.x != -1 then s.(dir := Vector(East)) else s
  }

  function HandleUp(s: State): (r: State)
    ensures r == s.(dir := r.dir)
    ensures r.dir == s.dir || r.dir == Vector(North)
    ensures IsUnit(s.dir) ==> IsUnit(r.dir) && r.dir != Opposite(s.dir)
  {
    if s.dir.y != 1 then s.(dir := Vector(North)) else s
  }

  function HandleArrow(s: State, h: Heading): State
  {
    match h
    case South => HandleDown(s)
    case West => HandleLeft(s)
    case East => HandleRight(s)
    case North => HandleUp(s)
  }

  /** The no-reverse rule stated on headings: turn to `h` unless `h` points
      exactly back along the current direction. */
  function NoReverseTurn(d: Vec, h: Heading): Vec
  {
    if Vector(h) == Opposite(d) then d else Vector(h)
  }

  /** The component tests of the four handlers implement exactly the
      no-reverse rule, for every direction the game can be heading in. */
  lemma ArrowIsNoReverseTurn(s: State, h: Heading)
    requires IsUnit(s.dir)
    ensures HandleArrow(s, h) == s.(dir := NoReverseTurn(s.dir, h))
  {
  }

  /** Eating: the head position is appended at the end of the tail, new food
      is drawn and the score goes up by one. */
  function Eat(s: State, roll: Roll): (r: State)
    ensures r.score == s.score + 1
    ensures |r.tail| == |s.tail| + 1 && r.tail[..|s.tail|] == s.tail && r.tail[|s.tail|] == s.head
    ensures r.food == Spawn(roll) && InFoodRange(r.food)
    ensures r.head == s.head && r.dir == s.dir && r.phase == s.phase
  {
    s.(tail := Append(s.tail, s.head), food := Spawn(roll), score := s.score + 1)
  }

  /** Ending the game: the overlay shows the score of this moment; nothing
      else changes. */
  function EndGame(s: State): (r: State)
    ensures r.phase.GameOver? && r.phase.shown == s.score
    ensures r == s.(phase := r.phase)
  {
    s.(phase := GameOver(s.score))
  }

  /** One tick of the game loop, which runs only while playing. The head
      moves first; the food test and then the wall test look at the moved
      head, so a tick can both score and end the game; the tail is updated
      last, with the moved head, also on the tick that ends the game. */
  function Tick(s: State, roll: Roll): (r: State)
    requires s.phase == Playing
    ensures r.head == Move(s.head, s.dir, Speed) && r.dir == s.dir
    ensures FoodHit(r.head, s.food) ==> r.score == s.score + 1 && r.food == Spawn(roll)
    ensures !FoodHit(r.head, s.food) ==> r.score == s.score && r.food == s.food
    ensures r.phase == if HitsWall(r.head) then GameOver(r.score) else Playing
    ensures var before := if FoodHit(r.head, s.food) then Append(s.tail, r.head) else s.tail;
      && |r.tail| == (if |before| < Cap then |before| + 1 else |before|)
      && r.tail[0] == r.head
      && r.tail[1..] == before[..|r.tail| - 1]
  {
    var moved := s.(head := Move(s.head, s.dir, Speed));
    var fed := if FoodHit(moved.head, moved.food) then Eat(moved, roll) else moved;
    var checked := if HitsWall(fed.head) then EndGame(fed) else fed;
    checked.(tail := UpdateTail(checked.tail, checked.head))
  }

  /** The Enter key: ignored while playing; after a game over it starts a
      fresh game, with food drawn from `roll`. */
  function Enter(s: State, roll: Roll): (r: State)
    ensures s.phase == Playing ==> r == s
    ensures s.phase.GameOver? ==>
              && r.head == Point(300, 300) && r.dir == Vector(East)
              && r.tail == [] && r.score == 0 && r.phase == Playing
              && r.food == Spawn(roll)
  {
    if s.phase.GameOver? then Init(roll) else s
  }

  /** The inputs the game reacts to: an arrow key, the Enter key, and one
      firing of the game loop. The random numbers a handler may consume are
      part of the event. */
  datatype Event = Arrow(h: Heading) | EnterKey(roll: Roll) | Frame(roll: Roll)

  /** The effect of one event. The arrow keys and Enter are handled in every
      phase; the game loop is stopped while the game is over, so a `Frame`
      then changes nothing. Only Enter leaves a game over, and only a tick
      that takes the head outside the walls ends a game. */
  function Step(s: State, e: Event): (r: State)
    ensures e.Arrow? ==> r == s.(dir := r.dir)
    ensures e.Arrow? && IsUnit(s.dir) ==> r.dir == NoReverseTurn(s.dir, e.h)
    ensures e.Frame? && s.phase.GameOver? ==> r == s
    ensures s.phase.GameOver? && r.phase == Playing ==> e.EnterKey?
    ensures s.phase == Playing && r.phase.GameOver? ==> e.Frame? && HitsWall(r.head)
  {
    match e
    case Arrow(h) => HandleArrow(s, h)
    case EnterKey(roll) => Enter(s, roll)
    case Frame(roll) => if s.phase == Playing then Tick(s, roll) else s
  }

  /** What holds of every state the game can reach: the direction is one of
      the four unit vectors, the food lies in its rectangle, the first tail
      segment is the head, the head is inside the walls exactly while
      playing, and a game-over overlay shows the current score. */
  ghost predicate Inv(s: State)
  {
    && IsUnit(s.dir)
    && InFoodRange(s.food)
    && (|s.tail| > 0 ==> s.tail[0] == s.head)
    && match s.phase
       case Playing => !HitsWall(s.head)
       case GameOver(shown) => HitsWall(s.head) && shown == s.score
  }

  lemma InitInv(roll: Roll)
    ensures Inv(Init(roll))
  {
  }

  lemma StepPreservesInv(s: State, e: Event)
    requires Inv(s)
    ensures Inv(Step(s, e))
  {
  }

  /** The score changes only in two ways: one tick that eats raises it by
      exactly one, and Enter after a game over resets it to 0. Anything else
      leaves it as it is; in particular it never changes while the game is
      over except through Enter. */
  lemma StepScore(s: State, e: Event)
    ensures var r := Step(s, e);
      && (r.score == s.score + 1 <==>
            e.Frame? && s.phase == Playing && FoodHit(Move(s.head, s.dir, Speed), s.food))
      && (r.score < s.score ==> e.EnterKey? && s.phase.GameOver? && r.score == 0)
      && (r.score == s.score || r.score == s.score + 1 || r.score == 0)
  {
  }

  /** While the game is over only the direction can change, and only Enter
      brings the game back. */
  lemma GameOverFrozen(s: State, e: Event)
    requires s.phase.GameOver?
    requires !e.EnterKey?
    ensures Step(s, e) == s.(dir := Step(s, e).dir)
  {
  }

  /** Without Enter, the tail never loses a segment. */
  lemma StepTailNeverShrinks(s: State, e: Event)
    requires !e.EnterKey?
    ensures |Step(s, e).tail| >= |s.tail|
  {
    if e.Frame? && s.phase == Playing {
      var h := Move(s.head, s.dir, Speed);
      TickTailLength(s.tail, h);
    }
  }

  /** Right after a tick the first tail segment is the head itself, which is
      why the self-collision scan starts at the second segment. And when a
      tick eats with fewer than two segments, the segment appended by eating
      survives the update at the end of the tail: the head is then on a
      later segment, so the scan, if the game loop ran it, would end the
      game on that tick. */
  lemma EarlyEatWouldSelfCollide(s: State, roll: Roll)
    requires s.phase == Playing && |s.tail| < Cap - 1
    requires FoodHit(Move(s.head, s.dir, Speed), s.food)
    ensures SelfCollides(Tick(s, roll).head, Tick(s, roll).tail)
  {
    var r := Tick(s, roll);
    var n := |s.tail|;
    assert |r.tail| == n + 2;
    assert r.tail[n + 1] == r.tail[1..][n] == Append(s.tail, r.head)[n] == r.head;
  }

  /** One tick can both score and end the game: at the bottom wall, with
      food near the bottom of its rectangle. */
  lemma ScoreAndEndInOneTick(roll: Roll)
    ensures var s := State(Point(300, 735), Vector(South), [], Point(600, 1025), 4, Playing);
      && InFoodRange(s.food) && !HitsWall(s.head)
      && Tick(s, roll).score == 5 && Tick(s, roll).phase == GameOver(5)
  {
  }
}
