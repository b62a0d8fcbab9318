/** Placement of the food.

    The game draws each food coordinate as `floor(random * span) + margin`
    with a uniform random number in [0, 1). The random number is not produced
    here: the caller supplies it as a `Roll`, so every food position the model
    can reach is one the game can reach.
 */
module Food {
  import opened Geometry

  /** A value of the host's random-number source: a real number in [0, 1). */
  type Random = u: real | 0.0 <= u < 1.0

  /** The two random numbers one placement of the food consumes. */
  datatype Roll = Roll(ux: Random, uy: Random)

  const Margin: int := 30
  const SpanX: int := 1800
  const SpanY: int := 1000

  /** The rectangle every food position lies in: [30, 1829] x [30, 1029]. */
  predicate InFoodRange(p: Point)
  {
    Margin <= p.x < Margin + SpanX && Margin <= p.y < Margin + SpanY
  }

  /** The food position drawn from the random numbers in `roll`. */
  function Spawn(roll: Roll): (p: Point)
    ensures InFoodRange(p)
  {
    Point((roll.ux * SpanX as real).Floor + Margin, (roll.uy * SpanY as real).Floor + Margin)
  }

  /** Every point of the food rectangle is drawn by some roll, so the range
      stated by `Spawn` is exact and not merely an over-approximation. */
  lemma SpawnCovers(p: Point)
    requires InFoodRange(p)
    ensures exists roll :: Spawn(roll) == p
  {
    var ux: Random := (p.x - Margin) as real / SpanX as real;
    var uy: Random := (p.y - Margin) as real / SpanY as real;
    assert ux * SpanX as real == (p.x - Margin) as real;
    assert uy * SpanY as real == (p.y - Margin) as real;
    assert Spawn(Roll(ux, uy)) == p;
  }
}
