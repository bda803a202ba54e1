/**
 * The side table of the client: the four directions, each side's
 * opposite and its index into a piece's `[t,r,b,l]` side string.
 */
module PuzzleSide {
  /** The `Direction` enum. */
  datatype Direction = Left | Right | Top | Bottom

  /** The string value of each `Direction` member. */
  function DirectionName(d: Direction): string
  {
    match d
    case Left => "left"
    case Right => "right"
    case Top => "top"
    case Bottom => "bottom"
  }

  /** A `Side`: its direction, the direction it faces, and its index. */
  datatype Side = Side(side: Direction, oppositeSide: Direction, sideIndex: int)

  /** `Puzzle.SIDES`. */
  const LEFT: Side := Side(Left, Right, 3)
  const TOP: Side := Side(Top, Bottom, 0)
  const BOTTOM: Side := Side(Bottom, Top, 2)
  const RIGHT: Side := Side(Right, Left, 1)

  /** `Object.values(Puzzle.SIDES)`: declaration order. */
  const SIDES: seq<Side> := [LEFT, TOP, BOTTOM, RIGHT]

  /** The entry of `Puzzle.SIDES` for a direction. */
  function SideOf(d: Direction): (s: Side)
    ensures s in SIDES && s.side == d
  {
    match d
    case Left => LEFT
    case Right => RIGHT
    case Top => TOP
    case Bottom => BOTTOM
  }

  /** `equals` given a `Side`: the directions agree. */
  predicate Equals(s: Side, t: Side) {
    s.side == t.side
  }

  /** `equals` given a raw direction. */
  predicate EqualsDirection(s: Side, d: Direction) {
    s.side == d
  }

  function Index(s: Side): int { s.sideIndex }

  function Opposite(s: Side): Direction { s.oppositeSide }

  function ToString(s: Side): string { DirectionName(s.side) }

  /**
   * The shared table: TOP 0, RIGHT 1, BOTTOM 2, LEFT 3; each side's
   * opposite lies two places further round, and taking the opposite twice
   * comes back to the same direction.
   */
  lemma SidesTable(d: Direction)
    ensures 0 <= Index(SideOf(d)) < 4
    ensures Index(SideOf(Opposite(SideOf(d)))) == (Index(SideOf(d)) + 2) % 4
    ensures Opposite(SideOf(Opposite(SideOf(d)))) == d
    ensures Opposite(SideOf(d)) != d
    ensures forall e :: Index(SideOf(e)) == Index(SideOf(d)) ==> e == d
  {
  }

  /** The indices of the four sides are those of the `[t,r,b,l]` layout. */
  lemma SideIndices()
    ensures Index(TOP) == 0 && Index(RIGHT) == 1 && Index(BOTTOM) == 2 && Index(LEFT) == 3
    ensures forall i, j :: 0 <= i < j < |SIDES| ==> Index(SIDES[i]) != Index(SIDES[j])
  {
  }

  /** `toString` tells sides apart exactly as `equals` does. */
  lemma ToStringMatchesEquals(s: Side, t: Side)
    ensures ToString(s) == ToString(t) <==> Equals(s, t)
  {
    if ToString(s) == ToString(t) {
      assert ToString(s)[0] == ToString(t)[0];
      assert |ToString(s)| == |ToString(t)|;
    }
  }

  /** Comparing with a side and with its direction agree. */
  lemma EqualsForms(s: Side, t: Side)
    ensures Equals(s, t) <==> EqualsDirection(s, t.side)
    ensures Equals(s, t) <==> Equals(t, s)
  {
  }
}
