/**
 * The pure queries of a client-side piece: the candidates it is matched
 * against, the overlap of two snapping zones, and the offset a connected
 * neighbour is given.
 */
module Puzzle {
  import opened Wrappers
  import opened PuzzleSide
  import opened PuzzleCollider

  /** One piece-size in the direction of `d`: where `connect` puts a piece joined at `d`. */
  function Unit(d: Direction, size: real): Position
  {
    match d
    case Left => Position(-size, 0.0)
    case Right => Position(size, 0.0)
    case Top => Position(0.0, -size)
    case Bottom => Position(0.0, size)
  }

  function Step(p: Position, d: Direction, size: real): Position {
    Translate(p, Unit(d, size).x, Unit(d, size).y)
  }

  /** An entry of `toCheck`: a piece index and the side it is checked at. */
  datatype Candidate = Candidate(side: Side, idx: int)

  /** `toCheck`: the four pieces that may sit next to piece `idx`, without any bounds filtering. */
  function ToCheck(idx: int, numOfColumns: int): seq<Candidate>
  {
    [Candidate(LEFT, idx + 1), Candidate(RIGHT, idx - 1),
     Candidate(TOP, idx + numOfColumns), Candidate(BOTTOM, idx - numOfColumns)]
  }

  /** The index `getNeighbourAtSide` looks up for a side of piece `idx`. */
  function NeighbourIndex(idx: int, s: Side, numOfColumns: int): Option<int>
  {
    if Equals(LEFT, s) then Some(idx - 1)
    else if Equals(RIGHT, s) then Some(idx + 1)
    else if Equals(TOP, s) then Some(idx - numOfColumns)
    else if Equals(BOTTOM, s) then Some(idx + numOfColumns)
    else None
  }

  /**
   * Every candidate of `toCheck` is checked at the side behind which the
   * selected piece lies: that side's neighbour index is the selected piece.
   * The four candidates use four different sides.
   */
  lemma ToCheckFacesSelected(idx: int, numOfColumns: int)
    ensures |ToCheck(idx, numOfColumns)| == 4
    ensures forall c :: c in ToCheck(idx, numOfColumns) ==>
              c.side in SIDES && NeighbourIndex(c.idx, c.side, numOfColumns) == Some(idx)
    ensures forall i, j :: 0 <= i < j < 4 ==>
              !Equals(ToCheck(idx, numOfColumns)[i].side, ToCheck(idx, numOfColumns)[j].side)
  {
  }

  /** A side of `SIDES` always has a neighbour index. */
  lemma NeighbourIndexOfSides(idx: int, s: Side, numOfColumns: int)
    requires s in SIDES
    ensures NeighbourIndex(idx, s, numOfColumns).Some?
    ensures numOfColumns != 0 ==> NeighbourIndex(idx, s, numOfColumns).value != idx
  {
  }

  /** The side `merge` looks back through for a piece reached at side `s`: `RIGHT` for `LEFT`, and so on. */
  function Back(s: Side): Option<Side>
  {
    if Equals(LEFT, s) then Some(RIGHT)
    else if Equals(RIGHT, s) then Some(LEFT)
    else if Equals(TOP, s) then Some(BOTTOM)
    else if Equals(BOTTOM, s) then Some(TOP)
    else None
  }

  /**
   * Neighbourhood is mutual: the piece found at side `s` of `idx` finds
   * `idx` again through the back side, which points the opposite way.
   */
  lemma NeighbourIndexBack(idx: int, s: Side, numOfColumns: int)
    requires s in SIDES
    ensures Back(s).Some? && Back(s).value in SIDES && Back(s).value.side == s.oppositeSide
    ensures NeighbourIndex(idx, s, numOfColumns).Some?
    ensures NeighbourIndex(NeighbourIndex(idx, s, numOfColumns).value, Back(s).value, numOfColumns) == Some(idx)
  {
  }

  /** `overlap`: strict intersection of two squares of side `originalSize / 3`. */
  predicate Overlap(r1: Position, r2: Position, originalSize: real) {
    var zoneSize := originalSize / 3.0;
    r1.x < r2.x + zoneSize && r1.x + zoneSize > r2.x
    && r1.y < r2.y + zoneSize && r1.y + zoneSize > r2.y
  }

  function Abs(r: real): real { if r < 0.0 then -r else r }

  /** Two zones overlap iff their origins are closer than a zone size on both axes; hence overlap is symmetric. */
  lemma OverlapDistance(r1: Position, r2: Position, originalSize: real)
    ensures Overlap(r1, r2, originalSize) <==>
              Abs(r1.x - r2.x) < originalSize / 3.0 && Abs(r1.y - r2.y) < originalSize / 3.0
    ensures Overlap(r1, r2, originalSize) <==> Overlap(r2, r1, originalSize)
  {
  }

  /** The colliders `prepareForRender` builds: zones a third of the piece. */
  function CollidersFor(originalSize: real): Colliders {
    Colliders(originalSize / 3.0, originalSize)
  }

  /**
   * `intersectsAtSide(side, piece)`, on absolute positions: this piece's
   * zone at `side` against the other piece's zone at the opposite side.
   */
  predicate IntersectsAtSide(originalSize: real, s: Side, here: Position, there: Position) {
    var c := CollidersFor(originalSize);
    Overlap(Get(c, s.side, here), Get(c, s.oppositeSide, there), originalSize)
  }

  /**
   * The snapping rule: testing at a side of `SIDES` succeeds iff the other
   * piece lies within a third of a piece, on both axes, of the spot one
   * piece-size away in that direction, the spot `connect` then moves it to.
   */
  lemma SnapTolerance(originalSize: real, s: Side, here: Position, there: Position)
    requires s in SIDES
    ensures IntersectsAtSide(originalSize, s, here, there) <==>
              var spot := Step(here, s.side, originalSize);
              Abs(there.x - spot.x) < originalSize / 3.0 && Abs(there.y - spot.y) < originalSize / 3.0
  {
    var c := CollidersFor(originalSize);
    OverlapDistance(Get(c, s.side, here), Get(c, s.oppositeSide, there), originalSize);
  }

  /** A piece exactly where `connect` would put it always snaps, for a positive size. */
  lemma PlacedPiecesSnap(originalSize: real, s: Side, here: Position)
    requires s in SIDES && originalSize > 0.0
    ensures IntersectsAtSide(originalSize, s, here, Step(here, s.side, originalSize))
  {
    SnapTolerance(originalSize, s, here, Step(here, s.side, originalSize));
  }

  /** Opposite steps cancel. */
  lemma StepBack(p: Position, s: Side, size: real)
    requires s in SIDES
    ensures Step(Step(p, s.side, size), s.oppositeSide, size) == p
    ensures Step(Step(p, s.oppositeSide, size), s.side, size) == p
  {
  }

  /** Stepping commutes with translating by a group's position. */
  lemma StepTranslate(a: Position, p: Position, d: Direction, size: real)
    ensures Translate(a, Step(p, d, size).x, Step(p, d, size).y) == Step(Translate(a, p.x, p.y), d, size)
  {
  }
}
