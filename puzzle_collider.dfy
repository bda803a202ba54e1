/**
 * The snapping zones of a piece: one square zone per side, whose origin is
 * the piece's position plus an offset fixed when the colliders are built.
 */
module PuzzleCollider {
  import opened PuzzleSide

  /** An on-screen point (`Position`). Coordinates are exact reals. */
  datatype Position = Position(x: real, y: real)

  function Translate(p: Position, dx: real, dy: real): Position {
    Position(p.x + dx, p.y + dy)
  }

  /** `new PuzzleColliders(zoneSize, pieceSize)`: the sizes fix every offset. */
  datatype Colliders = Colliders(zoneSize: real, pieceSize: real)

  /** The distance of a zone from the corner, along its edge. */
  function AlongEdge(c: Colliders): real {
    c.pieceSize / 3.0 + c.zoneSize / 2.0
  }

  /** The offset `createCollider` is given for each direction. */
  function Offset(c: Colliders, d: Direction): (o: Position)
  {
    match d
    case Top => Position(AlongEdge(c), 0.0)
    case Right => Position(c.pieceSize, AlongEdge(c))
    case Bottom => Position(AlongEdge(c), c.pieceSize)
    case Left => Position(0.0, AlongEdge(c))
  }

  /** `get(side, position)`: the origin of that side's zone. */
  function Get(c: Colliders, d: Direction, p: Position): (z: Position)
  {
    Translate(p, Offset(c, d).x, Offset(c, d).y)
  }

  /** Moving a piece moves each of its zones by the same amount. */
  lemma GetTranslates(c: Colliders, d: Direction, p: Position, dx: real, dy: real)
    ensures Get(c, d, Translate(p, dx, dy)) == Translate(Get(c, d, p), dx, dy)
  {
  }

  /** With zones a third of the piece, every zone sits at the middle of its edge. */
  lemma ZonesAtMidpoints(c: Colliders)
    requires c.zoneSize == c.pieceSize / 3.0
    ensures Offset(c, Top) == Position(c.pieceSize / 2.0, 0.0)
    ensures Offset(c, Bottom) == Position(c.pieceSize / 2.0, c.pieceSize)
    ensures Offset(c, Left) == Position(0.0, c.pieceSize / 2.0)
    ensures Offset(c, Right) == Position(c.pieceSize, c.pieceSize / 2.0)
  {
  }

  /**
   * Two pieces one piece-size apart share the zone of their common edge:
   * the right zone of the left one is the left zone of the right one, and
   * likewise bottom and top.
   */
  lemma NeighboursShareZones(c: Colliders, a: Position)
    ensures Get(c, Right, a) == Get(c, Left, Translate(a, c.pieceSize, 0.0))
    ensures Get(c, Bottom, a) == Get(c, Top, Translate(a, 0.0, c.pieceSize))
  {
  }

  /** Facing zones coincide exactly when the pieces lie one piece-size apart. */
  lemma FacingZonesCoincide(c: Colliders, a: Position, b: Position)
    ensures Get(c, Right, a) == Get(c, Left, b) <==> b == Translate(a, c.pieceSize, 0.0)
    ensures Get(c, Bottom, a) == Get(c, Top, b) <==> b == Translate(a, 0.0, c.pieceSize)
  {
  }
}
