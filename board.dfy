/**
 * The value part of a client-side `Puzzle` object and the neighbour
 * lookups of `Puzzle.ts`, read off the board's pieces and group objects.
 */
module Board {
  import opened Wrappers
  import opened PuzzleSide
  import opened PuzzleCollider
  import opened Puzzle
  import opened PuzzleGroup

  /** `PuzzleMetadata`, set by `createSandbox`. */
  datatype Metadata = Metadata(numOfColumns: int, numOfRows: int, actualSize: real, originalSize: real)

  /** `PieceSpec`: the piece's id, its `[t,r,b,l]` side string and its cell. */
  datatype PieceSpec = PieceSpec(idx: int, sides: string, row: int, column: int)

  /** A `Puzzle` object: its data, its position (`null` until set) and the handle of its group. */
  datatype Piece = Piece(data: PieceSpec, position: Option<Position>, group: Option<nat>)

  /** The side character for EDGE. */
  const EDGE_CHAR: char := 'e'

  predicate IsEdge(sides: string, i: int) {
    0 <= i < |sides| && sides[i] == EDGE_CHAR
  }

  /**
   * Where a piece shows on the board: a grouped piece's position is
   * relative to its group's container, which is translated by the
   * group's position.
   */
  function AbsOf(pieces: seq<Piece>, arena: seq<Group>, i: nat): Position
    requires i < |pieces| && pieces[i].position.Some? && (pieces[i].group.Some? ==> pieces[i].group.value < |arena|)
  {
    var pos := pieces[i].position.value;
    match pieces[i].group
    case None => pos
    case Some(h) => Translate(arena[h].position, pos.x, pos.y)
  }

  /** Every piece has a position: the board has been laid out. */
  predicate Laid(pieces: seq<Piece>) {
    forall i :: 0 <= i < |pieces| ==> pieces[i].position.Some?
  }

  /** Every grouped piece refers to a group object that exists. */
  predicate HandlesOk(pieces: seq<Piece>, arena: seq<Group>) {
    forall k :: 0 <= k < |pieces| && pieces[k].group.Some? ==> pieces[k].group.value < |arena|
  }

  /**
   * `getNeighbourAtSide`: nothing behind an EDGE side; otherwise the piece
   * whose id the side points at, if the piece's own group holds it. A piece
   * without a group fails there (`this.group!`), which `Failure` stands for.
   */
  function NeighbourIn(pieces: seq<Piece>, arena: seq<Group>, cols: int, i: nat, s: Side): (r: Result<Option<nat>, string>)
    requires i < |pieces| && (pieces[i].group.Some? ==> pieces[i].group.value < |arena|)
    ensures r.Success? && r.value.Some? ==>
              !IsEdge(pieces[i].data.sides, s.sideIndex) && pieces[i].group.Some?
              && r.value.value in arena[pieces[i].group.value].puzzles
              && NeighbourIndex(pieces[i].data.idx, s, cols) == Some(r.value.value as int)
    ensures r.Failure? <==>
              !IsEdge(pieces[i].data.sides, s.sideIndex) && pieces[i].group.None?
              && NeighbourIndex(pieces[i].data.idx, s, cols).Some?
  {
    var p := pieces[i];
    if IsEdge(p.data.sides, s.sideIndex) then Success(None)
    else
      match NeighbourIndex(p.data.idx, s, cols)
      case None => Success(None)
      case Some(j) =>
        if p.group.None? then Failure("TypeError")
        else if j >= 0 && j as nat in arena[p.group.value].puzzles then Success(Some(j as nat))
        else Success(None)
  }

  /**
   * Neighbourhood is mutual inside a group: when the piece found at side
   * `s` belongs to the same group and its back side is no EDGE, it finds
   * the first piece again through that back side.
   */
  lemma NeighbourInBack(pieces: seq<Piece>, arena: seq<Group>, cols: int, i: nat, s: Side)
    requires HandlesOk(pieces, arena) && i < |pieces| && s in SIDES && pieces[i].data.idx == i
    requires pieces[i].group.Some? ==> i in arena[pieces[i].group.value].puzzles
    requires NeighbourIn(pieces, arena, cols, i, s).Success? && NeighbourIn(pieces, arena, cols, i, s).value.Some?
    requires var n := NeighbourIn(pieces, arena, cols, i, s).value.value;
             n < |pieces| && pieces[n].data.idx == n && pieces[n].group == pieces[i].group
             && !IsEdge(pieces[n].data.sides, Back(s).value.sideIndex)
    ensures Back(s).Some?
    ensures var n := NeighbourIn(pieces, arena, cols, i, s).value.value;
            NeighbourIn(pieces, arena, cols, n, Back(s).value) == Success(Some(i))
  {
    NeighbourIndexBack(i, s, cols);
  }

  /** An entry of `merge`'s queue: a piece and the side at which it was found. */
  datatype Pending = Pending(piece: nat, side: Side)

  function Ids(es: seq<Pending>): set<nat> {
    set e | e in es :: e.piece
  }

  /**
   * `getNeighbourPieces` without its empty entries: the neighbours found
   * at the given sides, in order; a failing lookup fails the whole call.
   */
  function Neighbours(pieces: seq<Piece>, arena: seq<Group>, cols: int, i: nat, sides: seq<Side>): (r: Result<seq<Pending>, string>)
    requires i < |pieces| && (pieces[i].group.Some? ==> pieces[i].group.value < |arena|)
    ensures pieces[i].group.Some? ==> r.Success?
    ensures r.Success? ==> forall f :: f in r.value ==>
              f.side in sides && NeighbourIn(pieces, arena, cols, i, f.side) == Success(Some(f.piece))
    ensures r.Success? ==> forall s :: (s in sides && NeighbourIn(pieces, arena, cols, i, s).Success?
                                      && NeighbourIn(pieces, arena, cols, i, s).value.Some?) ==>
                                       Pending(NeighbourIn(pieces, arena, cols, i, s).value.value, s) in r.value
    decreases |sides|
  {
    if sides == [] then Success([])
    else
      match NeighbourIn(pieces, arena, cols, i, sides[0])
      case Failure(e) => Failure(e)
      case Success(n) =>
        match Neighbours(pieces, arena, cols, i, sides[1..])
        case Failure(e) => Failure(e)
        case Success(rest) =>
          Success((if n.Some? then [Pending(n.value, sides[0])] else []) + rest)
  }

  /** The lookups read only the piece's data and group, never its position. */
  lemma {:induction false} NeighboursIgnorePositions(p1: seq<Piece>, p2: seq<Piece>, arena: seq<Group>, cols: int, i: nat, sides: seq<Side>)
    requires i < |p1| && i < |p2| && p1[i].data == p2[i].data && p1[i].group == p2[i].group
    requires p1[i].group.Some? ==> p1[i].group.value < |arena|
    ensures forall s :: NeighbourIn(p1, arena, cols, i, s) == NeighbourIn(p2, arena, cols, i, s)
    ensures Neighbours(p1, arena, cols, i, sides) == Neighbours(p2, arena, cols, i, sides)
    decreases |sides|
  {
    if sides != [] {
      NeighboursIgnorePositions(p1, p2, arena, cols, i, sides[1..]);
    }
  }
}
