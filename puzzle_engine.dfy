/**
 * `PuzzleEngine`: cuts an image into a rows-by-columns puzzle. Cells are
 * filled row by row; each takes a random template among those whose sides
 * agree with the border and with the neighbours already placed, and its
 * image goes onto the sprite sheet.
 */
module Engine {
  import opened Wrappers
  import opened Templates
  import opened Grid
  import opened Sheet

  /** A generated piece as the engine returns it. */
  datatype GeneratedPiece = GeneratedPiece(actualSize: real, row: int, column: int, sides: seq<SideKind>, idx: int, size: real)

  /** `size + size / 6 * 2`: a piece with room for the keys on both sides. */
  function Projected(size: real): real {
    size + (size / 6.0) * 2.0
  }

  /** `getAdjacentSegmentIndexPairs`: the neighbours above, to the right, below and to the left. */
  function AdjacentSegmentIndexPairs(row: int, column: int): seq<(int, int)> {
    [(row - 1, column), (row, column + 1), (row + 1, column), (row, column - 1)]
  }

  /** The neighbour in direction `d` sees this cell in the opposite direction, `(d + 2) % 4`. */
  lemma AdjacentPairsFaceBack(row: int, column: int, d: nat)
    requires d < 4
    ensures var n := AdjacentSegmentIndexPairs(row, column)[d];
            AdjacentSegmentIndexPairs(n.0, n.1)[(d + 2) % 4] == (row, column)
    ensures AdjacentSegmentIndexPairs(row, column)[d] != (row, column)
  {
  }

  /** A key needs a socket and a socket a key; an edge or `X` stays as it is. */
  function Invert(s: SideKind): (r: SideKind)
    ensures (r == Key <==> s == Socket) && (r == Socket <==> s == Key)
    ensures r == Edge <==> s == Edge
  {
    if s == Key then Socket else if s == Socket then Key else s
  }

  lemma InvertTwice(s: SideKind)
    ensures Invert(Invert(s)) == s
  {
  }

  /** The sides of a key and a socket that lock together. */
  predicate Fits(s: SideKind, t: SideKind) {
    (s == Key && t == Socket) || (s == Socket && t == Key)
  }

  /** Every template in the grid has four finished sides. */
  ghost predicate CellsShaped(g: PuzzleGrid<Template>)
    reads g, g.grid
  {
    g.Valid()
    && forall a, b :: 0 <= a < g.rows && 0 <= b < g.columns && g.grid[a, b].Some? ==> Shape(g.grid[a, b].value.sides)
  }

  /**
   * What the side in direction `i` must be: an edge off the grid, the
   * counterpart of the neighbour's facing side when it is placed, and `X`
   * (anything but an edge) when it is not yet.
   */
  function SideRequirement(g: PuzzleGrid<Template>, pair: (int, int), i: nat): SideKind
    requires CellsShaped(g)
    reads g, g.grid
  {
    var side :=
      if g.IsOutOfBounds(pair.0, pair.1) then Edge
      else if g.IsPopulated(pair.0, pair.1) then Opposite(g.GetSegment(pair.0, pair.1).value, i)
      else X;
    Invert(side)
  }

  /** `_generateSideConfig`: the requirement for each neighbour, in order. */
  function GenerateSideConfig(adj: seq<(int, int)>, g: PuzzleGrid<Template>): (r: seq<SideKind>)
    requires CellsShaped(g)
    reads g, g.grid
    ensures |r| == |adj|
    ensures forall d :: 0 <= d < |adj| ==> r[d] == SideRequirement(g, adj[d], d)
  {
    if adj == [] then []
    else GenerateSideConfig(adj[..|adj| - 1], g) + [SideRequirement(g, adj[|adj| - 1], |adj| - 1)]
  }

  /** The letter at `i`, `None` past the end (`undefined` in the source). */
  function CharAt(s: seq<SideKind>, i: nat): Option<SideKind> {
    if i < |s| then Some(s[i]) else None
  }

  /** One position of `matchSides`: an `X` takes anything but an edge, any other requirement only itself. */
  predicate SideFits(req: SideKind, s: Option<SideKind>) {
    !((Some(req) != s && req != X) || (req == X && s == Some(Edge)))
  }

  predicate Matches(s1: seq<SideKind>, s2: seq<SideKind>) {
    forall i :: 0 <= i < |s1| ==> SideFits(s1[i], CharAt(s2, i))
  }

  /** `matchSides`: stops at the first position that does not fit. */
  method MatchSides(s1: seq<SideKind>, s2: seq<SideKind>) returns (b: bool)
    ensures b == Matches(s1, s2)
  {
    for i := 0 to |s1|
      invariant forall k :: 0 <= k < i ==> SideFits(s1[k], CharAt(s2, k))
    {
      var doesNotMatch := Some(s1[i]) != CharAt(s2, i) && s1[i] != X;
      var edgeOnX := s1[i] == X && CharAt(s2, i) == Some(Edge);
      if doesNotMatch || edgeOnX {
        return false;
      }
    }
    return true;
  }

  /** For side strings of equal length: each requirement is met exactly, except `X`, met by anything but an edge. */
  lemma MatchesMeaning(s1: seq<SideKind>, s2: seq<SideKind>)
    requires |s1| == |s2|
    ensures Matches(s1, s2) <==> forall i :: 0 <= i < |s1| ==> if s1[i] == X then s2[i] != Edge else s2[i] == s1[i]
  {
    assert forall i :: 0 <= i < |s1| ==> CharAt(s2, i) == Some(s2[i]);
  }

  /** The templates that match `req`, in their order. */
  function Matching(ts: seq<Template>, req: seq<SideKind>): (r: seq<Template>)
    ensures forall t :: t in r <==> t in ts && Matches(req, t.sides)
  {
    if ts == [] then []
    else
      var init := ts[..|ts| - 1];
      var last := ts[|ts| - 1];
      assert forall t :: t in ts <==> t in init || t == last;
      Matching(init, req) + (if Matches(req, last.sides) then [last] else [])
  }

  /** `filter` with `matchSides`. */
  method FilterMatching(ts: seq<Template>, req: seq<SideKind>) returns (possible: seq<Template>)
    ensures possible == Matching(ts, req)
  {
    possible := [];
    for k := 0 to |ts|
      invariant possible == Matching(ts[..k], req)
    {
      var ok := MatchSides(req, ts[k].sides);
      assert ts[..k + 1][..k] == ts[..k];
      if ok {
        possible := possible + [ts[k]];
      }
    }
    assert ts[..|ts|] == ts;
  }

  /** `randomPiece`: any one of the candidates; the random draw is a free choice. */
  method RandomPiece(allPieces: seq<Template>) returns (p: Template)
    requires allPieces != []
    ensures p in allPieces
  {
    var k :| 0 <= k < |allPieces|;
    p := allPieces[k];
  }

  /** Cell `(a, b)` comes before `(i, j)` in row-major order. */
  predicate Before(a: int, b: int, i: int, j: int) {
    a < i || (a == i && b < j)
  }

  /**
   * A generated piece on its border: a side is an edge exactly when it
   * lies on the puzzle's border, and no side is left open.
   */
  predicate Bordered(p: GeneratedPiece, rows: nat, columns: nat) {
    BorderedAt(p.sides, p.row, p.column, rows, columns)
  }

  predicate BorderedAt(sides: seq<SideKind>, row: int, column: int, rows: nat, columns: nat) {
    Shape(sides)
    && (sides[0] == Edge <==> row == 0)
    && (sides[1] == Edge <==> column == columns - 1)
    && (sides[2] == Edge <==> row == rows - 1)
    && (sides[3] == Edge <==> column == 0)
  }

  /** Neighbouring pieces lock: a key faces a socket across every inner border. */
  predicate Interlocked(ps: seq<GeneratedPiece>) {
    forall a, b :: 0 <= a < |ps| && 0 <= b < |ps| ==> Locks(ps[a], ps[b])
  }

  /** When `q` is right of or below `p`, their facing sides lock. */
  predicate Locks(p: GeneratedPiece, q: GeneratedPiece) {
    |p.sides| == 4 && |q.sides| == 4 ==>
      (q.row == p.row && q.column == p.column + 1 ==> Fits(p.sides[1], q.sides[3]))
      && (q.row == p.row + 1 && q.column == p.column ==> Fits(p.sides[2], q.sides[0]))
  }

  /** Piece `k` of a generated puzzle: where it sits, its number, its border and its size. */
  predicate PieceOk(p: GeneratedPiece, k: nat, rows: nat, columns: nat, size: real) {
    0 <= p.row < rows && 0 <= p.column < columns && p.idx == k && p.idx == p.row * columns + p.column
    && p.size == size && p.actualSize == Projected(size) && Bordered(p, rows, columns)
  }

  /** Adding a piece whose upper and left neighbours lock with it keeps the puzzle interlocked. */
  lemma InterlockSnoc(ps: seq<GeneratedPiece>, p: GeneratedPiece, i: int, j: int)
    requires Interlocked(ps) && p.row == i && p.column == j
    requires forall k :: 0 <= k < |ps| ==> Before(ps[k].row, ps[k].column, i, j) && Locks(ps[k], p)
    ensures Interlocked(ps + [p])
  {
    var qs := ps + [p];
    forall a, b | 0 <= a < |qs| && 0 <= b < |qs|
      ensures Locks(qs[a], qs[b])
    {
      if a < |ps| && b < |ps| {
        assert qs[a] == ps[a] && qs[b] == ps[b];
      } else if a < |ps| {
        assert qs[a] == ps[a] && qs[b] == p;
      } else if b < |ps| {
        assert qs[a] == p && qs[b] == ps[b];
        assert Before(ps[b].row, ps[b].column, i, j);
      }
    }
  }

  /** The grid part of the generation loop's state, with the next cell at `(i, j)`. */
  ghost predicate GridPlaced(g: PuzzleGrid<Template>, i: nat, j: nat)
    reads g, g.grid
  {
    CellsShaped(g) && i <= g.rows && j <= g.columns
    && forall a, b :: 0 <= a < g.rows && 0 <= b < g.columns ==>
         (g.grid[a, b].Some? <==> Before(a, b, i, j))
         && (g.grid[a, b].Some? ==> BorderedAt(g.grid[a, b].value.sides, a, b, g.rows, g.columns))
  }

  /** The pieces part: one piece per filled cell, in order, each recorded in its cell. */
  ghost predicate Placed(g: PuzzleGrid<Template>, ps: seq<GeneratedPiece>, i: nat, j: nat, size: real)
    reads g, g.grid
  {
    GridPlaced(g, i, j)
    && |ps| == i * g.columns + j
    && Interlocked(ps)
    && forall k :: 0 <= k < |ps| ==>
         PieceOk(ps[k], k, g.rows, g.columns, size) && Before(ps[k].row, ps[k].column, i, j)
         && g.grid[ps[k].row, ps[k].column] == Some(Template(ps[k].sides))
  }

  /** A finished row: the next cell is the first of the next row. */
  lemma PlacedNextRow(g: PuzzleGrid<Template>, ps: seq<GeneratedPiece>, i: nat, size: real)
    requires Placed(g, ps, i, g.columns, size) && i < g.rows
    ensures Placed(g, ps, i + 1, 0, size)
  {
    assert i * g.columns + g.columns == (i + 1) * g.columns;
  }

  /**
   * The requirements for cell `(i, j)`: an edge on the border, below and
   * to the right `X` inside the grid (not placed yet), above and to the
   * left the counterpart of the placed neighbour's facing side, which is a
   * key or a socket.
   */
  lemma Requirements(g: PuzzleGrid<Template>, i: nat, j: nat)
    requires GridPlaced(g, i, j) && i < g.rows && j < g.columns
    ensures var req := GenerateSideConfig(AdjacentSegmentIndexPairs(i, j), g);
            |req| == 4
            && (i == 0 ==> req[0] == Edge)
            && (i > 0 ==> g.grid[i - 1, j].Some? && req[0] == Invert(g.grid[i - 1, j].value.sides[2]) && (req[0] == Key || req[0] == Socket))
            && req[1] == (if j == g.columns - 1 then Edge else X)
            && req[2] == (if i == g.rows - 1 then Edge else X)
            && (j == 0 ==> req[3] == Edge)
            && (j > 0 ==> g.grid[i, j - 1].Some? && req[3] == Invert(g.grid[i, j - 1].value.sides[1]) && (req[3] == Key || req[3] == Socket))
  {
    var adj := AdjacentSegmentIndexPairs(i, j);
    var req := GenerateSideConfig(adj, g);
    assert req[0] == SideRequirement(g, adj[0], 0);
    assert req[1] == SideRequirement(g, adj[1], 1);
    assert req[2] == SideRequirement(g, adj[2], 2);
    assert req[3] == SideRequirement(g, adj[3], 3);
    if i > 0 {
      assert BorderedAt(g.grid[i - 1, j].value.sides, i - 1, j, g.rows, g.columns);
    }
    if j > 0 {
      assert BorderedAt(g.grid[i, j - 1].value.sides, i, j - 1, g.rows, g.columns);
    }
    if j < g.columns - 1 {
      assert !Before(i, j + 1, i, j);
    }
    if i < g.rows - 1 {
      assert !Before(i + 1, j, i, j);
    }
  }

  /** Some template always fits: the candidates handed to `randomPiece` are never empty. */
  lemma CandidateExists(g: PuzzleGrid<Template>, i: nat, j: nat, ts: seq<Template>)
    requires GridPlaced(g, i, j) && i < g.rows && j < g.columns && AllPieceTemplates(ts)
    ensures Matching(ts, GenerateSideConfig(AdjacentSegmentIndexPairs(i, j), g)) != []
  {
    var req := GenerateSideConfig(AdjacentSegmentIndexPairs(i, j), g);
    Requirements(g, i, j);
    var w := seq(4, d requires 0 <= d < 4 => if req[d] == X then Key else req[d]);
    assert Shape(w);
    MatchesMeaning(req, w);
    assert Template(w) in ts;
    assert Template(w) in Matching(ts, req);
  }

  /**
   * A template that fits the requirements of cell `(i, j)` lies on the
   * border exactly where the cell does and locks with every piece placed
   * above or to the left of it.
   */
  lemma FittingPiece(g: PuzzleGrid<Template>, ps: seq<GeneratedPiece>, i: nat, j: nat, size: real, t: Template)
    requires Placed(g, ps, i, j, size) && i < g.rows && j < g.columns
    requires Shape(t.sides) && Matches(GenerateSideConfig(AdjacentSegmentIndexPairs(i, j), g), t.sides)
    ensures BorderedAt(t.sides, i, j, g.rows, g.columns)
    ensures forall k :: 0 <= k < |ps| ==> Locks(ps[k], GeneratedPiece(Projected(size), i, j, t.sides, i * g.columns + j, size))
  {
    var req := GenerateSideConfig(AdjacentSegmentIndexPairs(i, j), g);
    Requirements(g, i, j);
    MatchesMeaning(req, t.sides);
    assert forall d :: 0 <= d < 4 ==> (if req[d] == X then t.sides[d] != Edge else t.sides[d] == req[d]);
    var p := GeneratedPiece(Projected(size), i, j, t.sides, i * g.columns + j, size);
    forall k | 0 <= k < |ps|
      ensures Locks(ps[k], p)
    {
      var q := ps[k];
      assert g.grid[q.row, q.column] == Some(Template(q.sides));
      assert Before(q.row, q.column, i, j);
    }
  }

  /** Where the sheet's cursor stands when cell `(i, j)` is next; it wraps after the last column. */
  function CursorAt(i: nat, j: nat, columns: nat, size: real): Cursor {
    if columns == 0 then Cursor(0.0, 0)
    else if j == columns then Cursor(0.0, i + 1)
    else Cursor(Times(j, Projected(size)), i)
  }

  /** Image `k` sits in its piece's slot: column times the piece size across, row times it down. */
  ghost predicate DrawnAt(drawn: seq<(real, real)>, ps: seq<GeneratedPiece>, size: real) {
    |drawn| == |ps|
    && forall k :: 0 <= k < |ps| ==> drawn[k] == PieceSlot(ps[k], size)
  }

  /** The slot on the sheet of a piece: its column times the piece size across, its row times it down. */
  function PieceSlot(p: GeneratedPiece, size: real): (real, real) {
    Slot(Cursor(Times(p.column, Projected(size)), p.row), Projected(size))
  }

  class PuzzleEngine {
    const size: real
    const rows: nat
    const columns: nat
    const spritesheet: Puzzlesheet
    const allPieceTemplates: seq<Template>
    var done: bool

    /** The sheet holds `rows` by `columns` projected pieces and is untouched until generation. */
    ghost predicate Valid()
      reads this, spritesheet
    {
      Sized() && (!done ==> spritesheet.prevX == 0.0 && spritesheet.currentRow == 0 && spritesheet.drawn == [])
    }

    /** All 81 templates, and a sheet of `columns` by `rows` projected pieces. */
    ghost predicate Sized()
      reads this, spritesheet
    {
      AllPieceTemplates(allPieceTemplates)
      && spritesheet.maxWidth == Times(columns, Projected(size))
      && spritesheet.maxHeight == Times(rows, Projected(size))
      && spritesheet.elementSize == Projected(size)
    }

    /** `new PuzzleEngine(opts)`: options stored, an empty sheet sized for the puzzle, all 81 templates. */
    constructor(size: real, rows: nat, columns: nat)
      ensures Valid() && !done && fresh(spritesheet)
      ensures this.size == size && this.rows == rows && this.columns == columns
    {
      this.size := size;
      this.rows := rows;
      this.columns := columns;
      done := false;
      var projected := size + (size / 6.0) * 2.0;
      spritesheet := new Puzzlesheet(Times(columns, projected), Times(rows, projected), projected);
      var ts := GenerateAllPossiblePieceTemplates();
      allPieceTemplates := ts;
    }

    /**
     * `createPuzzlePiece`: the piece's image goes onto the sheet, which
     * throws once it is at capacity; otherwise the piece record, numbered
     * `r * columns + c`.
     */
    method CreatePuzzlePiece(piece: Template, r: int, c: int) returns (res: Result<GeneratedPiece, string>)
      modifies spritesheet
      ensures spritesheet.drawn == old(spritesheet.drawn) + [Slot(old(spritesheet.Position()), spritesheet.elementSize)]
      ensures (spritesheet.Position(), res.Success?) == Draw(old(spritesheet.Position()), old(spritesheet.prevX), spritesheet.elementSize, spritesheet.maxWidth, spritesheet.maxHeight)
      ensures res.Success? ==> res.value == GeneratedPiece(size + (size / 6.0) * 2.0, r, c, piece.sides, r * columns + c, size)
      ensures res.Failure? ==> res.error == "The spritesheet is at capacity"
    {
      var keySize := size / 6.0;
      var actualSize := size + keySize * 2.0;
      var ok := spritesheet.AddImage();
      if ok {
        res := Success(GeneratedPiece(actualSize, r, c, piece.sides, r * columns + c, size));
      } else {
        res := Failure("The spritesheet is at capacity");
      }
    }

    /** The piece of cell `(i, j)` of a fresh sheet's puzzle: its image fits in its slot, and the cursor moves on. */
    method DrawPiece(piece: Template, i: nat, j: nat) returns (p: GeneratedPiece)
      requires Sized() && size > 0.0 && i < rows && j < columns
      requires spritesheet.Position() == CursorAt(i, j, columns, size)
      modifies spritesheet
      ensures Sized()
      ensures p == GeneratedPiece(Projected(size), i, j, piece.sides, i * columns + j, size)
      ensures spritesheet.Position() == CursorAt(i, j + 1, columns, size)
      ensures spritesheet.drawn == old(spritesheet.drawn) + [Slot(CursorAt(i, j, columns, size), Projected(size))]
    {
      DrawInGrid(rows, columns, Projected(size), i, j);
      var made := CreatePuzzlePiece(piece, i, j);
      p := made.value;
    }

    /** The template for cell `(i, j)`: a random one among those that fit its requirements, never none. */
    method ChoosePiece(g: PuzzleGrid<Template>, i: nat, j: nat) returns (piece: Template)
      requires Sized() && GridPlaced(g, i, j) && i < g.rows && j < g.columns
      ensures Shape(piece.sides) && Matches(GenerateSideConfig(AdjacentSegmentIndexPairs(i, j), g), piece.sides)
    {
      var adj := AdjacentSegmentIndexPairs(i, j);
      var sides := GenerateSideConfig(adj, g);
      var possible := FilterMatching(allPieceTemplates, sides);
      CandidateExists(g, i, j, allPieceTemplates);
      piece := RandomPiece(possible);
    }

    /** One pass of the inner loop of `generatePuzzle`: cell `(i, j)` is chosen, recorded and drawn. */
    method PlaceSegment(g: PuzzleGrid<Template>, ps: seq<GeneratedPiece>, i: nat, j: nat) returns (ps': seq<GeneratedPiece>)
      requires Sized() && size > 0.0 && g.rows == rows && g.columns == columns
      requires Placed(g, ps, i, j, size) && i < rows && j < columns
      requires spritesheet.Position() == CursorAt(i, j, columns, size) && DrawnAt(spritesheet.drawn, ps, size)
      modifies g.grid, spritesheet
      ensures Sized() && Placed(g, ps', i, j + 1, size)
      ensures spritesheet.Position() == CursorAt(i, j + 1, columns, size) && DrawnAt(spritesheet.drawn, ps', size)
    {
      var piece := ChoosePiece(g, i, j);
      FittingPiece(g, ps, i, j, size, piece);
      g.PopulateSegment(i, j, piece);
      var p := DrawPiece(piece, i, j);
      InterlockSnoc(ps, p, i, j);
      DrawnAtSnoc(old(spritesheet.drawn), ps, p, columns, size);
      ps' := ps + [p];
      PlacedStep(g, ps, p, i, j, size);
    }

    /**
     * `generatePuzzle`: every cell, row by row, gets a random fitting
     * template and its piece. The result has one piece per cell, numbered
     * in row-major order, edged exactly on the border, every inner border
     * a key against a socket, and every image in its piece's slot on the
     * sheet; generation is then done.
     */
    method GeneratePuzzle() returns (pieces: seq<GeneratedPiece>)
      requires Valid() && !done && size > 0.0
      modifies this, spritesheet
      ensures Valid() && done
      ensures |pieces| == rows * columns
      ensures forall k :: 0 <= k < |pieces| ==> PieceOk(pieces[k], k, rows, columns, size)
      ensures Interlocked(pieces)
      ensures DrawnAt(spritesheet.drawn, pieces, size)
    {
      var g := new PuzzleGrid<Template>(rows, columns);
      pieces := [];
      for i := 0 to rows
        invariant fresh(g.grid) && g.rows == rows && g.columns == columns
        invariant Sized() && Placed(g, pieces, i, 0, size)
        invariant spritesheet.Position() == CursorAt(i, 0, columns, size) && DrawnAt(spritesheet.drawn, pieces, size)
      {
        for j := 0 to columns
          invariant Sized() && Placed(g, pieces, i, j, size)
          invariant spritesheet.Position() == CursorAt(i, j, columns, size) && DrawnAt(spritesheet.drawn, pieces, size)
        {
          pieces := PlaceSegment(g, pieces, i, j);
        }
        PlacedNextRow(g, pieces, i, size);
      }
      done := true;
    }

    /** `getPuzzlesheet`: the sheet once generation is done, an error before. */
    function GetPuzzlesheet(): (r: Result<seq<(real, real)>, string>)
      reads this, spritesheet
      ensures r.Failure? <==> !done
      ensures r.Failure? ==> r.error == "The puzzle generation is not done yet"
      ensures r.Success? ==> r.value == spritesheet.drawn
    {
      if !done then Failure("The puzzle generation is not done yet") else Success(spritesheet.drawn)
    }
  }

  /** A generated puzzle covers its grid: piece `a * columns + b` is the piece of cell `(a, b)`. */
  lemma CoversEveryCell(ps: seq<GeneratedPiece>, rows: nat, columns: nat, size: real)
    requires |ps| == rows * columns
    requires forall k :: 0 <= k < |ps| ==> PieceOk(ps[k], k, rows, columns, size)
    ensures forall a, b :: 0 <= a < rows && 0 <= b < columns ==>
              CellNumber(a, b, columns) < |ps| && ps[CellNumber(a, b, columns)].row == a && ps[CellNumber(a, b, columns)].column == b
  {
    forall a, b | 0 <= a < rows && 0 <= b < columns
      ensures CellNumber(a, b, columns) < |ps| && ps[CellNumber(a, b, columns)].row == a && ps[CellNumber(a, b, columns)].column == b
    {
      var k := CellNumber(a, b, columns);
      RowMajor(a, b, rows - 1, columns);
      assert k < |ps|;
      var q := ps[k];
      assert PieceOk(q, k, rows, columns, size);
      assert 0 <= q.row && 0 <= q.column < columns && q.row * columns + q.column == k;
      RowMajorUnique(q.row, q.column, a, b, columns);
    }
  }

  /** The row-major number of cell `(a, b)`. */
  function CellNumber(a: nat, b: nat, columns: nat): nat {
    a * columns + b
  }

  /** A cell's row-major number lies below `(last + 1) * columns`. */
  lemma RowMajor(a: nat, b: nat, last: nat, columns: nat)
    requires a <= last && b < columns
    ensures a * columns + b < (last + 1) * columns
  {
    MulMono(a, last, columns);
    assert (last + 1) * columns == last * columns + columns;
  }

  lemma MulMono(a: nat, b: nat, c: nat)
    requires a <= b
    ensures a * c <= b * c
  {
    assert b * c == a * c + (b - a) * c;
  }

  /** Row and column are determined by the row-major number. */
  lemma RowMajorUnique(r: nat, c: nat, a: nat, b: nat, columns: nat)
    requires c < columns && b < columns && r * columns + c == a * columns + b
    ensures r == a && c == b
  {
    if r < a {
      assert (r + 1) * columns == r * columns + columns;
      MulMono(r + 1, a, columns);
    } else if a < r {
      assert (a + 1) * columns == a * columns + columns;
      MulMono(a + 1, r, columns);
    }
  }

  /** The cell a piece sits at is its slot on the sheet. */
  lemma CellSlot(p: GeneratedPiece, columns: nat, size: real)
    requires 0 <= p.row && 0 <= p.column < columns
    ensures Slot(CursorAt(p.row, p.column, columns, size), Projected(size)) == PieceSlot(p, size)
  {
  }

  /** Drawing the next piece at its own cell keeps every image in its piece's slot. */
  lemma DrawnAtSnoc(drawn: seq<(real, real)>, ps: seq<GeneratedPiece>, p: GeneratedPiece, columns: nat, size: real)
    requires DrawnAt(drawn, ps, size) && 0 <= p.row && 0 <= p.column < columns
    ensures DrawnAt(drawn + [Slot(CursorAt(p.row, p.column, columns, size), Projected(size))], ps + [p], size)
  {
    var d := drawn + [Slot(CursorAt(p.row, p.column, columns, size), Projected(size))];
    var qs := ps + [p];
    CellSlot(p, columns, size);
    forall k | 0 <= k < |qs|
      ensures d[k] == PieceSlot(qs[k], size)
    {
      if k < |ps| {
        assert d[k] == drawn[k] && qs[k] == ps[k];
      }
    }
  }

  /** After the cell is written, the loop's account moves one cell on. */
  lemma PlacedStep(g: PuzzleGrid<Template>, ps: seq<GeneratedPiece>, p: GeneratedPiece, i: nat, j: nat, size: real)
    requires CellsShaped(g) && i < g.rows && j < g.columns && |ps| == i * g.columns + j
    requires p == GeneratedPiece(Projected(size), i, j, p.sides, i * g.columns + j, size)
    requires BorderedAt(p.sides, i, j, g.rows, g.columns) && g.grid[i, j] == Some(Template(p.sides))
    requires forall a, b :: 0 <= a < g.rows && 0 <= b < g.columns && (a != i || b != j) ==>
               (g.grid[a, b].Some? <==> Before(a, b, i, j))
               && (g.grid[a, b].Some? ==> BorderedAt(g.grid[a, b].value.sides, a, b, g.rows, g.columns))
    requires Interlocked(ps + [p])
    requires forall k :: 0 <= k < |ps| ==>
               PieceOk(ps[k], k, g.rows, g.columns, size) && Before(ps[k].row, ps[k].column, i, j)
               && g.grid[ps[k].row, ps[k].column] == Some(Template(ps[k].sides))
    ensures Placed(g, ps + [p], i, j + 1, size)
  {
  }
}
