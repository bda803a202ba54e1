/**
 * `PuzzleGrid`: a rows-by-columns grid of cells, each empty or holding the
 * template placed there; a cell is written once and then keeps its
 * template.
 */
module Grid {
  import opened Wrappers

  class PuzzleGrid<T> {
    const rows: nat
    const columns: nat
    const grid: array2<Option<T>>

    ghost predicate Valid()
      reads this
    {
      grid.Length0 == rows && grid.Length1 == columns
    }

    /** `new PuzzleGrid(r, c)`: every cell starts empty. */
    constructor(r: nat, c: nat)
      ensures Valid() && rows == r && columns == c && fresh(grid)
      ensures forall a, b :: 0 <= a < r && 0 <= b < c ==> grid[a, b].None?
    {
      rows := r;
      columns := c;
      grid := new Option<T>[r, c]((a, b) => None);
    }

    /** `isOutOfBounds`: outside the grid exactly when a coordinate is negative or past the last row or column. */
    predicate IsOutOfBounds(r: int, c: int)
      reads this
    {
      r < 0 || r > rows - 1 || c < 0 || c > columns - 1
    }

    function GetSegment(r: int, c: int): Option<T>
      requires Valid() && !IsOutOfBounds(r, c)
      reads this, grid
    {
      grid[r, c]
    }

    predicate IsPopulated(r: int, c: int)
      requires Valid() && !IsOutOfBounds(r, c)
      reads this, grid
    {
      GetSegment(r, c).Some?
    }

    /** `populateSegment`: an empty cell takes `v`; a populated one keeps its template; no other cell changes. */
    method PopulateSegment(r: int, c: int, v: T)
      requires Valid() && !IsOutOfBounds(r, c)
      modifies grid
      ensures IsPopulated(r, c)
      ensures GetSegment(r, c) == if old(IsPopulated(r, c)) then old(GetSegment(r, c)) else Some(v)
      ensures forall a, b :: 0 <= a < rows && 0 <= b < columns && (a != r || b != c) ==> grid[a, b] == old(grid[a, b])
    {
      if !IsPopulated(r, c) {
        grid[r, c] := Some(v);
      }
    }
  }

  /** In bounds means inside the grid. */
  lemma InBounds<T>(g: PuzzleGrid<T>, r: int, c: int)
    ensures !g.IsOutOfBounds(r, c) <==> 0 <= r < g.rows && 0 <= c < g.columns
  {
  }
}
