/**
 * `Puzzlesheet`: the sprite sheet the piece images are drawn onto, left to
 * right and row by row, one element size apart. Pixels are not modelled:
 * the sheet records where each image was put.
 */
module Sheet {

  /** Where the next image goes: the x after the last one, and the row. */
  datatype Cursor = Cursor(prevX: real, row: int)

  /**
   * `_drawImage` at `(x, y)` as a value: the cursor moves one element
   * right of `x`, wraps to the next row once it reaches the width, and the
   * draw fails when the row's top lies below the height.
   */
  function Draw(c: Cursor, x: real, size: real, w: real, h: real): (r: (Cursor, bool))
    ensures r.0.prevX == if x + size >= w then 0.0 else x + size
    ensures r.0.row == if x + size >= w then c.row + 1 else c.row
    ensures r.1 <==> Times(r.0.row, size) <= h
  {
    var next := if x + size >= w then Cursor(0.0, c.row + 1) else Cursor(x + size, c.row);
    (next, !(Times(next.row, size) > h))
  }

  /** `n` elements of size `s` laid end to end. */
  function Times(n: int, s: real): real {
    n as real * s
  }

  /** Where `addImage` puts the next image: at the cursor, one element size per row down. */
  function Slot(c: Cursor, size: real): (real, real) {
    (c.prevX, Times(c.row, size))
  }

  class Puzzlesheet {
    const maxWidth: real
    const maxHeight: real
    const elementSize: real
    var prevX: real
    var currentRow: int
    /** The positions images were put at, in order. */
    var drawn: seq<(real, real)>

    constructor(w: real, h: real, size: real)
      ensures maxWidth == w && maxHeight == h && elementSize == size
      ensures prevX == 0.0 && currentRow == 0 && drawn == []
    {
      maxWidth := w;
      maxHeight := h;
      elementSize := size;
      prevX := 0.0;
      currentRow := 0;
      drawn := [];
    }

    function Position(): Cursor
      reads this
    {
      Cursor(prevX, currentRow)
    }

    method NextRow()
      modifies this
      ensures currentRow == old(currentRow) + 1 && prevX == 0.0 && drawn == old(drawn)
    {
      currentRow := currentRow + 1;
      prevX := 0.0;
    }

    /**
     * `_drawImage`: the image is put at `(x, y)` and the cursor moves on
     * even when the sheet then reports that it is at capacity (`ok` false).
     */
    method DrawImage(x: real, y: real) returns (ok: bool)
      modifies this
      ensures drawn == old(drawn) + [(x, y)]
      ensures (Position(), ok) == Draw(old(Position()), x, elementSize, maxWidth, maxHeight)
      ensures maxWidth > 0.0 ==> prevX < maxWidth
    {
      drawn := drawn + [(x, y)];
      prevX := x + elementSize;
      if prevX >= maxWidth {
        NextRow();
      }
      ok := !(Times(currentRow, elementSize) > maxHeight);
    }

    /** `addImage`: the image goes at the cursor. */
    method AddImage() returns (ok: bool)
      modifies this
      ensures drawn == old(drawn) + [Slot(old(Position()), elementSize)]
      ensures (Position(), ok) == Draw(old(Position()), old(prevX), elementSize, maxWidth, maxHeight)
      ensures maxWidth > 0.0 ==> prevX < maxWidth
    {
      ok := DrawImage(prevX, Times(currentRow, elementSize));
    }
  }

  /**
   * On a sheet sized for `rows` rows of `cols` elements, an image added
   * with the cursor at column `j` of row `i` fits: the cursor moves to the
   * next column, or to the start of the next row after the last column.
   */
  lemma DrawInGrid(rows: nat, cols: nat, size: real, i: nat, j: nat)
    requires size > 0.0 && i < rows && j < cols
    ensures var r := Draw(Cursor(Times(j, size), i), Times(j, size), size, Times(cols, size), Times(rows, size));
            r.1 && r.0 == if j + 1 == cols then Cursor(0.0, i + 1) else Cursor(Times(j + 1, size), i)
  {
    var x := j as real * size;
    assert x + size == (j + 1) as real * size;
    if j + 1 < cols {
      assert (cols - (j + 1)) as real * size > 0.0;
    }
    assert (rows - (i + 1)) as real * size >= 0.0;
  }
}
