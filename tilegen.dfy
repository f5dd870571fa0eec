/** The checkerboard tile generator (tilegen.go drawTile). Drawing into
    the image is recorded as the sequence of filled rectangles, in the
    order they are drawn. */
module TileGen {
  import opened GoInt

  datatype RGBA = RGBA(r: int, g: int, b: int, a: int)

  const TileColor1 := RGBA(30, 30, 30, 255)
  const TileColor2 := RGBA(230, 230, 230, 255)

  datatype Rect = Rect(x0: int, y0: int, x1: int, y1: int)

  datatype Fill = Fill(rect: Rect, color: RGBA)

  /** The fill for tile (r, c): the dark colour on odd squares. Its origin
      uses the tile size passed in, its extent the global TileWidth and
      TileHeight flags. */
  function TileAt(r: int, c: int, tileWidth: int, tileHeight: int, globalWidth: int, globalHeight: int): Fill
  {
    var x, y := c * tileWidth, r * tileHeight;
    Fill(Rect(x, y, x + globalWidth, y + globalHeight), if (r + c) % 2 == 1 then TileColor1 else TileColor2)
  }

  /** Tiles (r, 0) .. (r, cols-1). */
  function Row(r: int, cols: nat, tw: int, th: int, gw: int, gh: int): (s: seq<Fill>)
    ensures |s| == cols
  {
    if cols == 0 then [] else Row(r, cols - 1, tw, th, gw, gh) + [TileAt(r, cols - 1, tw, th, gw, gh)]
  }

  /** Rows 0 .. rows-1, each left to right. */
  function Rows(rows: nat, cols: nat, tw: int, th: int, gw: int, gh: int): (s: seq<Fill>)
  {
    if rows == 0 then [] else Rows(rows - 1, cols, tw, th, gw, gh) + Row(rows - 1, cols, tw, th, gw, gh)
  }

  lemma {:induction false} RowIndex(r: int, cols: nat, tw: int, th: int, gw: int, gh: int, c: nat)
    requires c < cols
    ensures Row(r, cols, tw, th, gw, gh)[c] == TileAt(r, c, tw, th, gw, gh)
  {
    if c < cols - 1 {
      RowIndex(r, cols - 1, tw, th, gw, gh, c);
    }
  }

  /** The drawing is row-major: `rows * cols` fills, tile (r, c) at
      position r * cols + c. */
  lemma {:induction false} RowsIndex(rows: nat, cols: nat, tw: int, th: int, gw: int, gh: int, r: nat, c: nat)
    requires r < rows && c < cols
    ensures |Rows(rows, cols, tw, th, gw, gh)| == rows * cols
    ensures r * cols + c < rows * cols
    ensures Rows(rows, cols, tw, th, gw, gh)[r * cols + c] == TileAt(r, c, tw, th, gw, gh)
  {
    RowsLength(rows, cols, tw, th, gw, gh);
    RowsLength(rows - 1, cols, tw, th, gw, gh);
    IndexBound(r, c, rows, cols);
    var prefix := Rows(rows - 1, cols, tw, th, gw, gh);
    var last := Row(rows - 1, cols, tw, th, gw, gh);
    assert Rows(rows, cols, tw, th, gw, gh) == prefix + last;
    if r < rows - 1 {
      RowsIndex(rows - 1, cols, tw, th, gw, gh, r, c);
    } else {
      RowIndex(r, cols, tw, th, gw, gh, c);
      assert r * cols + c == |prefix| + c;
    }
  }

  lemma {:induction false} IndexBound(r: nat, c: nat, rows: nat, cols: nat)
    requires r < rows && c < cols
    ensures r * cols + c < rows * cols
  {
    var k := rows - r;
    assert rows * cols == r * cols + k * cols;
    MulAtLeast(k, cols);
  }

  lemma {:induction false} RowsLength(rows: nat, cols: nat, tw: int, th: int, gw: int, gh: int)
    ensures |Rows(rows, cols, tw, th, gw, gh)| == rows * cols
  {
    if rows > 0 {
      RowsLength(rows - 1, cols, tw, th, gw, gh);
    }
  }

  /** Colours alternate along a row and down a column, whatever the
      column count. */
  lemma {:induction false} Alternates(r: int, c: int, tw: int, th: int, gw: int, gh: int)
    ensures TileAt(r, c, tw, th, gw, gh).color != TileAt(r, c + 1, tw, th, gw, gh).color
    ensures TileAt(r, c, tw, th, gw, gh).color != TileAt(r + 1, c, tw, th, gw, gh).color
  {
    assert (r + c + 1) % 2 != (r + c) % 2;
  }

  /** tilegen.go drawTile: a `toggle` flipped after every tile, and once
      more after a row of even length. */
  method DrawTile(tileWidth: int, tileHeight: int, tileRow: int, tileColumn: int,
                  globalWidth: int, globalHeight: int) returns (fills: seq<Fill>)
    ensures tileRow >= 0 && tileColumn >= 0 ==>
      fills == Rows(tileRow, tileColumn, tileWidth, tileHeight, globalWidth, globalHeight)
    ensures tileRow <= 0 || tileColumn <= 0 ==> fills == []
  {
    fills := [];
    var toggle := false;
    var r := 0;
    while r < tileRow
      invariant 0 <= r <= if tileRow < 0 then 0 else tileRow
      invariant tileColumn >= 0 ==> fills == Rows(r, tileColumn, tileWidth, tileHeight, globalWidth, globalHeight)
      invariant tileColumn <= 0 ==> fills == []
      invariant tileColumn >= 0 ==> toggle == (r % 2 == 1)
    {
      var row;
      row, toggle := DrawRow(r, tileWidth, tileHeight, tileColumn, globalWidth, globalHeight, toggle);
      fills := fills + row;
      if Rem(tileColumn, 2) == 0 {
        toggle := !toggle;
      }
      RemTwoEven(tileColumn);
      NextRowParity(r, tileColumn);
      r := r + 1;
    }
  }

  /** After a row the toggle has flipped once per tile; flipping once more
      for an even row length starts the next row on the opposite colour. */
  lemma {:induction false} NextRowParity(r: int, cols: int)
    ensures ((r + cols) % 2 == 1) != (cols % 2 == 0) <==> (r + 1) % 2 == 1
  {
    var q, k := r / 2, cols / 2;
    assert r == 2 * q + r % 2 && cols == 2 * k + cols % 2;
    assert r + cols == 2 * (q + k) + r % 2 + cols % 2;
    if r % 2 + cols % 2 < 2 {
      DivModUnique(r + cols, q + k, r % 2 + cols % 2, 2);
    } else {
      DivModUnique(r + cols, q + k + 1, 0, 2);
    }
    DivModUnique(r + 1, if r % 2 == 0 then q else q + 1, if r % 2 == 0 then 1 else 0, 2);
  }

  lemma {:induction false} ParityStep(n: int)
    ensures ((n + 1) % 2 == 1) == !(n % 2 == 1)
  {
  }

  /** The inner loop of drawTile: one row of tiles, the colour taken from
      `toggle`, which flips after each tile. */
  method DrawRow(r: int, tileWidth: int, tileHeight: int, tileColumn: int,
                 globalWidth: int, globalHeight: int, toggle0: bool) returns (row: seq<Fill>, toggle: bool)
    ensures tileColumn <= 0 ==> row == [] && toggle == toggle0
    ensures tileColumn >= 0 && toggle0 == (r % 2 == 1) ==>
      row == Row(r, tileColumn, tileWidth, tileHeight, globalWidth, globalHeight)
      && toggle == ((r + tileColumn) % 2 == 1)
  {
    row, toggle := [], toggle0;
    var c := 0;
    while c < tileColumn
      invariant 0 <= c && (tileColumn >= 0 ==> c <= tileColumn)
      invariant tileColumn <= 0 ==> row == [] && toggle == toggle0
      invariant toggle0 == (r % 2 == 1) ==>
        row == Row(r, c, tileWidth, tileHeight, globalWidth, globalHeight) && toggle == ((r + c) % 2 == 1)
    {
      var color := if toggle then TileColor1 else TileColor2;
      var x := c * tileWidth;
      var y := r * tileHeight;
      row := row + [Fill(Rect(x, y, x + globalWidth, y + globalHeight), color)];
      toggle := !toggle;
      ParityStep(r + c);
      c := c + 1;
    }
  }
}
