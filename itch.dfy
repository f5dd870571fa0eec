/** The itch.io mock-up tool (itch.go): a board whose tiles are drawn or
    hidden with the mouse, each carrying a tile type and a number, and a
    text dump of a boolean board. */
module Itch {
  import GoInt

  newtype byte = b: int | 0 <= b < 256

  const Newline: byte := 10

  // ---------------------------------------------------------------
  // DumpBoolBoard
  // ---------------------------------------------------------------

  /** The buffer offset at which row `y` starts, each row being `w` cells
      and a newline. */
  function RowStart(y: nat, w: nat): nat
  {
    if y == 0 then 0 else RowStart(y - 1, w) + w + 1
  }

  lemma {:induction false} RowStartIsProduct(y: nat, w: nat)
    ensures RowStart(y, w) == y * (w + 1)
  {
    if y > 0 {
      RowStartIsProduct(y - 1, w);
      assert y * (w + 1) == (y - 1) * (w + 1) + w + 1;
    }
  }

  lemma {:induction false} RowStartGrows(y1: nat, y2: nat, w: nat)
    requires y1 < y2
    ensures RowStart(y1, w) + w + 1 <= RowStart(y2, w)
  {
    if y1 + 1 < y2 {
      RowStartGrows(y1, y2 - 1, w);
    }
  }

  /** The offset of column `x` of row `y`: `x + y * (w + 1)`. */
  function Pos(x: nat, y: nat, w: nat): nat
  {
    RowStart(y, w) + x
  }

  /** Column `w` of row `y` is the byte before row `y + 1` starts. */
  lemma {:induction false} NewlinePos(y: nat, w: nat)
    ensures Pos(w, y, w) == (y + 1) * (w + 1) - 1
  {
    RowStartIsProduct(y + 1, w);
  }

  lemma {:induction false} PosBound(x: nat, y: nat, w: nat, h: nat)
    requires x <= w && y < h
    ensures Pos(x, y, w) < (w + 1) * h
  {
    RowStartGrows(y, h, w);
    RowStartIsProduct(h, w);
  }

  /** Distinct cells of the layout have distinct offsets. */
  lemma {:induction false} PosInjective(x1: nat, y1: nat, x2: nat, y2: nat, w: nat)
    requires x1 <= w && x2 <= w && (x1, y1) != (x2, y2)
    ensures Pos(x1, y1, w) != Pos(x2, y2, w)
  {
    if y1 < y2 {
      RowStartGrows(y1, y2, w);
    } else if y2 < y1 {
      RowStartGrows(y2, y1, w);
    }
  }

  function CellByte(v: bool, trueChar: byte, falseChar: byte): byte
  {
    if v then trueChar else falseChar
  }

  /** The layout DumpBoolBoard writes: `h` rows of `w` bytes, each row
      followed by a newline; cell (x, y) is `trueChar` when set and
      `falseChar` otherwise. */
  ghost predicate Dumped(text: seq<byte>, board: array2<bool>, trueChar: byte, falseChar: byte)
    reads board
  {
    var w, h := board.Length0, board.Length1;
    && |text| == (w + 1) * h
    && (forall y: nat :: y < h ==> Pos(w, y, w) < |text| && text[Pos(w, y, w)] == Newline)
    && (forall x: nat, y: nat :: x < w && y < h ==>
          Pos(x, y, w) < |text| && text[Pos(x, y, w)] == CellByte(board[x, y], trueChar, falseChar))
  }

  /** DumpBoolBoard, returning the text it prints. */
  method DumpBoolBoard(board: array2<bool>, trueChar: byte, falseChar: byte) returns (text: seq<byte>)
    ensures Dumped(text, board, trueChar, falseChar)
  {
    var w, h := board.Length0, board.Length1;
    var buf := new byte[(w + 1) * h](_ => 0);
    var y := 0;
    while y < h
      invariant 0 <= y <= h
      invariant forall y': nat :: y' < y ==> Pos(w, y', w) < buf.Length && buf[Pos(w, y', w)] == Newline
    {
      PosBound(w, y, w, h);
      NewlinePos(y, w);
      buf[(y + 1) * (w + 1) - 1] := Newline;
      y := y + 1;
    }
    var x := 0;
    while x < w
      invariant 0 <= x <= w
      invariant forall y': nat :: y' < h ==> Pos(w, y', w) < buf.Length && buf[Pos(w, y', w)] == Newline
      invariant forall x': nat, y': nat :: x' < x && y' < h ==>
        Pos(x', y', w) < buf.Length && buf[Pos(x', y', w)] == CellByte(board[x', y'], trueChar, falseChar)
    {
      WriteColumn(board, buf, x, trueChar, falseChar);
      x := x + 1;
    }
    text := buf[..];
  }

  /** The inner loop of DumpBoolBoard: column `x` of every row; no other
      byte changes. */
  method WriteColumn(board: array2<bool>, buf: array<byte>, x: nat, trueChar: byte, falseChar: byte)
    requires x < board.Length0 && buf.Length == (board.Length0 + 1) * board.Length1
    modifies buf
    ensures forall x': nat, y': nat :: x' <= board.Length0 && y' < board.Length1 ==>
      Pos(x', y', board.Length0) < buf.Length
      && buf[Pos(x', y', board.Length0)] ==
           if x' == x then CellByte(board[x', y'], trueChar, falseChar) else old(buf[Pos(x', y', board.Length0)])
  {
    var w, h := board.Length0, board.Length1;
    forall x': nat, y': nat | x' <= w && y' < h
      ensures Pos(x', y', w) < buf.Length
    {
      PosBound(x', y', w, h);
    }
    var y := 0;
    while y < h
      invariant 0 <= y <= h
      invariant forall x': nat, y': nat :: x' <= w && y' < h ==>
        Pos(x', y', w) < buf.Length
        && buf[Pos(x', y', w)] == if x' == x && y' < y then CellByte(board[x', y'], trueChar, falseChar) else old(buf[Pos(x', y', w)])
    {
      WriteCell(board, buf, x, y, trueChar, falseChar);
      y := y + 1;
    }
  }

  /** One write of the inner loop: the byte of cell (x, y), and only that. */
  method WriteCell(board: array2<bool>, buf: array<byte>, x: nat, y: nat, trueChar: byte, falseChar: byte)
    requires x < board.Length0 && y < board.Length1 && buf.Length == (board.Length0 + 1) * board.Length1
    modifies buf
    ensures forall x': nat, y': nat :: x' <= board.Length0 && y' < board.Length1 ==>
      Pos(x', y', board.Length0) < buf.Length
      && buf[Pos(x', y', board.Length0)] ==
           if (x', y') == (x, y) then CellByte(board[x, y], trueChar, falseChar) else old(buf[Pos(x', y', board.Length0)])
  {
    var w, h := board.Length0, board.Length1;
    forall x': nat, y': nat | x' <= w && y' < h
      ensures Pos(x', y', w) < buf.Length
      ensures (x', y') != (x, y) ==> Pos(x', y', w) != Pos(x, y, w)
    {
      PosBound(x', y', w, h);
      if (x', y') != (x, y) {
        PosInjective(x', y', x, y, w);
      }
    }
    buf[Pos(x, y, w)] := CellByte(board[x, y], trueChar, falseChar);
  }

  /** Row `y` of the board as a line of text. */
  function Row(board: array2<bool>, y: nat, trueChar: byte, falseChar: byte): (line: seq<byte>)
    reads board
    requires y < board.Length1
    ensures |line| == board.Length0 + 1
  {
    seq(board.Length0 + 1, x requires 0 <= x <= board.Length0 reads board =>
      if x == board.Length0 then Newline else CellByte(board[x, y], trueChar, falseChar))
  }

  /** The dumped text cut after every newline gives the rows: the y-th run
      of `w + 1` bytes is row y. */
  lemma {:induction false} DumpRows(board: array2<bool>, text: seq<byte>, trueChar: byte, falseChar: byte, y: nat)
    requires Dumped(text, board, trueChar, falseChar) && y < board.Length1
    ensures var w := board.Length0;
      Pos(w, y, w) < |text| && text[RowStart(y, w)..Pos(w, y, w) + 1] == Row(board, y, trueChar, falseChar)
  {
    var w := board.Length0;
    var line := text[RowStart(y, w)..Pos(w, y, w) + 1];
    forall x | 0 <= x <= w
      ensures line[x] == Row(board, y, trueChar, falseChar)[x]
    {
      assert line[x] == text[Pos(x, y, w)];
    }
  }

  // ---------------------------------------------------------------
  // Editing the mock-up board
  // ---------------------------------------------------------------

  /** TileType: Revealed, Bg, FlagNoBg, Flag, Bomb. */
  const TileTypeRevealed := 0
  const TileTypeSize := 5

  datatype MouseMode = MouseModeNone | MouseModeShow | MouseModeHide

  /** A middle click steps the tile type, wrapping past the last one. */
  function NextTileType(t: int): (r: int)
    ensures 0 <= t < TileTypeSize ==> 0 <= r < TileTypeSize
    ensures t + 1 < TileTypeSize ==> r == t + 1
  {
    if t + 1 >= TileTypeSize then 0 else t + 1
  }

  /** A right click steps the number through 0 to 8. */
  function NextNumber(n: int): (r: int)
    ensures 0 <= n < 9 ==> 0 <= r < 9
    ensures n + 1 < 9 ==> r == n + 1
  {
    if n + 1 >= 9 then 0 else n + 1
  }

  function Iterate(f: int -> int, k: nat, t: int): int
  {
    if k == 0 then t else Iterate(f, k - 1, f(t))
  }

  /** Every tile type comes back after TileTypeSize middle clicks, and not
      before. */
  lemma {:induction false} TileTypeCycle(t: int)
    requires 0 <= t < TileTypeSize
    ensures Iterate(NextTileType, TileTypeSize, t) == t
    ensures forall k :: 0 < k < TileTypeSize ==> Iterate(NextTileType, k, t) != t
  {
    forall k: nat | k <= TileTypeSize
      ensures Iterate(NextTileType, k, t) == (t + k) % TileTypeSize
    {
      IterateTileType(k, t);
    }
  }

  lemma {:induction false} IterateTileType(k: nat, t: int)
    requires 0 <= t < TileTypeSize
    ensures Iterate(NextTileType, k, t) == (t + k) % TileTypeSize
  {
    if k > 0 {
      IterateTileType(k - 1, NextTileType(t));
    }
  }

  /** A left press with no mode set picks Hide on a drawn tile and Show
      on a hidden one. */
  function SelectMode(mode: MouseMode, draw: bool, leftJustPressed: bool): MouseMode
  {
    if leftJustPressed && mode == MouseModeNone then (if draw then MouseModeHide else MouseModeShow) else mode
  }

  /** While the left button is held, Show draws a hidden cell (as a
      Revealed tile with number 0) and Hide hides the cell; releasing the
      button clears the mode. */
  function Paint(mode: MouseMode, draw: bool, tileType: int, number: int, leftPressed: bool)
    : (MouseMode, bool, int, int)
  {
    if !leftPressed then (MouseModeNone, draw, tileType, number)
    else if mode == MouseModeShow && !draw then (mode, true, TileTypeRevealed, 0)
    else if mode == MouseModeHide then (mode, false, tileType, number)
    else (mode, draw, tileType, number)
  }

  /** On a drawn cell a middle press steps the tile type, clearing the
      number unless the type wraps to Revealed, and then a right press
      steps the number. */
  function Cycle(draw: bool, tileType: int, number: int, middleJustPressed: bool, rightJustPressed: bool)
    : (int, int)
  {
    var t := if draw && middleJustPressed then NextTileType(tileType) else tileType;
    var n := if draw && middleJustPressed && t != TileTypeRevealed then 0 else number;
    (t, if draw && rightJustPressed then NextNumber(n) else n)
  }

  /** What one frame does to the mode and to the cell under the cursor. */
  function CellStep(mode: MouseMode, draw: bool, tileType: int, number: int,
                    leftJustPressed: bool, leftPressed: bool, middleJustPressed: bool, rightJustPressed: bool)
    : (r: (MouseMode, bool, int, int))
    ensures !leftPressed ==> r.0 == MouseModeNone
    ensures leftPressed && mode == MouseModeNone && leftJustPressed ==> r.0 == (if draw then MouseModeHide else MouseModeShow)
    ensures leftPressed && r.0 == MouseModeShow ==> r.1
    ensures leftPressed && r.0 == MouseModeHide ==> !r.1
    ensures !r.1 ==> r.2 == tileType && r.3 == number
    ensures !draw && r.1 && !middleJustPressed && !rightJustPressed ==> r.2 == TileTypeRevealed && r.3 == 0
    ensures 0 <= tileType < TileTypeSize && 0 <= number < 9 ==> 0 <= r.2 < TileTypeSize && 0 <= r.3 < 9
  {
    var p := Paint(SelectMode(mode, draw, leftJustPressed), draw, tileType, number, leftPressed);
    var c := Cycle(p.1, p.2, p.3, middleJustPressed, rightJustPressed);
    (p.0, p.1, c.0, c.1)
  }

  class MockupBoard {
    var BoardWidth: int
    var BoardHeight: int
    var DrawTile: array2<bool>
    var TileTypes: array2<int>
    var TileNumbers: array2<int>
    var MouseMode: MouseMode

    predicate Valid()
      reads this
    {
      && DrawTile.Length0 == TileTypes.Length0 == TileNumbers.Length0 == BoardWidth
      && DrawTile.Length1 == TileTypes.Length1 == TileNumbers.Length1 == BoardHeight
      && TileTypes != TileNumbers
    }

    predicate InBoard(x: int, y: int)
      reads this
    {
      0 <= x < BoardWidth && 0 <= y < BoardHeight
    }

    /** The cells other than (x, y) are as they were. */
    twostate predicate OthersUnchanged(x: int, y: int)
      reads this, DrawTile, TileTypes, TileNumbers
      requires Valid() && old(Valid()) && DrawTile == old(DrawTile) && TileTypes == old(TileTypes)
      requires TileNumbers == old(TileNumbers) && BoardWidth == old(BoardWidth) && BoardHeight == old(BoardHeight)
    {
      forall x', y' :: InBoard(x', y') && (x', y') != (x, y) ==>
        DrawTile[x', y'] == old(DrawTile[x', y']) && TileTypes[x', y'] == old(TileTypes[x', y'])
        && TileNumbers[x', y'] == old(TileNumbers[x', y'])
    }

    /** The part of Update driven by the cursor's board cell: outside the
        board nothing changes; inside, the mode and that one cell follow
        CellStep and every other cell is left alone. */
    method UpdateAt(boardX: int, boardY: int,
                    leftJustPressed: bool, leftPressed: bool, middleJustPressed: bool, rightJustPressed: bool)
      requires Valid()
      modifies this`MouseMode, DrawTile, TileTypes, TileNumbers
      ensures Valid() && OthersUnchanged(boardX, boardY)
      ensures !InBoard(boardX, boardY) ==> MouseMode == old(MouseMode)
      ensures InBoard(boardX, boardY) ==>
        (MouseMode, DrawTile[boardX, boardY], TileTypes[boardX, boardY], TileNumbers[boardX, boardY])
        == CellStep(old(MouseMode), old(DrawTile[boardX, boardY]), old(TileTypes[boardX, boardY]),
                    old(TileNumbers[boardX, boardY]), leftJustPressed, leftPressed, middleJustPressed, rightJustPressed)
    {
      if InBoard(boardX, boardY) {
        if leftJustPressed && MouseMode == MouseModeNone {
          if DrawTile[boardX, boardY] {
            MouseMode := MouseModeHide;
          } else {
            MouseMode := MouseModeShow;
          }
        }
        PaintAt(boardX, boardY, leftPressed);
        CycleAt(boardX, boardY, middleJustPressed, rightJustPressed);
      }
    }

    method PaintAt(boardX: int, boardY: int, leftPressed: bool)
      requires Valid() && InBoard(boardX, boardY)
      modifies this`MouseMode, DrawTile, TileTypes, TileNumbers
      ensures Valid() && OthersUnchanged(boardX, boardY)
      ensures (MouseMode, DrawTile[boardX, boardY], TileTypes[boardX, boardY], TileNumbers[boardX, boardY])
        == Paint(old(MouseMode), old(DrawTile[boardX, boardY]), old(TileTypes[boardX, boardY]),
                 old(TileNumbers[boardX, boardY]), leftPressed)
    {
      if leftPressed {
        if MouseMode == MouseModeShow {
          if !DrawTile[boardX, boardY] {
            DrawTile[boardX, boardY] := true;
            TileTypes[boardX, boardY] := TileTypeRevealed;
            TileNumbers[boardX, boardY] := 0;
          }
        } else if MouseMode == MouseModeHide {
          DrawTile[boardX, boardY] := false;
        }
      } else {
        MouseMode := MouseModeNone;
      }
    }

    method CycleAt(boardX: int, boardY: int, middleJustPressed: bool, rightJustPressed: bool)
      requires Valid() && InBoard(boardX, boardY)
      modifies TileTypes, TileNumbers
      ensures OthersUnchanged(boardX, boardY)
      ensures (TileTypes[boardX, boardY], TileNumbers[boardX, boardY])
        == Cycle(DrawTile[boardX, boardY], old(TileTypes[boardX, boardY]), old(TileNumbers[boardX, boardY]),
                 middleJustPressed, rightJustPressed)
    {
      if DrawTile[boardX, boardY] {
        if middleJustPressed {
          var tileType := NextTileType(TileTypes[boardX, boardY]);
          if tileType != TileTypeRevealed {
            TileNumbers[boardX, boardY] := 0;
          }
          TileTypes[boardX, boardY] := tileType;
        }
        if rightJustPressed {
          TileNumbers[boardX, boardY] := NextNumber(TileNumbers[boardX, boardY]);
        }
      }
    }
  }
}
