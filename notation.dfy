/** Screen geometry and square naming: the pixel-to-cell mapping of `GetMove`, the
    square names that `TryMove` builds and the decoding of a UCI move string back into
    screen cells that `DrawBoard` does for the last-move highlight. */
module Notation {

  /** Side of one square in pixels (`UNIT`). */
  const Unit: int := 104

  /** Width and height of the window and of the board image (`104 * 8`). */
  const BoardPixels: int := 8 * Unit

  /** A screen-grid cell: column from the left, row from the top; (0,0) is the upper left. */
  datatype Cell = Cell(col: int, row: int)

  predicate OnBoard(c: Cell) {
    0 <= c.col < 8 && 0 <= c.row < 8
  }

  predicate InWindow(px: int, py: int) {
    0 <= px < BoardPixels && 0 <= py < BoardPixels
  }

  /** The cell seen from the other side of the board. */
  function Mirror(c: Cell): Cell {
    Cell(7 - c.col, 7 - c.row)
  }

  /** Upper-left pixel of a cell, where a sprite for that cell is blitted (`x*UNIT, y*UNIT`). */
  function PixelOf(c: Cell): (int, int) {
    (c.col * Unit, c.row * Unit)
  }

  /** `int(p / UNIT)`: Python's int() truncates the quotient toward zero. */
  function CellIndex(p: int): (i: int)
    ensures 0 <= p ==> 0 <= i && i * Unit <= p < i * Unit + Unit
    ensures p < 0 ==> i <= 0 && i * Unit - Unit < p <= i * Unit
  {
    if p >= 0 then p / Unit else -((-p) / Unit)
  }

  /** Pointer position to grid cell. No clamping: only positions inside the window give
      cells on the board. */
  function GetMove(px: int, py: int): (c: Cell)
    ensures InWindow(px, py) ==> OnBoard(c) && c == Cell(px / Unit, py / Unit)
  {
    Cell(CellIndex(px), CellIndex(py))
  }

  /** Every pixel of a square maps back to that square, in particular the corner where
      its sprite is drawn. */
  lemma GetMoveInvertsPixelOf(c: Cell, dx: int, dy: int)
    requires OnBoard(c) && 0 <= dx < Unit && 0 <= dy < Unit
    ensures InWindow(PixelOf(c).0 + dx, PixelOf(c).1 + dy)
    ensures GetMove(PixelOf(c).0 + dx, PixelOf(c).1 + dy) == c
  {
  }

  /** The character of a decimal digit 0..9 (`str` of a one-digit number). */
  function Digit(n: int): (ch: char)
    requires 0 <= n <= 9
    ensures '0' <= ch <= '9' && ch as int - '0' as int == n
  {
    (48 + n) as char
  }

  predicate IsFile(ch: char) {
    'a' <= ch <= 'h'
  }

  predicate IsRank(ch: char) {
    '1' <= ch <= '8'
  }

  /** A four-character UCI move without promotion: file, rank, file, rank. */
  predicate IsUci(s: string) {
    |s| == 4 && IsFile(s[0]) && IsRank(s[1]) && IsFile(s[2]) && IsRank(s[3])
  }

  /** File letter of a screen column: `chr(97+col)`, or `chr(104-col)` on a flipped board.
      Files run a..h from the left, or h..a when flipped. */
  function FileChar(col: int, flip: bool): (f: char)
    requires 0 <= col < 8
    ensures IsFile(f)
    ensures f as int - 'a' as int == if flip then 7 - col else col
  {
    if flip then (104 - col) as char else (97 + col) as char
  }

  /** Rank digit of a screen row: `str(8-row)`, or `str(1+row)` on a flipped board.
      Ranks run 8..1 from the top, or 1..8 when flipped. */
  function RankChar(row: int, flip: bool): (r: char)
    requires 0 <= row < 8
    ensures IsRank(r)
    ensures r as int - '1' as int == if flip then row else 7 - row
  {
    if flip then Digit(1 + row) else Digit(8 - row)
  }

  /** Name of the square shown at a cell, e.g. "e2". */
  function SquareName(c: Cell, flip: bool): (name: string)
    requires OnBoard(c)
    ensures |name| == 2 && IsFile(name[0]) && IsRank(name[1])
  {
    [FileChar(c.col, flip), RankChar(c.row, flip)]
  }

  /** The move string `TryMove` hands to the chess library. */
  function MoveUci(origin: Cell, dest: Cell, flip: bool): (uci: string)
    requires OnBoard(origin) && OnBoard(dest)
    ensures IsUci(uci)
    ensures uci[..2] == SquareName(origin, flip) && uci[2..] == SquareName(dest, flip)
  {
    SquareName(origin, flip) + SquareName(dest, flip)
  }

  /** `x = ord(f)-97`, `y = 8-int(r)`, each mirrored (`7-x`, `7-y`) when flipped. */
  function DecodeSquare(f: char, r: char, flip: bool): (c: Cell)
    requires IsFile(f) && IsRank(r)
    ensures OnBoard(c)
  {
    var x := f as int - 97;
    var y := 8 - (r as int - '0' as int);
    if flip then Cell(7 - x, 7 - y) else Cell(x, y)
  }

  /** The origin and destination cells of a move string, as the highlight draws them. */
  function DecodeUci(uci: string, flip: bool): (cells: (Cell, Cell))
    requires IsUci(uci)
    ensures OnBoard(cells.0) && OnBoard(cells.1)
  {
    (DecodeSquare(uci[0], uci[1], flip), DecodeSquare(uci[2], uci[3], flip))
  }

  /** The flipped name of a cell is the normal name of its mirror cell. */
  lemma FlippedNameIsMirrored(c: Cell)
    requires OnBoard(c)
    ensures OnBoard(Mirror(c)) && SquareName(c, true) == SquareName(Mirror(c), false)
  {
  }

  /** Decoding a move string built from two cells gives back those cells, in either
      orientation, as long as encoding and decoding use the same one. */
  lemma DecodeEncode(origin: Cell, dest: Cell, flip: bool)
    requires OnBoard(origin) && OnBoard(dest)
    ensures DecodeUci(MoveUci(origin, dest, flip), flip) == (origin, dest)
  {
  }

  /** Every four-character move string is the encoding of the cells it decodes to. */
  lemma EncodeDecode(uci: string, flip: bool)
    requires IsUci(uci)
    ensures MoveUci(DecodeUci(uci, flip).0, DecodeUci(uci, flip).1, flip) == uci
  {
    var (o, d) := DecodeUci(uci, flip);
    assert SquareName(o, flip) == uci[..2];
    assert SquareName(d, flip) == uci[2..];
    assert uci == uci[..2] + uci[2..];
  }
}
