/** `DrawBoard` as the list of drawing operations it performs on the window, in order:
    clear, board image, last-move highlight, edge labels, pieces, dragged piece. */
module Render {
  import opened Optional
  import opened Notation
  import opened Placement
  import opened Oracle

  /** One drawing operation on the window. */
  datatype Draw =
    | Clear                                   // `WIN.fill(WHITE)`
    | Blit(asset: string, x: int, y: int)     // an image of `ASSETS` at a pixel position
    | Label(text: string, x: int, y: int)     // rendered notation text at a pixel position

  /** The label under column `col`: its file letter. */
  function FileLabel(col: int, flip: bool): Draw
    requires 0 <= col < 8
  {
    Label([FileChar(col, flip)], (col + 1) * Unit - 10, Unit * 8 - 15)
  }

  /** The label beside row `row`: its rank digit. */
  function RankLabel(row: int, flip: bool): Draw
    requires 0 <= row < 8
  {
    Label([RankChar(row, flip)], 5, row * Unit + 5)
  }

  /** The file letters along the bottom edge. Each names the column it is drawn in, the way
      the squares of that column are named, so the labels agree with the moves built from
      pointer positions. */
  function BottomLabels(flip: bool): (labels: seq<Draw>)
    ensures |labels| == 8
    ensures forall c :: 0 <= c < 8 ==>
      labels[c].Label? && InWindow(labels[c].x, labels[c].y) && GetMove(labels[c].x, labels[c].y).col == c &&
      forall r :: 0 <= r < 8 ==> labels[c].text == SquareName(Cell(c, r), flip)[..1]
  {
    seq(8, c requires 0 <= c < 8 => FileLabel(c, flip))
  }

  /** The rank digits down the left edge. Each names the row it is drawn in, the way the
      squares of that row are named. */
  function SideLabels(flip: bool): (labels: seq<Draw>)
    ensures |labels| == 8
    ensures forall r :: 0 <= r < 8 ==>
      labels[r].Label? && InWindow(labels[r].x, labels[r].y) && GetMove(labels[r].x, labels[r].y).row == r &&
      forall c :: 0 <= c < 8 ==> labels[r].text == SquareName(Cell(c, r), flip)[1..]
  {
    seq(8, r requires 0 <= r < 8 => RankLabel(r, flip))
  }

  function EdgeLabels(flip: bool): seq<Draw> {
    BottomLabels(flip) + SideLabels(flip)
  }

  /** The two label loops of `DrawBoard`: letters `chr(i)` for i over 97..104 (104..97 when
      flipped), then digits `str(i)` for i over 8..1 (1..8 when flipped), with a counter
      giving the position. */
  method DrawEdgeLabels(flip: bool) returns (labels: seq<Draw>)
    ensures labels == EdgeLabels(flip)
  {
    labels := [];
    var i, step := if flip then 104 else 97, if flip then -1 else 1;
    var counter := 0;
    while counter < 8
      invariant 0 <= counter <= 8 && i == (if flip then 104 else 97) + step * counter
      invariant labels == BottomLabels(flip)[..counter]
    {
      labels := labels + [Label([i as char], (counter + 1) * Unit - 10, Unit * 8 - 15)];
      i, counter := i + step, counter + 1;
    }
    assert labels == BottomLabels(flip);
    i, step := if flip then 1 else 8, if flip then 1 else -1;
    counter := 0;
    while counter < 8
      invariant 0 <= counter <= 8 && i == (if flip then 1 else 8) + step * counter
      invariant labels == BottomLabels(flip) + SideLabels(flip)[..counter]
    {
      labels := labels + [Label([Digit(i)], 5, counter * Unit + 5)];
      i, counter := i + step, counter + 1;
    }
    assert SideLabels(flip)[..8] == SideLabels(flip);
  }

  /** The cells of the last move played (`board.move_stack[-1].uci()` decoded), if any. */
  function LastMoveCells(history: seq<string>, flip: bool): (cells: Option<(Cell, Cell)>)
    requires forall i :: 0 <= i < |history| ==> IsUci(history[i])
    ensures cells.None? <==> history == []
    ensures cells.Some? ==>
      OnBoard(cells.value.0) && OnBoard(cells.value.1) &&
      MoveUci(cells.value.0, cells.value.1, flip) == history[|history| - 1]
  {
    if history == [] then None
    else
      var last := history[|history| - 1];
      EncodeDecode(last, flip);
      Some(DecodeUci(last, flip))
  }

  /** The highlight over both cells of the last move, in either orientation: the corrected
      form of the program's highlight. */
  function Highlight(history: seq<string>, flip: bool): (draws: seq<Draw>)
    requires forall i :: 0 <= i < |history| ==> IsUci(history[i])
    ensures |draws| == if history == [] then 0 else 2
  {
    match LastMoveCells(history, flip)
    case None => []
    case Some((a, b)) => [Blit("highlight", PixelOf(a).0, PixelOf(a).1), Blit("highlight", PixelOf(b).0, PixelOf(b).1)]
  }

  /** Nothing is highlighted before the first move; afterwards the two cells whose move
      string is the last one played. */
  lemma HighlightCoversLastMove(history: seq<string>, flip: bool)
    requires forall i :: 0 <= i < |history| ==> IsUci(history[i])
    ensures Highlight(history, flip) == [] <==> history == []
    ensures history != [] ==> exists o, d :: (OnBoard(o) && OnBoard(d) &&
      MoveUci(o, d, flip) == history[|history| - 1] &&
      Highlight(history, flip) == [Blit("highlight", o.col * Unit, o.row * Unit), Blit("highlight", d.col * Unit, d.row * Unit)])
  {
    if history != [] {
      var (o, d) := LastMoveCells(history, flip).value;
      assert MoveUci(o, d, flip) == history[|history| - 1];
    }
  }

  /** The highlight's two sprites, read back as squares the way pointer positions are,
      spell the last move played: clicking them replays it. */
  lemma HighlightReadsBack(history: seq<string>, flip: bool)
    requires forall i :: 0 <= i < |history| ==> IsUci(history[i])
    ensures var draws := Highlight(history, flip);
      draws != [] ==>
        |draws| == 2 && draws[0].Blit? && draws[1].Blit? &&
        draws[0].asset == "highlight" && draws[1].asset == "highlight" &&
        InWindow(draws[0].x, draws[0].y) && InWindow(draws[1].x, draws[1].y) &&
        MoveUci(GetMove(draws[0].x, draws[0].y), GetMove(draws[1].x, draws[1].y), flip) == history[|history| - 1]
  {
    if history != [] {
      var (a, b) := LastMoveCells(history, flip).value;
      GetMoveInvertsPixelOf(a, 0, 0);
      GetMoveInvertsPixelOf(b, 0, 0);
    }
  }

  /** The highlight as the program draws it: the two blits sit inside `if flip:`, so a board
      in normal orientation never shows it. */
  function HighlightAsWritten(history: seq<string>, flip: bool): (draws: seq<Draw>)
    requires forall i :: 0 <= i < |history| ==> IsUci(history[i])
    ensures !flip ==> draws == []
    ensures flip ==> draws == Highlight(history, flip)
  {
    if flip then Highlight(history, flip) else []
  }

  /** After e2e4 on a board in normal orientation the program draws no highlight, although
      the move's cells are (4,6) and (4,4). */
  lemma NormalBoardLosesHighlight()
    ensures IsUci("e2e4")
    ensures HighlightAsWritten(["e2e4"], false) == []
    ensures Highlight(["e2e4"], false) == [Blit("highlight", 416, 624), Blit("highlight", 416, 416)]
  {
    assert LastMoveCells(["e2e4"], false) == Some((Cell(4, 6), Cell(4, 4)));
  }

  /** The highlight covers exactly the two cells whose move `TryMove` built last, in the
      same orientation. */
  lemma HighlightShowsLastMove(history: seq<string>, origin: Cell, dest: Cell, flip: bool)
    requires forall i :: 0 <= i < |history| ==> IsUci(history[i])
    requires OnBoard(origin) && OnBoard(dest)
    requires history != [] && history[|history| - 1] == MoveUci(origin, dest, flip)
    ensures Highlight(history, flip) ==
      [Blit("highlight", origin.col * Unit, origin.row * Unit), Blit("highlight", dest.col * Unit, dest.row * Unit)]
  {
    DecodeEncode(origin, dest, flip);
  }

  /** A piece sprite at its cell. */
  function PieceBlits(ps: seq<Piece>): (draws: seq<Draw>)
    ensures |draws| == |ps|
  {
    seq(|ps|, i requires 0 <= i < |ps| => Blit([ps[i].letter], PixelOf(ps[i].at).0, PixelOf(ps[i].at).1))
  }

  /** The dragged piece's sprite, centred on the pointer (`UNIT/2` is 52 exactly). */
  function DraggedBlit(dragged: Option<char>, pointer: (int, int)): (draws: seq<Draw>)
    ensures |draws| == if dragged.Some? then 1 else 0
    ensures dragged.Some? ==>
      draws[0].Blit? && draws[0].asset == [dragged.value] &&
      draws[0].x + Unit / 2 == pointer.0 && draws[0].y + Unit / 2 == pointer.1
  {
    if dragged.Some? then [Blit([dragged.value], pointer.0 - Unit / 2, pointer.1 - Unit / 2)] else []
  }

  /** The rank strings as drawn: those of the placement field, flipped when the board is. */
  function BoardRanks(fen: string, flip: bool): seq<string> {
    if flip then Flip(RankStrings(fen)) else RankStrings(fen)
  }

  /** A frame from its parts, in drawing order. */
  function Compose(highlight: seq<Draw>, labels: seq<Draw>, shown: seq<Piece>, dragged: Option<char>,
                   pointer: (int, int)): seq<Draw>
  {
    [Clear, Blit("board", 0, 0)] + highlight + labels + PieceBlits(shown) + DraggedBlit(dragged, pointer)
  }

  /** The whole frame for a position, orientation, pending move and drag state. It draws
      the corrected highlight, `Highlight`, in either orientation, where the program's own
      blits are `HighlightAsWritten`. */
  function Frame(rules: Rules, history: seq<string>, origin: Option<Cell>, flip: bool, drag: bool,
                 pointer: (int, int)): seq<Draw>
    requires forall i :: 0 <= i < |history| ==> IsUci(history[i])
  {
    var pieces := Decode(BoardRanks(rules.fen(history), flip));
    var hidden := HiddenCell(drag, origin);
    Compose(Highlight(history, flip), EdgeLabels(flip), Visible(pieces, hidden), DraggedPiece(pieces, hidden), pointer)
  }

  /** `DrawBoard`: one frame of the window, with the corrected highlight. */
  method DrawBoard(board: Board, origin: Option<Cell>, flip: bool, drag: bool, pointer: (int, int))
    returns (frame: seq<Draw>)
    requires board.Valid()
    requires drag ==> origin.Some?
    ensures frame == Frame(board.rules, board.history, origin, flip, drag, pointer)
  {
    var ranks := RankStrings(board.rules.fen(board.history));
    if flip {
      ranks := FlipRanks(ranks);
    }
    assert ranks == BoardRanks(board.rules.fen(board.history), flip);
    var highlight := Highlight(board.history, flip);
    var labels := DrawEdgeLabels(flip);
    var shown, dragPiece := PlacePieces(ranks, drag, origin);
    frame := Compose(highlight, labels, shown, if drag then dragPiece else None, pointer);
  }

  /** Where each layer of a composed frame lies. */
  lemma ComposeLayers(highlight: seq<Draw>, labels: seq<Draw>, shown: seq<Piece>, dragged: Option<char>,
                      pointer: (int, int))
    ensures var frame, h, l := Compose(highlight, labels, shown, dragged, pointer), |highlight|, |labels|;
      frame[0] == Clear && frame[1] == Blit("board", 0, 0) &&
      |frame| == 2 + h + l + |shown| + (if dragged.Some? then 1 else 0) &&
      frame[2..2 + h] == highlight &&
      frame[2 + h..2 + h + l] == labels &&
      frame[2 + h + l..2 + h + l + |shown|] == PieceBlits(shown) &&
      (dragged.Some? ==> frame[|frame| - 1] == Blit([dragged.value], pointer.0 - Unit / 2, pointer.1 - Unit / 2))
  {
    var front := [Clear, Blit("board", 0, 0)];
    var blits, tail := PieceBlits(shown), DraggedBlit(dragged, pointer);
    var frame := Compose(highlight, labels, shown, dragged, pointer);
    assert frame == front + highlight + labels + blits + tail;
    var h, l := |highlight|, |labels|;
    assert frame[2..2 + h] == highlight;
    assert frame[2 + h..2 + h + l] == labels;
    assert frame[2 + h + l..2 + h + l + |blits|] == blits;
  }

  /** The layering of a frame: the board underneath everything, then the highlight, the
      sixteen labels and a sprite per piece left in place, and the dragged piece, if the drag
      picked one up, drawn last so that it stays on top, centred on the pointer. */
  lemma FrameLayers(rules: Rules, history: seq<string>, origin: Option<Cell>, flip: bool, drag: bool,
                    pointer: (int, int))
    requires forall i :: 0 <= i < |history| ==> IsUci(history[i])
    ensures var frame := Frame(rules, history, origin, flip, drag, pointer);
      var pieces := Decode(BoardRanks(rules.fen(history), flip));
      var dragged := DraggedPiece(pieces, HiddenCell(drag, origin));
      var h, shown := |Highlight(history, flip)|, Visible(pieces, HiddenCell(drag, origin));
      frame[0] == Clear && frame[1] == Blit("board", 0, 0) &&
      |frame| == 2 + h + 16 + |shown| + (if dragged.Some? then 1 else 0) &&
      frame[2..2 + h] == Highlight(history, flip) &&
      frame[2 + h..18 + h] == EdgeLabels(flip) &&
      frame[18 + h..18 + h + |shown|] == PieceBlits(shown) &&
      (dragged.Some? ==> drag && frame[|frame| - 1] == Blit([dragged.value], pointer.0 - Unit / 2, pointer.1 - Unit / 2))
  {
    var pieces := Decode(BoardRanks(rules.fen(history), flip));
    var hidden := HiddenCell(drag, origin);
    ComposeLayers(Highlight(history, flip), EdgeLabels(flip), Visible(pieces, hidden), DraggedPiece(pieces, hidden), pointer);
  }

  /** What python-chess's `board.fen()` guarantees: in every legal game the placement
      field is eight ranks of digit runs and piece letters, eight squares each. */
  ghost predicate PlacementsWellFormed(rules: Rules) {
    forall h :: LegalGame(rules, h) ==> WellFormed(RankStrings(rules.fen(h)))
  }

  /** A composed frame of pieces on distinct cells of the board, each named by a piece
      letter: every sprite after the labels is a piece image, and those drawn in place sit at
      the corners of distinct squares. */
  lemma ComposePiecesDrawable(highlight: seq<Draw>, labels: seq<Draw>, shown: seq<Piece>, dragged: Option<char>,
                              pointer: (int, int))
    requires forall p :: p in shown ==> OnBoard(p.at) && IsPieceLetter(p.letter)
    requires forall i, j :: 0 <= i < j < |shown| ==> shown[i].at != shown[j].at
    requires dragged.Some? ==> IsPieceLetter(dragged.value)
    ensures var frame, start := Compose(highlight, labels, shown, dragged, pointer), 2 + |highlight| + |labels|;
      (forall i :: start <= i < |frame| ==>
        frame[i].Blit? && |frame[i].asset| == 1 && IsPieceLetter(frame[i].asset[0])) &&
      (forall i :: start <= i < start + |shown| ==>
        0 <= frame[i].x < BoardPixels && 0 <= frame[i].y < BoardPixels &&
        frame[i].x % Unit == 0 && frame[i].y % Unit == 0) &&
      (forall i, j :: start <= i < j < start + |shown| ==> (frame[i].x, frame[i].y) != (frame[j].x, frame[j].y))
  {
    var front := [Clear, Blit("board", 0, 0)] + highlight + labels;
    var blits, tail := PieceBlits(shown), DraggedBlit(dragged, pointer);
    var frame := Compose(highlight, labels, shown, dragged, pointer);
    assert frame == front + blits + tail;
    var start := |front|;
    forall i | start <= i < start + |shown|
      ensures frame[i] == blits[i - start] && shown[i - start] in shown
      ensures 0 <= frame[i].x < BoardPixels && 0 <= frame[i].y < BoardPixels
      ensures frame[i].x % Unit == 0 && frame[i].y % Unit == 0
    {
      assert shown[i - start] in shown;
      SquareCorner(shown[i - start].at);
    }
  }

  /** The sprite corner of a square of the board lies on the board, on the square grid. */
  lemma SquareCorner(c: Cell)
    requires OnBoard(c)
    ensures 0 <= PixelOf(c).0 < BoardPixels && 0 <= PixelOf(c).1 < BoardPixels
    ensures PixelOf(c).0 % Unit == 0 && PixelOf(c).1 % Unit == 0
  {
  }

  /** In a legal game every piece sprite of a frame, in place or following the pointer, is
      one of the twelve piece images (so `ASSETS[j]` and `ASSETS[drag_piece]` find it), and
      the sprites drawn in place sit at the corners of distinct squares of the board. */
  lemma FramePiecesDrawable(rules: Rules, history: seq<string>, origin: Option<Cell>, flip: bool, drag: bool,
                            pointer: (int, int))
    requires PlacementsWellFormed(rules) && LegalGame(rules, history)
    ensures forall i :: 0 <= i < |history| ==> IsUci(history[i])
    ensures var frame, h := Frame(rules, history, origin, flip, drag, pointer), |Highlight(history, flip)|;
      var count := |Visible(Decode(BoardRanks(rules.fen(history), flip)), HiddenCell(drag, origin))|;
      (forall i :: 18 + h <= i < |frame| ==>
        frame[i].Blit? && |frame[i].asset| == 1 && IsPieceLetter(frame[i].asset[0])) &&
      (forall i :: 18 + h <= i < 18 + h + count ==>
        0 <= frame[i].x < BoardPixels && 0 <= frame[i].y < BoardPixels &&
        frame[i].x % Unit == 0 && frame[i].y % Unit == 0) &&
      (forall i, j :: 18 + h <= i < j < 18 + h + count ==> (frame[i].x, frame[i].y) != (frame[j].x, frame[j].y))
  {
    var ranks := RankStrings(rules.fen(history));
    assert WellFormed(ranks);
    var pieces := Decode(BoardRanks(rules.fen(history), flip));
    if flip {
      FlipWellFormedPieces(ranks);
    } else {
      DecodeWellFormed(ranks);
    }
    var hidden := HiddenCell(drag, origin);
    VisibleMembers(pieces, hidden);
    VisibleDistinct(pieces, hidden);
    ComposePiecesDrawable(Highlight(history, flip), EdgeLabels(flip), Visible(pieces, hidden),
                          DraggedPiece(pieces, hidden), pointer);
  }

  /** Without a drag every decoded piece is drawn in place and nothing follows the pointer. */
  lemma NoDragDrawsAllPieces(rules: Rules, history: seq<string>, origin: Option<Cell>, flip: bool, pointer: (int, int))
    requires forall i :: 0 <= i < |history| ==> IsUci(history[i])
    ensures Frame(rules, history, origin, flip, false, pointer) ==
      [Clear, Blit("board", 0, 0)] + Highlight(history, flip) + EdgeLabels(flip)
        + PieceBlits(Decode(BoardRanks(rules.fen(history), flip)))
  {
    var pieces := Decode(BoardRanks(rules.fen(history), flip));
    NothingHiddenWithoutDrag(pieces);
    var f := [Clear, Blit("board", 0, 0)] + Highlight(history, flip) + EdgeLabels(flip) + PieceBlits(pieces);
    assert f + [] == f;
  }
}
