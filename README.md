# pygame-chess: board geometry, move submission, placement decoding and endings

A Dafny model of the logic in `pygame-chess.py`, a click-and-drag chess board. The model covers the logic around the chess library and leaves out the pygame drawing and the chess rules themselves:

- **`GetMove`**: a pointer position becomes a grid cell by truncating division by the 104-pixel square (`Notation`).
- **Square naming in `TryMove`**: a grid cell becomes a file letter and a rank digit, in normal or flipped orientation. Two cells give a four-character UCI move string (`Notation`).
- **Move submission in `TryMove`**: the move string is pushed onto the board's move stack only when the chess library parses it and lists it as legal (`Oracle`). The stack holds the strings as submitted; the library's rewriting of a king dropped on its own rook into castling notation is not modelled (see "Left out"). The library is an oracle. Its parser, legal-move sets, status predicates and FEN output are given functions of the moves played so far, and `Board` is a class whose `history` field is the move stack.
- **Inside `DrawBoard`**:
  - the FEN string is split into rank strings, and the board is flipped by reversing the rank list and every rank string (`Placement`);
  - the placement walk turns digits into skipped squares and letters into pieces at cells, leaving out the dragged piece (`Placement`). Like the loop at lines 249-251, the model records the letter of the last piece the walk meets on the dragged cell and draws none of the pieces there; on a well-formed field at most one piece stands there (`Placement.DecodeWellFormed`);
  - the last move is decoded for the highlight, and the file and rank labels are drawn along the edges (`Render`).

  The whole frame is a list of drawing operations. The method `DrawBoard` is proved equal to the specification function `Frame`. The frame draws the last-move highlight in its corrected form (see "Findings"), in both orientations.
- **`TestForEnding`**: the first of five ending predicates that holds, in a fixed order, and its message. A checkmate's winner is the side not to move (`Ending`).
- **`main`'s event handler and game loop**: the pending move, the drag flag and the run flag are updated per event (`EventLoop.Game`). A frame is drawn and the ending is checked after every event. The state change of one event is the function `Step`. `Fold` and `Outputs` apply it to a sequence of events, giving the final state and what is shown after each event.

The walk, the flip and the label loops are methods with loops, each proved equal to a specification function. The event loop is a class. Its handler is proved equal to `Step` and `Show`, and its batch and game loops are proved equal to `Fold` and `Outputs` over the events they handle. The properties are lemmas about those functions:

- the encode/decode round trip of move strings;
- mirror symmetry and involution of the flip;
- distinct on-board cells for a well-formed placement field;
- the drag removes exactly one piece;
- the ending priority;
- atomicity of move submission;
- the game loop stops after the first batch that holds a quit event.

## Model

| member | source | states |
|---|---|---|
| Notation.CellIndex | pygame-chess.py:133 | `int(p/UNIT)` truncates: for p >= 0 the result i has i*104 <= p < i*104+104; for p < 0 it rounds toward zero |
| Notation.GetMove | pygame-chess.py:132-134 | a pointer inside the 832x832 window maps to the cell (px div 104, py div 104), both in 0..7 |
| Notation.GetMoveInvertsPixelOf | pygame-chess.py:132-134 | every pixel of a square, in particular its sprite corner (col*104, row*104), maps back to that square |
| Notation.Digit | pygame-chess.py:145-152 | `str` of a one-digit number is the character whose digit value is that number |
| Notation.FileChar | pygame-chess.py:144-151 | the file letter is in a..h and its index is col, or 7-col when flipped |
| Notation.RankChar | pygame-chess.py:145-152 | the rank digit is in 1..8 and its index is 7-row, or row when flipped |
| Notation.SquareName | pygame-chess.py:143-152 | a square name is a file letter followed by a rank digit |
| Notation.MoveUci | pygame-chess.py:143-159 | the move string is a four-character UCI move: the origin's square name, then the destination's |
| Notation.FlippedNameIsMirrored | pygame-chess.py:143-152 | the flipped name of (c, r) is the normal name of (7-c, 7-r) |
| Notation.DecodeSquare | pygame-chess.py:206-215 | decoding a file letter and a rank digit, mirrored when flipped, gives a cell on the board |
| Notation.DecodeUci | pygame-chess.py:205-215 | both cells decoded from a four-character move string are on the board |
| Notation.DecodeEncode | pygame-chess.py:205-215 | decoding the move string built from two cells gives back those two cells, in the same orientation |
| Notation.EncodeDecode | pygame-chess.py:205-215 | every four-character move string is the encoding of the cells it decodes to |
| Oracle.Board.constructor | pygame-chess.py:65 | a new board has an empty move stack |
| Oracle.LegalGameExtend | pygame-chess.py:159-165 | pushing a move that parses and is legal in the current position keeps the move stack a legal game |
| Oracle.TryMove | pygame-chess.py:138-173 | the move is pushed and True returned exactly when it parses and is legal in the current position; otherwise the stack is unchanged; the stack stays a legal game |
| Placement.Split | pygame-chess.py:183-184 | `str.split` gives at least one part and no part contains the separator |
| Placement.SplitJoin | pygame-chess.py:183-184 | splitting parts joined by a separator they do not contain gives the parts back |
| Placement.JoinSplit | pygame-chess.py:183-184 | joining the parts of a split gives the string back |
| Placement.RankStrings | pygame-chess.py:183-184 | the rank strings of a FEN string: at least one, none containing '/' |
| Placement.RankStringsOfFen | pygame-chess.py:183-184 | a FEN string whose first field joins ranks with '/' yields exactly those ranks, whatever the other fields hold |
| Placement.ReverseAt | pygame-chess.py:191 | `i[::-1]` puts the (n-1-k)-th character at index k |
| Placement.ReverseInvolution | pygame-chess.py:191 | reversing a rank string twice gives it back |
| Placement.FlipAt | pygame-chess.py:188-192 | the k-th flipped rank is the reversed (n-1-k)-th rank |
| Placement.FlipRanks | pygame-chess.py:188-192 | the flip loop over `reversed(processed_board)` computes `Flip` of the ranks |
| Placement.FlipInvolution | pygame-chess.py:188-192 | flipping twice gives the original rank list |
| Placement.RankPieces | pygame-chess.py:242-255 | one rank's walk yields one piece per non-digit character |
| Placement.BoardPieces | pygame-chess.py:240-259 | the walk yields one piece per non-digit character of all ranks |
| Placement.RankPiecesCells | pygame-chess.py:242-258 | a rank's pieces lie on its row, within the columns its width covers |
| Placement.RankPiecesLetters | pygame-chess.py:243-253 | each placed letter is a non-digit character of its rank |
| Placement.RankPiecesIncreasing | pygame-chess.py:242-255 | within a rank the column strictly increases from piece to piece |
| Placement.RankPiecesAppend | pygame-chess.py:242-255 | walking a+b is walking a, then b from the column where a ended |
| Placement.BoardPiecesAppend | pygame-chess.py:240-259 | walking ranks a+b is walking a, then b starting |a| rows lower |
| Placement.BoardPiecesRows | pygame-chess.py:257-259 | the pieces of ranks walked from row y lie on rows y..y+n-1: the column resets and the row advances after each rank |
| Placement.BoardPiecesOrdered | pygame-chess.py:240-259 | the walk visits cells in strictly increasing row-major order |
| Placement.BoardPiecesWithin | pygame-chess.py:240-259 | ranks no wider than w place pieces in columns 0..w-1 |
| Placement.BoardPiecesLetters | pygame-chess.py:241-253 | each placed letter occurs in one of the ranks |
| Placement.BoardPiecesNoDigits | pygame-chess.py:243-253 | no digit is ever placed as a piece |
| Placement.DecodeWellFormed | pygame-chess.py:240-259 | for 8 ranks of width 8 made of digits and piece letters: one piece per letter, each on the board, each naming a sprite, no two on the same cell |
| Placement.WidthReverse | pygame-chess.py:191 | a reversed rank covers as many squares as the rank |
| Placement.ReversedRankPieces | pygame-chess.py:188-192 | walking a reversed rank gives the rank's pieces in reverse order, each at the mirrored column |
| Placement.FlippedBoardPieces | pygame-chess.py:188-192 | on equal-width ranks, walking the flipped ranks gives the pieces in reverse order, point-mirrored |
| Placement.DecodeFlip | pygame-chess.py:188-192 | on a well-formed field, the piece decoded at (x, y) is decoded at (7-x, 7-y) from the flipped ranks |
| Placement.FlipWellFormedPieces | pygame-chess.py:188-192 | a flipped well-formed field still decodes to piece letters on the board, no two on the same cell |
| Placement.Visible | pygame-chess.py:249-253 | the pieces drawn in place are no more than those decoded |
| Placement.VisibleMembers | pygame-chess.py:249-253 | a piece is drawn in place exactly when it was decoded and is not on the dragged cell |
| Placement.VisibleDistinct | pygame-chess.py:249-253 | when the decoded pieces stand on distinct cells, so do the pieces drawn in place |
| Placement.DraggedPiece | pygame-chess.py:237-251 | a recorded dragged letter is the letter of a decoded piece standing on the dragged cell; without a dragged cell nothing is recorded |
| Placement.DraggedPieceFound | pygame-chess.py:237-251 | a dragged letter is recorded exactly when a piece stands on the dragged cell; an empty origin records nothing |
| Placement.NothingHiddenWithoutDrag | pygame-chess.py:249-253 | without a drag every decoded piece is drawn and no letter is recorded |
| Placement.DragHidesOnePiece | pygame-chess.py:249-253 | on distinct cells the drag removes exactly the recorded piece and keeps all others |
| Placement.PlaceRank | pygame-chess.py:242-255 | the walk along one rank extends the visible pieces and the dragged letter by those of the rank's pieces on its row |
| Placement.PlacePieces | pygame-chess.py:237-259 | the nested walk loop computes the visible pieces and the dragged letter of the decoded ranks |
| Ending.TestForEnding | pygame-chess.py:107-128 | no ending is reported exactly when no predicate holds; otherwise the message is that of the first predicate in priority order that holds |
| Ending.MessagesDistinct | pygame-chess.py:108-126 | different endings have different messages |
| Ending.ReportedEndingHolds | pygame-chess.py:107-128 | the ending a message names holds, and every ending checked before it does not |
| Ending.CheckmateNamesWinner | pygame-chess.py:120-126 | on checkmate alone the winner is Black when White is to move and White otherwise |
| Ending.StalemateBeforeInsufficientMaterial | pygame-chess.py:114-118 | a stalemate with insufficient material is reported as stalemate |
| Render.BottomLabels | pygame-chess.py:222-227 | eight file letters, each drawn inside the column it labels and equal to the file of every square in that column, for either orientation |
| Render.SideLabels | pygame-chess.py:229-233 | eight rank digits, each drawn inside the row it labels and equal to the rank of every square in that row, for either orientation |
| Render.DrawEdgeLabels | pygame-chess.py:222-233 | the two label loops over the character and digit ranges produce the bottom labels, then the side labels |
| Render.LastMoveCells | pygame-chess.py:203-209 | no cells before the first move; afterwards two on-board cells whose move string is the last move |
| Render.Highlight | pygame-chess.py:202-218 | corrected highlight (see "Findings"): no sprite before the first move, two afterwards, in either orientation |
| Render.HighlightCoversLastMove | pygame-chess.py:202-218 | corrected highlight: empty exactly before the first move; afterwards it covers the two cells whose move string is the last move, in either orientation |
| Render.HighlightReadsBack | pygame-chess.py:202-218 | corrected highlight: its two sprites lie in the window, and the squares their positions fall in, read the way pointer positions are read, spell the last move |
| Render.HighlightShowsLastMove | pygame-chess.py:202-218 | corrected highlight: after a move built from two cells it covers exactly those two cells, in either orientation |
| Render.HighlightAsWritten | pygame-chess.py:211-218 | the highlight as written: nothing on a board in normal orientation, and on a flipped board the two sprites of the corrected highlight |
| Render.NormalBoardLosesHighlight | pygame-chess.py:211-218 | the highlight as written draws nothing on a normal board after e2e4, where the corrected one draws (416, 624) and (416, 416) |
| Render.PieceBlits | pygame-chess.py:253 | one sprite per piece drawn in place |
| Render.DraggedBlit | pygame-chess.py:262-266 | one sprite exactly when a piece was picked up: that piece's letter, centred on the pointer |
| Render.ComposeLayers | pygame-chess.py:176-270 | a composed frame is the clear and the board image, then the highlight, the labels and the piece sprites each at its own position in drawing order, and the dragged sprite last |
| Render.FrameLayers | pygame-chess.py:176-270 | a frame is, in this order: the clear and the board image, the corrected highlight, the sixteen edge labels, one sprite per piece left in place, and, only during a drag that picked a piece up, that piece drawn last, centred on the pointer |
| Render.DrawBoard | pygame-chess.py:176-270 | the frame drawn is `Frame`: clear, board image, the corrected highlight, labels, the visible pieces of the (flipped) placement field, then the dragged piece |
| Render.NoDragDrawsAllPieces | pygame-chess.py:249-262 | without a drag every decoded piece is drawn and no sprite follows the pointer |
| Render.ComposePiecesDrawable | pygame-chess.py:249-266 | when the pieces to draw are piece letters on distinct on-board cells, every piece sprite of the frame is one of the twelve piece images, and the in-place ones sit at the top-left corners of distinct squares inside the board |
| Render.FramePiecesDrawable | pygame-chess.py:237-266 | in a legal game whose FEN placement field is well-formed, every move played is a UCI string, every piece sprite of the frame (in place or dragged) names one of the twelve piece images, and the in-place sprites sit at the corners of distinct board squares, in either orientation and during a drag |
| EventLoop.Step | pygame-chess.py:74-100 | one event keeps the pending cells on the board, a drag with an origin, and the move stack a legal game |
| EventLoop.StepEffect | pygame-chess.py:74-100 | a press sets the origin cell and starts a drag; a release sets the destination, pushes the move exactly when it parses and is legal, and ends the drag; other events change neither; a quit clears the run flag and no other event does |
| EventLoop.StepPlayable | pygame-chess.py:77-85 | after the first event, every later release still has an origin cell |
| EventLoop.Fold | pygame-chess.py:74-100 | handling a sequence of events one by one keeps the state consistent |
| EventLoop.Outputs | pygame-chess.py:74-100 | one frame and ending check per event handled |
| EventLoop.PlayableSplit | pygame-chess.py:74-85 | splitting a sequence of events leaves two sequences whose releases all have an origin cell |
| EventLoop.FoldAppend | pygame-chess.py:74-100 | handling a + c ends where handling c from the state a left ends |
| EventLoop.OutputsAppend | pygame-chess.py:74-100 | what is shown while handling a + c is what handling a shows, then what handling c from there shows |
| EventLoop.FoldRun | pygame-chess.py:68-101 | after a sequence of events the run flag is set exactly when it was set before and none of the events was a quit |
| EventLoop.FoldExtends | pygame-chess.py:83-85 | the move stack only grows, by at most one move per event |
| EventLoop.NoQuitAppend | pygame-chess.py:98-100 | a + c holds no quit exactly when neither a nor c does |
| EventLoop.Handled | pygame-chess.py:68-101 | the batches the game loop handles: all of them when none holds a quit, otherwise those up to and including the first that holds one |
| EventLoop.RunEnds | pygame-chess.py:68-74 | when the loop stops after b batches, b is the handled count and the run flag says whether any batch held a quit |
| EventLoop.Game.constructor | pygame-chess.py:57-68 | the loop starts with no pending move, no drag, a new board and the run flag set |
| EventLoop.Game.Respond | pygame-chess.py:74-100 | the handler's state change on the fields and the board is `Step` of the previous state |
| EventLoop.Game.HandleEvent | pygame-chess.py:74-100 | after the state change (`Step`) the frame of the new state is drawn and the ending of the new position is checked (`Show`) |
| EventLoop.Game.HandleBatch | pygame-chess.py:74-100 | the state after one `pygame.event.get()` batch is `Fold` of the batch, and what is shown is `Outputs` of the batch, one frame and ending per event in order |
| EventLoop.Game.RunBatch | pygame-chess.py:68-101 | one pass of the game loop extends the handled events by one batch, with the state, the outputs and the run flag following |
| EventLoop.Game.Run | pygame-chess.py:68-101 | the loop handles exactly the batches `Handled` counts; the final state is `Fold` and what is shown is `Outputs` of their events; the run flag ends cleared exactly when some batch held a quit |

## Left out

- Drawing, fonts, images, the clock, event polling and window setup (pygame) are not modelled. A frame is the list of drawing operations `DrawBoard` would perform when it does not raise. Pointer positions arrive with the events.
- The chess rules of python-chess are not modelled. Parsing, legal moves, the ending predicates, the side to move and `fen()` are parameters of the model, given as functions of the move history.
- The SAN string and the `print` after a move are not modelled, because they are logging.
- The ending label is not modelled: `TestForEnding`'s message is returned with each frame rather than drawn at (100, HEIGHT/3), a float position.
- Oracle.TryMove: records the submitted move string on the move stack. python-chess normalises some moves it pushes: a king dropped on its own rook (e1h1, e1a1, e8h8, e8a8) is accepted as castling and recorded as e1g1, e1c1, e8g8 or e8c8. That normalisation is not modelled, so for those drags the model's last move, and the highlight decoded from it, names the rook's square where the program's would name the king's target square.
- Oracle.TryMove: requires both cells on the board. Cells come from pointer positions inside the window, and the model does not cover a pointer outside it.
- EventLoop.Game.Respond, EventLoop.Game.HandleEvent, EventLoop.Game.HandleBatch, EventLoop.Game.RunBatch and EventLoop.Game.Run: require the pointer of every event to lie in the window, quit and other events included, although only presses and releases read it. `pygame.mouse.get_pos()` reports a position inside the window while it has the pointer; a position outside it is not modelled.
- EventLoop.Game.Respond: requires an origin cell before a button release. In the source, a release before any press indexes `False` outside the `try`. The batch and game loops state this as `Playable`: the pending origin is set, or the first button event is a press.
- The `except:` branch of `TryMove` has no counterpart: the oracle's parse predicate and legal set are total, so no other exception is modelled.
- `j.isnumeric()` is modelled as ASCII '0'..'9'. Other Unicode numerics cannot appear in a FEN placement field.
- `flip` is a parameter of the game, where `main` fixes it to `False`. `close_window_delay` is never used and is not modelled.
- EventLoop.Game.Run: models finitely many event batches. The source loop runs until a quit event; `pygame.quit()` and `sys.exit` after it are not modelled.
- The pending move `move` is never reset after a release in the code, and the model follows the code. A later release reuses the earlier origin unless a new press came first.
- The dragged sprite's offset `UNIT/2` is exactly 52, so the float division is modelled as integer division.
- Render.DrawBoard and Render.Frame: the frame, and so every frame `EventLoop.Game` shows, draws the corrected highlight in both orientations. The source draws the highlight sprites only when the board is flipped, and `main` fixes `flip` to `False` (see "Findings"). The code as written is modelled by Render.HighlightAsWritten.
- Render.DrawBoard and Render.Frame: the FEN output is a parameter, so a placement character that names no sprite is drawn by its own name, where `ASSETS[j]` (line 253) and `ASSETS[drag_piece]` (line 266) raise KeyError. python-chess's `fen()` yields only digit runs and the twelve piece letters; the model states that guarantee as `Render.PlacementsWellFormed`, and under it Render.FramePiecesDrawable proves that every sprite drawn is a piece image, so the KeyError cannot arise.

## Findings

| source | as written | input that shows it | evidently intended | confidence | as-written member | corrected member |
|---|---|---|---|---|---|---|
| pygame-chess.py:211-218 | the two highlight blits are indented inside `if flip:`, so a board in normal orientation never highlights the last move | normal orientation (`flip` is `False` in `main`) after the move e2e4 | the cells of the last move, (4,6) and (4,4), are highlighted in both orientations, with only the mirroring inside `if flip:` | not executed | Render.NormalBoardLosesHighlight | Render.HighlightShowsLastMove |

`Render.Frame`, and so `Render.DrawBoard` and the frames of `EventLoop.Game`, draw the corrected highlight `Render.Highlight`.
