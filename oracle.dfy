/** The chess library as this program sees it, and `TryMove`, which submits a move to it.
    The library is not reimplemented: the parser, the legal-move sets, the status
    predicates and the FEN serialisation are taken as given functions of the moves played
    so far (a position is determined by the moves played from the start position). A move
    is represented by its UCI string. */
module Oracle {
  import opened Notation

  /** The status predicates the program asks of a position, and the side to move. */
  datatype Status = Status(
    fivefoldRepetition: bool,
    seventyFiveMoves: bool,
    stalemate: bool,
    insufficientMaterial: bool,
    checkmate: bool,
    whiteToMove: bool)

  /** What the chess library answers, each as a function of the move history. */
  datatype Rules = Rules(
    parses: string -> bool,              // `chess.Move.from_uci` accepts the string
    legal: seq<string> -> set<string>,   // `board.legal_moves`, by UCI string
    status: seq<string> -> Status,       // the `is_*` predicates and `board.turn`
    fen: seq<string> -> string)          // `board.fen()`

  /** Every move of the history is a four-character UCI string that parsed and was legal
      in the position it was played in. */
  predicate LegalGame(rules: Rules, history: seq<string>) {
    forall i :: 0 <= i < |history| ==>
      IsUci(history[i]) && rules.parses(history[i]) && history[i] in rules.legal(history[..i])
  }

  /** Pushing a move that parses and is legal keeps the history a legal game. */
  lemma LegalGameExtend(rules: Rules, history: seq<string>, uci: string)
    requires LegalGame(rules, history)
    requires IsUci(uci) && rules.parses(uci) && uci in rules.legal(history)
    ensures LegalGame(rules, history + [uci])
  {
    var h := history + [uci];
    forall i | 0 <= i < |h| ensures IsUci(h[i]) && rules.parses(h[i]) && h[i] in rules.legal(h[..i]) {
      if i < |history| {
        assert h[i] == history[i] && h[..i] == history[..i];
      } else {
        assert h[..i] == history;
      }
    }
  }

  /** A `chess.Board`: the rules it applies and its move stack. */
  class Board {
    const rules: Rules
    var history: seq<string>

    /** The move stack is a legal game. */
    ghost predicate Valid()
      reads this
    {
      LegalGame(rules, history)
    }

    /** `chess.Board()`: the start position, no moves played. */
    constructor (rules: Rules)
      ensures Valid() && this.rules == rules && history == []
    {
      this.rules := rules;
      history := [];
    }
  }

  /** Atomic move submission: the move named by the two cells is pushed when the library
      parses it and it is legal; otherwise nothing changes. */
  method TryMove(board: Board, origin: Cell, dest: Cell, flip: bool) returns (played: bool)
    requires board.Valid() && OnBoard(origin) && OnBoard(dest)
    modifies board
    ensures board.Valid()
    ensures played <==> board.rules.parses(MoveUci(origin, dest, flip)) &&
                        MoveUci(origin, dest, flip) in board.rules.legal(old(board.history))
    ensures board.history == if played then old(board.history) + [MoveUci(origin, dest, flip)]
                             else old(board.history)
  {
    var fromFile, fromRank, toFile, toRank;
    if flip {
      fromFile := (104 - origin.col) as char;
      fromRank := Digit(1 + origin.row);
      toFile := (104 - dest.col) as char;
      toRank := Digit(1 + dest.row);
    } else {
      fromFile := (97 + origin.col) as char;
      fromRank := Digit(8 - origin.row);
      toFile := (97 + dest.col) as char;
      toRank := Digit(8 - dest.row);
    }
    var uci := [fromFile, fromRank, toFile, toRank];
    assert uci == MoveUci(origin, dest, flip);
    if !board.rules.parses(uci) {
      return false;
    }
    if uci in board.rules.legal(board.history) {
      LegalGameExtend(board.rules, board.history, uci);
      board.history := board.history + [uci];
      return true;
    } else {
      return false;
    }
  }
}
