/** The piece-placement field of a FEN string (Forsyth-Edwards Notation, section 16.1 of
    the PGN standard) as `DrawBoard` reads it: split into rank strings, turned round for a
    flipped board, and walked rank by rank into pieces at screen cells, leaving out the
    piece being dragged. */
module Placement {
  import opened Optional
  import opened Notation

  /** Python's `str.split(sep)`: the pieces between separators, empty ones included. */
  function Split(s: string, sep: char): (parts: seq<string>)
    ensures |parts| >= 1
    ensures forall i :: 0 <= i < |parts| ==> sep !in parts[i]
    decreases |s|
  {
    if s == [] then [[]]
    else
      var rest := Split(s[1..], sep);
      if s[0] == sep then [[]] + rest else [[s[0]] + rest[0]] + rest[1..]
  }

  /** `sep.join(parts)`, the inverse of `Split`. */
  function Join(parts: seq<string>, sep: char): string
    requires |parts| >= 1
    decreases |parts|
  {
    if |parts| == 1 then parts[0] else parts[0] + [sep] + Join(parts[1..], sep)
  }

  lemma {:induction false} SplitAfterPlainPrefix(w: string, t: string, sep: char)
    requires sep !in w
    ensures Split(w + t, sep) == [w + Split(t, sep)[0]] + Split(t, sep)[1..]
    decreases |w|
  {
    if w != [] {
      assert (w + t)[0] == w[0] && (w + t)[1..] == w[1..] + t;
      SplitAfterPlainPrefix(w[1..], t, sep);
      var rest := Split(w[1..] + t, sep);
      assert rest[0] == w[1..] + Split(t, sep)[0];
      assert rest[1..] == Split(t, sep)[1..];
      assert [w[0]] + (w[1..] + Split(t, sep)[0]) == w + Split(t, sep)[0];
    } else {
      assert w + t == t && w + Split(t, sep)[0] == Split(t, sep)[0];
      assert Split(t, sep) == [Split(t, sep)[0]] + Split(t, sep)[1..];
    }
  }

  /** Splitting a joined list gives the list back when no part holds the separator. */
  lemma {:induction false} SplitJoin(parts: seq<string>, sep: char)
    requires |parts| >= 1
    requires forall i :: 0 <= i < |parts| ==> sep !in parts[i]
    ensures Split(Join(parts, sep), sep) == parts
    decreases |parts|
  {
    if |parts| == 1 {
      SplitAfterPlainPrefix(parts[0], [], sep);
      assert parts[0] + [] == parts[0];
    } else {
      var tail := [sep] + Join(parts[1..], sep);
      assert Join(parts, sep) == parts[0] + tail;
      SplitAfterPlainPrefix(parts[0], tail, sep);
      assert tail[1..] == Join(parts[1..], sep);
      SplitJoin(parts[1..], sep);
      assert Split(tail, sep) == [[]] + parts[1..];
      assert parts[0] + [] == parts[0];
    }
  }

  /** Joining the parts of a split gives the string back. */
  lemma {:induction false} JoinSplit(s: string, sep: char)
    ensures Join(Split(s, sep), sep) == s
    decreases |s|
  {
    if s != [] {
      var rest := Split(s[1..], sep);
      JoinSplit(s[1..], sep);
      if s[0] == sep {
        assert ([[]] + rest)[1..] == rest;
      } else {
        var parts := [[s[0]] + rest[0]] + rest[1..];
        assert parts[1..] == rest[1..];
        if |rest| > 1 {
          assert Join(rest, sep) == rest[0] + [sep] + Join(rest[1..], sep);
        }
        assert s == [s[0]] + s[1..];
      }
    }
  }

  lemma {:induction false} NotInJoin(parts: seq<string>, sep: char, ch: char)
    requires |parts| >= 1 && ch != sep
    requires forall i :: 0 <= i < |parts| ==> ch !in parts[i]
    ensures ch !in Join(parts, sep)
    decreases |parts|
  {
    if |parts| > 1 {
      NotInJoin(parts[1..], sep, ch);
    }
  }

  /** `board.fen().split(" ")[0].split("/")`: the rank strings of the placement field. */
  function RankStrings(fen: string): (ranks: seq<string>)
    ensures |ranks| >= 1 && forall i :: 0 <= i < |ranks| ==> '/' !in ranks[i]
  {
    Split(Split(fen, ' ')[0], '/')
  }

  /** A FEN string whose placement field joins some rank strings with '/' yields exactly
      those rank strings, whatever the fields after the first space hold. */
  lemma RankStringsOfFen(ranks: seq<string>, rest: string)
    requires |ranks| >= 1
    requires forall i :: 0 <= i < |ranks| ==> '/' !in ranks[i] && ' ' !in ranks[i]
    ensures RankStrings(Join(ranks, '/') + [' '] + rest) == ranks
  {
    var field := Join(ranks, '/');
    NotInJoin(ranks, '/', ' ');
    SplitAfterPlainPrefix(field, [' '] + rest, ' ');
    assert field + [' '] + rest == field + ([' '] + rest);
    assert field + [] == field;
    SplitJoin(ranks, '/');
  }

  /** `s[::-1]` */
  function Reverse(s: string): (r: string)
    ensures |r| == |s|
  {
    if s == [] then [] else Reverse(s[1..]) + [s[0]]
  }

  /** The i-th character of the reversed string is the (n-1-i)-th of the original. */
  lemma {:induction false} ReverseAt(s: string)
    ensures forall i :: 0 <= i < |s| ==> Reverse(s)[i] == s[|s| - 1 - i]
    decreases |s|
  {
    if s != [] {
      ReverseAt(s[1..]);
    }
  }

  lemma ReverseInvolution(s: string)
    ensures Reverse(Reverse(s)) == s
  {
    ReverseAt(s);
    ReverseAt(Reverse(s));
  }

  /** The ranks of a flipped board: the list of ranks reversed and every rank string
      reversed. */
  function Flip(ranks: seq<string>): (f: seq<string>)
    ensures |f| == |ranks|
  {
    if ranks == [] then [] else Flip(ranks[1..]) + [Reverse(ranks[0])]
  }

  /** The i-th flipped rank is the reversed (n-1-i)-th rank. */
  lemma {:induction false} FlipAt(ranks: seq<string>)
    ensures forall i :: 0 <= i < |ranks| ==> Flip(ranks)[i] == Reverse(ranks[|ranks| - 1 - i])
    decreases |ranks|
  {
    if ranks != [] {
      FlipAt(ranks[1..]);
    }
  }

  /** The flip of `DrawBoard`: `for i in reversed(processed_board): tmp_board.append(i[::-1])`. */
  method FlipRanks(ranks: seq<string>) returns (flipped: seq<string>)
    ensures flipped == Flip(ranks)
  {
    flipped := [];
    var k := |ranks|;
    while k > 0
      invariant 0 <= k <= |ranks|
      invariant flipped == Flip(ranks[k..])
    {
      k := k - 1;
      assert ranks[k..][1..] == ranks[k + 1..];
      flipped := flipped + [Reverse(ranks[k])];
    }
    assert ranks[0..] == ranks;
  }

  /** Flipping twice gives back the original ranks. */
  lemma FlipInvolution(ranks: seq<string>)
    ensures Flip(Flip(ranks)) == ranks
  {
    FlipAt(ranks);
    FlipAt(Flip(ranks));
    forall i | 0 <= i < |ranks|
      ensures Flip(Flip(ranks))[i] == ranks[i]
    {
      ReverseInvolution(ranks[i]);
    }
  }

  /** `j.isnumeric()` on the characters a placement field holds. */
  predicate IsDigit(ch: char) {
    '0' <= ch <= '9'
  }

  /** The twelve piece letters that have a sprite. */
  predicate IsPieceLetter(ch: char) {
    ch in "rnbqkpRNBQKP"
  }

  /** How far one character moves the column: its value for a digit, one for a piece. */
  function Advance(ch: char): nat {
    if IsDigit(ch) then ch as int - '0' as int else 1
  }

  /** Number of squares a rank string covers. */
  function Width(rank: string): nat
  {
    if rank == [] then 0 else Advance(rank[0]) + Width(rank[1..])
  }

  /** Number of piece letters (non-digits) in a rank string. */
  function LetterCount(rank: string): nat
  {
    if rank == [] then 0 else (if IsDigit(rank[0]) then 0 else 1) + LetterCount(rank[1..])
  }

  function TotalLetters(ranks: seq<string>): nat
  {
    if ranks == [] then 0 else LetterCount(ranks[0]) + TotalLetters(ranks[1..])
  }

  /** A well-formed placement field: eight ranks, each of digits and piece letters covering
      eight squares. */
  predicate WellFormed(ranks: seq<string>) {
    |ranks| == 8 && forall i :: 0 <= i < 8 ==> WellFormedRank(ranks[i])
  }

  /** Digit runs and piece letters covering exactly eight squares. */
  predicate WellFormedRank(rank: string) {
    Width(rank) == 8 && forall ch :: ch in rank ==> IsDigit(ch) || IsPieceLetter(ch)
  }

  /** A piece letter decoded at a screen cell. */
  datatype Piece = Piece(letter: char, at: Cell)

  /** Row-major order of cells: the order the walk visits them. */
  predicate Before(a: Cell, b: Cell) {
    a.row < b.row || (a.row == b.row && a.col < b.col)
  }

  /** The pieces of one rank string, walked from column x on row y. */
  function RankPieces(rank: string, x: int, y: int): (ps: seq<Piece>)
    ensures |ps| == LetterCount(rank)
    decreases |rank|
  {
    if rank == [] then []
    else if IsDigit(rank[0]) then RankPieces(rank[1..], x + Advance(rank[0]), y)
    else [Piece(rank[0], Cell(x, y))] + RankPieces(rank[1..], x + 1, y)
  }

  /** The pieces of a list of rank strings, the first one on row y. */
  function BoardPieces(ranks: seq<string>, y: int): (ps: seq<Piece>)
    ensures |ps| == TotalLetters(ranks)
    decreases |ranks|
  {
    if ranks == [] then [] else RankPieces(ranks[0], 0, y) + BoardPieces(ranks[1..], y + 1)
  }

  /** A rank's pieces lie on its row, within the columns it covers. */
  lemma {:induction false} RankPiecesCells(rank: string, x: int, y: int)
    ensures forall p :: p in RankPieces(rank, x, y) ==> p.at.row == y && x <= p.at.col < x + Width(rank)
    decreases |rank|
  {
    if rank != [] {
      RankPiecesCells(rank[1..], x + Advance(rank[0]), y);
    }
  }

  /** Each of a rank's pieces is a non-digit character of the rank. */
  lemma {:induction false} RankPiecesLetters(rank: string, x: int, y: int)
    ensures forall p :: p in RankPieces(rank, x, y) ==> p.letter in rank && !IsDigit(p.letter)
    decreases |rank|
  {
    if rank != [] {
      var rest := RankPieces(rank[1..], x + Advance(rank[0]), y);
      RankPiecesLetters(rank[1..], x + Advance(rank[0]), y);
      forall p | p in rest ensures p.letter in rank {
        assert p.letter in rank[1..];
      }
    }
  }

  /** A rank's pieces are met left to right. */
  lemma {:induction false} RankPiecesIncreasing(rank: string, x: int, y: int)
    ensures forall i, j :: 0 <= i < j < |RankPieces(rank, x, y)| ==>
      RankPieces(rank, x, y)[i].at.col < RankPieces(rank, x, y)[j].at.col
    decreases |rank|
  {
    if rank != [] {
      var c := rank[0];
      RankPiecesIncreasing(rank[1..], x + Advance(c), y);
      if !IsDigit(c) {
        var rest := RankPieces(rank[1..], x + 1, y);
        RankPiecesCells(rank[1..], x + 1, y);
        var ps := [Piece(c, Cell(x, y))] + rest;
        forall i, j | 0 <= i < j < |ps| ensures ps[i].at.col < ps[j].at.col {
          assert ps[j] == rest[j - 1];
          assert rest[j - 1] in rest;
          if i > 0 {
            assert ps[i] == rest[i - 1];
          }
        }
      }
    }
  }

  /** The pieces a placement walk puts on screen, in the order it visits them. */
  function Decode(ranks: seq<string>): seq<Piece> {
    BoardPieces(ranks, 0)
  }

  /** The walk visits cells in strictly increasing row-major order, so no two pieces share
      a cell. */
  lemma {:induction false} BoardPiecesOrdered(ranks: seq<string>, y: int)
    ensures forall i, j :: 0 <= i < j < |BoardPieces(ranks, y)| ==>
      Before(BoardPieces(ranks, y)[i].at, BoardPieces(ranks, y)[j].at)
    decreases |ranks|
  {
    if ranks != [] {
      BoardPiecesOrdered(ranks[1..], y + 1);
      BoardPiecesRows(ranks[1..], y + 1);
      RankPiecesCells(ranks[0], 0, y);
      RankPiecesIncreasing(ranks[0], 0, y);
      var a: seq<Piece>, b: seq<Piece> := RankPieces(ranks[0], 0, y), BoardPieces(ranks[1..], y + 1);
      var ps := a + b;
      forall i, j | 0 <= i < j < |ps| ensures Before(ps[i].at, ps[j].at) {
        if j < |a| {
          assert ps[i] == a[i] && ps[j] == a[j];
        } else if i < |a| {
          assert ps[i] == a[i] && ps[j] == b[j - |a|];
        } else {
          assert ps[i] == b[i - |a|] && ps[j] == b[j - |a|];
        }
      }
    }
  }

  /** The pieces of the ranks starting on row y lie on rows y .. y + |ranks| - 1. */
  lemma {:induction false} BoardPiecesRows(ranks: seq<string>, y: int)
    ensures forall i :: 0 <= i < |BoardPieces(ranks, y)| ==>
      y <= BoardPieces(ranks, y)[i].at.row < y + |ranks|
    decreases |ranks|
  {
    if ranks != [] {
      BoardPiecesRows(ranks[1..], y + 1);
      RankPiecesCells(ranks[0], 0, y);
      var a: seq<Piece>, b: seq<Piece> := RankPieces(ranks[0], 0, y), BoardPieces(ranks[1..], y + 1);
      forall i | 0 <= i < |a + b| ensures y <= (a + b)[i].at.row < y + |ranks| {
        if i < |a| {
          assert (a + b)[i] == a[i];
        } else {
          assert (a + b)[i] == b[i - |a|];
        }
      }
    }
  }

  /** Each rank's pieces lie within the columns it covers. */
  lemma {:induction false} BoardPiecesWithin(ranks: seq<string>, y: int, w: int)
    requires forall i :: 0 <= i < |ranks| ==> Width(ranks[i]) <= w
    ensures forall p :: p in BoardPieces(ranks, y) ==> 0 <= p.at.col < w
    decreases |ranks|
  {
    if ranks != [] {
      BoardPiecesWithin(ranks[1..], y + 1, w);
      RankPiecesCells(ranks[0], 0, y);
      var a: seq<Piece>, b: seq<Piece> := RankPieces(ranks[0], 0, y), BoardPieces(ranks[1..], y + 1);
      forall p | p in a + b ensures 0 <= p.at.col < w {
        if p in a {
          var k :| 0 <= k < |a| && a[k] == p;
        }
      }
    }
  }

  lemma {:induction false} BoardPiecesLetters(ranks: seq<string>, y: int)
    ensures forall p :: p in BoardPieces(ranks, y) ==> exists i :: 0 <= i < |ranks| && p.letter in ranks[i]
    decreases |ranks|
  {
    if ranks != [] {
      BoardPiecesLetters(ranks[1..], y + 1);
      RankPiecesLetters(ranks[0], 0, y);
      forall p | p in BoardPieces(ranks, y)
        ensures exists i :: 0 <= i < |ranks| && p.letter in ranks[i]
      {
        var a := RankPieces(ranks[0], 0, y);
        if p in a {
          var k :| 0 <= k < |a| && a[k] == p;
          assert p.letter in ranks[0];
        } else {
          var i :| 0 <= i < |ranks[1..]| && p.letter in ranks[1..][i];
          assert p.letter in ranks[i + 1];
        }
      }
    }
  }

  /** A well-formed field places one sprite-named piece per letter, each on its own cell of
      the board. */
  lemma DecodeWellFormed(ranks: seq<string>)
    requires WellFormed(ranks)
    ensures |Decode(ranks)| == TotalLetters(ranks)
    ensures forall p :: p in Decode(ranks) ==> OnBoard(p.at) && IsPieceLetter(p.letter)
    ensures forall i, j :: 0 <= i < j < |Decode(ranks)| ==> Decode(ranks)[i].at != Decode(ranks)[j].at
  {
    var ps := Decode(ranks);
    BoardPiecesWithin(ranks, 0, 8);
    BoardPiecesRows(ranks, 0);
    BoardPiecesLetters(ranks, 0);
    BoardPiecesOrdered(ranks, 0);
    BoardPiecesNoDigits(ranks, 0);
    forall p | p in ps ensures OnBoard(p.at) && IsPieceLetter(p.letter) {
      var i :| 0 <= i < |ranks| && p.letter in ranks[i];
      var k :| 0 <= k < |ps| && ps[k] == p;
    }
  }

  lemma {:induction false} BoardPiecesNoDigits(ranks: seq<string>, y: int)
    ensures forall p :: p in BoardPieces(ranks, y) ==> !IsDigit(p.letter)
    decreases |ranks|
  {
    if ranks != [] {
      BoardPiecesNoDigits(ranks[1..], y + 1);
      RankPiecesLetters(ranks[0], 0, y);
      var a := RankPieces(ranks[0], 0, y);
      forall p | p in a ensures !IsDigit(p.letter) {
        var k :| 0 <= k < |a| && a[k] == p;
      }
    }
  }

  lemma {:induction false} WidthAppend(a: string, b: string)
    ensures Width(a + b) == Width(a) + Width(b)
    decreases |a|
  {
    if a == [] {
      assert a + b == b;
    } else {
      assert (a + b)[1..] == a[1..] + b;
      WidthAppend(a[1..], b);
    }
  }

  lemma {:induction false} WidthReverse(s: string)
    ensures Width(Reverse(s)) == Width(s)
    decreases |s|
  {
    if s != [] {
      WidthReverse(s[1..]);
      WidthAppend(Reverse(s[1..]), [s[0]]);
    }
  }

  /** Walking a + b is walking a, then b from where a ended. */
  lemma {:induction false} RankPiecesAppend(a: string, b: string, x: int, y: int)
    ensures RankPieces(a + b, x, y) == RankPieces(a, x, y) + RankPieces(b, x + Width(a), y)
    decreases |a|
  {
    if a == [] {
      assert a + b == b;
    } else {
      assert (a + b)[0] == a[0] && (a + b)[1..] == a[1..] + b;
      RankPiecesAppend(a[1..], b, x + Advance(a[0]), y);
    }
  }

  lemma {:induction false} BoardPiecesAppend(a: seq<string>, b: seq<string>, y: int)
    ensures BoardPieces(a + b, y) == BoardPieces(a, y) + BoardPieces(b, y + |a|)
    decreases |a|
  {
    if a == [] {
      assert a + b == b;
    } else {
      assert (a + b)[0] == a[0] && (a + b)[1..] == a[1..] + b;
      BoardPiecesAppend(a[1..], b, y + 1);
    }
  }

  /** A piece moved to the point-mirrored cell (kx - col, ky - row). */
  function MirrorPiece(p: Piece, kx: int, ky: int): Piece {
    Piece(p.letter, Cell(kx - p.at.col, ky - p.at.row))
  }

  /** The pieces in reverse order, each point-mirrored. */
  function Flipped(ps: seq<Piece>, kx: int, ky: int): (fs: seq<Piece>)
    ensures |fs| == |ps|
  {
    if ps == [] then [] else Flipped(ps[1..], kx, ky) + [MirrorPiece(ps[0], kx, ky)]
  }

  /** The i-th flipped piece is the mirrored (n-1-i)-th piece. */
  lemma {:induction false} FlippedAt(ps: seq<Piece>, kx: int, ky: int)
    ensures forall i :: 0 <= i < |ps| ==> Flipped(ps, kx, ky)[i] == MirrorPiece(ps[|ps| - 1 - i], kx, ky)
    decreases |ps|
  {
    if ps != [] {
      FlippedAt(ps[1..], kx, ky);
    }
  }

  lemma FlippedAppend(a: seq<Piece>, b: seq<Piece>, kx: int, ky: int)
    ensures Flipped(a + b, kx, ky) == Flipped(b, kx, ky) + Flipped(a, kx, ky)
  {
    var l, r := Flipped(a + b, kx, ky), Flipped(b, kx, ky) + Flipped(a, kx, ky);
    FlippedAt(a + b, kx, ky);
    FlippedAt(a, kx, ky);
    FlippedAt(b, kx, ky);
    forall i | 0 <= i < |l| ensures l[i] == r[i] {
      if i < |b| {
        assert (a + b)[|a + b| - 1 - i] == b[|b| - 1 - i];
      } else {
        assert (a + b)[|a + b| - 1 - i] == a[|a| - 1 - (i - |b|)];
      }
    }
  }

  /** One character walked at column `at` of the reversed rank: the mirror of what it gave
      at column x of the rank. */
  lemma OneCharMirrored(c: char, x: int, y: int, at: int, y': int, kx: int, ky: int)
    requires kx - x == at + Advance(c) - 1 && ky - y == y'
    ensures RankPieces([c], at, y') == Flipped(if IsDigit(c) then [] else [Piece(c, Cell(x, y))], kx, ky)
  {
    assert [c][1..] == [];
  }

  /** Walking a reversed rank string visits the same pieces in reverse order, each at the
      column mirrored across the rank's width. */
  lemma {:induction false} ReversedRankPieces(rank: string, x: int, x': int, y: int, y': int, kx: int, ky: int)
    requires kx == x + x' + Width(rank) - 1 && ky == y + y'
    ensures RankPieces(Reverse(rank), x', y') == Flipped(RankPieces(rank, x, y), kx, ky)
    decreases |rank|
  {
    if rank != [] {
      var c, rest := rank[0], rank[1..];
      var head := if IsDigit(c) then [] else [Piece(c, Cell(x, y))];
      var tail := RankPieces(rest, x + Advance(c), y);
      calc {
        RankPieces(Reverse(rank), x', y');
        { RankPiecesAppend(Reverse(rest), [c], x', y'); WidthReverse(rest); }
        RankPieces(Reverse(rest), x', y') + RankPieces([c], x' + Width(rest), y');
        { ReversedRankPieces(rest, x + Advance(c), x', y, y', kx, ky);
          OneCharMirrored(c, x, y, x' + Width(rest), y', kx, ky); }
        Flipped(tail, kx, ky) + Flipped(head, kx, ky);
        { FlippedAppend(head, tail, kx, ky); }
        Flipped(head + tail, kx, ky);
      }
      assert RankPieces(rank, x, y) == head + tail;
    }
  }

  /** A flipped list of ranks: the flip of the ranks below the first, then the first
      rank reversed, on the last row. */
  lemma FlipStep(ranks: seq<string>, y': int)
    requires ranks != []
    ensures BoardPieces(Flip(ranks), y') ==
            BoardPieces(Flip(ranks[1..]), y') + RankPieces(Reverse(ranks[0]), 0, y' + |ranks| - 1)
  {
    var r := Reverse(ranks[0]);
    assert Flip(ranks) == Flip(ranks[1..]) + [r];
    BoardPiecesAppend(Flip(ranks[1..]), [r], y');
    assert [r][1..] == [];
  }

  /** Equal widths carry over to the ranks after the first. */
  lemma RestWidths(ranks: seq<string>, w: int)
    requires ranks != [] && forall i :: 0 <= i < |ranks| ==> Width(ranks[i]) == w
    ensures forall i :: 0 <= i < |ranks[1..]| ==> Width(ranks[1..][i]) == w
  {
    forall i | 0 <= i < |ranks[1..]| ensures Width(ranks[1..][i]) == w {
      assert ranks[1..][i] == ranks[i + 1];
    }
  }

  /** On ranks of equal width kx + 1, walking the flipped ranks visits the same pieces in
      reverse order, each point-mirrored across the board. */
  lemma {:induction false} FlippedBoardPieces(ranks: seq<string>, y: int, y': int, kx: int, ky: int)
    requires forall i :: 0 <= i < |ranks| ==> Width(ranks[i]) == kx + 1
    requires ky == y + y' + |ranks| - 1
    ensures BoardPieces(Flip(ranks), y') == Flipped(BoardPieces(ranks, y), kx, ky)
    decreases |ranks|
  {
    if ranks != [] {
      var r, rest := ranks[0], ranks[1..];
      var a: seq<Piece>, b: seq<Piece> := RankPieces(r, 0, y), BoardPieces(rest, y + 1);
      assert BoardPieces(ranks, y) == a + b;
      RestWidths(ranks, kx + 1);
      FlipStep(ranks, y');
      FlippedBoardPieces(rest, y + 1, y', kx, ky);
      ReversedRankPieces(r, 0, 0, y, y' + |rest|, kx, ky);
      FlippedAppend(a, b, kx, ky);
    }
  }

  lemma EightSquaresWide(ranks: seq<string>)
    requires WellFormed(ranks)
    ensures forall i :: 0 <= i < |ranks| ==> Width(ranks[i]) == 8
  {
    forall i | 0 <= i < |ranks| ensures Width(ranks[i]) == 8 {
      assert WellFormedRank(ranks[i]);
    }
  }

  lemma FlipEightByEight(ranks: seq<string>)
    requires |ranks| == 8 && forall i :: 0 <= i < |ranks| ==> Width(ranks[i]) == 8
    ensures Decode(Flip(ranks)) == Flipped(Decode(ranks), 7, 7)
  {
    FlippedBoardPieces(ranks, 0, 0, 7, 7);
  }

  /** The flipped ranks of a well-formed field decode, like the field itself, to piece
      letters on distinct cells of the board. */
  lemma FlipWellFormedPieces(ranks: seq<string>)
    requires WellFormed(ranks)
    ensures forall p :: p in Decode(Flip(ranks)) ==> OnBoard(p.at) && IsPieceLetter(p.letter)
    ensures forall i, j :: 0 <= i < j < |Decode(Flip(ranks))| ==> Decode(Flip(ranks))[i].at != Decode(Flip(ranks))[j].at
  {
    var ps, fs := Decode(ranks), Decode(Flip(ranks));
    DecodeWellFormed(ranks);
    EightSquaresWide(ranks);
    FlipEightByEight(ranks);
    FlippedAt(ps, 7, 7);
    var n := |ps|;
    forall p | p in fs ensures OnBoard(p.at) && IsPieceLetter(p.letter) {
      var k :| 0 <= k < n && fs[k] == p;
      assert ps[n - 1 - k] in ps;
    }
    forall i, j | 0 <= i < j < n ensures fs[i].at != fs[j].at {
      assert ps[n - 1 - j].at != ps[n - 1 - i].at;
    }
  }

  /** Flip transform: on a well-formed field, a piece decoded at (x, y) is decoded at
      (7 - x, 7 - y) from the flipped ranks, and the walk meets the pieces in reverse order. */
  lemma DecodeFlip(ranks: seq<string>)
    requires WellFormed(ranks)
    ensures Decode(Flip(ranks)) == Flipped(Decode(ranks), 7, 7)
    ensures forall p :: p in Decode(ranks) ==> MirrorPiece(p, 7, 7) in Decode(Flip(ranks))
  {
    EightSquaresWide(ranks);
    FlipEightByEight(ranks);
    var ps := Decode(ranks);
    FlippedAt(ps, 7, 7);
    forall p | p in ps ensures MirrorPiece(p, 7, 7) in Decode(Flip(ranks)) {
      var k :| 0 <= k < |ps| && ps[k] == p;
      assert Decode(Flip(ranks))[|ps| - 1 - k] == MirrorPiece(p, 7, 7);
    }
  }

  /** The cell whose piece is being dragged: the origin cell while dragging, none otherwise. */
  function HiddenCell(drag: bool, origin: Option<Cell>): Option<Cell> {
    if drag then origin else None
  }

  /** The pieces drawn in place: all but the one on the hidden cell, in walk order. */
  function Visible(ps: seq<Piece>, hidden: Option<Cell>): (vs: seq<Piece>)
    ensures |vs| <= |ps|
  {
    if ps == [] then []
    else
      var last := ps[|ps| - 1];
      Visible(ps[..|ps| - 1], hidden) + (if hidden == Some(last.at) then [] else [last])
  }

  /** The letter of the piece on the hidden cell (the last one the walk meets there), if any. */
  function DraggedPiece(ps: seq<Piece>, hidden: Option<Cell>): (dragged: Option<char>)
    ensures dragged.Some? ==> hidden.Some? && Piece(dragged.value, hidden.value) in ps
  {
    if ps == [] || hidden.None? then None
    else
      var last := ps[|ps| - 1];
      if last.at == hidden.value then Some(last.letter) else DraggedPiece(ps[..|ps| - 1], hidden)
  }

  /** Drag exclusion: exactly the pieces off the hidden cell are drawn in place. */
  lemma {:induction false} VisibleMembers(ps: seq<Piece>, hidden: Option<Cell>)
    ensures forall p :: p in Visible(ps, hidden) <==> p in ps && hidden != Some(p.at)
    decreases |ps|
  {
    if ps != [] {
      var init, last := ps[..|ps| - 1], ps[|ps| - 1];
      VisibleMembers(init, hidden);
      assert ps == init + [last];
    }
  }

  /** A letter is recorded for the drag exactly when a piece stands on the hidden cell, and
      it is that piece's letter; an empty origin records nothing. */
  lemma {:induction false} DraggedPieceFound(ps: seq<Piece>, hidden: Option<Cell>)
    ensures DraggedPiece(ps, hidden).Some? <==>
      hidden.Some? && exists i :: 0 <= i < |ps| && ps[i].at == hidden.value
    decreases |ps|
  {
    if ps != [] && hidden.Some? {
      var init, last := ps[..|ps| - 1], ps[|ps| - 1];
      DraggedPieceFound(init, hidden);
      assert ps == init + [last];
      if last.at != hidden.value {
        if exists i :: 0 <= i < |ps| && ps[i].at == hidden.value {
          var i :| 0 <= i < |ps| && ps[i].at == hidden.value;
          assert init[i] == ps[i];
        }
      }
    }
  }

  /** Without a drag every piece is drawn in place. */
  lemma {:induction false} NothingHiddenWithoutDrag(ps: seq<Piece>)
    ensures Visible(ps, None) == ps && DraggedPiece(ps, None) == None
    decreases |ps|
  {
    if ps != [] {
      NothingHiddenWithoutDrag(ps[..|ps| - 1]);
    }
  }

  /** When pieces sit on distinct cells, the drag removes exactly the piece it records and
      nothing else. */
  lemma {:induction false} DragHidesOnePiece(ps: seq<Piece>, origin: Cell)
    requires forall i, j :: 0 <= i < j < |ps| ==> ps[i].at != ps[j].at
    ensures |Visible(ps, Some(origin))| + (if DraggedPiece(ps, Some(origin)).Some? then 1 else 0) == |ps|
    decreases |ps|
  {
    if ps != [] {
      var init := ps[..|ps| - 1];
      DragHidesOnePiece(init, origin);
      DraggedPieceFound(init, Some(origin));
      if ps[|ps| - 1].at == origin {
        assert forall i :: 0 <= i < |init| ==> init[i].at != origin by {
          forall i | 0 <= i < |init| ensures init[i].at != origin {
            assert init[i] == ps[i];
          }
        }
      }
    }
  }

  /** The pieces drawn in place stand on distinct cells when the decoded ones do. */
  lemma {:induction false} VisibleDistinct(ps: seq<Piece>, hidden: Option<Cell>)
    requires forall i, j :: 0 <= i < j < |ps| ==> ps[i].at != ps[j].at
    ensures forall i, j :: 0 <= i < j < |Visible(ps, hidden)| ==> Visible(ps, hidden)[i].at != Visible(ps, hidden)[j].at
    decreases |ps|
  {
    if ps != [] {
      var init, last := ps[..|ps| - 1], ps[|ps| - 1];
      forall i, j | 0 <= i < j < |init| ensures init[i].at != init[j].at {
        assert init[i] == ps[i] && init[j] == ps[j];
      }
      VisibleDistinct(init, hidden);
      VisibleMembers(init, hidden);
      var vs := Visible(init, hidden);
      forall i | 0 <= i < |vs| ensures vs[i].at != last.at {
        assert vs[i] in vs;
        var k :| 0 <= k < |init| && init[k] == vs[i];
        assert ps[k] == init[k];
      }
    }
  }

  /** One more character of a rank: the walk moves on by its advance, and a letter adds one
      piece at the cell it was on. */
  lemma RankPrefixStep(done: seq<Piece>, rank: string, j: int, y: int)
    requires 0 <= j < |rank|
    ensures Width(rank[..j + 1]) == Width(rank[..j]) + Advance(rank[j])
    ensures done + RankPieces(rank[..j + 1], 0, y) == done + RankPieces(rank[..j], 0, y) +
      (if IsDigit(rank[j]) then [] else [Piece(rank[j], Cell(Width(rank[..j]), y))])
  {
    var ch := rank[j];
    assert rank[..j + 1] == rank[..j] + [ch];
    RankPiecesAppend(rank[..j], [ch], 0, y);
    WidthAppend(rank[..j], [ch]);
    assert [ch][1..] == [];
  }

  /** One more rank: its pieces follow those of the ranks above it. */
  lemma BoardPrefixStep(ranks: seq<string>, i: int)
    requires 0 <= i < |ranks|
    ensures BoardPieces(ranks[..i + 1], 0) == BoardPieces(ranks[..i], 0) + RankPieces(ranks[i], 0, i)
  {
    assert ranks[..i + 1] == ranks[..i] + [ranks[i]];
    BoardPiecesAppend(ranks[..i], [ranks[i]], 0);
    assert [ranks[i]][1..] == [];
  }

  /** Meeting one more piece: it is drawn unless it stands on the hidden cell, in which
      case its letter becomes the dragged one. */
  lemma WalkMeetsPiece(before: seq<Piece>, p: Piece, hidden: Option<Cell>)
    ensures Visible(before + [p], hidden) == Visible(before, hidden) + (if hidden == Some(p.at) then [] else [p])
    ensures DraggedPiece(before + [p], hidden) == if hidden == Some(p.at) then Some(p.letter) else DraggedPiece(before, hidden)
  {
    assert (before + [p])[..|before|] == before;
  }

  /** The walk along one rank of `DrawBoard`, on row y after the pieces `done` of the
      ranks above: digits advance the column one square at a time, a letter is drawn at the
      current cell unless it is the dragged one, whose letter is recorded instead. */
  method PlaceRank(rank: string, y: int, drag: bool, origin: Option<Cell>, ghost done: seq<Piece>,
                   shownBefore: seq<Piece>, draggedBefore: Option<char>)
    returns (shown: seq<Piece>, dragPiece: Option<char>)
    requires drag ==> origin.Some?
    requires shownBefore == Visible(done, HiddenCell(drag, origin))
    requires draggedBefore == DraggedPiece(done, HiddenCell(drag, origin))
    ensures shown == Visible(done + RankPieces(rank, 0, y), HiddenCell(drag, origin))
    ensures dragPiece == DraggedPiece(done + RankPieces(rank, 0, y), HiddenCell(drag, origin))
  {
    ghost var hidden := HiddenCell(drag, origin);
    shown, dragPiece := shownBefore, draggedBefore;
    var x := 0;
    var j := 0;
    assert rank[..0] == [] && done + [] == done;
    while j < |rank|
      invariant 0 <= j <= |rank| && x == Width(rank[..j])
      invariant shown == Visible(done + RankPieces(rank[..j], 0, y), hidden)
      invariant dragPiece == DraggedPiece(done + RankPieces(rank[..j], 0, y), hidden)
    {
      var ch := rank[j];
      RankPrefixStep(done, rank, j, y);
      ghost var before := done + RankPieces(rank[..j], 0, y);
      if IsDigit(ch) {
        assert before + [] == before;
        var k := 0;
        while k < ch as int - '0' as int
          invariant 0 <= k <= ch as int - '0' as int && x == Width(rank[..j]) + k
        {
          x := x + 1;
          k := k + 1;
        }
      } else {
        var p := Piece(ch, Cell(x, y));
        WalkMeetsPiece(before, p, hidden);
        if drag && x == origin.value.col && y == origin.value.row {
          dragPiece := Some(ch);
        } else {
          shown := shown + [p];
        }
        x := x + 1;
      }
      j := j + 1;
    }
    assert rank[..|rank|] == rank;
  }

  /** The piece walk of `DrawBoard`: the ranks are walked in order, each starting again at
      column 0 one row lower. */
  method PlacePieces(ranks: seq<string>, drag: bool, origin: Option<Cell>)
    returns (shown: seq<Piece>, dragPiece: Option<char>)
    requires drag ==> origin.Some?
    ensures shown == Visible(Decode(ranks), HiddenCell(drag, origin))
    ensures dragPiece == DraggedPiece(Decode(ranks), HiddenCell(drag, origin))
  {
    ghost var hidden := HiddenCell(drag, origin);
    shown, dragPiece := [], None;
    var y := 0;
    var i := 0;
    while i < |ranks|
      invariant 0 <= i <= |ranks| && y == i
      invariant shown == Visible(BoardPieces(ranks[..i], 0), hidden)
      invariant dragPiece == DraggedPiece(BoardPieces(ranks[..i], 0), hidden)
    {
      shown, dragPiece := PlaceRank(ranks[i], y, drag, origin, BoardPieces(ranks[..i], 0), shown, dragPiece);
      BoardPrefixStep(ranks, i);
      y := y + 1;
      i := i + 1;
    }
    assert ranks[..|ranks|] == ranks;
  }
}
