/** `TestForEnding`: the first game-ending condition that holds, checked in a fixed order. */
module Ending {
  import opened Optional
  import opened Oracle

  /** The endings the program reports. */
  datatype Kind = FivefoldRepetition | SeventyFiveMoves | Stalemate | InsufficientMaterial | Checkmate

  /** The order in which the endings are checked; the first that holds is reported. */
  const Priority: seq<Kind> := [FivefoldRepetition, SeventyFiveMoves, Stalemate, InsufficientMaterial, Checkmate]

  predicate Holds(s: Status, k: Kind) {
    match k
    case FivefoldRepetition => s.fivefoldRepetition
    case SeventyFiveMoves => s.seventyFiveMoves
    case Stalemate => s.stalemate
    case InsufficientMaterial => s.insufficientMaterial
    case Checkmate => s.checkmate
  }

  /** The winner of a checkmate: the side that is not to move. */
  function Winner(s: Status): string {
    if s.whiteToMove then "Black" else "White"
  }

  /** The message shown for an ending. */
  function Message(k: Kind, s: Status): string {
    match k
    case FivefoldRepetition => "Game drawn by fivefold repetition."
    case SeventyFiveMoves => "Game drawn by seventy-five move rule."
    case Stalemate => "Game drawn by stalemate."
    case InsufficientMaterial => "Game drawn by insufficient material."
    case Checkmate => "Checkmate " + Winner(s) + " Wins."
  }

  /** The message of the first ending in `Priority` that holds, or none (the program's
      `False`) when no ending holds. */
  function TestForEnding(s: Status): (r: Option<string>)
    ensures r.None? <==> forall k :: !Holds(s, k)
    ensures r.Some? ==> exists i :: 0 <= i < |Priority| && FirstToHold(s, i) && r.value == Message(Priority[i], s)
  {
    if s.fivefoldRepetition then
      assert FirstToHold(s, 0); Some(Message(FivefoldRepetition, s))
    else if s.seventyFiveMoves then
      assert FirstToHold(s, 1); Some(Message(SeventyFiveMoves, s))
    else if s.stalemate then
      assert FirstToHold(s, 2); Some(Message(Stalemate, s))
    else if s.insufficientMaterial then
      assert FirstToHold(s, 3); Some(Message(InsufficientMaterial, s))
    else if s.checkmate then
      assert FirstToHold(s, 4); Some(Message(Checkmate, s))
    else None
  }

  /** The i-th ending in `Priority` holds and none checked before it does. */
  predicate FirstToHold(s: Status, i: int)
    requires 0 <= i < |Priority|
  {
    Holds(s, Priority[i]) && forall j :: 0 <= j < i ==> !Holds(s, Priority[j])
  }

  /** Different endings have different messages, so a message names its ending. */
  lemma MessagesDistinct(k: Kind, k': Kind, s: Status, s': Status)
    requires k != k'
    ensures Message(k, s) != Message(k', s')
  {
    var m, m' := Message(k, s), Message(k', s');
    if k == Checkmate {
      assert m[0] == 'C' && m'[0] == 'G';
    } else if k' == Checkmate {
      assert m[0] == 'G' && m'[0] == 'C';
    } else {
      assert m[15] != m'[15];
    }
  }

  /** Reading the reported message back: the ending it names holds and every ending
      checked before it does not. */
  lemma ReportedEndingHolds(s: Status, k: Kind)
    requires TestForEnding(s) == Some(Message(k, s))
    ensures Holds(s, k)
    ensures exists i :: 0 <= i < |Priority| && Priority[i] == k && FirstToHold(s, i)
  {
    var i :| 0 <= i < |Priority| && FirstToHold(s, i) && TestForEnding(s).value == Message(Priority[i], s);
    if Priority[i] != k {
      MessagesDistinct(Priority[i], k, s, s);
    }
  }

  /** On checkmate alone the message names the side not to move as the winner. */
  lemma CheckmateNamesWinner(s: Status)
    requires s.checkmate
    requires !s.fivefoldRepetition && !s.seventyFiveMoves && !s.stalemate && !s.insufficientMaterial
    ensures TestForEnding(s) == Some(if s.whiteToMove then "Checkmate Black Wins." else "Checkmate White Wins.")
  {
    assert "Checkmate " + "Black" + " Wins." == "Checkmate Black Wins.";
    assert "Checkmate " + "White" + " Wins." == "Checkmate White Wins.";
  }

  /** A position that is both stalemate and insufficient material is reported as stalemate. */
  lemma StalemateBeforeInsufficientMaterial(s: Status)
    requires !s.fivefoldRepetition && !s.seventyFiveMoves && s.stalemate && s.insufficientMaterial
    ensures TestForEnding(s) == Some("Game drawn by stalemate.")
  {
  }
}
