/** Piece symbols, colours and the material weight table of the engine.
    A cell holds '.' (empty), one of "PRBQKN" (White) or one of "prbqkn" (Black). */
module Pieces {

  datatype Color = White | Black

  /** The side that is not `c` (the engine's `opponent_color`). */
  function Opponent(c: Color): (o: Color)
    ensures o != c
  {
    if c == White then Black else White
  }

  /** Membership in `white_pieces`. */
  predicate IsWhite(ch: char) {
    ch == 'P' || ch == 'R' || ch == 'B' || ch == 'Q' || ch == 'K' || ch == 'N'
  }

  /** Membership in `black_pieces`. */
  predicate IsBlack(ch: char) {
    ch == 'p' || ch == 'r' || ch == 'b' || ch == 'q' || ch == 'k' || ch == 'n'
  }

  /** `ch` is a piece of the side `color`. */
  predicate IsOwn(ch: char, color: Color) {
    if color == White then IsWhite(ch) else IsBlack(ch)
  }

  /** `ch` is a piece of the side opposing `color`. */
  predicate IsEnemy(ch: char, color: Color) {
    IsOwn(ch, Opponent(color))
  }

  /** Membership in `single_move_pieces`: knights and kings never slide. */
  predicate SingleStep(ch: char) {
    ch == 'N' || ch == 'n' || ch == 'K' || ch == 'k'
  }

  predicate IsPawn(ch: char) {
    ch == 'P' || ch == 'p'
  }

  /** The `pieces_wgt` table: positive for White, negative for Black.
      Symbols outside the table, '.' among them, weigh 0. */
  function Weight(ch: char): real {
    match ch
    case 'P' => 1.0
    case 'B' => 3.5
    case 'N' => 3.5
    case 'R' => 5.25
    case 'Q' => 10.0
    case 'K' => 200.0
    case 'p' => -1.0
    case 'b' => -3.5
    case 'n' => -3.5
    case 'r' => -5.25
    case 'q' => -10.0
    case 'k' => -200.0
    case _ => 0.0
  }

  /** White's pieces weigh more than 0, Black's less than 0, every other symbol 0. */
  lemma WeightSign(ch: char)
    ensures IsWhite(ch) ==> Weight(ch) > 0.0
    ensures IsBlack(ch) ==> Weight(ch) < 0.0
    ensures !IsWhite(ch) && !IsBlack(ch) ==> Weight(ch) == 0.0
  {
  }

  function Abs(x: real): (a: real)
    ensures a >= 0.0 && (a == x || a == -x)
  {
    if x < 0.0 then -x else x
  }

  /** The capture-ordering test: the victim weighs strictly more than the attacker. */
  predicate Heavier(victim: char, attacker: char) {
    Abs(Weight(victim)) > Abs(Weight(attacker))
  }

  /** What a piece leaving its square becomes on arriving at row `row`:
      a White pawn reaching row 7 becomes 'Q', a Black pawn reaching row 0
      becomes 'q', every other piece stays what it is. */
  function Promoted(piece: char, row: int): (p: char)
    ensures piece == 'P' && row == 7 ==> p == 'Q'
    ensures piece == 'p' && row == 0 ==> p == 'q'
    ensures !(piece == 'P' && row == 7) && !(piece == 'p' && row == 0) ==> p == piece
    ensures forall color :: IsOwn(piece, color) ==> IsOwn(p, color)
  {
    if piece == 'P' && row == 7 then 'Q'
    else if piece == 'p' && row == 0 then 'q'
    else piece
  }
}
