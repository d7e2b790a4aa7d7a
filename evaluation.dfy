/** The position evaluator: 10 x material + 1 x pawn structure + 5 x mobility,
    all in exact reals (every constant of the engine is a dyadic fraction). */
module Evaluation {
  import opened Pieces
  import opened Boards
  import opened MoveGen
  import MoveGenFacts

  const MaterialWeight: real := 10.0
  const PawnStructureWeight: real := 1.0
  const MobilityWeight: real := 5.0

  /** The side to move at a node: the player on the player's plies. */
  function Side(player: Color, turn: bool): Color {
    if turn then player else Opponent(player)
  }

  // ---------------------------------------------------------------------------
  // Material

  /** What one cell adds to White's points: '.' adds nothing. */
  function CellPoints(ch: char): real {
    if ch != '.' then Weight(ch) else 0.0
  }

  /** White's points over the first `n` cells of `row`. */
  function RowPoints(row: seq<char>, n: nat): real
    requires n <= |row|
  {
    if n == 0 then 0.0 else RowPoints(row, n - 1) + CellPoints(row[n - 1])
  }

  /** White's points over the first `n` rows. */
  function BoardPoints(g: Grid, n: nat): real
    requires n <= 8
  {
    if n == 0 then 0.0 else BoardPoints(g, n - 1) + RowPoints(g[n - 1], 8)
  }

  /** `white_pts` of `material`: the signed weight of every piece on the board. */
  function WhitePoints(g: Grid): real {
    BoardPoints(g, 8)
  }

  /** `material`: White's points, negated when the player is Black. */
  function MaterialOf(g: Grid, player: Color): real {
    if player == White then WhitePoints(g) else -1.0 * WhitePoints(g)
  }

  lemma {:induction false} RowPointsSet(row: seq<char>, n: nat, c: int, x: char)
    requires n <= |row| && 0 <= c < |row|
    ensures RowPoints(row[c := x], n)
      == RowPoints(row, n) + (if c < n then CellPoints(x) - CellPoints(row[c]) else 0.0)
  {
    if n > 0 {
      RowPointsSet(row, n - 1, c, x);
    }
  }

  lemma {:induction false} BoardPointsSet(g: Grid, n: nat, p: Pos, x: char)
    requires n <= 8 && InBoard(p)
    ensures BoardPoints(SetCell(g, p, x), n)
      == BoardPoints(g, n) + (if p.r < n then CellPoints(x) - CellPoints(At(g, p)) else 0.0)
  {
    if n > 0 {
      BoardPointsSet(g, n - 1, p, x);
      if p.r == n - 1 {
        RowPointsSet(g[p.r], 8, p.c, x);
      } else {
        assert SetCell(g, p, x)[n - 1] == g[n - 1];
      }
    }
  }

  /** Making a step writes its two cells one after the other. */
  lemma StepWritesTwoCells(g: Grid, color: Color, m: Move, o: Pos, d: Pos)
    requires Step(g, color, m, o, d)
    ensures ApplyMap(g, m.changes) == SetCell(SetCell(g, d, Promoted(At(g, o), d.r)), o, '.')
  {
    SameCells(ApplyMap(g, m.changes), SetCell(SetCell(g, d, Promoted(At(g, o), d.r)), o, '.'));
  }

  /** White's points after a generated move: the captured content of `d` and
      the mover leave, the arriving (possibly promoted) piece enters. Without a
      promotion, a capture moves the balance by exactly the victim's weight and
      a quiet move leaves it unchanged. */
  lemma MaterialAfterStep(g: Grid, color: Color, m: Move, o: Pos, d: Pos)
    requires Step(g, color, m, o, d)
    ensures WhitePoints(ApplyMap(g, m.changes)) == WhitePoints(g)
      + CellPoints(Promoted(At(g, o), d.r)) - CellPoints(At(g, o)) - CellPoints(At(g, d))
    ensures Promoted(At(g, o), d.r) == At(g, o) ==>
      WhitePoints(ApplyMap(g, m.changes)) == WhitePoints(g) - CellPoints(At(g, d))
  {
    var piece := Promoted(At(g, o), d.r);
    StepWritesTwoCells(g, color, m, o, d);
    var h := SetCell(g, d, piece);
    BoardPointsSet(g, 8, d, piece);
    BoardPointsSet(h, 8, o, '.');
    assert At(h, o) == At(g, o);
  }

  // ---------------------------------------------------------------------------
  // Pawn structure

  function PawnOf(color: Color): char {
    if color == White then 'P' else 'p'
  }

  /** The row behind a pawn of `color` standing on row `r`. */
  function Behind(color: Color, r: int): int {
    if color == White then r - 1 else r + 1
  }

  /** 1 when (rr, cc) is on the board and holds a pawn of `color`. */
  function Guard(g: Grid, color: Color, rr: int, cc: int): nat {
    if 0 <= rr < 8 && 0 <= cc < 8 && g[rr][cc] == PawnOf(color) then 1 else 0
  }

  /** For a pawn of `color` on (r, c): how many of the two diagonal cells one row
      behind it hold a pawn of `color`. */
  function Support(g: Grid, color: Color, r: int, c: int): nat
    requires InBoard(Pos(r, c))
  {
    if g[r][c] == PawnOf(color) then Guard(g, color, Behind(color, r), c - 1) + Guard(g, color, Behind(color, r), c + 1)
    else 0
  }

  function RowSupport(g: Grid, color: Color, r: int, n: int): nat
    requires 0 <= r < 8 && 0 <= n <= 8
  {
    if n == 0 then 0 else RowSupport(g, color, r, n - 1) + Support(g, color, r, n - 1)
  }

  function BoardSupport(g: Grid, color: Color, n: int): nat
    requires 0 <= n <= 8
  {
    if n == 0 then 0 else BoardSupport(g, color, n - 1) + RowSupport(g, color, n - 1, 8)
  }

  /** `pawn_structure`: the supported-pawn count of the player, on the player's
      own plies only; 0 on the opponent's plies. */
  function PawnStructureOf(g: Grid, player: Color, turn: bool): real {
    if turn then BoardSupport(g, player, 8) as real else 0.0
  }

  function RowPawns(g: Grid, color: Color, r: int, n: int): nat
    requires 0 <= r < 8 && 0 <= n <= 8
  {
    if n == 0 then 0 else RowPawns(g, color, r, n - 1) + (if g[r][n - 1] == PawnOf(color) then 1 else 0)
  }

  /** The number of pawns of `color` in the first `n` rows. */
  function BoardPawns(g: Grid, color: Color, n: int): nat
    requires 0 <= n <= 8
  {
    if n == 0 then 0 else BoardPawns(g, color, n - 1) + RowPawns(g, color, n - 1, 8)
  }

  lemma {:induction false} RowSupportBound(g: Grid, color: Color, r: int, n: int)
    requires 0 <= r < 8 && 0 <= n <= 8
    ensures RowSupport(g, color, r, n) <= 2 * RowPawns(g, color, r, n)
  {
    if n > 0 {
      RowSupportBound(g, color, r, n - 1);
    }
  }

  lemma {:induction false} BoardSupportBound(g: Grid, color: Color, n: int)
    requires 0 <= n <= 8
    ensures BoardSupport(g, color, n) <= 2 * BoardPawns(g, color, n)
  {
    if n > 0 {
      BoardSupportBound(g, color, n - 1);
      RowSupportBound(g, color, n - 1, 8);
    }
  }

  /** Pawn structure is 0 on the opponent's plies and otherwise between 0 and
      twice the number of the player's pawns. */
  lemma PawnStructureBounds(g: Grid, player: Color, turn: bool)
    ensures !turn ==> PawnStructureOf(g, player, turn) == 0.0
    ensures 0.0 <= PawnStructureOf(g, player, turn) <= 2.0 * BoardPawns(g, player, 8) as real
  {
    BoardSupportBound(g, player, 8);
  }

  // ---------------------------------------------------------------------------
  // Mobility

  /** `square_values`: bonuses of the sixteen central and eight near-central cells. */
  const SquareValues: map<Pos, real> := map[
    Pos(2, 1) := 0.25, Pos(2, 2) := 0.5, Pos(2, 3) := 0.5, Pos(2, 4) := 0.5, Pos(2, 5) := 0.5, Pos(2, 6) := 0.25,
    Pos(3, 1) := 0.25, Pos(3, 2) := 0.5, Pos(3, 3) := 1.0, Pos(3, 4) := 1.0, Pos(3, 5) := 0.5, Pos(3, 6) := 0.25,
    Pos(4, 1) := 0.25, Pos(4, 2) := 0.5, Pos(4, 3) := 1.0, Pos(4, 4) := 1.0, Pos(4, 5) := 0.5, Pos(4, 6) := 0.25,
    Pos(5, 1) := 0.25, Pos(5, 2) := 0.5, Pos(5, 3) := 0.5, Pos(5, 4) := 0.5, Pos(5, 5) := 0.5, Pos(5, 6) := 0.25
  ]

  /** The table covers rows 2..5 and columns 1..6, and every bonus is in (0, 1]. */
  lemma SquareValuesRange(p: Pos)
    ensures p in SquareValues <==> 2 <= p.r <= 5 && 1 <= p.c <= 6
    ensures p in SquareValues ==> 0.0 < SquareValues[p] <= 1.0
  {
  }

  /** What the changed cell `p` adds to mobility: its bonus, unless it is emptied
      or receives a king, or lies outside the table. */
  function Bonus(changes: map<Pos, char>, p: Pos): real
    requires p in changes
  {
    var ch := changes[p];
    if ch != '.' && ch != 'K' && ch != 'k' && p in SquareValues then SquareValues[p] else 0.0
  }

  /** The bonuses of the changed cells in `keys`, in any order. */
  ghost function KeySum(changes: map<Pos, char>, keys: set<Pos>): real
    requires keys <= changes.Keys
    decreases keys
  {
    if keys == {} then 0.0
    else
      var p :| p in keys;
      Bonus(changes, p) + KeySum(changes, keys - {p})
  }

  /** The sum does not depend on which key is taken first. */
  lemma {:induction false} KeySumRemove(changes: map<Pos, char>, keys: set<Pos>, p: Pos)
    requires keys <= changes.Keys && p in keys
    ensures KeySum(changes, keys) == Bonus(changes, p) + KeySum(changes, keys - {p})
    decreases keys
  {
    var q :| q in keys && KeySum(changes, keys) == Bonus(changes, q) + KeySum(changes, keys - {q});
    if q != p {
      KeySumRemove(changes, keys - {q}, p);
      KeySumRemove(changes, keys - {p}, q);
      assert keys - {q} - {p} == keys - {p} - {q};
    }
  }

  /** A move's contribution to mobility. */
  ghost function MoveBonus(m: Move): real {
    KeySum(m.changes, m.changes.Keys)
  }

  /** The contributions of all the moves in `ms`. */
  ghost function MovesBonus(ms: seq<Move>): real {
    if ms == [] then 0.0 else MovesBonus(ms[..|ms| - 1]) + MoveBonus(ms[|ms| - 1])
  }

  /** `mobility`: the bonuses over the successors of the node, negated on the
      opponent's plies. */
  ghost function MobilityOf(g: Grid, player: Color, turn: bool): real {
    var total := MovesBonus(PossibleMovesOf(g, Side(player, turn)));
    if turn then total else -1.0 * total
  }

  /** `evaluate`. */
  ghost function EvaluateOf(g: Grid, player: Color, turn: bool): real {
    MaterialWeight * MaterialOf(g, player)
    + PawnStructureWeight * PawnStructureOf(g, player, turn)
    + MobilityWeight * MobilityOf(g, player, turn)
  }

  /** A generated move adds the bonus of its destination, unless a king arrives
      there; its emptied origin adds nothing. */
  lemma StepBonus(g: Grid, color: Color, m: Move, o: Pos, d: Pos)
    requires Step(g, color, m, o, d)
    ensures var piece := Promoted(At(g, o), d.r);
      MoveBonus(m) == if piece != 'K' && piece != 'k' && d in SquareValues then SquareValues[d] else 0.0
  {
    assert m.changes.Keys == {o, d};
    KeySumRemove(m.changes, {o, d}, o);
    assert {o, d} - {o} == {d};
    KeySumRemove(m.changes, {d}, d);
    assert {d} - {d} == {};
  }

  /** The contributions of generated moves lie between 0 and 1 each. */
  lemma {:induction false} MovesBonusBounds(g: Grid, color: Color, ms: seq<Move>)
    requires forall m | m in ms :: PseudoLegal(g, color, m)
    ensures 0.0 <= MovesBonus(ms) <= |ms| as real
  {
    if ms != [] {
      var m := ms[|ms| - 1];
      assert m in ms;
      var o, d :| Step(g, color, m, o, d);
      StepBonus(g, color, m, o, d);
      SquareValuesRange(d);
      assert forall x | x in ms[..|ms| - 1] :: x in ms;
      MovesBonusBounds(g, color, ms[..|ms| - 1]);
    }
  }

  /** Mobility is at least 0 on the player's plies and at most 0 on the
      opponent's, and never exceeds one unit per successor in size. */
  lemma MobilityBounds(g: Grid, player: Color, turn: bool)
    ensures var n := |PossibleMovesOf(g, Side(player, turn))| as real;
      if turn then 0.0 <= MobilityOf(g, player, turn) <= n
      else -n <= MobilityOf(g, player, turn) <= 0.0
  {
    var color := Side(player, turn);
    MoveGenFacts.GeneratedArePseudoLegal(g, color);
    MovesBonusBounds(g, color, PossibleMovesOf(g, color));
  }
}
