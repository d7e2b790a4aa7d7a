/** The 8x8 board, cell positions, moves as pairs of maps, and the
    conversions between the board and its flat 64-symbol string. */
module Boards {
  import opened Pieces

  predicate IsGrid(g: seq<seq<char>>) {
    |g| == 8 && forall r :: 0 <= r < 8 ==> |g[r]| == 8
  }

  /** The board: eight rows of eight cells, row 0 first. */
  type Grid = g: seq<seq<char>> | IsGrid(g)
    witness seq(8, r => seq(8, c => '.'))

  datatype Pos = Pos(r: int, c: int)

  predicate InBoard(p: Pos) {
    0 <= p.r < 8 && 0 <= p.c < 8
  }

  function At(g: Grid, p: Pos): char
    requires InBoard(p)
  {
    g[p.r][p.c]
  }

  /** The board with the one cell `p` overwritten by `x`. */
  function SetCell(g: Grid, p: Pos, x: char): (h: Grid)
    requires InBoard(p)
    ensures At(h, p) == x
    ensures forall q :: InBoard(q) && q != p ==> At(h, q) == At(g, q)
  {
    g[p.r := g[p.r][p.c := x]]
  }

  /** A move: the new content of each touched cell (`changes`) and the content
      each of those cells had when the move was built (`undo`). */
  datatype Move = Move(changes: map<Pos, char>, undo: map<Pos, char>)

  /** `add_change`: records the cell's current content for undo, then its new content. */
  function AddChange(m: Move, g: Grid, p: Pos, piece: char): (m': Move)
    requires InBoard(p)
    ensures m'.changes.Keys == m.changes.Keys + {p} && m'.undo.Keys == m.undo.Keys + {p}
    ensures m'.changes[p] == piece && m'.undo[p] == At(g, p)
    ensures m'.changes - {p} == m.changes - {p} && m'.undo - {p} == m.undo - {p}
  {
    Move(m.changes[p := piece], m.undo[p := At(g, p)])
  }

  /** The move every generator builds: `piece` to `dest`, then '.' to `origin`,
      both snapshotted against `g`. */
  function NewMove(g: Grid, dest: Pos, piece: char, origin: Pos): Move
    requires InBoard(dest) && InBoard(origin)
  {
    AddChange(AddChange(Move(map[], map[]), g, dest, piece), g, origin, '.')
  }

  /** Every touched cell is on the board and undo covers exactly the touched cells. */
  predicate WellBuilt(m: Move) {
    (forall p | p in m.changes :: InBoard(p)) && m.changes.Keys == m.undo.Keys
  }

  /** The board after writing every entry of `w` into it. */
  function ApplyMap(g: Grid, w: map<Pos, char>): (h: Grid)
    ensures forall p :: InBoard(p) ==> At(h, p) == if p in w then w[p] else At(g, p)
  {
    seq(8, r requires 0 <= r < 8 =>
      seq(8, c requires 0 <= c < 8 => if Pos(r, c) in w then w[Pos(r, c)] else g[r][c]))
  }

  /** Two boards that agree on every cell are equal. */
  lemma SameCells(g: Grid, h: Grid)
    requires forall p :: InBoard(p) ==> At(g, p) == At(h, p)
    ensures g == h
  {
    forall r | 0 <= r < 8
      ensures g[r] == h[r]
    {
      forall c | 0 <= c < 8
        ensures g[r][c] == h[r][c]
      {
        assert At(g, Pos(r, c)) == At(h, Pos(r, c));
      }
    }
  }

  /** Writing back a move's undo values after its changes restores a board
      that held those undo values on the touched cells. */
  lemma UndoRestores(b: Grid, m: Move)
    requires WellBuilt(m)
    requires forall p | p in m.undo :: At(b, p) == m.undo[p]
    ensures ApplyMap(ApplyMap(b, m.changes), m.undo) == b
  {
    SameCells(ApplyMap(ApplyMap(b, m.changes), m.undo), b);
  }

  /** make then unmake of a freshly built move restores every cell of any board
      `b` that agrees with the construction-time board `g` on the two touched cells. */
  lemma MakeUnmakeRestores(g: Grid, b: Grid, dest: Pos, piece: char, origin: Pos)
    requires InBoard(dest) && InBoard(origin)
    requires At(b, dest) == At(g, dest) && At(b, origin) == At(g, origin)
    ensures var m := NewMove(g, dest, piece, origin);
      WellBuilt(m) && ApplyMap(ApplyMap(b, m.changes), m.undo) == b
  {
    var m := NewMove(g, dest, piece, origin);
    assert m.changes.Keys == {dest, origin} == m.undo.Keys;
    UndoRestores(b, m);
  }

  /** `get_2d_board`: cell (r, c) is character 8r + c of the string. */
  function To2D(s: string): (g: Grid)
    requires |s| >= 64
    ensures forall r, c :: 0 <= r < 8 && 0 <= c < 8 ==> g[r][c] == s[8 * r + c]
  {
    seq(8, r requires 0 <= r < 8 => s[8 * r .. 8 * r + 8])
  }

  /** The first `n` rows laid end to end. */
  function FlattenRows(g: Grid, n: nat): (s: string)
    requires n <= 8
    ensures |s| == 8 * n
  {
    if n == 0 then [] else FlattenRows(g, n - 1) + g[n - 1]
  }

  /** The flattening loop of `printout`: all 64 cells, row-major. */
  function Flatten(g: Grid): string {
    FlattenRows(g, 8)
  }

  lemma {:induction false} FlattenRowsAt(g: Grid, n: nat, r: int, c: int)
    requires n <= 8 && 0 <= r < n && 0 <= c < 8
    ensures FlattenRows(g, n)[8 * r + c] == g[r][c]
  {
    if r < n - 1 {
      FlattenRowsAt(g, n - 1, r, c);
    }
  }

  /** Flattening a loaded board gives back the loaded string. */
  lemma FlattenTo2D(s: string)
    requires |s| == 64
    ensures Flatten(To2D(s)) == s
  {
    var g := To2D(s);
    forall k | 0 <= k < 64
      ensures Flatten(g)[k] == s[k]
    {
      FlattenRowsAt(g, 8, k / 8, k % 8);
    }
  }

  /** Loading the flattened board gives back the board. */
  lemma To2DFlatten(g: Grid)
    ensures To2D(Flatten(g)) == g
  {
    var h := To2D(Flatten(g));
    forall p | InBoard(p)
      ensures At(h, p) == At(g, p)
    {
      FlattenRowsAt(g, 8, p.r, p.c);
    }
    SameCells(h, g);
  }
}
