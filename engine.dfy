/** The engine as it runs: the global board becomes the field of a `Game`,
    make/unmake write into it, the generators grow a move list, the evaluator
    accumulates over the board, and alpha-beta searches by making and
    unmaking moves. Each method is proved against the functions of the
    modules it imports. */
module Engine {
  import opened Pieces
  import opened Boards
  import opened MoveGen
  import opened Evaluation
  import opened Search
  import MoveGenFacts

  /** `get_2d_board`: row r of the board is characters 8r .. 8r + 7 of `s`. */
  method Get2DBoard(s: string) returns (g: Grid)
    requires |s| >= 64
    ensures g == To2D(s)
    ensures forall r, c :: 0 <= r < 8 && 0 <= c < 8 ==> g[r][c] == s[8 * r + c]
  {
    var tiles: seq<seq<char>> := [];
    for r := 0 to 8
      invariant |tiles| == r
      invariant forall i :: 0 <= i < r ==> tiles[i] == s[8 * i .. 8 * i + 8]
    {
      var row: seq<char> := [];
      for c := 0 to 8
        invariant row == s[8 * r .. 8 * r + c]
      {
        row := row + [s[r * 8 + c]];
      }
      tiles := tiles + [row];
    }
    g := tiles;
  }

  /** `wp_moves` as four stages, each applied to the list the previous one left. */
  lemma WhitePawnStages(g: Grid, r: int, c: int, moves: seq<Move>)
    requires InBoard(Pos(r, c)) && r + 1 < 8
    ensures var o, r1 := Pos(r, c), r + 1;
      var promo := if r1 == 7 then 'Q' else 'P';
      Into(WhitePawnAdds(g, r, c), moves)
      == Into(PawnStep(g, o, Pos(r + 2, c), 'P', r == 1 && g[2][c] == '.' && g[3][c] == '.'),
           Into(PawnStep(g, o, Pos(r1, c), promo, g[r1][c] == '.'),
             Into(PawnCapture(g, White, o, Pos(r1, c - 1), promo),
               Into(PawnCapture(g, White, o, Pos(r1, c + 1), promo), moves))))
  {
    var o, r1 := Pos(r, c), r + 1;
    var promo := if r1 == 7 then 'Q' else 'P';
    var right := PawnCapture(g, White, o, Pos(r1, c + 1), promo);
    var left := PawnCapture(g, White, o, Pos(r1, c - 1), promo);
    var push := PawnStep(g, o, Pos(r1, c), promo, g[r1][c] == '.');
    var double := PawnStep(g, o, Pos(r + 2, c), 'P', r == 1 && g[2][c] == '.' && g[3][c] == '.');
    IntoThen(right, left, moves);
    IntoThen(Then(right, left), push, moves);
    IntoThen(Then(Then(right, left), push), double, moves);
  }

  /** `bp_moves` as four stages, each applied to the list the previous one left. */
  lemma BlackPawnStages(g: Grid, r: int, c: int, moves: seq<Move>)
    requires InBoard(Pos(r, c)) && r - 1 > -1
    ensures var o, r1 := Pos(r, c), r - 1;
      var promo := if r1 == 0 then 'q' else 'p';
      Into(BlackPawnAdds(g, r, c), moves)
      == Into(PawnStep(g, o, Pos(r - 2, c), 'p', r == 6 && g[5][c] == '.' && g[4][c] == '.'),
           Into(PawnStep(g, o, Pos(r1, c), promo, g[r1][c] == '.'),
             Into(PawnCapture(g, Black, o, Pos(r1, c - 1), promo),
               Into(PawnCapture(g, Black, o, Pos(r1, c + 1), promo), moves))))
  {
    var o, r1 := Pos(r, c), r - 1;
    var promo := if r1 == 0 then 'q' else 'p';
    var right := PawnCapture(g, Black, o, Pos(r1, c + 1), promo);
    var left := PawnCapture(g, Black, o, Pos(r1, c - 1), promo);
    var push := PawnStep(g, o, Pos(r1, c), promo, g[r1][c] == '.');
    var double := PawnStep(g, o, Pos(r - 2, c), 'p', r == 6 && g[5][c] == '.' && g[4][c] == '.');
    IntoThen(right, left, moves);
    IntoThen(Then(right, left), push, moves);
    IntoThen(Then(Then(right, left), push), double, moves);
  }

  /** The slides of a four-direction list, each applied to the list the previous one left. */
  lemma DirsAddsFour(g: Grid, color: Color, r: int, c: int, d0: Dir, d1: Dir, d2: Dir, d3: Dir, moves: seq<Move>)
    requires InBoard(Pos(r, c)) && IsOwn(g[r][c], color)
    ensures Into(DirsAdds(g, color, r, c, [d0, d1, d2, d3]), moves)
      == Into(SlideAdds(g, color, r, c, d3.0, d3.1, 1),
           Into(SlideAdds(g, color, r, c, d2.0, d2.1, 1),
             Into(SlideAdds(g, color, r, c, d1.0, d1.1, 1),
               Into(SlideAdds(g, color, r, c, d0.0, d0.1, 1), moves))))
  {
    var dirs := [d0, d1, d2, d3];
    assert dirs[..3] == [d0, d1, d2] && [d0, d1, d2][..2] == [d0, d1] && [d0, d1][..1] == [d0] && [d0][..0] == [];
    var a0 := SlideAdds(g, color, r, c, d0.0, d0.1, 1);
    var a1 := SlideAdds(g, color, r, c, d1.0, d1.1, 1);
    var a2 := SlideAdds(g, color, r, c, d2.0, d2.1, 1);
    var a3 := SlideAdds(g, color, r, c, d3.0, d3.1, 1);
    assert DirsAdds(g, color, r, c, [d0]) == Then(NoMoves, a0);
    IntoThen(NoMoves, a0, moves);
    IntoNone(moves);
    IntoThen(DirsAdds(g, color, r, c, [d0]), a1, moves);
    IntoThen(DirsAdds(g, color, r, c, [d0, d1]), a2, moves);
    IntoThen(DirsAdds(g, color, r, c, [d0, d1, d2]), a3, moves);
  }

  class Game {
    /** `player_color`: the side the engine plays. */
    const player: Color
    /** The global `board`. */
    var board: Grid

    /** The script's start-up: the colour and the 64-symbol string from the
        command line, and the board loaded from it. */
    constructor(player: Color, s: string)
      requires |s| >= 64
      ensures this.player == player && board == To2D(s)
    {
      var g := Get2DBoard(s);
      this.player := player;
      board := g;
    }

    /** `Move.make`: every changed cell receives its new content. */
    method Make(m: Move)
      requires forall p | p in m.changes :: InBoard(p)
      modifies this
      ensures board == ApplyMap(old(board), m.changes)
    {
      ghost var before := board;
      var keys := m.changes.Keys;
      while keys != {}
        invariant keys <= m.changes.Keys
        invariant forall p :: InBoard(p) ==>
          At(board, p) == if p in m.changes && p !in keys then m.changes[p] else At(before, p)
        decreases keys
      {
        var p :| p in keys;
        board := SetCell(board, p, m.changes[p]);
        keys := keys - {p};
      }
      SameCells(board, ApplyMap(before, m.changes));
    }

    /** `Move.unmake`: every changed cell gets back its recorded content. */
    method Unmake(m: Move)
      requires WellBuilt(m)
      modifies this
      ensures board == ApplyMap(old(board), m.undo)
    {
      ghost var before := board;
      var keys := m.changes.Keys;
      while keys != {}
        invariant keys <= m.changes.Keys
        invariant forall p :: InBoard(p) ==>
          At(board, p) == if p in m.undo && p !in keys then m.undo[p] else At(before, p)
        decreases keys
      {
        var p :| p in keys;
        board := SetCell(board, p, m.undo[p]);
        keys := keys - {p};
      }
      SameCells(board, ApplyMap(before, m.undo));
    }

    /** `add_move_in_dir` on the list `moves`. */
    method AddMoveInDir(moves: seq<Move>, color: Color, r: int, c: int, dr: int, dc: int, depth: int)
      returns (moves': seq<Move>)
      requires SlideArgs(board, color, r, c, dr, dc, depth)
      ensures moves' == Into(SlideAdds(board, color, r, c, dr, dc, depth), moves)
      decreases 8 - depth
    {
      var g := board;
      var r1 := r + Scale(depth, dr);
      var c1 := c + Scale(depth, dc);
      IntoNone(moves);
      if !(0 <= r1 < 8) || !(0 <= c1 < 8) {
        assert SlideAdds(g, color, r, c, dr, dc, depth) == NoMoves;
        return moves;
      }
      // the player's own piece blocks the way
      if IsOwn(g[r1][c1], color) {
        assert SlideAdds(g, color, r, c, dr, dc, depth) == NoMoves;
        return moves;
      }
      // capture, in front when the victim outweighs the attacker
      if IsEnemy(g[r1][c1], color) {
        var move := Move(map[], map[]);
        move := AddChange(move, g, Pos(r1, c1), g[r][c]);
        move := AddChange(move, g, Pos(r, c), '.');
        IntoSingle(move, moves);
        assert move == NewMove(g, Pos(r1, c1), g[r][c], Pos(r, c));
        if Heavier(g[r1][c1], g[r][c]) {
          moves' := [move] + moves;
          assert moves' == Into(SlideAdds(g, color, r, c, dr, dc, depth), moves);
        } else {
          moves' := moves + [move];
          assert moves' == Into(SlideAdds(g, color, r, c, dr, dc, depth), moves);
        }
        return;
      }
      // move to the empty cell, and slide on unless the piece is a knight or a king
      if g[r1][c1] == '.' {
        var move := Move(map[], map[]);
        move := AddChange(move, g, Pos(r1, c1), g[r][c]);
        move := AddChange(move, g, Pos(r, c), '.');
        IntoSingle(move, moves);
        moves' := moves + [move];
        assert move == NewMove(g, Pos(r1, c1), g[r][c], Pos(r, c));
        if SingleStep(g[r][c]) {
          assert moves' == Into(SlideAdds(g, color, r, c, dr, dc, depth), moves);
          return;
        }
        assert Ray(r, c, dr, dc, depth) == Pos(r1, c1);
        SlideAddsOn(g, color, r, c, dr, dc, depth, move);
        ghost var rest := SlideAdds(g, color, r, c, dr, dc, depth + 1);
        IntoThen(AtBack(move), rest, moves);
        moves' := AddMoveInDir(moves', color, r, c, dr, dc, depth + 1);
        return;
      }
      assert SlideAdds(g, color, r, c, dr, dc, depth) == NoMoves;
      moves' := moves;
    }

    /** `wp_moves` on the list `moves`. */
    method WhitePawnMoves(moves: seq<Move>, r: int, c: int) returns (moves': seq<Move>)
      requires InBoard(Pos(r, c))
      ensures moves' == Into(WhitePawnAdds(board, r, c), moves)
    {
      var g := board;
      moves' := moves;
      var r1 := r + 1;
      if r1 < 8 {
        var promo := if r1 == 7 then 'Q' else 'P';
        ghost var o := Pos(r, c);
        ghost var right := PawnCapture(g, White, o, Pos(r1, c + 1), promo);
        ghost var left := PawnCapture(g, White, o, Pos(r1, c - 1), promo);
        ghost var push := PawnStep(g, o, Pos(r1, c), promo, g[r1][c] == '.');
        ghost var double := PawnStep(g, o, Pos(r + 2, c), 'P', r == 1 && g[2][c] == '.' && g[3][c] == '.');
        if c + 1 < 8 && IsBlack(g[r1][c + 1]) {
          var move := NewMove(g, Pos(r1, c + 1), promo, Pos(r, c));
          IntoSingle(move, moves');
          moves' := [move] + moves';
        } else {
          IntoNone(moves');
        }
        assert moves' == Into(right, moves);
        ghost var prev := moves';
        if c - 1 > -1 && IsBlack(g[r1][c - 1]) {
          var move := NewMove(g, Pos(r1, c - 1), promo, Pos(r, c));
          IntoSingle(move, moves');
          moves' := [move] + moves';
        } else {
          IntoNone(moves');
        }
        assert moves' == Into(left, prev);
        prev := moves';
        if g[r1][c] == '.' {
          var move := NewMove(g, Pos(r1, c), promo, Pos(r, c));
          IntoSingle(move, moves');
          moves' := moves' + [move];
        } else {
          IntoNone(moves');
        }
        assert moves' == Into(push, prev);
        prev := moves';
        if r == 1 && g[2][c] == '.' && g[3][c] == '.' {
          var move := NewMove(g, Pos(r + 2, c), 'P', Pos(r, c));
          IntoSingle(move, moves');
          moves' := moves' + [move];
        } else {
          IntoNone(moves');
        }
        assert moves' == Into(double, prev);
        WhitePawnStages(g, r, c, moves);
      } else {
        assert Into(WhitePawnAdds(g, r, c), moves) == moves;
      }
    }

    /** `bp_moves` on the list `moves`. */
    method BlackPawnMoves(moves: seq<Move>, r: int, c: int) returns (moves': seq<Move>)
      requires InBoard(Pos(r, c))
      ensures moves' == Into(BlackPawnAdds(board, r, c), moves)
    {
      var g := board;
      moves' := moves;
      var r1 := r - 1;
      if r1 > -1 {
        var promo := if r1 == 0 then 'q' else 'p';
        ghost var o := Pos(r, c);
        ghost var right := PawnCapture(g, Black, o, Pos(r1, c + 1), promo);
        ghost var left := PawnCapture(g, Black, o, Pos(r1, c - 1), promo);
        ghost var push := PawnStep(g, o, Pos(r1, c), promo, g[r1][c] == '.');
        ghost var double := PawnStep(g, o, Pos(r - 2, c), 'p', r == 6 && g[5][c] == '.' && g[4][c] == '.');
        if c + 1 < 8 && IsWhite(g[r1][c + 1]) {
          var move := NewMove(g, Pos(r1, c + 1), promo, Pos(r, c));
          IntoSingle(move, moves');
          moves' := [move] + moves';
        } else {
          IntoNone(moves');
        }
        assert moves' == Into(right, moves);
        ghost var prev := moves';
        if c - 1 > -1 && IsWhite(g[r1][c - 1]) {
          var move := NewMove(g, Pos(r1, c - 1), promo, Pos(r, c));
          IntoSingle(move, moves');
          moves' := [move] + moves';
        } else {
          IntoNone(moves');
        }
        assert moves' == Into(left, prev);
        prev := moves';
        if g[r1][c] == '.' {
          var move := NewMove(g, Pos(r1, c), promo, Pos(r, c));
          IntoSingle(move, moves');
          moves' := moves' + [move];
        } else {
          IntoNone(moves');
        }
        assert moves' == Into(push, prev);
        prev := moves';
        if r == 6 && g[5][c] == '.' && g[4][c] == '.' {
          var move := NewMove(g, Pos(r - 2, c), 'p', Pos(r, c));
          IntoSingle(move, moves');
          moves' := moves' + [move];
        } else {
          IntoNone(moves');
        }
        assert moves' == Into(double, prev);
        BlackPawnStages(g, r, c, moves);
      } else {
        assert Into(BlackPawnAdds(g, r, c), moves) == moves;
      }
    }

    /** `r_moves`: down, up, right, left. */
    method RookMoves(moves: seq<Move>, color: Color, r: int, c: int) returns (moves': seq<Move>)
      requires InBoard(Pos(r, c)) && IsOwn(board[r][c], color)
      ensures moves' == Into(RookAdds(board, color, r, c), moves)
    {
      moves' := AddMoveInDir(moves, color, r, c, 1, 0, 1);
      moves' := AddMoveInDir(moves', color, r, c, -1, 0, 1);
      moves' := AddMoveInDir(moves', color, r, c, 0, 1, 1);
      moves' := AddMoveInDir(moves', color, r, c, 0, -1, 1);
      DirsAddsFour(board, color, r, c, (1, 0), (-1, 0), (0, 1), (0, -1), moves);
    }

    /** `b_moves`: dr over (-1, 1), and for each dc over (-1, 1). */
    method BishopMoves(moves: seq<Move>, color: Color, r: int, c: int) returns (moves': seq<Move>)
      requires InBoard(Pos(r, c)) && IsOwn(board[r][c], color)
      ensures moves' == Into(BishopAdds(board, color, r, c), moves)
    {
      var g := board;
      moves' := moves;
      assert BishopSigns[..0] == [];
      IntoNone(moves);
      for i := 0 to 2
        invariant moves' == Into(DirsAdds(g, color, r, c, GridDirs(BishopSigns[..i], BishopSigns, false)), moves)
      {
        var dr := BishopSigns[i];
        ghost var before := moves';
        IntoNone(before);
        for j := 0 to 2
          invariant moves' == Into(DirsAdds(g, color, r, c, RowDirs(dr, BishopSigns[..j], false)), before)
        {
          var dc := BishopSigns[j];
          RowDirsNext(dr, BishopSigns, false, j);
          DirsAddsSnoc(g, color, r, c, RowDirs(dr, BishopSigns[..j], false), (dr, dc), before);
          moves' := AddMoveInDir(moves', color, r, c, dr, dc, 1);
        }
        assert BishopSigns[..2] == BishopSigns;
        GridDirsNext(BishopSigns, BishopSigns, false, i);
        DirsAddsAppend(g, color, r, c, GridDirs(BishopSigns[..i], BishopSigns, false), RowDirs(dr, BishopSigns, false), moves);
      }
      assert BishopSigns[..2] == BishopSigns;
      BishopLoops();
    }

    /** `q_moves`: the rook's directions, then the bishop's. */
    method QueenMoves(moves: seq<Move>, color: Color, r: int, c: int) returns (moves': seq<Move>)
      requires InBoard(Pos(r, c)) && IsOwn(board[r][c], color)
      ensures moves' == Into(QueenAdds(board, color, r, c), moves)
    {
      moves' := RookMoves(moves, color, r, c);
      moves' := BishopMoves(moves', color, r, c);
      IntoThen(RookAdds(board, color, r, c), BishopAdds(board, color, r, c), moves);
    }

    /** `n_moves`: the offsets of the 4 x 4 grid over (-2, -1, 1, 2) whose sizes
        add up to 3. */
    method KnightMoves(moves: seq<Move>, color: Color, r: int, c: int) returns (moves': seq<Move>)
      requires InBoard(Pos(r, c)) && IsOwn(board[r][c], color)
      ensures moves' == Into(KnightAdds(board, color, r, c), moves)
    {
      var g := board;
      moves' := moves;
      assert KnightSteps[..0] == [];
      IntoNone(moves);
      for i := 0 to 4
        invariant moves' == Into(DirsAdds(g, color, r, c, GridDirs(KnightSteps[..i], KnightSteps, true)), moves)
      {
        var dr := KnightSteps[i];
        ghost var before := moves';
        IntoNone(before);
        for j := 0 to 4
          invariant moves' == Into(DirsAdds(g, color, r, c, RowDirs(dr, KnightSteps[..j], true)), before)
        {
          var dc := KnightSteps[j];
          RowDirsNext(dr, KnightSteps, true, j);
          assert Admits(true, dr, dc) == (Magnitude(dr) + Magnitude(dc) == 3);
          if Magnitude(dr) + Magnitude(dc) == 3 {
            DirsAddsSnoc(g, color, r, c, RowDirs(dr, KnightSteps[..j], true), (dr, dc), before);
            moves' := AddMoveInDir(moves', color, r, c, dr, dc, 1);
          } else {
            assert RowDirs(dr, KnightSteps[..j + 1], true) == RowDirs(dr, KnightSteps[..j], true);
          }
        }
        assert KnightSteps[..4] == KnightSteps;
        GridDirsNext(KnightSteps, KnightSteps, true, i);
        DirsAddsAppend(g, color, r, c, GridDirs(KnightSteps[..i], KnightSteps, true), RowDirs(dr, KnightSteps, true), moves);
      }
      assert KnightSteps[..4] == KnightSteps;
      KnightLoops();
    }

    /** `k_moves`: every offset of the 3 x 3 grid over (-1, 0, 1). The guard
        `abs(dr) + abs(dc) is 1 or 2` reads as `(... is 1) or 2`, which is always
        true, so (0, 0) is tried as well; it yields nothing. */
    method KingMoves(moves: seq<Move>, color: Color, r: int, c: int) returns (moves': seq<Move>)
      requires InBoard(Pos(r, c)) && IsOwn(board[r][c], color)
      ensures moves' == Into(KingAdds(board, color, r, c), moves)
    {
      var g := board;
      moves' := moves;
      assert KingSteps[..0] == [];
      IntoNone(moves);
      for dr := -1 to 2
        invariant moves' == Into(DirsAdds(g, color, r, c, GridDirs(KingSteps[..dr + 1], KingSteps, false)), moves)
      {
        ghost var before := moves';
        IntoNone(before);
        for dc := -1 to 2
          invariant moves' == Into(DirsAdds(g, color, r, c, RowDirs(dr, KingSteps[..dc + 1], false)), before)
        {
          assert KingSteps[dc + 1] == dc;
          RowDirsNext(dr, KingSteps, false, dc + 1);
          DirsAddsSnoc(g, color, r, c, RowDirs(dr, KingSteps[..dc + 1], false), (dr, dc), before);
          moves' := AddMoveInDir(moves', color, r, c, dr, dc, 1);
        }
        assert KingSteps[..3] == KingSteps && KingSteps[dr + 1] == dr;
        GridDirsNext(KingSteps, KingSteps, false, dr + 1);
        DirsAddsAppend(g, color, r, c, GridDirs(KingSteps[..dr + 1], KingSteps, false), RowDirs(dr, KingSteps, false), moves);
      }
      assert KingSteps[..3] == KingSteps;
      KingLoops();
    }

    /** The per-cell dispatch of `possible_moves` for the side `color`. */
    method PieceMoves(moves: seq<Move>, color: Color, r: int, c: int) returns (moves': seq<Move>)
      requires InBoard(Pos(r, c))
      ensures moves' == Into(PieceAdds(board, color, r, c), moves)
    {
      var ch := board[r][c];
      moves' := moves;
      if color == White {
        if ch == 'P' {
          moves' := WhitePawnMoves(moves, r, c);
        } else if ch == 'R' {
          moves' := RookMoves(moves, color, r, c);
        } else if ch == 'B' {
          moves' := BishopMoves(moves, color, r, c);
        } else if ch == 'N' {
          moves' := KnightMoves(moves, color, r, c);
        } else if ch == 'Q' {
          moves' := QueenMoves(moves, color, r, c);
        } else if ch == 'K' {
          moves' := KingMoves(moves, color, r, c);
        }
      } else {
        if ch == 'p' {
          moves' := BlackPawnMoves(moves, r, c);
        } else if ch == 'r' {
          moves' := RookMoves(moves, color, r, c);
        } else if ch == 'b' {
          moves' := BishopMoves(moves, color, r, c);
        } else if ch == 'n' {
          moves' := KnightMoves(moves, color, r, c);
        } else if ch == 'q' {
          moves' := QueenMoves(moves, color, r, c);
        } else if ch == 'k' {
          moves' := KingMoves(moves, color, r, c);
        }
      }
    }

    /** `possible_moves(color)`: scan the board row by row, cell by cell. */
    method PossibleMoves(color: Color) returns (moves: seq<Move>)
      ensures moves == PossibleMovesOf(board, color)
    {
      moves := [];
      for r := 0 to 8
        invariant moves == Into(BoardAdds(board, color, r), [])
      {
        ghost var before := moves;
        for c := 0 to 8
          invariant moves == Into(RowAdds(board, color, r, c), before)
        {
          IntoThen(RowAdds(board, color, r, c), PieceAdds(board, color, r, c), before);
          moves := PieceMoves(moves, color, r, c);
        }
        IntoThen(BoardAdds(board, color, r), RowAdds(board, color, r, 8), []);
      }
    }

    /** `State.get_successors`: the moves of the side to move, the player's own
        side on the player's plies. */
    method Successors(turn: bool) returns (moves: seq<Move>)
      ensures moves == PossibleMovesOf(board, Side(player, turn))
    {
      moves := PossibleMoves(if turn then player else Opponent(player));
    }

    /** `material`. */
    method Material() returns (pts: real)
      ensures pts == MaterialOf(board, player)
    {
      var whitePts := 0.0;
      for r := 0 to 8
        invariant whitePts == BoardPoints(board, r)
      {
        var row := board[r];
        for c := 0 to 8
          invariant whitePts == BoardPoints(board, r) + RowPoints(row, c)
        {
          var piece := row[c];
          if piece != '.' {
            whitePts := whitePts + Weight(piece);
          }
        }
      }
      pts := if player == White then whitePts else -1.0 * whitePts;
    }

    /** `pawn_structure`. */
    method PawnStructure(turn: bool) returns (pts: real)
      ensures pts == PawnStructureOf(board, player, turn)
    {
      pts := 0.0;
      if turn {
        if player == White {
          for r := 0 to 8
            invariant pts == BoardSupport(board, White, r) as real
          {
            for c := 0 to 8
              invariant pts == (BoardSupport(board, White, r) + RowSupport(board, White, r, c)) as real
            {
              if board[r][c] == 'P' {
                var ur := r - 1;
                var lc := c - 1;
                var rc := c + 1;
                if 0 <= ur < 8 && 0 <= lc < 8 && board[ur][lc] == 'P' {
                  pts := pts + 1.0;
                }
                if 0 <= ur < 8 && 0 <= rc < 8 && board[ur][rc] == 'P' {
                  pts := pts + 1.0;
                }
              }
            }
          }
        } else {
          for r := 0 to 8
            invariant pts == BoardSupport(board, Black, r) as real
          {
            for c := 0 to 8
              invariant pts == (BoardSupport(board, Black, r) + RowSupport(board, Black, r, c)) as real
            {
              if board[r][c] == 'p' {
                var dr := r + 1;
                var lc := c - 1;
                var rc := c + 1;
                if 0 <= dr < 8 && 0 <= lc < 8 && board[dr][lc] == 'p' {
                  pts := pts + 1.0;
                }
                if 0 <= dr < 8 && 0 <= rc < 8 && board[dr][rc] == 'p' {
                  pts := pts + 1.0;
                }
              }
            }
          }
        }
      }
    }

    /** `mobility`. */
    method Mobility(turn: bool) returns (m: real)
      ensures m == MobilityOf(board, player, turn)
    {
      var successors := Successors(turn);
      var total := 0.0;
      for i := 0 to |successors|
        invariant total == MovesBonus(successors[..i])
      {
        var changes := successors[i].changes;
        ghost var before := total;
        var keys := changes.Keys;
        while keys != {}
          invariant keys <= changes.Keys
          invariant total + KeySum(changes, keys) == before + KeySum(changes, changes.Keys)
          decreases keys
        {
          var key :| key in keys;
          if changes[key] != '.' && changes[key] != 'K' && changes[key] != 'k' && key in SquareValues {
            total := total + SquareValues[key];
          }
          KeySumRemove(changes, keys, key);
          keys := keys - {key};
        }
        assert successors[..i + 1][..i] == successors[..i];
      }
      assert successors[..|successors|] == successors;
      m := if turn then total else -1.0 * total;
    }

    /** `evaluate`. */
    method Evaluate(turn: bool) returns (v: real)
      ensures v == EvaluateOf(board, player, turn)
    {
      var material := Material();
      var pawns := PawnStructure(turn);
      var mobility := Mobility(turn);
      v := MaterialWeight * material + PawnStructureWeight * pawns + MobilityWeight * mobility;
    }

    /** `alphabeta`: fail-soft alpha-beta over the node reached by `last`. */
    method AlphaBeta(last: Option<Move>, turn: bool, depth: nat, alpha: Score, beta: Score) returns (val: Score)
      requires Lt(alpha, beta)
      modifies this
      ensures board == old(board)
      ensures FailSoft(val, Minimax(board, player, last, turn, depth), alpha, beta)
      ensures depth == 0 || GameOver(last) ==> val == Fin(EvaluateOf(board, player, turn))
      ensures depth > 0 && !GameOver(last) && PossibleMovesOf(board, Side(player, turn)) == [] ==>
        val == if turn then NegInf else PosInf
      decreases depth, 3
    {
      if depth == 0 || GameOver(last) {
        var e := Evaluate(turn);
        return Fin(e);
      }
      var successors := Successors(turn);
      MoveGenFacts.GeneratedAllRestore(board, Side(player, turn));
      if turn {
        val := MaxNode(successors, depth, alpha, beta);
      } else {
        val := MinNode(successors, depth, alpha, beta);
      }
    }

    /** One iteration's search of a child: make the move, search the child one
        ply shallower, unmake the move. */
    method SearchChild(m: Move, turn: bool, depth: nat, alpha: Score, beta: Score) returns (v: Score)
      requires depth > 0 && Lt(alpha, beta) && WellBuilt(m)
      requires ApplyMap(ApplyMap(board, m.changes), m.undo) == board
      modifies this
      ensures board == old(board)
      ensures FailSoft(v, ChildValue(board, player, m, turn, depth - 1), alpha, beta)
      decreases depth, 0
    {
      Make(m);
      v := AlphaBeta(Some(m), turn, depth - 1, alpha, beta);
      Unmake(m);
    }

    /** One pass of the player's loop in `alphabeta`: search the child
        `successors[i]` in the window (a, beta), fold its value into `val` and
        raise `a`. Either the loop goes on with its invariant one child further,
        or it is cut with a value that bounds the node's exact value from below. */
    method MaxChild(successors: seq<Move>, i: nat, depth: nat, alpha: Score, beta: Score, val: Score, a: Score)
      returns (val': Score, a': Score)
      requires depth > 0 && i < |successors| && WellBuilt(successors[i])
      requires ApplyMap(ApplyMap(board, successors[i].changes), successors[i].undo) == board
      requires Lt(alpha, beta) && a == Max(alpha, val) && Lt(val, beta)
      requires MaxLoop(val, MaxOver(board, player, successors[..i], depth - 1), alpha)
      modifies this
      ensures board == old(board)
      ensures a' == Max(alpha, val')
      ensures Lt(val', beta) ==> MaxLoop(val', MaxOver(board, player, successors[..i + 1], depth - 1), alpha)
      ensures Le(beta, a') ==> Le(beta, val') && Le(val', MaxOver(board, player, successors, depth - 1))
      decreases depth, 1
    {
      ghost var g := board;
      var m := successors[i];
      var v := SearchChild(m, false, depth, a, beta);
      MaxAdvance(g, player, successors, depth - 1, i, alpha, beta, val, a, v);
      val' := Max(val, v);
      a' := Max(a, val');
    }

    /** One pass of the opponent's loop, the mirror of `MaxChild`. */
    method MinChild(successors: seq<Move>, i: nat, depth: nat, alpha: Score, beta: Score, val: Score, b: Score)
      returns (val': Score, b': Score)
      requires depth > 0 && i < |successors| && WellBuilt(successors[i])
      requires ApplyMap(ApplyMap(board, successors[i].changes), successors[i].undo) == board
      requires Lt(alpha, beta) && b == Min(beta, val) && Lt(alpha, val)
      requires MinLoop(val, MinOver(board, player, successors[..i], depth - 1), beta)
      modifies this
      ensures board == old(board)
      ensures b' == Min(beta, val')
      ensures Lt(alpha, val') ==> MinLoop(val', MinOver(board, player, successors[..i + 1], depth - 1), beta)
      ensures Le(b', alpha) ==> Le(val', alpha) && Le(MinOver(board, player, successors, depth - 1), val')
      decreases depth, 1
    {
      ghost var g := board;
      var m := successors[i];
      var v := SearchChild(m, true, depth, alpha, b);
      MinAdvance(g, player, successors, depth - 1, i, alpha, beta, val, b, v);
      val' := Min(val, v);
      b' := Min(b, val');
    }

    /** The player's node of `alphabeta`: the best child value, searched with
        the window's lower end raised by each child and cut once it reaches
        beta. */
    method MaxNode(successors: seq<Move>, depth: nat, alpha: Score, beta: Score) returns (val: Score)
      requires depth > 0 && Lt(alpha, beta) && MoveGenFacts.AllRestore(board, successors)
      modifies this
      ensures board == old(board)
      ensures FailSoft(val, MaxOver(board, player, successors, depth - 1), alpha, beta)
      ensures successors == [] ==> val == NegInf
      decreases depth, 2
    {
      ghost var g := board;
      val := NegInf;
      var a := alpha;
      var i := 0;
      while i < |successors|
        invariant 0 <= i <= |successors| && board == g
        invariant a == Max(alpha, val) && Lt(val, beta)
        invariant successors == [] ==> val == NegInf
        invariant MaxLoop(val, MaxOver(g, player, successors[..i], depth - 1), alpha)
        decreases |successors| - i
      {
        val, a := MaxChild(successors, i, depth, alpha, beta, val, a);
        if Le(beta, a) {
          break;
        }
        i := i + 1;
      }
      if i == |successors| {
        assert successors[..i] == successors;
      }
      MaxLoopDone(val, MaxOver(g, player, successors, depth - 1), alpha, beta);
    }

    /** The opponent's node of `alphabeta`: the worst child value for the
        player, searched with the window's upper end lowered by each child and
        cut once it reaches alpha. */
    method MinNode(successors: seq<Move>, depth: nat, alpha: Score, beta: Score) returns (val: Score)
      requires depth > 0 && Lt(alpha, beta) && MoveGenFacts.AllRestore(board, successors)
      modifies this
      ensures board == old(board)
      ensures FailSoft(val, MinOver(board, player, successors, depth - 1), alpha, beta)
      ensures successors == [] ==> val == PosInf
      decreases depth, 2
    {
      ghost var g := board;
      val := PosInf;
      var b := beta;
      var i := 0;
      while i < |successors|
        invariant 0 <= i <= |successors| && board == g
        invariant b == Min(beta, val) && Lt(alpha, val)
        invariant successors == [] ==> val == PosInf
        invariant MinLoop(val, MinOver(g, player, successors[..i], depth - 1), beta)
        decreases |successors| - i
      {
        val, b := MinChild(successors, i, depth, alpha, beta, val, b);
        if Le(b, alpha) {
          break;
        }
        i := i + 1;
      }
      if i == |successors| {
        assert successors[..i] == successors;
      }
      MinLoopDone(val, MinOver(g, player, successors, depth - 1), alpha, beta);
    }

    /** The search the driver starts at the root: the player to move, no move
        made yet, the window (-inf, +inf). It returns the exact minimax value. */
    method RootSearch(depth: nat) returns (score: Score)
      modifies this
      ensures board == old(board)
      ensures score == Minimax(board, player, None, true, depth)
    {
      score := AlphaBeta(None, true, depth, NegInf, PosInf);
      FullWindowIsExact(score, Minimax(board, player, None, true, depth));
    }

    /** The flattening loop of `printout`: the board as 64 symbols, row-major. */
    method Printout() returns (s: string)
      ensures s == Flatten(board)
      ensures To2D(s) == board
    {
      s := "";
      for r := 0 to 8
        invariant s == FlattenRows(board, r)
      {
        for c := 0 to 8
          invariant s == FlattenRows(board, r) + board[r][..c]
        {
          s := s + [board[r][c]];
        }
        assert board[r][..8] == board[r];
      }
      To2DFlatten(board);
    }
  }
}
