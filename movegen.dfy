/** Move generation as functions of the board. A generator only ever inserts
    moves at index 0 of the shared list or appends them to it, so what one
    generator does to the list is described by an `Additions` value. */
module MoveGen {
  import opened Pieces
  import opened Boards

  /** `front`: the moves a generator inserted at index 0, latest insertion first;
      `back`: the moves it appended, in order. */
  datatype Additions = Additions(front: seq<Move>, back: seq<Move>)

  const NoMoves := Additions([], [])

  /** The list after the generator ran on `moves`. */
  function Into(a: Additions, moves: seq<Move>): seq<Move> {
    a.front + moves + a.back
  }

  /** Running generator `a` and then generator `b`. */
  function Then(a: Additions, b: Additions): Additions {
    Additions(b.front + a.front, a.back + b.back)
  }

  lemma IntoThen(a: Additions, b: Additions, moves: seq<Move>)
    ensures Into(Then(a, b), moves) == Into(b, Into(a, moves))
  {
  }

  function InFront(m: Move): Additions {
    Additions([m], [])
  }

  function AtBack(m: Move): Additions {
    Additions([], [m])
  }

  /** A generator that adds nothing leaves the list as it is. */
  lemma IntoNone(moves: seq<Move>)
    ensures Into(NoMoves, moves) == moves
  {
    assert [] + moves + [] == moves;
  }

  /** What `insert(0, m)` and `append(m)` do to a list. */
  lemma IntoSingle(m: Move, moves: seq<Move>)
    ensures Into(InFront(m), moves) == [m] + moves
    ensures Into(AtBack(m), moves) == moves + [m]
  {
    assert [m] + moves + [] == [m] + moves;
    assert [] + moves + [m] == moves + [m];
  }

  /** `m` is among the moves the generator `a` adds. */
  predicate Emits(a: Additions, m: Move) {
    m in a.front || m in a.back
  }

  /** A list grown by `a` from nothing holds exactly the moves `a` emits. */
  lemma EmitsInto(a: Additions, m: Move)
    ensures Emits(a, m) <==> m in Into(a, [])
  {
    assert Into(a, []) == a.front + a.back;
  }

  /** Chaining two generators emits exactly what either of them emits. */
  lemma ThenEmits(a: Additions, b: Additions, m: Move)
    ensures Emits(Then(a, b), m) <==> Emits(a, m) || Emits(b, m)
  {
  }

  /** `k * d` for k >= 0, as k additions of d: a slide walks a ray one step at a
      time, and stepping on stays linear arithmetic. */
  function Scale(k: int, d: int): int
    decreases k
  {
    if k <= 0 then 0 else Scale(k - 1, d) + d
  }

  lemma {:induction false} ScaleIsProduct(k: nat, d: int)
    ensures Scale(k, d) == k * d
  {
    if k > 0 {
      ScaleIsProduct(k - 1, d);
    }
  }

  /** The cell `k` steps from (r, c) in direction (dr, dc). */
  function Ray(r: int, c: int, dr: int, dc: int, k: int): Pos {
    Pos(r + Scale(k, dr), c + Scale(k, dc))
  }

  /** Where `add_move_in_dir` may be called: an own piece at (r, c) and a
      depth of at least 1. */
  predicate SlideArgs(g: Grid, color: Color, r: int, c: int, dr: int, dc: int, depth: int) {
    InBoard(Pos(r, c)) && IsOwn(g[r][c], color) && depth >= 1
  }

  /** k >= 1 steps of a nonzero offset move at least k away; of a zero offset,
      nowhere. */
  lemma {:induction false} ScaleBound(k: int, d: int)
    requires k >= 1
    ensures d == 0 ==> Scale(k, d) == 0
    ensures d > 0 ==> Scale(k, d) >= k
    ensures d < 0 ==> Scale(k, d) <= -k
  {
    if k > 1 {
      ScaleBound(k - 1, d);
    }
  }

  /** An in-board target other than the origin lies fewer than 8 steps away. */
  lemma SlideBound(r: int, c: int, dr: int, dc: int, depth: int)
    requires InBoard(Pos(r, c)) && depth >= 1
    requires InBoard(Ray(r, c, dr, dc, depth)) && Ray(r, c, dr, dc, depth) != Pos(r, c)
    ensures depth < 8
  {
    ScaleBound(depth, dr);
    ScaleBound(depth, dc);
  }

  /** `add_move_in_dir`: look at the cell `depth` steps away; stop at the edge or
      at an own piece; capture an enemy piece (in front when the victim is heavier
      than the attacker, else at the back) and stop; move to an empty cell (at the
      back) and, unless the piece is a knight or a king, look one step further. */
  function SlideAdds(g: Grid, color: Color, r: int, c: int, dr: int, dc: int, depth: int): Additions
    requires SlideArgs(g, color, r, c, dr, dc, depth)
    decreases 8 - depth
  {
    var r1 := r + Scale(depth, dr);
    var c1 := c + Scale(depth, dc);
    if !(0 <= r1 < 8 && 0 <= c1 < 8) then NoMoves
    else if IsOwn(g[r1][c1], color) then NoMoves
    else if IsEnemy(g[r1][c1], color) then
      var m := NewMove(g, Pos(r1, c1), g[r][c], Pos(r, c));
      if Heavier(g[r1][c1], g[r][c]) then InFront(m) else AtBack(m)
    else if g[r1][c1] == '.' then
      var m := NewMove(g, Pos(r1, c1), g[r][c], Pos(r, c));
      if SingleStep(g[r][c]) then AtBack(m)
      else
        SlideBound(r, c, dr, dc, depth);
        Then(AtBack(m), SlideAdds(g, color, r, c, dr, dc, depth + 1))
    else NoMoves
  }

  /** On an empty cell a sliding piece moves there and looks one step further. */
  lemma SlideAddsOn(g: Grid, color: Color, r: int, c: int, dr: int, dc: int, depth: int, m: Move)
    requires SlideArgs(g, color, r, c, dr, dc, depth) && !SingleStep(g[r][c])
    requires InBoard(Ray(r, c, dr, dc, depth)) && At(g, Ray(r, c, dr, dc, depth)) == '.'
    requires m == NewMove(g, Ray(r, c, dr, dc, depth), g[r][c], Pos(r, c))
    ensures depth < 8
    ensures SlideAdds(g, color, r, c, dr, dc, depth) == Then(AtBack(m), SlideAdds(g, color, r, c, dr, dc, depth + 1))
  {
    SlideBound(r, c, dr, dc, depth);
  }

  type Dir = (int, int)

  /** `add_move_in_dir` at depth 1 for each direction of `dirs` in turn. */
  function DirsAdds(g: Grid, color: Color, r: int, c: int, dirs: seq<Dir>): Additions
    requires InBoard(Pos(r, c)) && IsOwn(g[r][c], color)
  {
    if dirs == [] then NoMoves
    else
      var d := dirs[|dirs| - 1];
      Then(DirsAdds(g, color, r, c, dirs[..|dirs| - 1]), SlideAdds(g, color, r, c, d.0, d.1, 1))
  }

  /** The directions `r_moves` tries, in its order. */
  const RookDirs: seq<Dir> := [(1, 0), (-1, 0), (0, 1), (0, -1)]

  /** The directions of `b_moves`'s loops: dr over (-1, 1), then dc over (-1, 1). */
  const BishopDirs: seq<Dir> := [(-1, -1), (-1, 1), (1, -1), (1, 1)]

  /** The eight L-shaped offsets, in the order `n_moves`'s loops reach them,
      one outer iteration (one dr) per part. */
  const KnightDirs: seq<Dir> :=
    [(-2, -1), (-2, 1)] + [(-1, -2), (-1, 2)] + [(1, -2), (1, 2)] + [(2, -1), (2, 1)]

  /** All nine offsets of `k_moves`'s loops, (0, 0) included, since its guard
      `abs(dr) + abs(dc) is 1 or 2` is always truthy. */
  const KingDirs: seq<Dir> :=
    [(-1, -1), (-1, 0), (-1, 1)] + [(0, -1), (0, 0), (0, 1)] + [(1, -1), (1, 0), (1, 1)]

  /** The directions the generator of the non-pawn piece `ch` tries, in its order:
      a queen tries the rook's, then the bishop's. */
  function PieceDirs(ch: char): seq<Dir> {
    if ch == 'R' || ch == 'r' then RookDirs
    else if ch == 'B' || ch == 'b' then BishopDirs
    else if ch == 'Q' || ch == 'q' then RookDirs + BishopDirs
    else if ch == 'N' || ch == 'n' then KnightDirs
    else if ch == 'K' || ch == 'k' then KingDirs
    else []
  }

  function RookAdds(g: Grid, color: Color, r: int, c: int): Additions
    requires InBoard(Pos(r, c)) && IsOwn(g[r][c], color)
  {
    DirsAdds(g, color, r, c, RookDirs)
  }

  function BishopAdds(g: Grid, color: Color, r: int, c: int): Additions
    requires InBoard(Pos(r, c)) && IsOwn(g[r][c], color)
  {
    DirsAdds(g, color, r, c, BishopDirs)
  }

  /** `q_moves`: the rook's directions, then the bishop's. */
  function QueenAdds(g: Grid, color: Color, r: int, c: int): Additions
    requires InBoard(Pos(r, c)) && IsOwn(g[r][c], color)
  {
    Then(RookAdds(g, color, r, c), BishopAdds(g, color, r, c))
  }

  function KnightAdds(g: Grid, color: Color, r: int, c: int): Additions
    requires InBoard(Pos(r, c)) && IsOwn(g[r][c], color)
  {
    DirsAdds(g, color, r, c, KnightDirs)
  }

  function KingAdds(g: Grid, color: Color, r: int, c: int): Additions
    requires InBoard(Pos(r, c)) && IsOwn(g[r][c], color)
  {
    DirsAdds(g, color, r, c, KingDirs)
  }

  /** Running the slides of `dirs` and then the slide of direction `d`. */
  lemma DirsAddsSnoc(g: Grid, color: Color, r: int, c: int, dirs: seq<Dir>, d: Dir, moves: seq<Move>)
    requires InBoard(Pos(r, c)) && IsOwn(g[r][c], color)
    ensures Into(DirsAdds(g, color, r, c, dirs + [d]), moves)
      == Into(SlideAdds(g, color, r, c, d.0, d.1, 1), Into(DirsAdds(g, color, r, c, dirs), moves))
  {
    assert (dirs + [d])[..|dirs|] == dirs;
    IntoThen(DirsAdds(g, color, r, c, dirs), SlideAdds(g, color, r, c, d.0, d.1, 1), moves);
  }

  /** Running the slides of `a + b` is running those of `a`, then those of `b`. */
  lemma {:induction false} DirsAddsAppend(g: Grid, color: Color, r: int, c: int, a: seq<Dir>, b: seq<Dir>, moves: seq<Move>)
    requires InBoard(Pos(r, c)) && IsOwn(g[r][c], color)
    ensures Into(DirsAdds(g, color, r, c, a + b), moves)
      == Into(DirsAdds(g, color, r, c, b), Into(DirsAdds(g, color, r, c, a), moves))
    decreases |b|
  {
    if b == [] {
      assert a + b == a;
      IntoNone(Into(DirsAdds(g, color, r, c, a), moves));
    } else {
      var b', d := b[..|b| - 1], b[|b| - 1];
      assert b == b' + [d];
      assert a + b == (a + b') + [d];
      DirsAddsAppend(g, color, r, c, a, b', moves);
      DirsAddsSnoc(g, color, r, c, a + b', d, moves);
      DirsAddsSnoc(g, color, r, c, b', d, Into(DirsAdds(g, color, r, c, a), moves));
    }
  }

  /** The size of a small integer offset. */
  function Magnitude(x: int): nat {
    if x < 0 then -x else x
  }

  /** The guard of `n_moves`'s inner loop when `knightOnly` holds: the sizes of
      the offsets add up to 3. The bishop's and the king's loops take every
      offset (the king's guard `abs(dr) + abs(dc) is 1 or 2` is always truthy). */
  predicate Admits(knightOnly: bool, dr: int, dc: int) {
    !knightOnly || Magnitude(dr) + Magnitude(dc) == 3
  }

  /** The directions an inner loop visits: (dr, dc) for dc over `dcs`, in order,
      keeping those the guard admits. */
  function RowDirs(dr: int, dcs: seq<int>, knightOnly: bool): seq<Dir> {
    if dcs == [] then []
    else
      var dc := dcs[|dcs| - 1];
      RowDirs(dr, dcs[..|dcs| - 1], knightOnly) + (if Admits(knightOnly, dr, dc) then [(dr, dc)] else [])
  }

  /** The directions two nested loops visit: dr over `drs`, and for each, dc over `dcs`. */
  function GridDirs(drs: seq<int>, dcs: seq<int>, knightOnly: bool): seq<Dir> {
    if drs == [] then []
    else GridDirs(drs[..|drs| - 1], dcs, knightOnly) + RowDirs(drs[|drs| - 1], dcs, knightOnly)
  }

  lemma RowDirsNext(dr: int, dcs: seq<int>, knightOnly: bool, j: int)
    requires 0 <= j < |dcs|
    ensures Admits(knightOnly, dr, dcs[j]) ==>
      RowDirs(dr, dcs[..j + 1], knightOnly) == RowDirs(dr, dcs[..j], knightOnly) + [(dr, dcs[j])]
    ensures !Admits(knightOnly, dr, dcs[j]) ==>
      RowDirs(dr, dcs[..j + 1], knightOnly) == RowDirs(dr, dcs[..j], knightOnly)
  {
    assert dcs[..j + 1][..j] == dcs[..j];
    assert RowDirs(dr, dcs[..j], knightOnly) + [] == RowDirs(dr, dcs[..j], knightOnly);
  }

  lemma GridDirsNext(drs: seq<int>, dcs: seq<int>, knightOnly: bool, i: int)
    requires 0 <= i < |drs|
    ensures GridDirs(drs[..i + 1], dcs, knightOnly) == GridDirs(drs[..i], dcs, knightOnly) + RowDirs(drs[i], dcs, knightOnly)
  {
    assert drs[..i + 1][..i] == drs[..i];
  }

  /** The values `b_moves`'s loops take for dr and for dc. */
  const BishopSigns: seq<int> := [-1, 1]

  /** The values `n_moves`'s loops take for dr and for dc. */
  const KnightSteps: seq<int> := [-2, -1, 1, 2]

  /** The values `range(-1, 2)` of `k_moves`'s loops. */
  const KingSteps: seq<int> := [-1, 0, 1]

  /** The bishop's, the knight's and the king's tables are exactly the
      directions their nested loops visit, in the loops' order. */
  lemma BishopLoops()
    ensures GridDirs(BishopSigns, BishopSigns, false) == BishopDirs
  {
    assert BishopSigns[..1] == [-1];
    assert RowDirs(-1, BishopSigns, false) == [(-1, -1), (-1, 1)];
    assert RowDirs(1, BishopSigns, false) == [(1, -1), (1, 1)];
  }

  /** The direction (dr, dc) when the guard admits it, else nothing. */
  function Kept(knightOnly: bool, dr: int, dc: int): seq<Dir> {
    if Admits(knightOnly, dr, dc) then [(dr, dc)] else []
  }

  /** The row of a nested loop over three or four values, spelled out entry by entry. */
  lemma RowDirsUnrolled(dr: int, s: seq<int>, knightOnly: bool)
    requires |s| == 4 || |s| == 3
    ensures |s| == 3 ==>
      RowDirs(dr, s, knightOnly) == Kept(knightOnly, dr, s[0]) + Kept(knightOnly, dr, s[1]) + Kept(knightOnly, dr, s[2])
    ensures |s| == 4 ==>
      RowDirs(dr, s, knightOnly)
      == Kept(knightOnly, dr, s[0]) + Kept(knightOnly, dr, s[1]) + Kept(knightOnly, dr, s[2]) + Kept(knightOnly, dr, s[3])
  {
    assert s[..0] == [];
    RowDirsNext(dr, s, knightOnly, 0);
    RowDirsNext(dr, s, knightOnly, 1);
    RowDirsNext(dr, s, knightOnly, 2);
    if |s| == 4 {
      RowDirsNext(dr, s, knightOnly, 3);
    }
    assert s[..|s|] == s;
  }

  /** One row of `n_moves`'s loops: the two columns that make an L with `dr`. */
  lemma KnightRow(dr: int)
    requires Magnitude(dr) == 1 || Magnitude(dr) == 2
    ensures RowDirs(dr, KnightSteps, true)
      == if Magnitude(dr) == 1 then [(dr, -2), (dr, 2)] else [(dr, -1), (dr, 1)]
  {
    RowDirsUnrolled(dr, KnightSteps, true);
  }

  lemma KnightLoops()
    ensures GridDirs(KnightSteps, KnightSteps, true) == KnightDirs
  {
    var s := KnightSteps;
    assert s[..0] == [];
    GridDirsNext(s, s, true, 0);
    assert GridDirs(s[..1], s, true) == RowDirs(-2, s, true);
    GridDirsNext(s, s, true, 1);
    GridDirsNext(s, s, true, 2);
    GridDirsNext(s, s, true, 3);
    assert s[..4] == s;
    KnightRow(-2);
    KnightRow(-1);
    KnightRow(1);
    KnightRow(2);
  }

  /** One row of `k_moves`'s loops: every column offset in -1, 0, 1. */
  lemma KingRow(dr: int)
    ensures RowDirs(dr, KingSteps, false) == [(dr, -1), (dr, 0), (dr, 1)]
  {
    RowDirsUnrolled(dr, KingSteps, false);
  }

  lemma KingLoops()
    ensures GridDirs(KingSteps, KingSteps, false) == KingDirs
  {
    var s := KingSteps;
    assert s[..0] == [];
    GridDirsNext(s, s, false, 0);
    assert GridDirs(s[..1], s, false) == RowDirs(-1, s, false);
    GridDirsNext(s, s, false, 1);
    GridDirsNext(s, s, false, 2);
    assert s[..3] == s;
    KingRow(-1);
    KingRow(0);
    KingRow(1);
  }

  /** A pawn on `o` capturing diagonally onto `d`: in front, when `d` is on the
      board and holds an enemy of `color`. */
  function PawnCapture(g: Grid, color: Color, o: Pos, d: Pos, promo: char): Additions
    requires InBoard(o)
  {
    if InBoard(d) && IsEnemy(At(g, d), color) then InFront(NewMove(g, d, promo, o)) else NoMoves
  }

  /** A pawn on `o` advancing onto `d` when the path is clear: at the back. */
  function PawnStep(g: Grid, o: Pos, d: Pos, piece: char, clear: bool): Additions
    requires InBoard(o) && (clear ==> InBoard(d))
  {
    if clear then AtBack(NewMove(g, d, piece, o)) else NoMoves
  }

  /** `wp_moves`: diagonal captures of Black pieces go in front (right diagonal
      first, so the left one ends up at index 0); the push to an empty cell and
      the double step from row 1 over two empty cells go at the back. A pawn
      arriving on row 7 becomes 'Q'. */
  function WhitePawnAdds(g: Grid, r: int, c: int): Additions
    requires InBoard(Pos(r, c))
  {
    var r1 := r + 1;
    if !(r1 < 8) then NoMoves
    else
      var o := Pos(r, c);
      var promo := if r1 == 7 then 'Q' else 'P';
      Then(Then(Then(PawnCapture(g, White, o, Pos(r1, c + 1), promo),
                     PawnCapture(g, White, o, Pos(r1, c - 1), promo)),
                PawnStep(g, o, Pos(r1, c), promo, g[r1][c] == '.')),
           PawnStep(g, o, Pos(r + 2, c), 'P', r == 1 && g[2][c] == '.' && g[3][c] == '.'))
  }

  /** `bp_moves`: the mirror image for Black, moving toward row 0, capturing
      White pieces, double-stepping from row 6 and promoting to 'q' on row 0. */
  function BlackPawnAdds(g: Grid, r: int, c: int): Additions
    requires InBoard(Pos(r, c))
  {
    var r1 := r - 1;
    if !(r1 > -1) then NoMoves
    else
      var o := Pos(r, c);
      var promo := if r1 == 0 then 'q' else 'p';
      Then(Then(Then(PawnCapture(g, Black, o, Pos(r1, c + 1), promo),
                     PawnCapture(g, Black, o, Pos(r1, c - 1), promo)),
                PawnStep(g, o, Pos(r1, c), promo, g[r1][c] == '.')),
           PawnStep(g, o, Pos(r - 2, c), 'p', r == 6 && g[5][c] == '.' && g[4][c] == '.'))
  }

  /** The dispatch in `possible_moves` for the cell (r, c). */
  function PieceAdds(g: Grid, color: Color, r: int, c: int): Additions
    requires InBoard(Pos(r, c))
  {
    var ch := g[r][c];
    if color == White then
      if ch == 'P' then WhitePawnAdds(g, r, c)
      else if ch == 'R' then RookAdds(g, color, r, c)
      else if ch == 'B' then BishopAdds(g, color, r, c)
      else if ch == 'N' then KnightAdds(g, color, r, c)
      else if ch == 'Q' then QueenAdds(g, color, r, c)
      else if ch == 'K' then KingAdds(g, color, r, c)
      else NoMoves
    else
      if ch == 'p' then BlackPawnAdds(g, r, c)
      else if ch == 'r' then RookAdds(g, color, r, c)
      else if ch == 'b' then BishopAdds(g, color, r, c)
      else if ch == 'n' then KnightAdds(g, color, r, c)
      else if ch == 'q' then QueenAdds(g, color, r, c)
      else if ch == 'k' then KingAdds(g, color, r, c)
      else NoMoves
  }

  /** The cells (r, 0) .. (r, n - 1) in order. */
  function RowAdds(g: Grid, color: Color, r: int, n: int): Additions
    requires 0 <= r < 8 && 0 <= n <= 8
  {
    if n == 0 then NoMoves else Then(RowAdds(g, color, r, n - 1), PieceAdds(g, color, r, n - 1))
  }

  /** The rows 0 .. n - 1 in order. */
  function BoardAdds(g: Grid, color: Color, n: int): Additions
    requires 0 <= n <= 8
  {
    if n == 0 then NoMoves else Then(BoardAdds(g, color, n - 1), RowAdds(g, color, n - 1, 8))
  }

  /** `possible_moves(color)`: the list built by scanning the board row-major. */
  function PossibleMovesOf(g: Grid, color: Color): seq<Move> {
    Into(BoardAdds(g, color, 8), [])
  }

  // ---------------------------------------------------------------------------
  // What every generated move is

  /** `m` moves the own piece on `o` to the different cell `d`, which holds no own
      piece; `d` receives the piece (promoted when it is a pawn on its last row),
      `o` becomes empty, and undo holds both cells' contents in `g`. */
  ghost predicate Step(g: Grid, color: Color, m: Move, o: Pos, d: Pos) {
    InBoard(o) && InBoard(d) && o != d
    && IsOwn(At(g, o), color) && !IsOwn(At(g, d), color)
    && m == NewMove(g, d, Promoted(At(g, o), d.r), o)
  }

  /** The moves that go in front: an enemy piece is captured, by a pawn or by a
      piece lighter than the victim. */
  predicate Prioritized(g: Grid, color: Color, o: Pos, d: Pos)
    requires InBoard(o) && InBoard(d)
  {
    IsEnemy(At(g, d), color) && (IsPawn(At(g, o)) || Heavier(At(g, d), At(g, o)))
  }

  ghost predicate FrontMove(g: Grid, color: Color, m: Move) {
    exists o, d :: Step(g, color, m, o, d) && Prioritized(g, color, o, d)
  }

  ghost predicate BackMove(g: Grid, color: Color, m: Move) {
    exists o, d :: Step(g, color, m, o, d) && !Prioritized(g, color, o, d)
  }

  /** Everything in front is prioritized and everything at the back is not. */
  ghost predicate Ordered(g: Grid, color: Color, a: Additions) {
    (forall m | m in a.front :: FrontMove(g, color, m))
    && (forall m | m in a.back :: BackMove(g, color, m))
  }

  /** A pseudo-legal move of `color` on `g`. */
  ghost predicate PseudoLegal(g: Grid, color: Color, m: Move) {
    exists o, d :: Step(g, color, m, o, d)
  }

  lemma ThenOrdered(g: Grid, color: Color, a: Additions, b: Additions)
    requires Ordered(g, color, a) && Ordered(g, color, b)
    ensures Ordered(g, color, Then(a, b))
  {
  }

  /** Four correctly ordered generators chained as a pawn's are correctly ordered. */
  lemma ThenOrdered4(g: Grid, color: Color, a: Additions, b: Additions, x: Additions, y: Additions)
    requires Ordered(g, color, a) && Ordered(g, color, b)
    requires Ordered(g, color, x) && Ordered(g, color, y)
    ensures Ordered(g, color, Then(Then(Then(a, b), x), y))
  {
    ThenOrdered(g, color, a, b);
    ThenOrdered(g, color, Then(a, b), x);
    ThenOrdered(g, color, Then(Then(a, b), x), y);
  }

  /** The move a slide emits at `depth` steps from a non-pawn piece. */
  lemma SlideMoveIsStep(g: Grid, color: Color, r: int, c: int, dr: int, dc: int, depth: int)
    requires SlideArgs(g, color, r, c, dr, dc, depth) && !IsPawn(g[r][c])
    requires InBoard(Ray(r, c, dr, dc, depth)) && !IsOwn(At(g, Ray(r, c, dr, dc, depth)), color)
    ensures Step(g, color, NewMove(g, Ray(r, c, dr, dc, depth), g[r][c], Pos(r, c)), Pos(r, c), Ray(r, c, dr, dc, depth))
  {
    var d := Ray(r, c, dr, dc, depth);
    assert Promoted(g[r][c], d.r) == g[r][c];
  }

  lemma {:induction false} SlideOrdered(g: Grid, color: Color, r: int, c: int, dr: int, dc: int, depth: int)
    requires SlideArgs(g, color, r, c, dr, dc, depth) && !IsPawn(g[r][c])
    ensures Ordered(g, color, SlideAdds(g, color, r, c, dr, dc, depth))
    decreases 8 - depth
  {
    var r1 := r + Scale(depth, dr);
    var c1 := c + Scale(depth, dc);
    var d := Ray(r, c, dr, dc, depth);
    assert d == Pos(r1, c1);
    if !(0 <= r1 < 8 && 0 <= c1 < 8) || IsOwn(g[r1][c1], color) {
    } else if IsEnemy(g[r1][c1], color) {
      SlideMoveIsStep(g, color, r, c, dr, dc, depth);
    } else if g[r1][c1] == '.' {
      SlideMoveIsStep(g, color, r, c, dr, dc, depth);
      if !SingleStep(g[r][c]) {
        SlideBound(r, c, dr, dc, depth);
        SlideOrdered(g, color, r, c, dr, dc, depth + 1);
        ThenOrdered(g, color, AtBack(NewMove(g, d, g[r][c], Pos(r, c))), SlideAdds(g, color, r, c, dr, dc, depth + 1));
      }
    }
  }

  lemma {:induction false} DirsOrdered(g: Grid, color: Color, r: int, c: int, dirs: seq<Dir>)
    requires InBoard(Pos(r, c)) && IsOwn(g[r][c], color) && !IsPawn(g[r][c])
    ensures Ordered(g, color, DirsAdds(g, color, r, c, dirs))
  {
    if dirs != [] {
      var d := dirs[|dirs| - 1];
      DirsOrdered(g, color, r, c, dirs[..|dirs| - 1]);
      SlideOrdered(g, color, r, c, d.0, d.1, 1);
      ThenOrdered(g, color, DirsAdds(g, color, r, c, dirs[..|dirs| - 1]), SlideAdds(g, color, r, c, d.0, d.1, 1));
    }
  }

  /** A pawn's diagonal capture is a step and goes in front. */
  lemma PawnCaptureOrdered(g: Grid, color: Color, o: Pos, d: Pos, promo: char)
    requires InBoard(o) && o != d && IsPawn(At(g, o)) && IsOwn(At(g, o), color)
    requires promo == Promoted(At(g, o), d.r)
    ensures Ordered(g, color, PawnCapture(g, color, o, d, promo))
  {
    if InBoard(d) && IsEnemy(At(g, d), color) {
      assert Step(g, color, NewMove(g, d, promo, o), o, d);
    }
  }

  /** A pawn's advance onto an empty cell is a step and goes at the back. */
  lemma PawnStepOrdered(g: Grid, color: Color, o: Pos, d: Pos, piece: char, clear: bool)
    requires InBoard(o) && IsPawn(At(g, o)) && IsOwn(At(g, o), color)
    requires clear ==> InBoard(d) && o != d && At(g, d) == '.' && piece == Promoted(At(g, o), d.r)
    ensures Ordered(g, color, PawnStep(g, o, d, piece, clear))
  {
    if clear {
      assert Step(g, color, NewMove(g, d, piece, o), o, d);
    }
  }

  /** The four stages of `wp_moves` / `bp_moves` for a pawn on `o` advancing
      onto row `r1` (and, on a double step, onto row `r2`). */
  lemma PawnStagesOrdered(g: Grid, color: Color, o: Pos, r1: int, r2: int, promo: char, pawn: char,
                          push: bool, double: bool)
    requires InBoard(o) && pawn == At(g, o) && IsPawn(pawn) && IsOwn(pawn, color)
    requires 0 <= r1 < 8 && r1 != o.r && promo == Promoted(pawn, r1)
    requires push ==> At(g, Pos(r1, o.c)) == '.'
    requires double ==> 0 <= r2 < 8 && r2 != o.r && At(g, Pos(r2, o.c)) == '.' && pawn == Promoted(pawn, r2)
    ensures Ordered(g, color,
      Then(Then(Then(PawnCapture(g, color, o, Pos(r1, o.c + 1), promo),
                     PawnCapture(g, color, o, Pos(r1, o.c - 1), promo)),
                PawnStep(g, o, Pos(r1, o.c), promo, push)),
           PawnStep(g, o, Pos(r2, o.c), pawn, double)))
  {
    PawnCaptureOrdered(g, color, o, Pos(r1, o.c + 1), promo);
    PawnCaptureOrdered(g, color, o, Pos(r1, o.c - 1), promo);
    PawnStepOrdered(g, color, o, Pos(r1, o.c), promo, push);
    PawnStepOrdered(g, color, o, Pos(r2, o.c), pawn, double);
    ThenOrdered4(g, color, PawnCapture(g, color, o, Pos(r1, o.c + 1), promo),
                 PawnCapture(g, color, o, Pos(r1, o.c - 1), promo),
                 PawnStep(g, o, Pos(r1, o.c), promo, push), PawnStep(g, o, Pos(r2, o.c), pawn, double));
  }

  lemma WhitePawnOrdered(g: Grid, r: int, c: int)
    requires InBoard(Pos(r, c)) && g[r][c] == 'P'
    ensures Ordered(g, White, WhitePawnAdds(g, r, c))
  {
    if r + 1 < 8 {
      var o := Pos(r, c);
      var promo := if r + 1 == 7 then 'Q' else 'P';
      assert promo == Promoted('P', r + 1);
      PawnStagesOrdered(g, White, o, r + 1, r + 2, promo, 'P',
                        g[r + 1][c] == '.', r == 1 && g[2][c] == '.' && g[3][c] == '.');
      assert WhitePawnAdds(g, r, c)
        == Then(Then(Then(PawnCapture(g, White, o, Pos(r + 1, c + 1), promo),
                          PawnCapture(g, White, o, Pos(r + 1, c - 1), promo)),
                     PawnStep(g, o, Pos(r + 1, c), promo, g[r + 1][c] == '.')),
                PawnStep(g, o, Pos(r + 2, c), 'P', r == 1 && g[2][c] == '.' && g[3][c] == '.'));
    }
  }

  lemma BlackPawnOrdered(g: Grid, r: int, c: int)
    requires InBoard(Pos(r, c)) && g[r][c] == 'p'
    ensures Ordered(g, Black, BlackPawnAdds(g, r, c))
  {
    if r - 1 > -1 {
      var o := Pos(r, c);
      var promo := if r - 1 == 0 then 'q' else 'p';
      assert promo == Promoted('p', r - 1);
      PawnStagesOrdered(g, Black, o, r - 1, r - 2, promo, 'p',
                        g[r - 1][c] == '.', r == 6 && g[5][c] == '.' && g[4][c] == '.');
      assert BlackPawnAdds(g, r, c)
        == Then(Then(Then(PawnCapture(g, Black, o, Pos(r - 1, c + 1), promo),
                          PawnCapture(g, Black, o, Pos(r - 1, c - 1), promo)),
                     PawnStep(g, o, Pos(r - 1, c), promo, g[r - 1][c] == '.')),
                PawnStep(g, o, Pos(r - 2, c), 'p', r == 6 && g[5][c] == '.' && g[4][c] == '.'));
    }
  }

  lemma PieceOrdered(g: Grid, color: Color, r: int, c: int)
    requires InBoard(Pos(r, c))
    ensures Ordered(g, color, PieceAdds(g, color, r, c))
  {
    var ch := g[r][c];
    if (color == White && ch == 'P') {
      WhitePawnOrdered(g, r, c);
    } else if (color == Black && ch == 'p') {
      BlackPawnOrdered(g, r, c);
    } else if IsOwn(ch, color) {
      DirsOrdered(g, color, r, c, RookDirs);
      DirsOrdered(g, color, r, c, BishopDirs);
      DirsOrdered(g, color, r, c, KnightDirs);
      DirsOrdered(g, color, r, c, KingDirs);
    }
  }

  lemma {:induction false} RowOrdered(g: Grid, color: Color, r: int, n: int)
    requires 0 <= r < 8 && 0 <= n <= 8
    ensures Ordered(g, color, RowAdds(g, color, r, n))
  {
    if n > 0 {
      RowOrdered(g, color, r, n - 1);
      PieceOrdered(g, color, r, n - 1);
    }
  }

  lemma {:induction false} BoardOrdered(g: Grid, color: Color, n: int)
    requires 0 <= n <= 8
    ensures Ordered(g, color, BoardAdds(g, color, n))
  {
    if n > 0 {
      BoardOrdered(g, color, n - 1);
      RowOrdered(g, color, n - 1, 8);
    }
  }

  ghost predicate AllFront(g: Grid, color: Color, ms: seq<Move>) {
    forall m | m in ms :: FrontMove(g, color, m)
  }

  ghost predicate AllBack(g: Grid, color: Color, ms: seq<Move>) {
    forall m | m in ms :: BackMove(g, color, m)
  }

  /** The generated list splits into a prefix of prioritized captures and a
      suffix of everything else. */
  lemma PossibleMovesOrdered(g: Grid, color: Color)
    ensures var ms := PossibleMovesOf(g, color);
      exists k :: 0 <= k <= |ms| && AllFront(g, color, ms[..k]) && AllBack(g, color, ms[k..])
  {
    var a := BoardAdds(g, color, 8);
    BoardOrdered(g, color, 8);
    var ms := PossibleMovesOf(g, color);
    assert ms == a.front + a.back;
    var k := |a.front|;
    assert ms[..k] == a.front && ms[k..] == a.back;
  }
}

module MoveGenFacts {
  import opened Pieces
  import opened Boards
  import opened MoveGen

  /** What a step's move writes and remembers. */
  lemma StepFacts(g: Grid, color: Color, m: Move, o: Pos, d: Pos)
    requires Step(g, color, m, o, d)
    ensures WellBuilt(m) && m.changes.Keys == {o, d} && |m.changes| == 2
    ensures m.changes[o] == '.' && m.changes[d] == Promoted(At(g, o), d.r)
    ensures IsOwn(m.changes[d], color)
    ensures forall p | p in m.undo :: m.undo[p] == At(g, p)
  {
    assert m.changes.Keys == {o, d};
  }

  /** A move determines its origin and destination. */
  lemma StepUnique(g: Grid, color: Color, m: Move, o: Pos, d: Pos, o': Pos, d': Pos)
    requires Step(g, color, m, o, d) && Step(g, color, m, o', d')
    ensures o == o' && d == d'
  {
    StepFacts(g, color, m, o, d);
    StepFacts(g, color, m, o', d');
  }

  /** A pseudo-legal move is either a front move or a back move, never both. */
  lemma FrontIffNotBack(g: Grid, color: Color, m: Move)
    requires PseudoLegal(g, color, m)
    ensures FrontMove(g, color, m) <==> !BackMove(g, color, m)
  {
    var o, d :| Step(g, color, m, o, d);
    if FrontMove(g, color, m) && BackMove(g, color, m) {
      var o1, d1 :| Step(g, color, m, o1, d1) && Prioritized(g, color, o1, d1);
      var o2, d2 :| Step(g, color, m, o2, d2) && !Prioritized(g, color, o2, d2);
      StepUnique(g, color, m, o1, d1, o2, d2);
    }
  }

  /** Every generated move is pseudo-legal: an own piece moves from its cell to a
      different in-board cell holding no own piece, leaving '.' behind and arriving
      as itself, or as a queen when it is a pawn reaching its last row. */
  lemma GeneratedArePseudoLegal(g: Grid, color: Color)
    ensures forall m | m in PossibleMovesOf(g, color) :: PseudoLegal(g, color, m)
  {
    BoardOrdered(g, color, 8);
  }

  /** Every generated move touches exactly two in-board cells, its undo holds the
      generation-time contents of both, and make followed by unmake gives back the
      board: on `g` itself and on any board agreeing with `g` on those two cells. */
  lemma GeneratedMoveRestores(g: Grid, color: Color, m: Move, b: Grid)
    requires m in PossibleMovesOf(g, color)
    requires forall p | InBoard(p) && p in m.changes :: At(b, p) == At(g, p)
    ensures WellBuilt(m) && |m.changes| == 2
    ensures forall p | p in m.undo :: m.undo[p] == At(g, p)
    ensures ApplyMap(ApplyMap(b, m.changes), m.undo) == b
  {
    GeneratedArePseudoLegal(g, color);
    var o, d :| Step(g, color, m, o, d);
    StepFacts(g, color, m, o, d);
    UndoRestores(b, m);
  }

  /** Every move of `ms` is well built, and making then unmaking it gives `g` back. */
  ghost predicate AllRestore(g: Grid, ms: seq<Move>) {
    forall i | 0 <= i < |ms| :: WellBuilt(ms[i]) && ApplyMap(ApplyMap(g, ms[i].changes), ms[i].undo) == g
  }

  /** The whole generated list can be searched by make / unmake on `g`. */
  lemma GeneratedAllRestore(g: Grid, color: Color)
    ensures AllRestore(g, PossibleMovesOf(g, color))
  {
    var ms := PossibleMovesOf(g, color);
    forall i | 0 <= i < |ms|
      ensures WellBuilt(ms[i]) && ApplyMap(ApplyMap(g, ms[i].changes), ms[i].undo) == g
    {
      GeneratedMoveRestores(g, color, ms[i], g);
    }
  }

  /** `ms[..k]` and `ms[k..]` split the list into prioritized captures and the rest;
      a generated move is among the first `k` exactly when it is prioritized. */
  lemma PossibleMovesFrontIff(g: Grid, color: Color, k: int, i: int)
    requires var ms := PossibleMovesOf(g, color);
      0 <= k <= |ms| && AllFront(g, color, ms[..k]) && AllBack(g, color, ms[k..])
    requires 0 <= i < |PossibleMovesOf(g, color)|
    ensures i < k <==> FrontMove(g, color, PossibleMovesOf(g, color)[i])
  {
    var ms := PossibleMovesOf(g, color);
    GeneratedArePseudoLegal(g, color);
    FrontIffNotBack(g, color, ms[i]);
    if i < k {
      assert ms[i] in ms[..k];
    } else {
      assert ms[i] in ms[k..];
    }
  }

  /** The cell `k` steps along (dr, dc) from (r, c) is one a slide started at
      `depth` reaches: every cell before it (from `depth` on) is empty, it is on
      the board and empty or holds an enemy piece, and a knight or a king looks
      at `depth` only. */
  ghost predicate SlideReaches(g: Grid, color: Color, r: int, c: int, dr: int, dc: int, depth: int, k: int)
    requires InBoard(Pos(r, c))
  {
    depth <= k && InBoard(Ray(r, c, dr, dc, k))
    && (At(g, Ray(r, c, dr, dc, k)) == '.' || IsEnemy(At(g, Ray(r, c, dr, dc, k)), color))
    && EmptyBefore(g, r, c, dr, dc, depth, k)
    && (SingleStep(g[r][c]) ==> k == depth)
  }

  /** Every cell from `depth` to `k - 1` steps along (dr, dc) is on the board and empty. */
  ghost predicate EmptyBefore(g: Grid, r: int, c: int, dr: int, dc: int, depth: int, k: int) {
    forall j :: depth <= j < k ==> InBoard(Ray(r, c, dr, dc, j)) && At(g, Ray(r, c, dr, dc, j)) == '.'
  }

  /** `m` moves the piece at (r, c) onto a cell the slide started at `depth` reaches. */
  ghost predicate SlideLandsOn(g: Grid, color: Color, r: int, c: int, dr: int, dc: int, depth: int, m: Move)
    requires InBoard(Pos(r, c))
  {
    exists k :: SlideReaches(g, color, r, c, dr, dc, depth, k) && m == NewMove(g, Ray(r, c, dr, dc, k), g[r][c], Pos(r, c))
  }

  /** The first cell of a slide is reached when it is on the board and empty or
      holds an enemy piece. */
  lemma SlideReachesFirst(g: Grid, color: Color, r: int, c: int, dr: int, dc: int, depth: int)
    requires InBoard(Pos(r, c)) && InBoard(Ray(r, c, dr, dc, depth))
    requires At(g, Ray(r, c, dr, dc, depth)) == '.' || IsEnemy(At(g, Ray(r, c, dr, dc, depth)), color)
    ensures SlideReaches(g, color, r, c, dr, dc, depth, depth)
  {
  }

  /** A cell beyond the first is reached exactly when the first cell is empty,
      the piece slides, and the slide from the next cell reaches it. */
  lemma SlideReachesStep(g: Grid, color: Color, r: int, c: int, dr: int, dc: int, depth: int, k: int)
    requires InBoard(Pos(r, c)) && depth < k
    ensures SlideReaches(g, color, r, c, dr, dc, depth, k) <==>
      InBoard(Ray(r, c, dr, dc, depth)) && At(g, Ray(r, c, dr, dc, depth)) == '.' && !SingleStep(g[r][c])
      && SlideReaches(g, color, r, c, dr, dc, depth + 1, k)
  {
  }

  /** One step of `SlideStopsAtFirstPiece`: past an empty cell, a move the slide
      emits is the move onto that cell or one the rest of the slide emits. */
  lemma SlideOnStops(g: Grid, color: Color, r: int, c: int, dr: int, dc: int, depth: int, m0: Move, m: Move)
    requires SlideArgs(g, color, r, c, dr, dc, depth) && !SingleStep(g[r][c]) && depth < 8
    requires InBoard(Ray(r, c, dr, dc, depth)) && At(g, Ray(r, c, dr, dc, depth)) == '.'
    requires m0 == NewMove(g, Ray(r, c, dr, dc, depth), g[r][c], Pos(r, c))
    requires SlideAdds(g, color, r, c, dr, dc, depth) == Then(AtBack(m0), SlideAdds(g, color, r, c, dr, dc, depth + 1))
    requires Emits(SlideAdds(g, color, r, c, dr, dc, depth + 1), m) ==>
      SlideLandsOn(g, color, r, c, dr, dc, depth + 1, m)
    ensures Emits(SlideAdds(g, color, r, c, dr, dc, depth), m) ==>
      SlideLandsOn(g, color, r, c, dr, dc, depth, m)
  {
    var rest := SlideAdds(g, color, r, c, dr, dc, depth + 1);
    ThenEmits(AtBack(m0), rest, m);
    if m == m0 {
      SlideReachesFirst(g, color, r, c, dr, dc, depth);
      assert SlideLandsOn(g, color, r, c, dr, dc, depth, m);
    } else if Emits(rest, m) {
      var k :| SlideReaches(g, color, r, c, dr, dc, depth + 1, k) && m == NewMove(g, Ray(r, c, dr, dc, k), g[r][c], Pos(r, c));
      SlideReachesStep(g, color, r, c, dr, dc, depth, k);
      assert SlideLandsOn(g, color, r, c, dr, dc, depth, m);
    }
  }

  /** Slides stop at the first piece: every move a slide emits lands on a cell
      it reaches, and carries the piece there from (r, c). */
  lemma {:induction false} SlideStopsAtFirstPiece(g: Grid, color: Color, r: int, c: int, dr: int, dc: int, depth: int, m: Move)
    requires SlideArgs(g, color, r, c, dr, dc, depth)
    ensures Emits(SlideAdds(g, color, r, c, dr, dc, depth), m) ==>
      SlideLandsOn(g, color, r, c, dr, dc, depth, m)
    decreases 8 - depth
  {
    if depth < 8 {
      SlideStopsAtFirstPiece(g, color, r, c, dr, dc, depth + 1, m);
    }
    SlideStopsStep(g, color, r, c, dr, dc, depth, m);
  }

  /** The case analysis of `SlideStopsAtFirstPiece` at one depth, given what it
      states one step further. */
  lemma SlideStopsStep(g: Grid, color: Color, r: int, c: int, dr: int, dc: int, depth: int, m: Move)
    requires SlideArgs(g, color, r, c, dr, dc, depth)
    requires depth < 8 ==> Emits(SlideAdds(g, color, r, c, dr, dc, depth + 1), m) ==>
      SlideLandsOn(g, color, r, c, dr, dc, depth + 1, m)
    ensures Emits(SlideAdds(g, color, r, c, dr, dc, depth), m) ==>
      SlideLandsOn(g, color, r, c, dr, dc, depth, m)
  {
    var r1 := r + Scale(depth, dr);
    var c1 := c + Scale(depth, dc);
    var d := Ray(r, c, dr, dc, depth);
    assert d == Pos(r1, c1);
    if !(0 <= r1 < 8 && 0 <= c1 < 8) || IsOwn(g[r1][c1], color) {
      assert SlideAdds(g, color, r, c, dr, dc, depth) == NoMoves;
    } else if IsEnemy(g[r1][c1], color) || g[r1][c1] == '.' {
      var m0 := NewMove(g, d, g[r][c], Pos(r, c));
      if g[r1][c1] == '.' && !SingleStep(g[r][c]) {
        SlideAddsOn(g, color, r, c, dr, dc, depth, m0);
        SlideOnStops(g, color, r, c, dr, dc, depth, m0, m);
      } else {
        assert SlideAdds(g, color, r, c, dr, dc, depth) in {InFront(m0), AtBack(m0)};
        if m == m0 {
          SlideReachesFirst(g, color, r, c, dr, dc, depth);
          assert SlideLandsOn(g, color, r, c, dr, dc, depth, m);
        }
      }
    } else {
      assert SlideAdds(g, color, r, c, dr, dc, depth) == NoMoves;
    }
  }

  /** The king's (0, 0) direction never yields a move. */
  lemma KingStandStillIsEmpty(g: Grid, color: Color, r: int, c: int)
    requires InBoard(Pos(r, c)) && IsOwn(g[r][c], color)
    ensures SlideAdds(g, color, r, c, 0, 0, 1) == NoMoves
  {
  }

  /** Two captures that only insert in front, then two steps that only append. */
  lemma PawnThen(right: Additions, left: Additions, push: Additions, double: Additions)
    requires right.back == [] && left.back == [] && push.front == [] && double.front == []
    ensures Then(Then(Then(right, left), push), double) == Additions(left.front + right.front, push.back + double.back)
  {
    assert [] + ([] + (left.front + right.front)) == left.front + right.front;
    assert [] + [] + push.back + double.back == push.back + double.back;
  }

  /** What one diagonal capture inserts in front: the capture, exactly when
      `d` is on the board and holds an enemy piece. */
  lemma PawnCaptureFront(g: Grid, color: Color, o: Pos, d: Pos, promo: char, m: Move)
    requires InBoard(o)
    ensures m in PawnCapture(g, color, o, d, promo).front <==>
      InBoard(d) && IsEnemy(g[d.r][d.c], color) && m == NewMove(g, d, promo, o)
  {
  }

  /** The four stages of a pawn generator for a pawn on `o` advancing onto row
      `r1` (and, on a double step, onto row `r2`): in front exactly the two
      diagonal captures that find an enemy piece, later one first; at the back
      exactly the push and the double step whose paths are clear. */
  lemma PawnStagesAdds(g: Grid, color: Color, o: Pos, r1: int, r2: int, promo: char, pawn: char,
                       push: bool, double: bool, m: Move)
    requires InBoard(o) && (push ==> InBoard(Pos(r1, o.c))) && (double ==> InBoard(Pos(r2, o.c)))
    ensures var a := Then(Then(Then(PawnCapture(g, color, o, Pos(r1, o.c + 1), promo),
                                    PawnCapture(g, color, o, Pos(r1, o.c - 1), promo)),
                               PawnStep(g, o, Pos(r1, o.c), promo, push)),
                          PawnStep(g, o, Pos(r2, o.c), pawn, double));
      (m in a.front <==>
        (InBoard(Pos(r1, o.c + 1)) && IsEnemy(At(g, Pos(r1, o.c + 1)), color) && m == NewMove(g, Pos(r1, o.c + 1), promo, o))
        || (InBoard(Pos(r1, o.c - 1)) && IsEnemy(At(g, Pos(r1, o.c - 1)), color) && m == NewMove(g, Pos(r1, o.c - 1), promo, o)))
      && (m in a.back <==>
        (push && m == NewMove(g, Pos(r1, o.c), promo, o)) || (double && m == NewMove(g, Pos(r2, o.c), pawn, o)))
  {
    var right := PawnCapture(g, color, o, Pos(r1, o.c + 1), promo);
    var left := PawnCapture(g, color, o, Pos(r1, o.c - 1), promo);
    var step := PawnStep(g, o, Pos(r1, o.c), promo, push);
    var jump := PawnStep(g, o, Pos(r2, o.c), pawn, double);
    PawnThen(right, left, step, jump);
    PawnCaptureFront(g, color, o, Pos(r1, o.c + 1), promo, m);
    PawnCaptureFront(g, color, o, Pos(r1, o.c - 1), promo, m);
  }

  /** `wp_moves` in words, its front: exactly the diagonal captures of Black
      pieces, promoted on row 7. */
  lemma WhitePawnFront(g: Grid, r: int, c: int, m: Move)
    requires InBoard(Pos(r, c))
    ensures m in WhitePawnAdds(g, r, c).front <==>
      r + 1 < 8 && ((c + 1 < 8 && IsBlack(g[r + 1][c + 1]) && m == NewMove(g, Pos(r + 1, c + 1), Promoted('P', r + 1), Pos(r, c)))
      || (c - 1 >= 0 && IsBlack(g[r + 1][c - 1]) && m == NewMove(g, Pos(r + 1, c - 1), Promoted('P', r + 1), Pos(r, c))))
  {
    if r + 1 < 8 {
      var o := Pos(r, c);
      var promo := if r + 1 == 7 then 'Q' else 'P';
      assert promo == Promoted('P', r + 1);
      PawnStagesAdds(g, White, o, r + 1, r + 2, promo, 'P', g[r + 1][c] == '.', r == 1 && g[2][c] == '.' && g[3][c] == '.', m);
      assert WhitePawnAdds(g, r, c)
        == Then(Then(Then(PawnCapture(g, White, o, Pos(r + 1, c + 1), promo),
                          PawnCapture(g, White, o, Pos(r + 1, c - 1), promo)),
                     PawnStep(g, o, Pos(r + 1, c), promo, g[r + 1][c] == '.')),
                PawnStep(g, o, Pos(r + 2, c), 'P', r == 1 && g[2][c] == '.' && g[3][c] == '.'));
      if c + 1 < 8 {
        assert IsEnemy(At(g, Pos(r + 1, c + 1)), White) == IsBlack(g[r + 1][c + 1]);
      }
      if c - 1 >= 0 {
        assert IsEnemy(At(g, Pos(r + 1, c - 1)), White) == IsBlack(g[r + 1][c - 1]);
      }
    }
  }

  /** `wp_moves` in words, its back: exactly the push onto an empty cell and the
      double step from row 1, which needs both cells ahead empty and lands a plain 'P'. */
  lemma WhitePawnBack(g: Grid, r: int, c: int, m: Move)
    requires InBoard(Pos(r, c))
    ensures m in WhitePawnAdds(g, r, c).back <==>
      (r + 1 < 8 && g[r + 1][c] == '.' && m == NewMove(g, Pos(r + 1, c), Promoted('P', r + 1), Pos(r, c)))
      || (r == 1 && g[2][c] == '.' && g[3][c] == '.' && m == NewMove(g, Pos(3, c), 'P', Pos(r, c)))
  {
    if r + 1 < 8 {
      var o := Pos(r, c);
      var promo := if r + 1 == 7 then 'Q' else 'P';
      assert promo == Promoted('P', r + 1);
      PawnStagesAdds(g, White, o, r + 1, r + 2, promo, 'P', g[r + 1][c] == '.', r == 1 && g[2][c] == '.' && g[3][c] == '.', m);
      assert WhitePawnAdds(g, r, c)
        == Then(Then(Then(PawnCapture(g, White, o, Pos(r + 1, c + 1), promo),
                          PawnCapture(g, White, o, Pos(r + 1, c - 1), promo)),
                     PawnStep(g, o, Pos(r + 1, c), promo, g[r + 1][c] == '.')),
                PawnStep(g, o, Pos(r + 2, c), 'P', r == 1 && g[2][c] == '.' && g[3][c] == '.'));
    }
  }

  /** `bp_moves` in words, its front: the mirror image of `WhitePawnFront`. */
  lemma BlackPawnFront(g: Grid, r: int, c: int, m: Move)
    requires InBoard(Pos(r, c))
    ensures m in BlackPawnAdds(g, r, c).front <==>
      r - 1 >= 0 && ((c + 1 < 8 && IsWhite(g[r - 1][c + 1]) && m == NewMove(g, Pos(r - 1, c + 1), Promoted('p', r - 1), Pos(r, c)))
      || (c - 1 >= 0 && IsWhite(g[r - 1][c - 1]) && m == NewMove(g, Pos(r - 1, c - 1), Promoted('p', r - 1), Pos(r, c))))
  {
    if r - 1 >= 0 {
      var o := Pos(r, c);
      var promo := if r - 1 == 0 then 'q' else 'p';
      assert promo == Promoted('p', r - 1);
      PawnStagesAdds(g, Black, o, r - 1, r - 2, promo, 'p', g[r - 1][c] == '.', r == 6 && g[5][c] == '.' && g[4][c] == '.', m);
      assert BlackPawnAdds(g, r, c)
        == Then(Then(Then(PawnCapture(g, Black, o, Pos(r - 1, c + 1), promo),
                          PawnCapture(g, Black, o, Pos(r - 1, c - 1), promo)),
                     PawnStep(g, o, Pos(r - 1, c), promo, g[r - 1][c] == '.')),
                PawnStep(g, o, Pos(r - 2, c), 'p', r == 6 && g[5][c] == '.' && g[4][c] == '.'));
      if c + 1 < 8 {
        assert IsEnemy(At(g, Pos(r - 1, c + 1)), Black) == IsWhite(g[r - 1][c + 1]);
      }
      if c - 1 >= 0 {
        assert IsEnemy(At(g, Pos(r - 1, c - 1)), Black) == IsWhite(g[r - 1][c - 1]);
      }
    }
  }

  /** `bp_moves` in words, its back: the mirror image of `WhitePawnBack`. */
  lemma BlackPawnBack(g: Grid, r: int, c: int, m: Move)
    requires InBoard(Pos(r, c))
    ensures m in BlackPawnAdds(g, r, c).back <==>
      (r - 1 >= 0 && g[r - 1][c] == '.' && m == NewMove(g, Pos(r - 1, c), Promoted('p', r - 1), Pos(r, c)))
      || (r == 6 && g[5][c] == '.' && g[4][c] == '.' && m == NewMove(g, Pos(4, c), 'p', Pos(r, c)))
  {
    if r - 1 >= 0 {
      var o := Pos(r, c);
      var promo := if r - 1 == 0 then 'q' else 'p';
      assert promo == Promoted('p', r - 1);
      PawnStagesAdds(g, Black, o, r - 1, r - 2, promo, 'p', g[r - 1][c] == '.', r == 6 && g[5][c] == '.' && g[4][c] == '.', m);
      assert BlackPawnAdds(g, r, c)
        == Then(Then(Then(PawnCapture(g, Black, o, Pos(r - 1, c + 1), promo),
                          PawnCapture(g, Black, o, Pos(r - 1, c - 1), promo)),
                     PawnStep(g, o, Pos(r - 1, c), promo, g[r - 1][c] == '.')),
                PawnStep(g, o, Pos(r - 2, c), 'p', r == 6 && g[5][c] == '.' && g[4][c] == '.'));
    }
  }

  // ---------------------------------------------------------------------------
  // Every move the generators promise is generated

  /** The move onto the first cell of the ray is emitted when that cell is
      empty or holds an enemy piece. */
  lemma SlideFirstEmits(g: Grid, color: Color, r: int, c: int, dr: int, dc: int, depth: int)
    requires SlideArgs(g, color, r, c, dr, dc, depth) && InBoard(Ray(r, c, dr, dc, depth))
    requires At(g, Ray(r, c, dr, dc, depth)) == '.' || IsEnemy(At(g, Ray(r, c, dr, dc, depth)), color)
    ensures Emits(SlideAdds(g, color, r, c, dr, dc, depth), NewMove(g, Ray(r, c, dr, dc, depth), g[r][c], Pos(r, c)))
  {
    var d := Ray(r, c, dr, dc, depth);
    var m0 := NewMove(g, d, g[r][c], Pos(r, c));
    assert d == Pos(r + Scale(depth, dr), c + Scale(depth, dc));
    if IsEnemy(At(g, d), color) {
      assert SlideAdds(g, color, r, c, dr, dc, depth) in {InFront(m0), AtBack(m0)};
    } else if SingleStep(g[r][c]) {
      assert SlideAdds(g, color, r, c, dr, dc, depth) == AtBack(m0);
    } else {
      SlideAddsOn(g, color, r, c, dr, dc, depth, m0);
    }
  }

  /** Slides go on until blocked: the move onto every cell the slide reaches is
      emitted. */
  lemma {:induction false} SlideReachesAll(g: Grid, color: Color, r: int, c: int, dr: int, dc: int, depth: int, k: int)
    requires SlideArgs(g, color, r, c, dr, dc, depth) && SlideReaches(g, color, r, c, dr, dc, depth, k)
    ensures Emits(SlideAdds(g, color, r, c, dr, dc, depth), NewMove(g, Ray(r, c, dr, dc, k), g[r][c], Pos(r, c)))
    decreases k - depth
  {
    if k > depth {
      SlideReachesStep(g, color, r, c, dr, dc, depth, k);
      SlideReachesAll(g, color, r, c, dr, dc, depth + 1, k);
    }
    SlideEmitsStep(g, color, r, c, dr, dc, depth, k);
  }

  /** The case analysis of `SlideReachesAll` at one depth, given what it states
      one step further. */
  lemma SlideEmitsStep(g: Grid, color: Color, r: int, c: int, dr: int, dc: int, depth: int, k: int)
    requires SlideArgs(g, color, r, c, dr, dc, depth) && SlideReaches(g, color, r, c, dr, dc, depth, k)
    requires k > depth ==> Emits(SlideAdds(g, color, r, c, dr, dc, depth + 1), NewMove(g, Ray(r, c, dr, dc, k), g[r][c], Pos(r, c)))
    ensures Emits(SlideAdds(g, color, r, c, dr, dc, depth), NewMove(g, Ray(r, c, dr, dc, k), g[r][c], Pos(r, c)))
  {
    var m := NewMove(g, Ray(r, c, dr, dc, k), g[r][c], Pos(r, c));
    if k == depth {
      SlideFirstEmits(g, color, r, c, dr, dc, depth);
    } else {
      SlideReachesStep(g, color, r, c, dr, dc, depth, k);
      var m0 := NewMove(g, Ray(r, c, dr, dc, depth), g[r][c], Pos(r, c));
      SlideAddsOn(g, color, r, c, dr, dc, depth, m0);
      ThenEmits(AtBack(m0), SlideAdds(g, color, r, c, dr, dc, depth + 1), m);
    }
  }

  /** The slides of a list of directions emit every move of each direction's slide. */
  lemma {:induction false} DirsEmits(g: Grid, color: Color, r: int, c: int, dirs: seq<Dir>, i: int, m: Move)
    requires InBoard(Pos(r, c)) && IsOwn(g[r][c], color) && 0 <= i < |dirs|
    requires Emits(SlideAdds(g, color, r, c, dirs[i].0, dirs[i].1, 1), m)
    ensures Emits(DirsAdds(g, color, r, c, dirs), m)
    decreases |dirs|
  {
    var init, d := dirs[..|dirs| - 1], dirs[|dirs| - 1];
    ThenEmits(DirsAdds(g, color, r, c, init), SlideAdds(g, color, r, c, d.0, d.1, 1), m);
    if i < |dirs| - 1 {
      assert init[i] == dirs[i];
      DirsEmits(g, color, r, c, init, i, m);
    }
  }

  /** The generator of a non-pawn piece emits what the slides along its
      directions emit. */
  lemma PieceAddsDirs(g: Grid, color: Color, r: int, c: int, m: Move)
    requires InBoard(Pos(r, c)) && IsOwn(g[r][c], color) && !IsPawn(g[r][c])
    ensures Emits(PieceAdds(g, color, r, c), m) <==> Emits(DirsAdds(g, color, r, c, PieceDirs(g[r][c])), m)
  {
    var ch := g[r][c];
    if ch == 'Q' || ch == 'q' {
      DirsAddsAppend(g, color, r, c, RookDirs, BishopDirs, []);
      IntoThen(RookAdds(g, color, r, c), BishopAdds(g, color, r, c), []);
      EmitsInto(QueenAdds(g, color, r, c), m);
      EmitsInto(DirsAdds(g, color, r, c, RookDirs + BishopDirs), m);
    }
  }

  /** The scan of the first `n` cells of row `r` emits every move of each
      scanned cell. */
  lemma {:induction false} RowEmits(g: Grid, color: Color, r: int, n: int, c: int, m: Move)
    requires 0 <= r < 8 && 0 <= c < n <= 8 && Emits(PieceAdds(g, color, r, c), m)
    ensures Emits(RowAdds(g, color, r, n), m)
    decreases n
  {
    ThenEmits(RowAdds(g, color, r, n - 1), PieceAdds(g, color, r, n - 1), m);
    if c < n - 1 {
      RowEmits(g, color, r, n - 1, c, m);
    }
  }

  /** The scan of the first `n` rows emits every move of each scanned cell. */
  lemma {:induction false} BoardEmits(g: Grid, color: Color, n: int, o: Pos, m: Move)
    requires 0 <= o.r < n <= 8 && 0 <= o.c < 8 && Emits(PieceAdds(g, color, o.r, o.c), m)
    ensures Emits(BoardAdds(g, color, n), m)
    decreases n
  {
    ThenEmits(BoardAdds(g, color, n - 1), RowAdds(g, color, n - 1, 8), m);
    if o.r < n - 1 {
      BoardEmits(g, color, n - 1, o, m);
    } else {
      RowEmits(g, color, o.r, 8, o.c, m);
    }
  }

  /** The cells a pawn of `color` on `o` moves to, as `wp_moves` and `bp_moves`
      test them: a diagonal cell one row ahead holding an enemy piece, the empty
      cell ahead, or, from the home row, the cell two ahead over two empty cells. */
  ghost predicate PawnTarget(g: Grid, color: Color, o: Pos, d: Pos)
    requires InBoard(o)
  {
    var ahead := if color == White then 1 else -1;
    var home := if color == White then 1 else 6;
    InBoard(d) &&
    ((d.r == o.r + ahead && (d.c == o.c + 1 || d.c == o.c - 1) && IsEnemy(At(g, d), color))
     || (d == Pos(o.r + ahead, o.c) && At(g, d) == '.')
     || (o.r == home && d == Pos(o.r + 2 * ahead, o.c) && At(g, Pos(o.r + ahead, o.c)) == '.' && At(g, d) == '.'))
  }

  /** `d` is the cell `k` steps from `o` in direction `dir`, and a slide from `o`
      started at one step reaches it. */
  ghost predicate DirTarget(g: Grid, color: Color, o: Pos, dir: Dir, k: int, d: Pos)
    requires InBoard(o)
  {
    d == Ray(o.r, o.c, dir.0, dir.1, k) && SlideReaches(g, color, o.r, o.c, dir.0, dir.1, 1, k)
  }

  /** `possible_moves(color)` promises a move from `o` to `d`: `o` holds an own
      piece, and `d` is a pawn target of it or lies along one of its directions. */
  ghost predicate Generates(g: Grid, color: Color, o: Pos, d: Pos)
    requires InBoard(o)
  {
    IsOwn(At(g, o), color) &&
    if IsPawn(At(g, o)) then PawnTarget(g, color, o, d)
    else exists i, k :: 0 <= i < |PieceDirs(At(g, o))| && DirTarget(g, color, o, PieceDirs(At(g, o))[i], k, d)
  }

  /** A White pawn's promised moves are emitted by `wp_moves`. */
  lemma WhitePawnEmits(g: Grid, o: Pos, d: Pos)
    requires InBoard(o) && At(g, o) == 'P' && PawnTarget(g, White, o, d)
    ensures Emits(WhitePawnAdds(g, o.r, o.c), NewMove(g, d, Promoted('P', d.r), o))
  {
    var m := NewMove(g, d, Promoted('P', d.r), o);
    assert o == Pos(o.r, o.c);
    WhitePawnFront(g, o.r, o.c, m);
    WhitePawnBack(g, o.r, o.c, m);
  }

  /** A Black pawn's promised moves are emitted by `bp_moves`. */
  lemma BlackPawnEmits(g: Grid, o: Pos, d: Pos)
    requires InBoard(o) && At(g, o) == 'p' && PawnTarget(g, Black, o, d)
    ensures Emits(BlackPawnAdds(g, o.r, o.c), NewMove(g, d, Promoted('p', d.r), o))
  {
    var m := NewMove(g, d, Promoted('p', d.r), o);
    assert o == Pos(o.r, o.c);
    BlackPawnFront(g, o.r, o.c, m);
    BlackPawnBack(g, o.r, o.c, m);
  }

  /** A non-pawn piece's promised moves are emitted by its generator. */
  lemma PieceEmits(g: Grid, color: Color, o: Pos, d: Pos, i: int, k: int)
    requires InBoard(o) && IsOwn(At(g, o), color) && !IsPawn(At(g, o)) && 0 <= i < |PieceDirs(At(g, o))|
    requires DirTarget(g, color, o, PieceDirs(At(g, o))[i], k, d)
    ensures Emits(PieceAdds(g, color, o.r, o.c), NewMove(g, d, At(g, o), o))
  {
    var dirs := PieceDirs(At(g, o));
    assert o == Pos(o.r, o.c);
    SlideReachesAll(g, color, o.r, o.c, dirs[i].0, dirs[i].1, 1, k);
    DirsEmits(g, color, o.r, o.c, dirs, i, NewMove(g, d, At(g, o), o));
    PieceAddsDirs(g, color, o.r, o.c, NewMove(g, d, At(g, o), o));
  }

  /** Every move `possible_moves(color)` promises is in the list it returns. */
  lemma PossibleMovesComplete(g: Grid, color: Color, o: Pos, d: Pos)
    requires InBoard(o) && Generates(g, color, o, d)
    ensures NewMove(g, d, Promoted(At(g, o), d.r), o) in PossibleMovesOf(g, color)
  {
    var m := NewMove(g, d, Promoted(At(g, o), d.r), o);
    if IsPawn(At(g, o)) {
      if color == White {
        WhitePawnEmits(g, o, d);
      } else {
        BlackPawnEmits(g, o, d);
      }
    } else {
      var i, k :| 0 <= i < |PieceDirs(At(g, o))| && DirTarget(g, color, o, PieceDirs(At(g, o))[i], k, d);
      PieceEmits(g, color, o, d, i, k);
    }
    BoardEmits(g, color, 8, o, m);
    EmitsInto(BoardAdds(g, color, 8), m);
  }

  // ---------------------------------------------------------------------------
  // Every generated move is promised

  /** `m` is a move `possible_moves(color)` promises from `o`. */
  ghost predicate PromisedFrom(g: Grid, color: Color, o: Pos, m: Move)
    requires InBoard(o)
  {
    exists d :: Generates(g, color, o, d) && m == NewMove(g, d, Promoted(At(g, o), d.r), o)
  }

  /** `m` is a move `possible_moves(color)` promises from some cell. */
  ghost predicate Promised(g: Grid, color: Color, m: Move) {
    exists o :: InBoard(o) && PromisedFrom(g, color, o, m)
  }

  /** Only an own piece's generator emits anything. */
  lemma PieceEmitsOwn(g: Grid, color: Color, r: int, c: int, m: Move)
    requires InBoard(Pos(r, c))
    ensures Emits(PieceAdds(g, color, r, c), m) ==> IsOwn(g[r][c], color)
  {
  }

  /** Every move the slides of a list of directions emit is emitted by the slide
      of one of them. */
  lemma {:induction false} DirsEmitsOnly(g: Grid, color: Color, r: int, c: int, dirs: seq<Dir>, m: Move)
    requires InBoard(Pos(r, c)) && IsOwn(g[r][c], color)
    ensures Emits(DirsAdds(g, color, r, c, dirs), m) ==>
      exists i :: 0 <= i < |dirs| && Emits(SlideAdds(g, color, r, c, dirs[i].0, dirs[i].1, 1), m)
    decreases |dirs|
  {
    if dirs != [] {
      var init, d := dirs[..|dirs| - 1], dirs[|dirs| - 1];
      ThenEmits(DirsAdds(g, color, r, c, init), SlideAdds(g, color, r, c, d.0, d.1, 1), m);
      DirsEmitsOnly(g, color, r, c, init, m);
      if Emits(DirsAdds(g, color, r, c, init), m) {
        var i :| 0 <= i < |init| && Emits(SlideAdds(g, color, r, c, init[i].0, init[i].1, 1), m);
        assert dirs[i] == init[i];
      }
    }
  }

  /** Every move the scan of the first `n` cells of row `r` emits is emitted by
      one scanned cell. */
  lemma {:induction false} RowEmitsOnly(g: Grid, color: Color, r: int, n: int, m: Move)
    requires 0 <= r < 8 && 0 <= n <= 8
    ensures Emits(RowAdds(g, color, r, n), m) ==> exists c :: 0 <= c < n && Emits(PieceAdds(g, color, r, c), m)
    decreases n
  {
    if n > 0 {
      ThenEmits(RowAdds(g, color, r, n - 1), PieceAdds(g, color, r, n - 1), m);
      RowEmitsOnly(g, color, r, n - 1, m);
    }
  }

  /** Every move the scan of the first `n` rows emits is emitted by one scanned cell. */
  lemma {:induction false} BoardEmitsOnly(g: Grid, color: Color, n: int, m: Move)
    requires 0 <= n <= 8
    ensures Emits(BoardAdds(g, color, n), m) ==>
      exists o: Pos :: 0 <= o.r < n && 0 <= o.c < 8 && Emits(PieceAdds(g, color, o.r, o.c), m)
    decreases n
  {
    if n > 0 {
      ThenEmits(BoardAdds(g, color, n - 1), RowAdds(g, color, n - 1, 8), m);
      BoardEmitsOnly(g, color, n - 1, m);
      RowEmitsOnly(g, color, n - 1, 8, m);
      if Emits(RowAdds(g, color, n - 1, 8), m) {
        var c :| 0 <= c < 8 && Emits(PieceAdds(g, color, n - 1, c), m);
        assert Pos(n - 1, c).r == n - 1 && Pos(n - 1, c).c == c;
      }
    }
  }

  /** A pawn's move onto one of its targets is promised. */
  lemma PawnPromised(g: Grid, color: Color, o: Pos, d: Pos, m: Move)
    requires InBoard(o) && IsOwn(At(g, o), color) && IsPawn(At(g, o)) && PawnTarget(g, color, o, d)
    requires m == NewMove(g, d, Promoted(At(g, o), d.r), o)
    ensures PromisedFrom(g, color, o, m)
  {
    assert Generates(g, color, o, d);
  }

  /** Every move `wp_moves` emits is promised. */
  lemma WhitePawnOnly(g: Grid, o: Pos, m: Move)
    requires InBoard(o) && At(g, o) == 'P'
    ensures Emits(WhitePawnAdds(g, o.r, o.c), m) ==> PromisedFrom(g, White, o, m)
  {
    var r, c := o.r, o.c;
    assert o == Pos(r, c);
    WhitePawnFront(g, r, c, m);
    WhitePawnBack(g, r, c, m);
    if r + 1 < 8 && c + 1 < 8 && IsBlack(g[r + 1][c + 1]) && m == NewMove(g, Pos(r + 1, c + 1), Promoted('P', r + 1), o) {
      PawnPromised(g, White, o, Pos(r + 1, c + 1), m);
    } else if r + 1 < 8 && c - 1 >= 0 && IsBlack(g[r + 1][c - 1]) && m == NewMove(g, Pos(r + 1, c - 1), Promoted('P', r + 1), o) {
      PawnPromised(g, White, o, Pos(r + 1, c - 1), m);
    } else if r + 1 < 8 && g[r + 1][c] == '.' && m == NewMove(g, Pos(r + 1, c), Promoted('P', r + 1), o) {
      PawnPromised(g, White, o, Pos(r + 1, c), m);
    } else if r == 1 && g[2][c] == '.' && g[3][c] == '.' && m == NewMove(g, Pos(3, c), 'P', o) {
      PawnPromised(g, White, o, Pos(3, c), m);
    }
  }

  /** Every move `bp_moves` emits is promised. */
  lemma BlackPawnOnly(g: Grid, o: Pos, m: Move)
    requires InBoard(o) && At(g, o) == 'p'
    ensures Emits(BlackPawnAdds(g, o.r, o.c), m) ==> PromisedFrom(g, Black, o, m)
  {
    var r, c := o.r, o.c;
    assert o == Pos(r, c);
    BlackPawnFront(g, r, c, m);
    BlackPawnBack(g, r, c, m);
    if r - 1 >= 0 && c + 1 < 8 && IsWhite(g[r - 1][c + 1]) && m == NewMove(g, Pos(r - 1, c + 1), Promoted('p', r - 1), o) {
      PawnPromised(g, Black, o, Pos(r - 1, c + 1), m);
    } else if r - 1 >= 0 && c - 1 >= 0 && IsWhite(g[r - 1][c - 1]) && m == NewMove(g, Pos(r - 1, c - 1), Promoted('p', r - 1), o) {
      PawnPromised(g, Black, o, Pos(r - 1, c - 1), m);
    } else if r - 1 >= 0 && g[r - 1][c] == '.' && m == NewMove(g, Pos(r - 1, c), Promoted('p', r - 1), o) {
      PawnPromised(g, Black, o, Pos(r - 1, c), m);
    } else if r == 6 && g[5][c] == '.' && g[4][c] == '.' && m == NewMove(g, Pos(4, c), 'p', o) {
      PawnPromised(g, Black, o, Pos(4, c), m);
    }
  }

  /** Every move a non-pawn piece's generator emits is promised. */
  lemma PieceOnly(g: Grid, color: Color, o: Pos, m: Move)
    requires InBoard(o) && IsOwn(At(g, o), color) && !IsPawn(At(g, o))
    ensures Emits(PieceAdds(g, color, o.r, o.c), m) ==> PromisedFrom(g, color, o, m)
  {
    var dirs := PieceDirs(At(g, o));
    assert o == Pos(o.r, o.c);
    PieceAddsDirs(g, color, o.r, o.c, m);
    DirsEmitsOnly(g, color, o.r, o.c, dirs, m);
    if Emits(DirsAdds(g, color, o.r, o.c, dirs), m) {
      var i :| 0 <= i < |dirs| && Emits(SlideAdds(g, color, o.r, o.c, dirs[i].0, dirs[i].1, 1), m);
      SlideStopsAtFirstPiece(g, color, o.r, o.c, dirs[i].0, dirs[i].1, 1, m);
      var k :| SlideReaches(g, color, o.r, o.c, dirs[i].0, dirs[i].1, 1, k)
        && m == NewMove(g, Ray(o.r, o.c, dirs[i].0, dirs[i].1, k), At(g, o), o);
      var d := Ray(o.r, o.c, dirs[i].0, dirs[i].1, k);
      assert DirTarget(g, color, o, dirs[i], k, d);
      assert Generates(g, color, o, d);
      assert Promoted(At(g, o), d.r) == At(g, o);
    }
  }

  /** Every move in the list `possible_moves(color)` returns is promised. */
  lemma PossibleMovesSound(g: Grid, color: Color, m: Move)
    ensures m in PossibleMovesOf(g, color) ==> Promised(g, color, m)
  {
    EmitsInto(BoardAdds(g, color, 8), m);
    BoardEmitsOnly(g, color, 8, m);
    if Emits(BoardAdds(g, color, 8), m) {
      var o: Pos :| 0 <= o.r < 8 && 0 <= o.c < 8 && Emits(PieceAdds(g, color, o.r, o.c), m);
      assert o == Pos(o.r, o.c);
      PieceEmitsOwn(g, color, o.r, o.c, m);
      if !IsPawn(At(g, o)) {
        PieceOnly(g, color, o, m);
      } else if color == White {
        WhitePawnOnly(g, o, m);
      } else {
        BlackPawnOnly(g, o, m);
      }
    }
  }

  /** `possible_moves(color)` returns exactly the promised moves: the list holds
      a move if and only if it takes an own piece from some cell `o` to a cell `d`
      that piece may reach (`Generates`). */
  lemma PossibleMovesExactly(g: Grid, color: Color, m: Move)
    ensures m in PossibleMovesOf(g, color) <==> Promised(g, color, m)
  {
    PossibleMovesSound(g, color, m);
    if Promised(g, color, m) {
      var o :| InBoard(o) && PromisedFrom(g, color, o, m);
      var d :| Generates(g, color, o, d) && m == NewMove(g, d, Promoted(At(g, o), d.r), o);
      PossibleMovesComplete(g, color, o, d);
    }
  }
}
