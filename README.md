# pichu: a verified model of a small alpha-beta chess engine

`pichu.py` is a command-line chess player. It takes its colour and a
64-symbol board on the command line and searches deeper and deeper with
fail-soft alpha-beta. After each depth it prints the board that follows its
best move.

The board is a global 8 x 8 grid of symbols: '.', White's "PRBQKN" and
Black's "prbqkn". A move is a pair of dictionaries:
- `changes`: the new content of each touched cell;
- `undo_changes`: that cell's content when the move was built.

`make` and `unmake` write one or the other into the board.

The move generators grow a Python list. Captures are inserted at index 0
when they are a pawn's, or when the victim outweighs the attacker. Every
other move is appended. The result is a cheap form of move ordering.

The evaluator is 10 x material + 1 x pawn structure + 5 x mobility.
`alphabeta` makes and unmakes moves on the global board.

The model is split into modules:

- `Pieces` (pieces.dfy): the symbols, colours, the weight table, promotion.
- `Boards` (board.dfy):
  - the grid, positions, the `Move` datatype and `add_change`;
  - the board after writing a map of changes (`ApplyMap`);
  - the string/grid conversions of `get_2d_board` and `printout`.
- `MoveGen` (movegen.dfy): each generator as a pure function.
  - It returns `Additions(front, back)`: the moves it put at index 0 (latest
    first) and the moves it appended.
  - `Into(a, moves) == a.front + moves + a.back` is the list afterwards.
  - `Then` chains generators in the order the source calls them.
- `MoveGenFacts` (movegen.dfy): what every generated move is.
  - It is a step of an own piece to a different in-board cell without an own
    piece, promoted when a pawn reaches its last row.
  - It is in front exactly when it is prioritized.
  - make followed by unmake restores the board.
  - Slides stop at the first piece.
  - The list holds exactly the promised moves (`Generates`): every move of an
    own piece onto a cell it may reach is in it, and nothing else.
- `Evaluation` (evaluation.dfy): `material`, `pawn_structure`, `mobility` and
  `evaluate` as functions, and their bounds.
- `Search` (search.dfy):
  - scores with infinities;
  - `is_game_over`;
  - plain minimax over the successor tree;
  - the fail-soft contract and the loop invariants of alpha-beta.
- `Engine` (engine.dfy): the program as it runs. The class `Game` holds the
  board as a field. It has the source's loops and in-place updates:
  - make/unmake;
  - the generators, as methods growing a `seq<Move>`;
  - the evaluation accumulations;
  - alpha-beta, making and unmaking moves on `board`.

  Each method is proved equal to the functions above. Alpha-beta is proved
  fail-soft against minimax, and exact with the full window.

The king's guard `abs(dr) + abs(dc) is 1 or 2` parses as
`(abs(dr) + abs(dc) is 1) or 2`, which is always true. So `k_moves` also tries
the offset (0, 0). The model keeps that offset and proves it yields no move
(`MoveGenFacts.KingStandStillIsEmpty`). The knight's `is 3` compares small
integers, which CPython caches, so it is modelled as `==`.

## Model

| member | source | states |
|---|---|---|
| Pieces.Opponent | pichu.py:386 | `opponent_color` is never the player's colour |
| Pieces.Weight | pichu.py:237-238 | the `pieces_wgt` table, and 0 for any other symbol: the definition `Engine.Game.Material` is proved against; `WeightSign` states its signs |
| Pieces.WeightSign | pichu.py:237-238 | White's pieces weigh more than 0, Black's less than 0, and every other symbol 0 |
| Pieces.Heavier | pichu.py:207 | the capture-ordering test, the victim's absolute weight above the attacker's; the definition `MoveGen.SlideOrdered` states the front block by |
| Pieces.Promoted | pichu.py:95-156 | a pawn reaching its last row becomes a queen of its colour; every other piece arrives as itself; the colour never changes |
| Boards.AddChange | pichu.py:53-55 | the cell joins both maps; `changes` gets the new piece and `undo` gets the cell's current content; every other entry of both maps is kept |
| Boards.SetCell | pichu.py:45-51 | writing one cell changes that cell and no other |
| Boards.NewMove | pichu.py:204-206 | the move every generator builds by two `add_change` calls, destination first and then the emptied origin; `Boards.MakeUnmakeRestores` and `MoveGenFacts.StepFacts` state what it is |
| Boards.ApplyMap | pichu.py:45-51 | after `make` (or `unmake`), a cell holds its entry of the map if it has one, else its old content |
| Boards.UndoRestores | pichu.py:45-55 | unmake after make restores every cell of a board that still holds the undo values |
| Boards.MakeUnmakeRestores | pichu.py:53-55 | a move built by two `add_change` calls is well built; make then unmake restores any board agreeing with the construction-time board on its two cells |
| Boards.To2D | pichu.py:337-345 | cell (r, c) of the loaded board is character 8r + c of the string |
| Boards.FlattenRows | pichu.py:348-352 | the first n rows flattened have 8n symbols |
| Boards.FlattenRowsAt | pichu.py:348-352 | symbol 8r + c of the flattened rows is cell (r, c) |
| Boards.FlattenTo2D | pichu.py:337-352 | printing a loaded board gives back the loaded 64-symbol string |
| Boards.To2DFlatten | pichu.py:337-352 | loading a printed board gives back the board |
| MoveGen.SlideAdds | pichu.py:191-223 | `add_move_in_dir` as a function of the board: the definition `Engine.Game.AddMoveInDir` is proved against; its lemmas are `SlideOrdered`, `MoveGenFacts.SlideStopsAtFirstPiece` and `MoveGenFacts.SlideReachesAll` |
| MoveGen.WhitePawnAdds | pichu.py:95-124 | `wp_moves` as a function of the board: the definition `Engine.Game.WhitePawnMoves` is proved against; its lemmas are `WhitePawnOrdered`, `MoveGenFacts.WhitePawnFront` and `MoveGenFacts.WhitePawnBack` |
| MoveGen.BlackPawnAdds | pichu.py:127-156 | `bp_moves` as a function of the board: the definition `Engine.Game.BlackPawnMoves` is proved against; its lemmas are `BlackPawnOrdered`, `MoveGenFacts.BlackPawnFront` and `MoveGenFacts.BlackPawnBack` |
| MoveGen.PieceAdds | pichu.py:61-91 | the symbol dispatch of `possible_moves` for one cell: the definition `Engine.Game.PieceMoves` is proved against; `PieceOrdered` states its order |
| MoveGen.PieceDirs | pichu.py:159-188 | the directions each non-pawn piece's generator tries: the rook's four, the bishop's four diagonals, both for the queen, the eight knight offsets and the nine king offsets |
| MoveGen.RowAdds | pichu.py:60-91 | the inner scan of `possible_moves` over a row's first n cells: the definition the row loop of `Engine.Game.PossibleMoves` is proved against; `RowOrdered` states its order |
| MoveGen.BoardAdds | pichu.py:59-91 | the outer scan of `possible_moves` over the first n rows: the definition the board loop of `Engine.Game.PossibleMoves` is proved against; `BoardOrdered` states its order |
| MoveGen.PossibleMovesOf | pichu.py:58-92 | `possible_moves(color)` as a function of the board: the definition `Engine.Game.PossibleMoves` is proved against; `MoveGenFacts.PossibleMovesExactly` states which moves the list holds, and `PossibleMovesOrdered` and `MoveGenFacts.PossibleMovesFrontIff` state their order |
| MoveGen.IntoThen | pichu.py:58-92 | running two generators one after the other is their chained `Additions` |
| MoveGen.IntoNone | pichu.py:191-200 | a generator that returns without adding anything keeps the list |
| MoveGen.IntoSingle | pichu.py:191-223 | `insert(0, m)` puts m in front and `append(m)` puts it at the back |
| MoveGen.EmitsInto | pichu.py:58-223 | a generator emits m exactly when m is in the list it builds from the empty list |
| MoveGen.ThenEmits | pichu.py:58-223 | two generators run one after the other emit exactly what either of them emits |
| MoveGen.ScaleIsProduct | pichu.py:192-193 | the ray offset is `depth * dr` |
| MoveGen.ScaleBound | pichu.py:192-193 | k steps of a non-zero offset move at least k cells; of a zero offset, none |
| MoveGen.SlideBound | pichu.py:191-223 | a slide that is still on the board and off its origin is fewer than 8 steps deep, so the recursion of `add_move_in_dir` ends |
| MoveGen.SlideAddsOn | pichu.py:217-223 | on an empty ray cell a sliding piece emits the quiet move there at the back and then looks one step further, fewer than 8 steps deep |
| MoveGen.DirsAddsSnoc | pichu.py:166-188 | one more `add_move_in_dir` call after a list of directions adds that direction's slide |
| MoveGen.DirsAddsAppend | pichu.py:166-188 | the directions of two loops run one after the other are the two lists concatenated |
| MoveGen.RowDirsNext | pichu.py:166-188 | one more pass of an inner loop adds (dr, dc) exactly when the guard admits it |
| MoveGen.GridDirsNext | pichu.py:166-188 | one more pass of an outer loop adds that row of the inner loop |
| MoveGen.RowDirsUnrolled | pichu.py:166-188 | an inner loop over three or four values visits them in order, keeping those the guard admits |
| MoveGen.BishopLoops | pichu.py:166-169 | `b_moves`'s loops visit (-1,-1), (-1,1), (1,-1), (1,1) in that order |
| MoveGen.KnightRow | pichu.py:177-181 | for each dr, the knight's inner loop keeps the two columns that make an L |
| MoveGen.KnightLoops | pichu.py:177-181 | `n_moves`'s loops visit exactly the eight L-shaped offsets, in loop order |
| MoveGen.KingRow | pichu.py:184-188 | for each dr, the king's inner loop keeps all three columns |
| MoveGen.KingLoops | pichu.py:184-188 | `k_moves`'s loops visit all nine offsets of the 3 x 3 grid, (0, 0) included, in loop order |
| MoveGen.ThenOrdered | pichu.py:58-92 | chaining two correctly ordered generators stays correctly ordered |
| MoveGen.SlideMoveIsStep | pichu.py:191-223 | a slide's move carries the non-pawn piece to the ray cell and empties the origin |
| MoveGen.SlideOrdered | pichu.py:191-223 | every move of `add_move_in_dir` in front is a capture of a heavier piece; every move at the back is a quiet move or a capture of a piece at most as heavy |
| MoveGen.DirsOrdered | pichu.py:159-188 | the same holds for the rook, bishop, queen, knight and king generators |
| MoveGen.PawnCaptureOrdered | pichu.py:98-111 | a pawn's diagonal capture is a step and goes in front |
| MoveGen.PawnStepOrdered | pichu.py:113-124 | a pawn's push or double step is a step and goes at the back |
| MoveGen.PawnStagesOrdered | pichu.py:95-156 | the four stages of a pawn generator (two captures, the push, the double step), chained in source order, put only prioritized captures in front and only other steps at the back, for either colour |
| MoveGen.WhitePawnOrdered | pichu.py:95-124 | `wp_moves` puts only prioritized captures in front and only other steps at the back |
| MoveGen.BlackPawnOrdered | pichu.py:127-156 | `bp_moves` puts only prioritized captures in front and only other steps at the back |
| MoveGen.PieceOrdered | pichu.py:58-92 | the moves of any cell's generator are ordered that way |
| MoveGen.RowOrdered | pichu.py:58-92 | the moves of any prefix of a row's scan are ordered that way |
| MoveGen.BoardOrdered | pichu.py:58-92 | the moves of any prefix of the board's scan are ordered that way |
| MoveGen.PossibleMovesOrdered | pichu.py:58-223 | the generated list is a block of prioritized captures followed by a block of all other moves |
| MoveGenFacts.StepFacts | pichu.py:53-55 | a generated move touches exactly its origin and destination; it empties the origin, puts the (possibly promoted) own piece on the destination, and its undo holds both cells' contents |
| MoveGenFacts.StepUnique | pichu.py:53-55 | a move determines its origin and destination |
| MoveGenFacts.FrontIffNotBack | pichu.py:191-223 | a pseudo-legal move is a front move exactly when it is not a back move |
| MoveGenFacts.GeneratedArePseudoLegal | pichu.py:58-223 | every generated move moves an own piece to a different in-board cell holding no own piece: no self-capture |
| MoveGenFacts.GeneratedMoveRestores | pichu.py:40-55 | every generated move touches two cells and is well built; make then unmake restores the board, and any board agreeing with it on those cells |
| MoveGenFacts.GeneratedAllRestore | pichu.py:31-55 | every successor of a node can be made and unmade on the node's board, giving the board back |
| MoveGenFacts.PossibleMovesFrontIff | pichu.py:58-223 | with the split of the list, a move is in the leading block exactly when it is prioritized |
| MoveGenFacts.SlideReaches | pichu.py:191-223 | the cells a slide reaches: on the board, empty or holding an enemy piece, every cell before it along the ray empty, and only the first cell for a knight or a king |
| MoveGenFacts.SlideReachesFirst | pichu.py:195-216 | the first cell of a ray is reached when it is on the board and empty or holds an enemy piece |
| MoveGenFacts.SlideReachesStep | pichu.py:216-223 | a cell further on is reached exactly when the first cell is empty, the piece slides, and the slide one step further reaches it |
| MoveGenFacts.SlideOnStops | pichu.py:216-223 | past an empty cell, every move a slide emits is the move onto that cell or lands on a cell the rest of the slide reaches |
| MoveGenFacts.SlideStopsStep | pichu.py:191-223 | at one depth: off the board or on an own piece nothing is emitted, on an enemy piece only the capture there, on an empty cell the move there and what the rest reaches |
| MoveGenFacts.SlideStopsAtFirstPiece | pichu.py:191-223 | every move a slide emits carries the piece onto a cell the slide reaches: slides stop at the first piece, capture only enemies, and knights and kings go one step |
| MoveGenFacts.KingStandStillIsEmpty | pichu.py:184-188 | the king's (0, 0) offset yields no move |
| MoveGenFacts.PawnThen | pichu.py:95-156 | a pawn's two captures go in front, the later one first, and its two advances go at the back in order |
| MoveGenFacts.PawnCaptureFront | pichu.py:100-111 | a diagonal capture stage puts m in front exactly when its cell is on the board, holds an enemy piece, and m is the (possibly promoted) capture there |
| MoveGenFacts.PawnStagesAdds | pichu.py:95-156 | the four stages of a pawn generator put in front exactly the two diagonal enemy captures, and at the back exactly the push and the double step their guards allow, for either colour |
| MoveGenFacts.WhitePawnFront | pichu.py:98-111 | `wp_moves` puts a move in front exactly when it is a diagonal capture of a Black piece one row up, promoted on row 7 |
| MoveGenFacts.WhitePawnBack | pichu.py:113-124 | `wp_moves` appends a move exactly when it is the push onto an empty cell, or the double step from row 1 over two empty cells landing a plain 'P' |
| MoveGenFacts.BlackPawnFront | pichu.py:130-143 | `bp_moves` puts a move in front exactly when it is a diagonal capture of a White piece one row down, promoted on row 0 |
| MoveGenFacts.BlackPawnBack | pichu.py:145-156 | `bp_moves` appends a move exactly when it is the push onto an empty cell, or the double step from row 6 over two empty cells landing a plain 'p' |
| MoveGenFacts.SlideFirstEmits | pichu.py:195-219 | a slide emits the move onto its first cell when that cell is on the board and empty or holds an enemy piece |
| MoveGenFacts.SlideEmitsStep | pichu.py:216-223 | at one depth, the move onto a reached cell is emitted, given that the slide one step further emits it |
| MoveGenFacts.SlideReachesAll | pichu.py:191-223 | slides go on until blocked: the move onto every cell the slide reaches is emitted |
| MoveGenFacts.DirsEmits | pichu.py:159-188 | the generator of a list of directions emits every move of each direction's slide |
| MoveGenFacts.DirsEmitsOnly | pichu.py:159-188 | every move it emits comes from the slide of one of its directions |
| MoveGenFacts.PieceAddsDirs | pichu.py:159-188 | a non-pawn piece's generator emits exactly what the slides along its `PieceDirs` emit (the queen's rook slides then bishop slides) |
| MoveGenFacts.PieceEmitsOwn | pichu.py:58-92 | only a cell holding an own piece emits moves |
| MoveGenFacts.RowEmits | pichu.py:60-91 | the scan of a row's first n cells emits every move of each scanned cell |
| MoveGenFacts.RowEmitsOnly | pichu.py:60-91 | every move it emits is emitted by one scanned cell |
| MoveGenFacts.BoardEmits | pichu.py:59-91 | the scan of the first n rows emits every move of each scanned cell |
| MoveGenFacts.BoardEmitsOnly | pichu.py:59-91 | every move it emits is emitted by one scanned cell |
| MoveGenFacts.PawnTarget | pichu.py:95-156 | the cells a pawn moves to: a diagonal cell one row ahead holding an enemy piece, the empty cell ahead, or from its home row the cell two ahead over two empty cells |
| MoveGenFacts.Generates | pichu.py:58-223 | the moves `possible_moves` promises: an own piece on o and a cell d that is a pawn target of it, or that a slide along one of its directions reaches |
| MoveGenFacts.WhitePawnEmits | pichu.py:95-124 | `wp_moves` emits the move onto every target of a White pawn, promoted on row 7 |
| MoveGenFacts.BlackPawnEmits | pichu.py:127-156 | `bp_moves` emits the move onto every target of a Black pawn, promoted on row 0 |
| MoveGenFacts.PieceEmits | pichu.py:159-223 | a non-pawn piece's generator emits the move onto every cell one of its slides reaches |
| MoveGenFacts.PossibleMovesComplete | pichu.py:58-223 | every promised move is in the list `possible_moves(color)` returns |
| MoveGenFacts.PawnPromised | pichu.py:95-156 | a pawn's move onto one of its targets is promised |
| MoveGenFacts.WhitePawnOnly | pichu.py:95-124 | every move `wp_moves` emits is promised |
| MoveGenFacts.BlackPawnOnly | pichu.py:127-156 | every move `bp_moves` emits is promised |
| MoveGenFacts.PieceOnly | pichu.py:159-223 | every move a non-pawn piece's generator emits is promised |
| MoveGenFacts.PossibleMovesSound | pichu.py:58-223 | every move in the list `possible_moves(color)` returns is promised |
| MoveGenFacts.PossibleMovesExactly | pichu.py:58-223 | the list holds a move if and only if it is promised: it holds every move of an own piece onto a cell that piece may reach, and nothing else |
| Evaluation.MaterialOf | pichu.py:241-248 | `material` as a function of the board: the definition `Engine.Game.Material` is proved against; `MaterialAfterStep` states how a move changes it |
| Evaluation.PawnStructureOf | pichu.py:269-296 | `pawn_structure` as a function of the board: the definition `Engine.Game.PawnStructure` is proved against; `PawnStructureBounds` bounds it |
| Evaluation.Bonus | pichu.py:263-264 | the bonus of one changed cell: its `square_values` entry unless the cell is emptied or receives a king; `StepBonus` and `MovesBonusBounds` state what it adds up to |
| Evaluation.MobilityOf | pichu.py:259-266 | `mobility` as a function of the board: the definition `Engine.Game.Mobility` is proved against; `MobilityBounds` bounds it |
| Evaluation.EvaluateOf | pichu.py:231-233 | `evaluate` as a function of the board: the definition `Engine.Game.Evaluate` is proved against, and the value `Search.Minimax` gives a leaf |
| Evaluation.RowPointsSet | pichu.py:241-248 | overwriting one cell changes a row's points by the new symbol's weight minus the old one's |
| Evaluation.BoardPointsSet | pichu.py:241-248 | overwriting one cell changes the board's points by the new symbol's weight minus the old one's |
| Evaluation.StepWritesTwoCells | pichu.py:49-51 | making a generated move writes the destination and then empties the origin |
| Evaluation.MaterialAfterStep | pichu.py:241-248 | after a generated move, White's points lose the victim's weight and change by the promotion; without a promotion, a capture moves the balance by the victim's weight and a quiet move not at all |
| Evaluation.RowSupportBound | pichu.py:269-296 | a row's pawn-support count is at most 2 per pawn |
| Evaluation.BoardSupportBound | pichu.py:269-296 | the board's pawn-support count is at most 2 per pawn |
| Evaluation.PawnStructureBounds | pichu.py:269-296 | pawn structure is 0 on the opponent's plies, and otherwise between 0 and twice the player's pawn count |
| Evaluation.SquareValuesRange | pichu.py:251-256 | `square_values` covers rows 2..5 and columns 1..6, with every bonus in (0, 1] |
| Evaluation.KeySumRemove | pichu.py:259-266 | the mobility bonus of a move does not depend on the order its changed cells are visited |
| Evaluation.StepBonus | pichu.py:259-266 | a generated move adds the bonus of its destination unless a king arrives there; its emptied origin adds nothing |
| Evaluation.MovesBonusBounds | pichu.py:259-266 | a list of generated moves adds between 0 and 1 per move |
| Evaluation.MobilityBounds | pichu.py:259-266 | mobility is ≥ 0 on the player's plies and ≤ 0 on the opponent's, at most one unit per successor in size |
| Search.Max | pichu.py:319 | Python's `max` on scores: an upper bound of both, equal to one of them |
| Search.Min | pichu.py:329 | Python's `min` on scores: a lower bound of both, equal to one of them |
| Search.GameOver | pichu.py:299-306 | `is_game_over` of the node reached by a move: the test at which `Search.Minimax` and `Engine.Game.AlphaBeta` stop; `GameOverIffKingCaptured` states when it holds |
| Search.GameOverIffKingCaptured | pichu.py:299-306 | after a generated move, `is_game_over` holds exactly when the move captured the enemy king |
| Search.FullWindowIsExact | pichu.py:309 | with the default window (-inf, +inf), a fail-soft value is the exact minimax value |
| Search.MaxOverPrefix | pichu.py:313-324 | the best value of the first children never exceeds that of all children |
| Search.MinOverPrefix | pichu.py:325-334 | the worst value of the first children is never below that of all children |
| Search.MaxOverNext | pichu.py:315-319 | one more child folds its value into the player's best with `max` |
| Search.MinOverNext | pichu.py:327-329 | one more child folds its value into the opponent's best with `min` |
| Search.MaxLoopStep | pichu.py:318-323 | one pass of the player's loop keeps the loop invariant, or cuts with a value that bounds the child's value from below |
| Search.MinLoopStep | pichu.py:328-333 | one pass of the opponent's loop keeps the loop invariant, or cuts with a value that bounds the child's value from above |
| Search.MaxAdvance | pichu.py:315-323 | after the i-th child the invariant holds over the first i + 1 children, or the cut value is a lower bound of the best over all children |
| Search.MinAdvance | pichu.py:327-333 | after the i-th child the invariant holds over the first i + 1 children, or the cut value is an upper bound of the worst over all children |
| Search.MaxLoopDone | pichu.py:313-324 | the player's loop ends fail-soft, whether it ran out of children or was cut |
| Search.MinLoopDone | pichu.py:325-334 | the opponent's loop ends fail-soft, whether it ran out of children or was cut |
| Engine.Get2DBoard | pichu.py:337-345 | the loop builds the board whose cell (r, c) is character 8r + c |
| Engine.WhitePawnStages | pichu.py:95-124 | `wp_moves` is its four `if` blocks applied one after the other |
| Engine.BlackPawnStages | pichu.py:127-156 | `bp_moves` is its four `if` blocks applied one after the other |
| Engine.DirsAddsFour | pichu.py:159-163 | `r_moves` is its four `add_move_in_dir` calls applied one after the other |
| Engine.Game.constructor | pichu.py:385-387 | start-up: the player's colour, and the board loaded from the string |
| Engine.Game.Make | pichu.py:49-51 | after `make`, the board is the old board with the changes written in |
| Engine.Game.Unmake | pichu.py:45-47 | after `unmake`, the board is the old board with the undo values written in |
| Engine.Game.AddMoveInDir | pichu.py:191-223 | the list afterwards is the slide's front moves, then the old list, then its back moves |
| Engine.Game.WhitePawnMoves | pichu.py:95-124 | the list afterwards is the old one grown by `wp_moves`'s additions |
| Engine.Game.BlackPawnMoves | pichu.py:127-156 | the list afterwards is the old one grown by `bp_moves`'s additions |
| Engine.Game.RookMoves | pichu.py:159-163 | the list afterwards is the old one grown by the slides down, up, right and left |
| Engine.Game.BishopMoves | pichu.py:166-169 | the nested loops add the four diagonal slides in loop order |
| Engine.Game.QueenMoves | pichu.py:172-174 | the rook's additions, then the bishop's |
| Engine.Game.KnightMoves | pichu.py:177-181 | the nested loops with their guard add the eight L-shaped one-step moves in loop order |
| Engine.Game.KingMoves | pichu.py:184-188 | the nested loops add the nine one-step offsets in loop order |
| Engine.Game.PieceMoves | pichu.py:61-91 | the dispatch on the symbol of the cell for the side to move |
| Engine.Game.PossibleMoves | pichu.py:58-92 | the row-major scan produces `PossibleMovesOf`; `MoveGenFacts.PossibleMovesExactly` states which moves it holds, and `MoveGen.PossibleMovesOrdered` and `MoveGenFacts.PossibleMovesFrontIff` state their order |
| Engine.Game.Successors | pichu.py:31-37 | the successors are the moves of the player on the player's plies, of the opponent otherwise |
| Engine.Game.Material | pichu.py:241-248 | the accumulation equals the signed sum of the weights, negated for a Black player |
| Engine.Game.PawnStructure | pichu.py:269-296 | the accumulation equals the supported-pawn count on the player's plies, 0 otherwise |
| Engine.Game.Mobility | pichu.py:259-266 | the accumulation over successors and changed cells equals the bonus total, negated on the opponent's plies |
| Engine.Game.Evaluate | pichu.py:231-233 | the result is 10 x material + 1 x pawn structure + 5 x mobility |
| Engine.Game.AlphaBeta | pichu.py:309-334 | the board is unchanged afterwards; the value is fail-soft against minimax; at depth 0 or game over it is `evaluate`; with no successors it is -inf on the player's plies and +inf on the opponent's |
| Engine.Game.SearchChild | pichu.py:318-320 | make, search the child one ply shallower, unmake: the board is restored and the value is fail-soft for the child |
| Engine.Game.MaxChild | pichu.py:318-323 | one pass of the player's loop: the board is restored and alpha is raised to the running best; the loop invariant holds one child further, or the cut value bounds the node's value from below |
| Engine.Game.MinChild | pichu.py:328-333 | one pass of the opponent's loop: the board is restored and beta is lowered to the running best; the loop invariant holds one child further, or the cut value bounds the node's value from above |
| Engine.Game.MaxNode | pichu.py:313-324 | the player's node: the board is unchanged and the value is fail-soft against the best child value; -inf without children |
| Engine.Game.MinNode | pichu.py:325-334 | the opponent's node: the board is unchanged and the value is fail-soft against the worst child value; +inf without children |
| Engine.Game.RootSearch | pichu.py:399-400 | a search from the root with the default window returns the exact minimax value and leaves the board unchanged |
| Engine.Game.Printout | pichu.py:348-352 | the flattened string lists the cells row-major, and loading it gives back the board |

## Left out

- The command line is not modelled: the colour and the board string are the constructor's parameters (`sys.argv`, pichu.py:385-387).
- `print`, `view` and the `piece_symbols` table are not modelled: they are output only.
- The iterative-deepening driver (pichu.py:399-406) is not modelled; `RootSearch` is one of its `alphabeta` calls. Neither is picking the printed move by `next_state.val == current.val`, because the model keeps no `val` field.
- The `State` class and its successor cache are not modelled. Successors are recomputed from the board. This matches the cache because make/unmake restores the board each time the node is visited again (`MoveGenFacts.GeneratedMoveRestores`).
- Python floats are not modelled: scores are exact reals plus -inf and +inf, and rounding is not modelled.
- Dictionary iteration order is not modelled: `make`, `unmake` and `mobility` visit the keys in an arbitrary order. `KeySumRemove` shows the mobility sum does not depend on it, and make/unmake write distinct cells.
- Pieces.Weight: symbols outside `pieces_wgt` weigh 0. The board string is loaded without a check (pichu.py:387), and on a board holding a symbol other than '.' and the twelve pieces, `material` adds `None` and raises a TypeError (pichu.py:246); the model counts such a symbol as 0 instead.
- Search.GameOver: also requires the key to be in `changes`. The source would raise a KeyError otherwise, but every generated move has the same keys in both maps.
- Engine.Game.AlphaBeta: requires alpha < beta, which every call the program makes meets. The root passes (-inf, +inf), and each loop stops as soon as beta <= alpha. A call with alpha >= beta is not modelled.
- Engine.Game.AlphaBeta: the body is split into `MaxNode`/`MinNode` (the loops), `MaxChild`/`MinChild` (one pass) and `SearchChild` (make, recurse, unmake). One order differs: the source folds the child's value into the running best with `max`/`min` before `unmake` (pichu.py:319-320, 329-330), while `MaxChild`/`MinChild` fold it after `SearchChild` has unmade the move. The result is the same, because `Max` and `Min` do not read the board.
- Engine.Get2DBoard: requires at least 64 characters. A shorter string makes the source raise IndexError, which is not modelled.
- Engine.Game.Make: requires every changed cell to be on the board. Python would wrap a negative index, but no generated move has one.
- Engine.Game.AddMoveInDir: the move is built with two `AddChange` calls, as in the source. Integer widths do not arise because Python integers are unbounded, and `depth * dr` is written as the recursive `Scale`, proved equal by `ScaleIsProduct`.
- Engine.Game.PieceMoves: the two colour branches of `possible_moves` are one method with a colour test, with the same symbol-by-symbol dispatch.
