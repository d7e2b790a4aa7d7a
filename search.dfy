/** Scores with infinities, the terminal test, and plain minimax over the tree
    of successors, against which the engine's alpha-beta search is proved. */
module Search {
  import opened Pieces
  import opened Boards
  import opened MoveGen
  import opened Evaluation
  import MoveGenFacts

  datatype Option<T> = None | Some(value: T)

  /** A score: the evaluator's reals extended with -inf and +inf. */
  datatype Score = NegInf | Fin(v: real) | PosInf

  predicate Le(a: Score, b: Score) {
    match (a, b)
    case (NegInf, _) => true
    case (_, PosInf) => true
    case (Fin(x), Fin(y)) => x <= y
    case _ => false
  }

  predicate Lt(a: Score, b: Score) {
    !Le(b, a)
  }

  function Max(a: Score, b: Score): (m: Score)
    ensures Le(a, m) && Le(b, m) && (m == a || m == b)
  {
    if Le(a, b) then b else a
  }

  function Min(a: Score, b: Score): (m: Score)
    ensures Le(m, a) && Le(m, b) && (m == a || m == b)
  {
    if Le(a, b) then a else b
  }

  /** `is_game_over`: the move into the node wrote, over a cell that held a king,
      a piece of the other colour. The root (no move) is never over. */
  predicate GameOver(last: Option<Move>) {
    last.Some? &&
    var m := last.value;
    exists p | p in m.undo && p in m.changes ::
      (m.undo[p] == 'K' && IsBlack(m.changes[p])) || (m.undo[p] == 'k' && IsWhite(m.changes[p]))
  }

  /** A generated move ends the game exactly when it captures the enemy king. */
  lemma GameOverIffKingCaptured(g: Grid, color: Color, m: Move, o: Pos, d: Pos)
    requires Step(g, color, m, o, d)
    ensures GameOver(Some(m)) <==>
      (color == White && At(g, d) == 'k') || (color == Black && At(g, d) == 'K')
  {
    MoveGenFacts.StepFacts(g, color, m, o, d);
    if (color == White && At(g, d) == 'k') || (color == Black && At(g, d) == 'K') {
      assert d in m.undo && d in m.changes;
    }
  }

  /** Minimax value of the node reached by `last`, with `turn` telling whether
      the player is to move, searched `depth` plies deep on board `g`. */
  ghost function Minimax(g: Grid, player: Color, last: Option<Move>, turn: bool, depth: nat): Score
    decreases depth, 2
  {
    if depth == 0 || GameOver(last) then Fin(EvaluateOf(g, player, turn))
    else if turn then MaxOver(g, player, PossibleMovesOf(g, player), depth - 1)
    else MinOver(g, player, PossibleMovesOf(g, Opponent(player)), depth - 1)
  }

  /** The value of the child reached from `g` by the move `m`. */
  ghost function ChildValue(g: Grid, player: Color, m: Move, turn: bool, depth: nat): Score
    decreases depth, 3
  {
    Minimax(ApplyMap(g, m.changes), player, Some(m), turn, depth)
  }

  /** The best child value for the player: -inf when there is no child. */
  ghost function MaxOver(g: Grid, player: Color, ms: seq<Move>, depth: nat): Score
    decreases depth + 1, 0, |ms|
  {
    if ms == [] then NegInf
    else Max(MaxOver(g, player, ms[..|ms| - 1], depth), ChildValue(g, player, ms[|ms| - 1], false, depth))
  }

  /** The best child value for the opponent: +inf when there is no child. */
  ghost function MinOver(g: Grid, player: Color, ms: seq<Move>, depth: nat): Score
    decreases depth + 1, 0, |ms|
  {
    if ms == [] then PosInf
    else Min(MinOver(g, player, ms[..|ms| - 1], depth), ChildValue(g, player, ms[|ms| - 1], true, depth))
  }

  /** The fail-soft contract of alpha-beta: inside the window the value is exact;
      at or below alpha it bounds the true value from above; at or above beta it
      bounds it from below. */
  ghost predicate FailSoft(v: Score, exact: Score, alpha: Score, beta: Score) {
    (Lt(alpha, v) && Lt(v, beta) ==> v == exact)
    && (Le(v, alpha) ==> Le(exact, v))
    && (Le(beta, v) ==> Le(v, exact))
  }

  /** With the full window a fail-soft value is the exact value. */
  lemma FullWindowIsExact(v: Score, exact: Score)
    requires FailSoft(v, exact, NegInf, PosInf)
    ensures v == exact
  {
  }

  /** The best value of a prefix never beats that of the whole list. */
  lemma {:induction false} MaxOverPrefix(g: Grid, player: Color, ms: seq<Move>, depth: nat, i: nat)
    requires i <= |ms|
    ensures Le(MaxOver(g, player, ms[..i], depth), MaxOver(g, player, ms, depth))
    decreases |ms|
  {
    if i < |ms| {
      MaxOverPrefix(g, player, ms[..|ms| - 1], depth, i);
      assert ms[..|ms| - 1][..i] == ms[..i];
    } else {
      assert ms[..i] == ms;
    }
  }

  lemma {:induction false} MinOverPrefix(g: Grid, player: Color, ms: seq<Move>, depth: nat, i: nat)
    requires i <= |ms|
    ensures Le(MinOver(g, player, ms, depth), MinOver(g, player, ms[..i], depth))
    decreases |ms|
  {
    if i < |ms| {
      MinOverPrefix(g, player, ms[..|ms| - 1], depth, i);
      assert ms[..|ms| - 1][..i] == ms[..i];
    } else {
      assert ms[..i] == ms;
    }
  }

  /** Extending the searched prefix by the next child folds that child's value in. */
  lemma MaxOverNext(g: Grid, player: Color, ms: seq<Move>, depth: nat, i: nat)
    requires i < |ms|
    ensures MaxOver(g, player, ms[..i + 1], depth)
      == Max(MaxOver(g, player, ms[..i], depth), ChildValue(g, player, ms[i], false, depth))
  {
    assert ms[..i + 1][..i] == ms[..i];
  }

  lemma MinOverNext(g: Grid, player: Color, ms: seq<Move>, depth: nat, i: nat)
    requires i < |ms|
    ensures MinOver(g, player, ms[..i + 1], depth)
      == Min(MinOver(g, player, ms[..i], depth), ChildValue(g, player, ms[i], true, depth))
  {
    assert ms[..i + 1][..i] == ms[..i];
  }

  /** The invariant of the player's loop in alpha-beta after `best` has absorbed
      the children searched so far, whose exact best is `exact`. */
  ghost predicate MaxLoop(best: Score, exact: Score, alpha: Score) {
    (Le(best, alpha) ==> Le(exact, best)) && (Lt(alpha, best) ==> best == exact)
  }

  /** One child of the player's loop: the child searched in window
      (max(alpha, best), beta) returned `v`. */
  lemma MaxLoopStep(best: Score, exact: Score, alpha: Score, a: Score, beta: Score, v: Score, child: Score)
    requires Lt(alpha, beta) && Lt(best, beta) && MaxLoop(best, exact, alpha)
    requires a == Max(alpha, best) && FailSoft(v, child, a, beta)
    ensures Lt(Max(best, v), beta) ==> MaxLoop(Max(best, v), Max(exact, child), alpha)
    ensures Le(beta, Max(alpha, Max(best, v))) ==>
      Max(best, v) == v && Le(beta, v) && Le(v, child)
  {
  }

  ghost predicate MinLoop(best: Score, exact: Score, beta: Score) {
    (Le(beta, best) ==> Le(best, exact)) && (Lt(best, beta) ==> best == exact)
  }

  /** One child of the opponent's loop: the child searched in window
      (alpha, min(beta, best)) returned `v`. */
  lemma MinLoopStep(best: Score, exact: Score, alpha: Score, b: Score, beta: Score, v: Score, child: Score)
    requires Lt(alpha, beta) && Lt(alpha, best) && MinLoop(best, exact, beta)
    requires b == Min(beta, best) && FailSoft(v, child, alpha, b)
    ensures Lt(alpha, Min(best, v)) ==> MinLoop(Min(best, v), Min(exact, child), beta)
    ensures Le(Min(beta, Min(best, v)), alpha) ==>
      Min(best, v) == v && Le(v, alpha) && Le(child, v)
  {
  }

  /** One iteration of the player's loop over the children `ms`: after the
      child `ms[i]` returned `v` from the window (a, beta), either the loop goes
      on with its invariant over `ms[..i + 1]`, or it is cut with a value that
      bounds the whole list's best from below. */
  lemma MaxAdvance(g: Grid, player: Color, ms: seq<Move>, depth: nat, i: nat,
                   alpha: Score, beta: Score, best: Score, a: Score, v: Score)
    requires i < |ms| && Lt(alpha, beta) && Lt(best, beta)
    requires MaxLoop(best, MaxOver(g, player, ms[..i], depth), alpha)
    requires a == Max(alpha, best)
    requires FailSoft(v, ChildValue(g, player, ms[i], false, depth), a, beta)
    ensures Max(a, Max(best, v)) == Max(alpha, Max(best, v))
    ensures Lt(Max(best, v), beta) ==> MaxLoop(Max(best, v), MaxOver(g, player, ms[..i + 1], depth), alpha)
    ensures Le(beta, Max(alpha, Max(best, v))) ==>
      Le(beta, Max(best, v)) && Le(Max(best, v), MaxOver(g, player, ms, depth))
  {
    var child := ChildValue(g, player, ms[i], false, depth);
    MaxLoopStep(best, MaxOver(g, player, ms[..i], depth), alpha, a, beta, v, child);
    MaxOverNext(g, player, ms, depth, i);
    MaxOverPrefix(g, player, ms, depth, i + 1);
  }

  /** One iteration of the opponent's loop, the mirror of `MaxAdvance`. */
  lemma MinAdvance(g: Grid, player: Color, ms: seq<Move>, depth: nat, i: nat,
                   alpha: Score, beta: Score, best: Score, b: Score, v: Score)
    requires i < |ms| && Lt(alpha, beta) && Lt(alpha, best)
    requires MinLoop(best, MinOver(g, player, ms[..i], depth), beta)
    requires b == Min(beta, best)
    requires FailSoft(v, ChildValue(g, player, ms[i], true, depth), alpha, b)
    ensures Min(b, Min(best, v)) == Min(beta, Min(best, v))
    ensures Lt(alpha, Min(best, v)) ==> MinLoop(Min(best, v), MinOver(g, player, ms[..i + 1], depth), beta)
    ensures Le(Min(beta, Min(best, v)), alpha) ==>
      Le(Min(best, v), alpha) && Le(MinOver(g, player, ms, depth), Min(best, v))
  {
    var child := ChildValue(g, player, ms[i], true, depth);
    MinLoopStep(best, MinOver(g, player, ms[..i], depth), alpha, b, beta, v, child);
    MinOverNext(g, player, ms, depth, i);
    MinOverPrefix(g, player, ms, depth, i + 1);
  }

  /** The player's loop ends fail-soft whether it ran out of children or was cut. */
  lemma MaxLoopDone(best: Score, exact: Score, alpha: Score, beta: Score)
    requires Lt(alpha, beta)
    requires (Lt(best, beta) && MaxLoop(best, exact, alpha)) || (Le(beta, best) && Le(best, exact))
    ensures FailSoft(best, exact, alpha, beta)
  {
  }

  lemma MinLoopDone(best: Score, exact: Score, alpha: Score, beta: Score)
    requires Lt(alpha, beta)
    requires (Lt(alpha, best) && MinLoop(best, exact, beta)) || (Le(best, alpha) && Le(exact, best))
    ensures FailSoft(best, exact, alpha, beta)
  {
  }
}
