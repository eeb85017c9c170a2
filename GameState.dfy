/**
 * The narrow interface the search needs from a game: enumerate the legal
 * moves, apply a move, score a finished state from one player's viewpoint and
 * tell who made the last move. States are values, so `Clone()` is plain
 * copying and two copies can never share mutable parts.
 */
module GameState {

  import opened Moves

  /**
   * A game over states of type `S`. `rank` is a measure that every legal move
   * lowers (see `Terminating`): it stands for the fact that every game ends,
   * which the random playout of the search relies on.
   */
  datatype Game<!S> = Game(
    getMoves: S -> seq<Move>,
    doMove: (S, Move) -> S,
    getResult: (S, int) -> real,
    playerJustMoved: S -> int,
    rank: S -> nat)

  /** Playing any legal move brings the game strictly closer to its end. */
  ghost predicate Terminating<S(!new)>(g: Game<S>)
  {
    forall s: S, m: Move :: m in g.getMoves(s) ==> g.rank(g.doMove(s, m)) < g.rank(s)
  }

  /** The state reached from `s` by playing `moves` in order. */
  ghost function Replay<S>(g: Game<S>, s: S, moves: seq<Move>): S
  {
    if moves == [] then s else g.doMove(Replay(g, s, moves[..|moves| - 1]), moves[|moves| - 1])
  }

  /** Replaying one more move is one more `doMove`. */
  lemma ReplayStep<S>(g: Game<S>, s: S, moves: seq<Move>, m: Move)
    ensures Replay(g, s, moves + [m]) == g.doMove(Replay(g, s, moves), m)
  {
    assert (moves + [m])[..|moves|] == moves;
  }
}
