/**
 * The search loop `UCT` of mcts/uct.py over an abstract game: each
 * iteration selects down the fully expanded part of the tree, expands one
 * untried move, plays the game out at random and backpropagates the
 * result; the answer is the move of the most visited child of the root.
 * The wall-clock budget becomes an iteration count, and each random choice
 * an arbitrary one among the moves offered.
 */
module Uct {

  import opened Wrappers
  import opened Moves
  import opened GameState
  import opened SearchTree
  import opened Seqs

  /** The option `Some(m)` as a bag of zero or one move. */
  function Bag(m: Option<Move>): multiset<Move>
  {
    if m.Some? then multiset{m.value} else multiset{}
  }

  /** The moves of the nodes `cs`, the root's expanded moves when `cs` are its children. */
  ghost function ExpandedMoves(nodes: seq<Node>, cs: seq<nat>): multiset<Move>
    requires InRange(nodes, cs)
  {
    if cs == [] then multiset{} else ExpandedMoves(nodes, cs[..|cs| - 1]) + Bag(nodes[cs[|cs| - 1]].move)
  }

  /**
   * Every move available at the root is either still untried there or the
   * move of exactly one of its children, counting repeated moves.
   */
  ghost predicate RootAccount(nodes: seq<Node>, rootMoves: seq<Move>)
    requires |nodes| > 0 && InRange(nodes, nodes[0].children)
  {
    multiset(nodes[0].untried) + ExpandedMoves(nodes, nodes[0].children) == multiset(rootMoves)
  }

  lemma {:induction false} ExpandedMovesFrame(a: seq<Node>, b: seq<Node>, cs: seq<nat>)
    requires InRange(a, cs) && InRange(b, cs)
    requires forall k :: 0 <= k < |cs| ==> b[cs[k]].move == a[cs[k]].move
    ensures ExpandedMoves(b, cs) == ExpandedMoves(a, cs)
  {
    if cs != [] {
      ExpandedMovesFrame(a, b, cs[..|cs| - 1]);
    }
  }

  lemma {:induction false} ExpandedMovesAppend(nodes: seq<Node>, cs: seq<nat>, c: nat)
    requires InRange(nodes, cs) && c < |nodes|
    ensures InRange(nodes, cs + [c])
    ensures ExpandedMoves(nodes, cs + [c]) == ExpandedMoves(nodes, cs) + Bag(nodes[c].move)
  {
    assert (cs + [c])[..|cs|] == cs;
  }

  /** The move of any child is among the expanded moves. */
  lemma {:induction false} ExpandedMovesHas(nodes: seq<Node>, cs: seq<nat>, k: nat)
    requires InRange(nodes, cs) && k < |cs| && nodes[cs[k]].move.Some?
    ensures nodes[cs[k]].move.value in ExpandedMoves(nodes, cs)
  {
    if k < |cs| - 1 {
      ExpandedMovesHas(nodes, cs[..|cs| - 1], k);
    }
  }

  /**
   * One step of the descent: `p` is fully expanded, has children and has
   * been visited, as have all its children, and `c` is the child that
   * `SelectChild` picks there.
   */
  ghost predicate Descent(nodes: seq<Node>, p: nat, c: nat, score: (real, nat, nat) -> real)
    requires WellFormed(nodes) && p < |nodes|
  {
    && nodes[p].untried == [] && nodes[p].children != [] && nodes[p].visits >= 1
    && (forall k :: 0 <= k < |nodes[p].children| ==> nodes[nodes[p].children[k]].visits >= 1)
    && c == SelectChild(nodes, p, score)
  }

  /** `path` is a descent from the root: each node after the first is the child selected at the one before. */
  ghost predicate Descended(nodes: seq<Node>, path: seq<nat>, score: (real, nat, nat) -> real)
    requires WellFormed(nodes)
  {
    && |path| >= 1 && path[0] == 0
    && (forall j :: 0 <= j < |path| ==> path[j] < |nodes| && (j > 0 ==> path[j] > 0))
    && (forall j :: 0 <= j < |path| - 1 ==> Descent(nodes, path[j], path[j + 1], score))
  }

  /** The moves that lead to the nodes `ps`, in order. */
  ghost function PathMoves(nodes: seq<Node>, ps: seq<nat>): (ms: seq<Move>)
    requires forall j :: 0 <= j < |ps| ==> ps[j] < |nodes| && nodes[ps[j]].move.Some?
    ensures |ms| == |ps|
  {
    seq(|ps|, j requires 0 <= j < |ps| => nodes[ps[j]].move.value)
  }

  /**
   * The selection phase of `UCT`: from the root, descend to the selected
   * child while the node is fully expanded and has children. `path` is the
   * descent, each step the child `SelectChild` picks; it stops at a node
   * that can be expanded or is a leaf, and `state` is the root state after
   * the moves along the path.
   */
  method Select<S>(nodes: seq<Node>, g: Game<S>, rootstate: S, score: (real, nat, nat) -> real)
      returns (node: nat, state: S, ghost path: seq<nat>)
    requires WellFormed(nodes) && Counted(nodes, None)
    ensures node < |nodes|
    ensures nodes[node].untried != [] || nodes[node].children == []
    ensures node != 0 ==> nodes[0].untried == [] && nodes[0].children != []
    ensures Descended(nodes, path, score) && path[|path| - 1] == node
    ensures state == Replay(g, rootstate, PathMoves(nodes, path[1..]))
  {
    node := 0;
    state := rootstate;
    path := [0];
    while nodes[node].untried == [] && nodes[node].children != []
      invariant node < |nodes|
      invariant node != 0 ==> nodes[0].untried == [] && nodes[0].children != []
      invariant Descended(nodes, path, score) && path[|path| - 1] == node
      invariant state == Replay(g, rootstate, PathMoves(nodes, path[1..]))
      decreases |nodes| - node
    {
      var c := Descend(nodes, node, score);
      DescentExtends(nodes, g, rootstate, score, path, c);
      state := g.doMove(state, nodes[c].move.value);
      path := path + [c];
      node := c;
    }
  }

  /** One step of the descent from a fully expanded node with children: the child `SelectChild` picks. */
  method Descend(nodes: seq<Node>, node: nat, score: (real, nat, nat) -> real) returns (c: nat)
    requires WellFormed(nodes) && Counted(nodes, None) && node < |nodes|
    requires nodes[node].untried == [] && nodes[node].children != []
    ensures Descent(nodes, node, c, score)
  {
    var cs := nodes[node].children;
    assert InRange(nodes, cs);
    ChildVisitsAtLeast(nodes, cs, 0);
    c := SelectChild(nodes, node, score);
  }

  /** Extending a descent by the child selected at its end keeps it a descent. */
  lemma DescentExtends<S>(nodes: seq<Node>, g: Game<S>, rootstate: S, score: (real, nat, nat) -> real,
                          path: seq<nat>, c: nat)
    requires WellFormed(nodes) && Descended(nodes, path, score)
    requires Descent(nodes, path[|path| - 1], c, score)
    ensures c < |nodes| && c > path[|path| - 1] && nodes[c].move.Some?
    ensures Descended(nodes, path + [c], score)
    ensures Replay(g, rootstate, PathMoves(nodes, (path + [c])[1..]))
            == g.doMove(Replay(g, rootstate, PathMoves(nodes, path[1..])), nodes[c].move.value)
  {
    var ext := path + [c];
    assert nodes[c].parent == Some(path[|path| - 1]);
    DescendedAppend(nodes, path, c, score);
    assert ext[1..] == path[1..] + [c];
    assert PathMoves(nodes, ext[1..]) == PathMoves(nodes, path[1..]) + [nodes[c].move.value];
    ReplayStep(g, rootstate, PathMoves(nodes, path[1..]), nodes[c].move.value);
  }

  lemma DescendedAppend(nodes: seq<Node>, path: seq<nat>, c: nat, score: (real, nat, nat) -> real)
    requires WellFormed(nodes) && Descended(nodes, path, score)
    requires Descent(nodes, path[|path| - 1], c, score) && 0 < c < |nodes|
    ensures Descended(nodes, path + [c], score)
  {
    var ext := path + [c];
    forall j | 0 <= j < |ext| - 1 ensures Descent(nodes, ext[j], ext[j + 1], score) {
      assert ext[j] == path[j];
      if j < |path| - 1 {
        assert ext[j + 1] == path[j + 1];
      }
    }
  }

  /**
   * A finished playout: `final` is reached from `state` by the moves
   * `played`, each legal where it was made, and offers no move.
   */
  ghost predicate Playout<S>(g: Game<S>, state: S, played: seq<Move>, final: S)
  {
    && g.getMoves(final) == []
    && final == Replay(g, state, played)
    && forall j :: 0 <= j < |played| ==> played[j] in g.getMoves(Replay(g, state, played[..j]))
  }

  /**
   * The rollout phase of `UCT`: arbitrary legal moves until the game offers
   * none. `played` are the moves made.
   */
  method Rollout<S(!new)>(g: Game<S>, state: S) returns (final: S, ghost played: seq<Move>)
    requires Terminating(g)
    ensures g.getMoves(final) == []
    ensures Playout(g, state, played, final)
  {
    final := state;
    played := [];
    while g.getMoves(final) != []
      invariant final == Replay(g, state, played)
      invariant forall j :: 0 <= j < |played| ==> played[j] in g.getMoves(Replay(g, state, played[..j]))
      decreases g.rank(final)
    {
      assert g.getMoves(final)[0] in g.getMoves(final);
      var m :| m in g.getMoves(final);
      ReplayStep(g, state, played, m);
      assert forall j :: 0 <= j < |played| ==> (played + [m])[..j] == played[..j];
      assert (played + [m])[..|played|] == played;
      final := g.doMove(final, m);
      played := played + [m];
    }
  }

  /** The move of every child of the root is one of the root's moves. */
  lemma RootChildMove(nodes: seq<Node>, rootMoves: seq<Move>, k: nat)
    requires |nodes| > 0 && InRange(nodes, nodes[0].children) && RootAccount(nodes, rootMoves)
    requires k < |nodes[0].children| && nodes[nodes[0].children[k]].move.Some?
    ensures nodes[nodes[0].children[k]].move.value in rootMoves
  {
    var m := nodes[nodes[0].children[k]].move.value;
    ExpandedMovesHas(nodes, nodes[0].children, k);
    assert m in multiset(rootMoves);
  }

  /** The result of the finished game `final` from the viewpoint of each player. */
  function Outcome<S>(g: Game<S>, final: S): int -> real
  {
    p => g.getResult(final, p)
  }

  /**
   * One iteration of the search loop of `UCT`: select, expand, roll out,
   * backpropagate. `path` is the descent from the root in the tree as it
   * was, stopping at the first node with untried moves or without
   * children; the node at its end is expanded into `expanded`, with `leaf` the
   * new child (or that node itself) and `next` its state; the playout from
   * `next` ends in `final`; and the tree is `expanded` with every node on
   * the way from `leaf` up to the root credited with the result of
   * `final`. The root gains one visit, the statistics invariant and the
   * account of the root's moves are kept, and the root's children are only
   * ever extended.
   */
  method Iterate<S(!new)>(tree: Tree, g: Game<S>, rootstate: S, score: (real, nat, nat) -> real)
      returns (ghost path: seq<nat>, ghost leaf: nat, ghost next: S, ghost expanded: seq<Node>,
               ghost played: seq<Move>, ghost final: S)
    requires Terminating(g)
    requires tree.Valid() && Counted(tree.nodes, None)
    requires RootAccount(tree.nodes, g.getMoves(rootstate))
    requires g.getMoves(rootstate) == [] ==> tree.nodes[0].children == []
    modifies tree
    ensures tree.Valid() && Counted(tree.nodes, None)
    ensures Descended(old(tree.nodes), path, score)
    ensures old(tree.nodes)[path[|path| - 1]].untried != [] || old(tree.nodes)[path[|path| - 1]].children == []
    ensures Expansion(old(tree.nodes), expanded, path[|path| - 1], leaf, g,
                      Replay(g, rootstate, PathMoves(old(tree.nodes), path[1..])), next)
    ensures Playout(g, next, played, final)
    ensures WellFormed(expanded) && leaf < |expanded|
    ensures tree.nodes == Backpropagated(expanded, leaf, Outcome(g, final))
    ensures tree.nodes[0].visits == old(tree.nodes[0].visits) + 1
    ensures RootAccount(tree.nodes, g.getMoves(rootstate))
    ensures old(tree.nodes[0].children) <= tree.nodes[0].children
    ensures g.getMoves(rootstate) == [] ==> tree.nodes[0].children == []
    ensures g.getMoves(rootstate) != [] ==> tree.nodes[0].children != []
    ensures old(|tree.nodes|) <= |tree.nodes| <= old(|tree.nodes|) + 1
  {
    var node, state;
    node, state, path := Select(tree.nodes, g, rootstate, score);
    var l, n := Expand(tree, node, g, state, g.getMoves(rootstate));
    leaf, next, expanded := l, n, tree.nodes;
    var f;
    f, played := Rollout(g, n);
    final := f;
    tree.Backpropagate(l, Outcome(g, f));
    RootAfterBackpropagate(expanded, tree.nodes, leaf, Outcome(g, f), g.getMoves(rootstate));
  }

  /**
   * The expansion phase as a relation between the arenas `before` and
   * `after`: at a node with untried moves, one of them is played from
   * `state` to `next` and the arena gains the child for it, as `AddChild`
   * builds it, which is `leaf`; at a node without any, the arena, the node
   * and the state stay as they are.
   */
  ghost predicate Expansion<S>(before: seq<Node>, after: seq<Node>, node: nat, leaf: nat, g: Game<S>, state: S, next: S)
    requires node < |before|
  {
    if before[node].untried == [] then leaf == node && next == state && after == before
    else
      && leaf == |before| && leaf < |after| && after[leaf].move.Some?
      && after[leaf].move.value in before[node].untried
      && next == g.doMove(state, after[leaf].move.value)
      && after == WithChild(before, node, after[leaf].move.value, g, next)
  }

  /**
   * The expansion phase of `UCT`: when `node` has untried moves, play one of
   * them, chosen arbitrarily, and descend to the child added for it;
   * otherwise stay at `node` (see `Expansion`). The returned `leaf` is where
   * backpropagation starts, the only node that may still lack a visit.
   */
  method Expand<S>(tree: Tree, node: nat, g: Game<S>, state: S, ghost rootMoves: seq<Move>)
      returns (leaf: nat, next: S)
    requires tree.Valid() && Counted(tree.nodes, None) && node < |tree.nodes|
    requires tree.nodes[node].untried != [] || tree.nodes[node].children == []
    requires node != 0 ==> tree.nodes[0].untried == [] && tree.nodes[0].children != []
    requires RootAccount(tree.nodes, rootMoves)
    requires rootMoves == [] ==> tree.nodes[0].children == []
    modifies tree
    ensures tree.Valid() && leaf < |tree.nodes| && Counted(tree.nodes, Some(leaf))
    ensures Expansion(old(tree.nodes), tree.nodes, node, leaf, g, state, next)
    ensures RootAccount(tree.nodes, rootMoves)
    ensures tree.nodes[0].visits == old(tree.nodes[0].visits)
    ensures old(tree.nodes[0].children) <= tree.nodes[0].children
    ensures rootMoves == [] ==> tree.nodes[0].children == []
    ensures rootMoves != [] ==> tree.nodes[0].children != []
    ensures old(|tree.nodes|) <= |tree.nodes| <= old(|tree.nodes|) + 1
  {
    leaf, next := node, state;
    if rootMoves != [] {
      assert rootMoves[0] in multiset(rootMoves);
    }
    if tree.nodes[node].untried != [] {
      ghost var start := tree.nodes;
      assert tree.nodes[node].untried[0] in tree.nodes[node].untried;
      var m :| m in tree.nodes[node].untried;
      next := g.doMove(state, m);
      leaf := tree.AddChild(node, m, g, next);
      RootAfterAddChild(start, tree.nodes, node, leaf, m, rootMoves);
      AddChildIs(start, tree.nodes, node, m, g, next);
    }
  }

  /** Field by field, the arena `AddChild` leaves is `WithChild`. */
  lemma AddChildIs<S>(a: seq<Node>, b: seq<Node>, p: nat, m: Move, g: Game<S>, s: S)
    requires p < |a| && m in a[p].untried && |b| == |a| + 1
    requires b[|a|].move == Some(m) && b[|a|].parent == Some(p) && b[|a|].children == []
    requires b[|a|].visits == 0 && b[|a|].wins == 0.0
    requires b[|a|].untried == (if EndsDecision(m) then [] else g.getMoves(s))
    requires b[|a|].playerJustMoved == g.playerJustMoved(s)
    requires b[p] == a[p].(untried := RemoveFirst(a[p].untried, m), children := a[p].children + [|a|])
    requires forall i :: 0 <= i < |a| && i != p ==> b[i] == a[i]
    ensures b == WithChild(a, p, m, g, s)
  {
    var w := WithChild(a, p, m, g, s);
    assert |w| == |b|;
    forall i | 0 <= i < |b| ensures b[i] == w[i] {
    }
  }

  lemma RootAfterAddChild(a: seq<Node>, b: seq<Node>, p: nat, c: nat, m: Move, rootMoves: seq<Move>)
    requires |a| > 0 && InRange(a, a[0].children) && RootAccount(a, rootMoves)
    requires p < |a| && m in a[p].untried && c == |a| && |b| == c + 1 && b[c].move == Some(m)
    requires b[p] == a[p].(untried := RemoveFirst(a[p].untried, m), children := a[p].children + [c])
    requires forall i :: 0 <= i < c && i != p ==> b[i] == a[i]
    ensures b[0].visits == a[0].visits
    ensures b[0].children == if p == 0 then a[0].children + [c] else a[0].children
    ensures InRange(b, b[0].children) && RootAccount(b, rootMoves)
  {
    var cs := a[0].children;
    assert InRange(b, cs);
    forall k | 0 <= k < |cs| ensures b[cs[k]].move == a[cs[k]].move {
    }
    ExpandedMovesFrame(a, b, cs);
    if p == 0 {
      ExpandedMovesAppend(b, cs, c);
    }
  }

  lemma RootAfterBackpropagate(a: seq<Node>, b: seq<Node>, leaf: nat, result: int -> real, rootMoves: seq<Move>)
    requires WellFormed(a) && leaf < |a| && RootAccount(a, rootMoves)
    requires b == Backpropagated(a, leaf, result)
    ensures b[0].visits == a[0].visits + 1 && b[0].children == a[0].children
    ensures InRange(b, b[0].children) && RootAccount(b, rootMoves)
  {
    RootIsAncestor(a, leaf);
    var cs := a[0].children;
    assert InRange(a, cs) && InRange(b, cs);
    forall k | 0 <= k < |cs| ensures b[cs[k]].move == a[cs[k]].move {
    }
    ExpandedMovesFrame(a, b, cs);
  }

  /**
   * `UCT`: `iterations` rounds of search from `rootstate`, then the move of
   * the most visited child of the root, the last such child on a tie. The
   * root has been visited once per round, and the move returned is one of
   * the root's moves; there is none exactly when no round ran or the root
   * has no moves, where the source fails on an empty child list.
   */
  method UCT<S(!new)>(g: Game<S>, rootstate: S, iterations: nat, score: (real, nat, nat) -> real)
      returns (best: Option<Move>, tree: Tree)
    requires Terminating(g)
    ensures tree.Valid() && Counted(tree.nodes, None)
    ensures tree.nodes[0].visits == iterations
    ensures best == BestMove(tree.nodes)
    ensures best.None? <==> iterations == 0 || g.getMoves(rootstate) == []
    ensures best.Some? ==> best.value in g.getMoves(rootstate)
    ensures |tree.nodes| <= iterations + 1
  {
    tree := new Tree.Root(g, rootstate);
    var i := 0;
    while i < iterations
      invariant i <= iterations
      invariant tree.Valid() && Counted(tree.nodes, None)
      invariant tree.nodes[0].visits == i
      invariant RootAccount(tree.nodes, g.getMoves(rootstate))
      invariant i == 0 ==> tree.nodes[0].children == []
      invariant g.getMoves(rootstate) == [] ==> tree.nodes[0].children == []
      invariant i > 0 && g.getMoves(rootstate) != [] ==> tree.nodes[0].children != []
      invariant |tree.nodes| <= i + 1
    {
      var path, leaf, next, expanded, played, final := Iterate(tree, g, rootstate, score);
      i := i + 1;
    }
    best := BestMove(tree.nodes);
    if best.Some? {
      var cs := tree.nodes[0].children;
      ghost var k :| LastMaximal(Visits(tree.nodes, cs), k) && tree.nodes[cs[k]].move == Some(best.value);
      RootChildMove(tree.nodes, g.getMoves(rootstate), k);
    }
  }
}
