/**
 * The search tree of mcts/uct.py (class `Node`), kept as an arena: the nodes
 * live in one sequence, a node refers to its parent and children by index,
 * and the root is index 0. The parent link is only ever followed upwards
 * during backpropagation.
 */
module SearchTree {

  import opened Wrappers
  import opened Moves
  import opened GameState
  import opened Seqs

  /**
   * One vertex: the move that led to it (`None` for the root), its parent
   * (`None` for the root), its children in the order they were added, the
   * accumulated result `wins` and visit count `visits`, the moves not yet
   * expanded, and the player who made `move`.
   */
  datatype Node = Node(move: Option<Move>, parent: Option<nat>, children: seq<nat>,
                       wins: real, visits: nat, untried: seq<Move>, playerJustMoved: int)

  // ---------------------------------------------------------------------
  // Shape of the arena

  predicate InRange(nodes: seq<Node>, cs: seq<nat>)
  {
    forall k :: 0 <= k < |cs| ==> cs[k] < |nodes|
  }

  predicate Increasing(cs: seq<nat>)
  {
    forall k, l :: 0 <= k < l < |cs| ==> cs[k] < cs[l]
  }

  /** Node `i` is among the children of its parent. */
  ghost predicate Listed(nodes: seq<Node>, i: nat)
    requires 0 < i < |nodes| && nodes[i].parent.Some? && nodes[i].parent.value < |nodes|
  {
    i in nodes[nodes[i].parent.value].children
  }

  /**
   * The arena is a tree rooted at 0: every other node has a move and an
   * earlier parent that lists it; every listed child is an arena node whose
   * parent is the lister; each child list is in creation order.
   */
  ghost predicate WellFormed(nodes: seq<Node>)
  {
    && |nodes| > 0
    && nodes[0].move.None? && nodes[0].parent.None?
    && (forall i :: 0 < i < |nodes| ==>
          nodes[i].move.Some? && nodes[i].parent.Some? && nodes[i].parent.value < i)
    && (forall i :: 0 < i < |nodes| ==> Listed(nodes, i))
    && (forall i, k :: 0 <= i < |nodes| && 0 <= k < |nodes[i].children| ==>
          nodes[i].children[k] < |nodes| && nodes[nodes[i].children[k]].parent == Some(i))
    && (forall i :: 0 <= i < |nodes| ==> Increasing(nodes[i].children))
  }

  // ---------------------------------------------------------------------
  // Visit statistics

  /** Sum of the visit counts of the nodes `cs`. */
  function ChildVisits(nodes: seq<Node>, cs: seq<nat>): nat
    requires InRange(nodes, cs)
  {
    if cs == [] then 0 else ChildVisits(nodes, cs[..|cs| - 1]) + nodes[cs[|cs| - 1]].visits
  }

  /**
   * The statistics invariant of the tree: no node has more visits among its
   * children than of its own, and every node but the root has been visited,
   * except possibly `pending`, a node just added and not yet backpropagated.
   */
  ghost predicate Counted(nodes: seq<Node>, pending: Option<nat>)
    requires WellFormed(nodes)
  {
    && (forall i {:trigger ChildVisits(nodes, nodes[i].children)} :: 0 <= i < |nodes| ==>
          ChildVisits(nodes, nodes[i].children) <= nodes[i].visits)
    && (forall i :: 0 < i < |nodes| && pending != Some(i) ==> nodes[i].visits >= 1)
  }

  /** `n` after one backpropagation step that reached it (`hit`) or not. */
  function Credit(n: Node, hit: bool, result: int -> real): Node
  {
    if hit then n.(visits := n.visits + 1, wins := n.wins + result(n.playerJustMoved)) else n
  }

  /** `q` is `from` or one of its ancestors: the path backpropagation walks from `from`. */
  ghost predicate Ancestor(nodes: seq<Node>, q: nat, from: nat)
    requires WellFormed(nodes) && from < |nodes|
    decreases from
  {
    q == from || (from > 0 && Ancestor(nodes, q, nodes[from].parent.value))
  }

  lemma {:induction false} AncestorBelow(nodes: seq<Node>, q: nat, from: nat)
    requires WellFormed(nodes) && from < |nodes|
    requires Ancestor(nodes, q, from)
    ensures q <= from
    decreases from
  {
    if q != from {
      AncestorBelow(nodes, q, nodes[from].parent.value);
    }
  }

  /** Every backpropagation path ends at the root. */
  lemma {:induction false} RootIsAncestor(nodes: seq<Node>, from: nat)
    requires WellFormed(nodes) && from < |nodes|
    ensures Ancestor(nodes, 0, from)
    decreases from
  {
    if from > 0 {
      RootIsAncestor(nodes, nodes[from].parent.value);
    }
  }

  lemma {:induction false} ChildVisitsAppend(nodes: seq<Node>, cs: seq<nat>, c: nat)
    requires InRange(nodes, cs) && c < |nodes|
    ensures InRange(nodes, cs + [c])
    ensures ChildVisits(nodes, cs + [c]) == ChildVisits(nodes, cs) + nodes[c].visits
  {
    assert (cs + [c])[..|cs|] == cs;
  }

  /** Sums over children agree when the children's visit counts agree. */
  lemma {:induction false} ChildVisitsFrame(a: seq<Node>, b: seq<Node>, cs: seq<nat>)
    requires InRange(a, cs) && InRange(b, cs)
    requires forall k :: 0 <= k < |cs| ==> b[cs[k]].visits == a[cs[k]].visits
    ensures ChildVisits(b, cs) == ChildVisits(a, cs)
  {
    if cs != [] {
      ChildVisitsFrame(a, b, cs[..|cs| - 1]);
    }
  }

  /** One more visit of node `c` adds one to every sum that counts `c`, and nothing to the others. */
  lemma {:induction false} ChildVisitsBump(a: seq<Node>, b: seq<Node>, cs: seq<nat>, c: nat)
    requires |a| == |b| && c < |a|
    requires InRange(a, cs) && Increasing(cs)
    requires forall j :: 0 <= j < |a| && j != c ==> b[j].visits == a[j].visits
    requires b[c].visits == a[c].visits + 1
    ensures ChildVisits(b, cs) == ChildVisits(a, cs) + (if c in cs then 1 else 0)
  {
    if cs != [] {
      var init := cs[..|cs| - 1];
      ChildVisitsBump(a, b, init, c);
      assert cs == init + [cs[|cs| - 1]];
      if c == cs[|cs| - 1] {
        assert c !in init;
      }
    }
  }

  lemma {:induction false} ChildVisitsAtLeast(nodes: seq<Node>, cs: seq<nat>, k: nat)
    requires InRange(nodes, cs) && k < |cs|
    ensures nodes[cs[k]].visits <= ChildVisits(nodes, cs)
  {
    if k < |cs| - 1 {
      ChildVisitsAtLeast(nodes, cs[..|cs| - 1], k);
    }
  }

  // ---------------------------------------------------------------------
  // Choosing among children (pure: `sorted(...)[-1]` in the source)

  /**
   * `k` holds a maximal key and every later key is strictly smaller: the
   * element a stable ascending sort puts last.
   */
  ghost predicate LastMaximal(keys: seq<real>, k: int)
  {
    && 0 <= k < |keys|
    && (forall j :: 0 <= j < |keys| ==> keys[j] <= keys[k])
    && (forall j :: k < j < |keys| ==> keys[j] < keys[k])
  }

  function LastArgMax(keys: seq<real>): (k: nat)
    requires keys != []
    ensures LastMaximal(keys, k)
  {
    if |keys| == 1 then 0
    else
      var k := LastArgMax(keys[..|keys| - 1]);
      if keys[k] <= keys[|keys| - 1] then |keys| - 1 else k
  }

  /** The selection key of each child: the exploration score of its statistics. */
  function Scores(nodes: seq<Node>, cs: seq<nat>, parentVisits: nat,
                  score: (real, nat, nat) -> real): (keys: seq<real>)
    requires InRange(nodes, cs)
    ensures |keys| == |cs|
  {
    seq(|cs|, k requires 0 <= k < |cs| => score(nodes[cs[k]].wins, nodes[cs[k]].visits, parentVisits))
  }

  /** The visit count of each child, the key of the final choice. */
  function Visits(nodes: seq<Node>, cs: seq<nat>): (keys: seq<real>)
    requires InRange(nodes, cs)
    ensures |keys| == |cs|
  {
    seq(|cs|, k requires 0 <= k < |cs| => nodes[cs[k]].visits as real)
  }

  /**
   * `UCTSelectChild`: the child of `p` with the highest score, the last such
   * child on a tie. The score (UCB1 in the source) divides by the child's
   * visit count and takes the logarithm of the parent's, so both must be
   * positive.
   */
  function SelectChild(nodes: seq<Node>, p: nat, score: (real, nat, nat) -> real): (c: nat)
    requires WellFormed(nodes) && p < |nodes| && nodes[p].children != []
    requires nodes[p].visits >= 1
    requires forall k :: 0 <= k < |nodes[p].children| ==> nodes[nodes[p].children[k]].visits >= 1
    ensures c < |nodes| && c in nodes[p].children && nodes[c].visits >= 1
    ensures exists k :: LastMaximal(Scores(nodes, nodes[p].children, nodes[p].visits, score), k)
                     && c == nodes[p].children[k]
  {
    var cs := nodes[p].children;
    var k := LastArgMax(Scores(nodes, cs, nodes[p].visits, score));
    cs[k]
  }

  /**
   * The move returned by the search: that of the most visited child of the
   * root, the last such child on a tie; `None` where the source fails on an
   * empty child list.
   */
  function BestMove(nodes: seq<Node>): (r: Option<Move>)
    requires WellFormed(nodes)
    ensures r.None? <==> nodes[0].children == []
    ensures r.Some? ==> exists k :: LastMaximal(Visits(nodes, nodes[0].children), k)
                                 && nodes[nodes[0].children[k]].move == Some(r.value)
  {
    var cs := nodes[0].children;
    if cs == [] then None
    else
      var k := LastArgMax(Visits(nodes, cs));
      assert cs[k] > 0 && nodes[cs[k]].parent == Some(0);
      Some(nodes[cs[k]].move.value)
  }

  // ---------------------------------------------------------------------
  // The arena, updated in place

  /** The node `Node(move, parent, state)` builds. */
  function NewNode<S>(g: Game<S>, move: Option<Move>, parent: Option<nat>, state: S): Node
  {
    var untried := if move.Some? && EndsDecision(move.value) then [] else g.getMoves(state);
    Node(move, parent, [], 0.0, 0, untried, g.playerJustMoved(state))
  }

  /**
   * The arena after `AddChild(p, m, g, s)`: one occurrence of `m` leaves the
   * untried moves of `p`, which gains the new node as its last child, and
   * the node for `m`, reached in state `s`, is appended.
   */
  function WithChild<S>(nodes: seq<Node>, p: nat, m: Move, g: Game<S>, s: S): seq<Node>
    requires p < |nodes| && m in nodes[p].untried
  {
    nodes[p := nodes[p].(untried := RemoveFirst(nodes[p].untried, m), children := nodes[p].children + [|nodes|])]
      + [NewNode(g, Some(m), Some(p), s)]
  }

  class Tree {
    var nodes: seq<Node>

    ghost predicate Valid()
      reads this
    {
      WellFormed(nodes)
    }

    /** The root node of a search from `state`. */
    constructor Root<S>(g: Game<S>, state: S)
      ensures Valid() && Counted(nodes, None) && |nodes| == 1
      ensures nodes[0].move.None? && nodes[0].children == []
      ensures nodes[0].visits == 0 && nodes[0].wins == 0.0
      ensures nodes[0].untried == g.getMoves(state)
      ensures nodes[0].playerJustMoved == g.playerJustMoved(state)
    {
      nodes := [NewNode(g, None, None, state)];
    }

    /**
     * `AddChild`: takes one occurrence of `m` out of the untried moves of `p`
     * and appends a fresh child for `m`, reached in state `s`, whose index
     * is returned. No other node changes.
     */
    method AddChild<S>(p: nat, m: Move, g: Game<S>, s: S) returns (c: nat)
      requires Valid() && p < |nodes| && m in nodes[p].untried
      modifies this
      ensures Valid() && c == old(|nodes|) && |nodes| == c + 1
      ensures nodes[c].move == Some(m) && nodes[c].parent == Some(p) && nodes[c].children == []
      ensures nodes[c].visits == 0 && nodes[c].wins == 0.0
      ensures nodes[c].untried == (if EndsDecision(m) then [] else g.getMoves(s))
      ensures nodes[c].playerJustMoved == g.playerJustMoved(s)
      ensures nodes[p] == old(nodes[p]).(untried := RemoveFirst(old(nodes[p].untried), m),
                                         children := old(nodes[p].children) + [c])
      ensures forall i :: 0 <= i < c && i != p ==> nodes[i] == old(nodes[i])
      ensures Counted(old(nodes), None) ==> Counted(nodes, Some(c))
    {
      var n := NewNode(g, Some(m), Some(p), s);
      c := |nodes|;
      var pn := nodes[p];
      ghost var a := nodes;
      nodes := nodes[p := pn.(untried := RemoveFirst(pn.untried, m), children := pn.children + [c])] + [n];
      AddChildKeepsShape(a, nodes, p);
      AddChildCounted(a, nodes, p);
    }

    /** `Update`: one more visit and `result` more wins for node `i`. */
    method Update(i: nat, result: real)
      requires Valid() && i < |nodes|
      modifies this
      ensures Valid()
      ensures nodes == old(nodes)[i := old(nodes[i]).(visits := old(nodes[i].visits) + 1,
                                                      wins := old(nodes[i].wins) + result)]
    {
      ghost var a := nodes;
      nodes := nodes[i := nodes[i].(visits := nodes[i].visits + 1, wins := nodes[i].wins + result)];
      SameShapeWellFormed(a, nodes);
    }

    /**
     * The backpropagation loop of `UCT`: from `leaf` up to the root, each
     * node gets one visit and the result seen from its own mover. Every node
     * on that path is credited once, every other node is left as it was,
     * and the statistics invariant holds again afterwards.
     */
    method Backpropagate(leaf: nat, result: int -> real)
      requires Valid() && leaf < |nodes| && Counted(nodes, Some(leaf))
      modifies this
      ensures Valid() && Counted(nodes, None)
      ensures nodes == Backpropagated(old(nodes), leaf, result)
    {
      ghost var before := nodes;
      var cur: Option<nat> := Some(leaf);
      BackpropagateStart(before, leaf, result);
      while cur.Some?
        invariant Valid() && Backpropagating(before, nodes, leaf, cur, result)
        decreases if cur.Some? then cur.value + 1 else 0
      {
        var n := cur.value;
        ghost var prev := nodes;
        Update(n, result(nodes[n].playerJustMoved));
        cur := nodes[n].parent;
        BackpropagateStep(before, prev, nodes, leaf, n, result);
      }
      BackpropagateDone(before, nodes, leaf, result);
    }
  }

  /** The two nodes differ at most in their statistics. */
  ghost predicate SameShape(x: Node, y: Node)
  {
    x.move == y.move && x.parent == y.parent && x.children == y.children
    && x.untried == y.untried && x.playerJustMoved == y.playerJustMoved
  }

  lemma SameShapeWellFormed(a: seq<Node>, b: seq<Node>)
    requires WellFormed(a) && |a| == |b|
    requires forall i :: 0 <= i < |a| ==> SameShape(a[i], b[i])
    ensures WellFormed(b)
  {
    forall i | 0 < i < |b| ensures Listed(b, i) {
      assert Listed(a, i);
    }
  }

  /** The arena after `AddChild` at `p`: `a` with `p` given the new child `|a|`, and that child appended. */
  ghost predicate Extended(a: seq<Node>, b: seq<Node>, p: nat)
  {
    && p < |a| && |b| == |a| + 1
    && (forall i :: 0 <= i < |a| && i != p ==> b[i] == a[i])
    && b[p].move == a[p].move && b[p].parent == a[p].parent && b[p].children == a[p].children + [|a|]
    && b[p].visits == a[p].visits
    && b[|a|].move.Some? && b[|a|].parent == Some(p) && b[|a|].children == [] && b[|a|].visits == 0
  }

  lemma AddChildKeepsShape(a: seq<Node>, b: seq<Node>, p: nat)
    requires WellFormed(a) && Extended(a, b, p)
    ensures WellFormed(b)
    ensures forall i :: 0 <= i < |a| ==> b[i].visits == a[i].visits
  {
    AddChildListed(a, b, p);
    AddChildLinks(a, b, p);
    AddChildIncreasing(a, b, p);
  }

  lemma AddChildListed(a: seq<Node>, b: seq<Node>, p: nat)
    requires WellFormed(a) && Extended(a, b, p)
    ensures forall i :: 0 < i < |b| ==> b[i].parent.Some? && b[i].parent.value < i && Listed(b, i)
  {
    forall i | 0 < i < |b| ensures b[i].parent.Some? && b[i].parent.value < i && Listed(b, i) {
      if i < |a| {
        assert Listed(a, i);
      }
    }
  }

  lemma AddChildLinks(a: seq<Node>, b: seq<Node>, p: nat)
    requires WellFormed(a) && Extended(a, b, p)
    ensures forall i, k :: 0 <= i < |b| && 0 <= k < |b[i].children| ==>
              b[i].children[k] < |b| && b[b[i].children[k]].parent == Some(i)
  {
    forall i, k | 0 <= i < |b| && 0 <= k < |b[i].children|
      ensures b[i].children[k] < |b| && b[b[i].children[k]].parent == Some(i)
    {
      if i == p && k < |a[p].children| {
        assert b[i].children[k] == a[p].children[k];
      }
    }
  }

  lemma AddChildIncreasing(a: seq<Node>, b: seq<Node>, p: nat)
    requires WellFormed(a) && Extended(a, b, p)
    ensures forall i :: 0 <= i < |b| ==> Increasing(b[i].children)
  {
    forall i | 0 <= i < |b| ensures Increasing(b[i].children) {
      if i == p {
        assert Increasing(a[p].children);
        assert forall k :: 0 <= k < |a[p].children| ==> a[p].children[k] < |a|;
      }
    }
  }

  lemma AddChildCounted(a: seq<Node>, b: seq<Node>, p: nat)
    requires WellFormed(a) && WellFormed(b) && p < |a|
    requires |b| == |a| + 1
    requires forall i :: 0 <= i < |a| && i != p ==> b[i] == a[i]
    requires b[p].children == a[p].children + [|a|] && b[p].visits == a[p].visits
    requires b[|a|].children == [] && b[|a|].visits == 0
    ensures Counted(a, None) ==> Counted(b, Some(|a|))
  {
    if Counted(a, None) {
      forall i | 0 <= i < |b|
        ensures ChildVisits(b, b[i].children) <= b[i].visits
      {
        if i < |a| {
          var cs := a[i].children;
          assert InRange(a, cs) && InRange(b, cs);
          forall k | 0 <= k < |cs| ensures b[cs[k]].visits == a[cs[k]].visits {
          }
          ChildVisitsFrame(a, b, cs);
          assert ChildVisits(a, cs) <= a[i].visits;
          if i == p {
            ChildVisitsAppend(b, cs, |a|);
          }
        }
      }
      forall i | 0 < i < |b| && i != |a| ensures b[i].visits >= 1 {
      }
    }
  }

  /**
   * The state of the backpropagation loop at cursor `cur`: the nodes on the
   * path from `leaf` below `cur` have been credited, the others not yet; the
   * child sums hold everywhere except for one unit of slack at `cur`, whose
   * child on the path was just credited.
   */
  ghost predicate Backpropagating(before: seq<Node>, nodes: seq<Node>, leaf: nat, cur: Option<nat>,
                                  result: int -> real)
    requires WellFormed(before) && leaf < |before|
  {
    && WellFormed(nodes) && |nodes| == |before|
    && (forall i :: 0 <= i < |nodes| ==> SameShape(nodes[i], before[i]))
    && (cur.Some? ==> cur.value < |nodes| && Ancestor(before, cur.value, leaf))
    && Credited(before, nodes, leaf, cur, result)
    && Summed(nodes, leaf, cur)
  }

  /** Exactly the nodes on the path from `leaf` strictly below `cur` have been credited. */
  ghost predicate Credited(before: seq<Node>, nodes: seq<Node>, leaf: nat, cur: Option<nat>,
                           result: int -> real)
    requires WellFormed(before) && leaf < |before| && |nodes| == |before|
    requires cur.Some? ==> cur.value < |before|
  {
    forall q {:trigger nodes[q]} :: 0 <= q < |nodes| ==>
      nodes[q] == Credit(before[q], Ancestor(before, q, leaf)
                                    && !(cur.Some? && Ancestor(before, q, cur.value)), result)
  }

  /** The statistics invariant, up to one unit of slack at `cur`. */
  ghost predicate Summed(nodes: seq<Node>, leaf: nat, cur: Option<nat>)
    requires WellFormed(nodes)
  {
    && (forall q {:trigger ChildVisits(nodes, nodes[q].children)} :: 0 <= q < |nodes| ==>
          ChildVisits(nodes, nodes[q].children) <= nodes[q].visits + Slack(leaf, cur, q))
    && (forall q :: 0 < q < |nodes| ==> nodes[q].visits >= 1 || (cur == Some(leaf) && q == leaf))
  }

  /**
   * The arena after crediting every node on the path from `leaf` to the
   * root once, with the result from that node's mover's viewpoint.
   */
  ghost function Backpropagated(before: seq<Node>, leaf: nat, result: int -> real): (after: seq<Node>)
    requires WellFormed(before) && leaf < |before|
    ensures |after| == |before|
  {
    seq(|before|, q requires 0 <= q < |before| => Credit(before[q], Ancestor(before, q, leaf), result))
  }

  function Slack(leaf: nat, cur: Option<nat>, q: nat): nat
  {
    if cur == Some(q) && q != leaf then 1 else 0
  }

  lemma BackpropagateStart(before: seq<Node>, leaf: nat, result: int -> real)
    requires WellFormed(before) && leaf < |before| && Counted(before, Some(leaf))
    ensures Backpropagating(before, before, leaf, Some(leaf), result)
  {
  }

  lemma BackpropagateDone(before: seq<Node>, nodes: seq<Node>, leaf: nat, result: int -> real)
    requires WellFormed(before) && leaf < |before|
    requires Backpropagating(before, nodes, leaf, None, result)
    ensures WellFormed(nodes) && Counted(nodes, None)
    ensures nodes == Backpropagated(before, leaf, result)
  {
  }

  /** One step of the backpropagation loop keeps its invariant. */
  lemma BackpropagateStep(before: seq<Node>, prev: seq<Node>, next: seq<Node>, leaf: nat, n: nat,
                          result: int -> real)
    requires WellFormed(before) && leaf < |before| && n < |before|
    requires Backpropagating(before, prev, leaf, Some(n), result)
    requires next == prev[n := prev[n].(visits := prev[n].visits + 1,
                                        wins := prev[n].wins + result(prev[n].playerJustMoved))]
    ensures next[n].parent.Some? ==> next[n].parent.value < n
    ensures Backpropagating(before, next, leaf, next[n].parent, result)
  {
    var cur := next[n].parent;
    assert cur == before[n].parent;
    AncestorBelow(before, n, leaf);
    forall i | 0 <= i < |next| ensures SameShape(next[i], before[i]) {
    }
    SameShapeWellFormed(before, next);
    if cur.Some? {
      AncestorStep(before, n, leaf);
    }
    assert prev[n] == before[n] by {
      assert Credited(before, prev, leaf, Some(n), result);
      assert prev[n] == Credit(before[n], Ancestor(before, n, leaf) && !Ancestor(before, n, n), result);
    }
    StepCredit(before, prev, next, leaf, n, result);
    StepSums(before, prev, next, leaf, n, result);
  }

  lemma StepCredit(before: seq<Node>, prev: seq<Node>, next: seq<Node>, leaf: nat, n: nat,
                   result: int -> real)
    requires WellFormed(before) && leaf < |before| && n < |before|
    requires |prev| == |before| && prev[n] == before[n] && Credited(before, prev, leaf, Some(n), result)
    requires next == prev[n := prev[n].(visits := prev[n].visits + 1,
                                        wins := prev[n].wins + result(prev[n].playerJustMoved))]
    requires Ancestor(before, n, leaf)
    ensures var cur := before[n].parent;
            (cur.Some? ==> cur.value < |before|) && Credited(before, next, leaf, cur, result)
  {
    var cur := before[n].parent;
    forall q | 0 <= q < |next|
      ensures next[q] == Credit(before[q], Ancestor(before, q, leaf)
                                           && !(cur.Some? && Ancestor(before, q, cur.value)), result)
    {
      assert prev[q] == Credit(before[q], Ancestor(before, q, leaf) && !Ancestor(before, q, n), result);
      if q == n {
        if cur.Some? && Ancestor(before, q, cur.value) {
          AncestorBelow(before, q, cur.value);
        }
      }
    }
  }

  lemma StepSums(before: seq<Node>, prev: seq<Node>, next: seq<Node>, leaf: nat, n: nat,
                 result: int -> real)
    requires WellFormed(before) && leaf < |before| && n < |before|
    requires WellFormed(prev) && |prev| == |before| && prev[n].parent == before[n].parent
    requires Summed(prev, leaf, Some(n)) && Ancestor(before, n, leaf)
    requires next == prev[n := prev[n].(visits := prev[n].visits + 1,
                                        wins := prev[n].wins + result(prev[n].playerJustMoved))]
    requires WellFormed(next)
    ensures Summed(next, leaf, before[n].parent)
  {
    var cur := before[n].parent;
    AncestorBelow(before, n, leaf);
    assert prev[n].parent == cur;
    assert forall j :: 0 <= j < |prev| && j != n ==> next[j].visits == prev[j].visits;
    forall q | 0 <= q < |next|
      ensures ChildVisits(next, next[q].children) <= next[q].visits + Slack(leaf, cur, q)
    {
      var cs := prev[q].children;
      assert next[q].children == cs && InRange(prev, cs) && Increasing(cs);
      assert ChildVisits(prev, cs) <= prev[q].visits + Slack(leaf, Some(n), q);
      ChildVisitsBump(prev, next, cs, n);
      if n in cs {
        var k :| 0 <= k < |cs| && cs[k] == n;
        assert prev[n].parent == Some(q);
        assert q < n;
      }
    }
    forall q | 0 < q < |next| ensures next[q].visits >= 1 || (cur == Some(leaf) && q == leaf) {
      assert prev[q].visits >= 1 || (n == leaf && q == leaf);
    }
  }

  /** Stepping from a node on the path to its parent stays on the path. */
  lemma AncestorStep(nodes: seq<Node>, n: nat, leaf: nat)
    requires WellFormed(nodes) && n < |nodes| && leaf < |nodes| && n > 0
    requires Ancestor(nodes, n, leaf)
    ensures Ancestor(nodes, nodes[n].parent.value, leaf)
    decreases leaf
  {
    if n != leaf {
      AncestorBelow(nodes, n, leaf);
      AncestorStep(nodes, n, nodes[leaf].parent.value);
    }
  }
}
