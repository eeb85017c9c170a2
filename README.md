# Hearthstone UCT search — a Dafny model

This project models the core of a Monte Carlo Tree Search (UCT) player for
Hearthstone built on the fireplace rules engine, and proves properties of
that model:

- the search tree of `mcts/uct.py` (class `Node`): an index arena with the
  root at 0, updated in place by `AddChild`, `Update` and the
  backpropagation loop;
- the search loop `UCT`: select, expand, random playout, backpropagate,
  then the move of the most visited root child. It runs over any game given
  as a record of total functions (`GameState.Game`);
- the game adapter `HearthState` in its deck-building phase:
  - the move dispatch of `GetMoves`, including the grouping of its
    card-picking test;
  - the card offer filter;
  - `PICK_CLASS` and `PICK_CARD` in `DoMove`;
  - the scoring function `GetResult`;
- the card rules written as code in `fireplace/cards/classic/warlock.py`:
  Summoning Portal's cost aura, Void Terror, Sense Demons and Demonfire;
- the card rules written as code in `fireplace/cards/classic/neutral_common.py`:
  Southsea Deckhand, Bloodsail Raider and Dread Corsair;
- the action helper `discard` of `fireplace/carddata/helpers.py`.

Modules: `Wrappers` (Option), `Seqs` (Python's `list.remove`), `Moves`
(the move vocabulary and card records), `GameState`, `SearchTree`, `Uct`,
`Hearth`, `Board` (cards, players and characters as classes), `Warlock`,
`NeutralCommon` and `CardHelpers`.

Each random choice (`random.choice`, `random.sample`) is an arbitrary
choice (`:|`), so every property holds for every outcome. The search's
wall-clock budget becomes an iteration count. The UCB1 formula becomes a
parameter `score(wins, visits, parentVisits)`.

## Model

| member | source | states |
|---|---|---|
| SearchTree.Tree.Root | mcts/uct.py:432-442 | the root node: no move, no parent, no children, no visits or wins, the state's moves untried, the state's mover recorded; the tree invariant holds |
| SearchTree.Tree.AddChild | mcts/uct.py:452-459 | appends one child for `m` reached in state `s`, with no untried moves after END_TURN/PRE_GAME and the state's moves otherwise; removes the first occurrence of `m` from the parent's untried moves; changes no other node; keeps the tree shape and the statistics invariant, with the new child as the one unvisited node |
| SearchTree.Tree.Update | mcts/uct.py:461-465 | node `i` gets exactly one more visit and `result` more wins; nothing else changes and the tree stays well formed |
| SearchTree.Tree.Backpropagate | mcts/uct.py:523-526 | every node on the path from the leaf to the root is credited exactly once, with the result from its own mover's viewpoint; every other node is unchanged; afterwards no node has more child visits than visits of its own |
| SearchTree.AddChildCounted | mcts/uct.py:456-458 | adding an unvisited child keeps the statistics invariant, up to the new child itself |
| SearchTree.BackpropagateStep | mcts/uct.py:524-526 | one pass of the backpropagation loop keeps its invariant and moves the cursor to a strictly smaller index |
| SearchTree.RootIsAncestor | mcts/uct.py:524-526 | following parent links from any node reaches the root, so backpropagation always credits the root |
| SearchTree.AncestorBelow | mcts/uct.py:524-526 | every node on a backpropagation path has an index no larger than where it started |
| SearchTree.LastArgMax | mcts/uct.py:449 | `sorted(...)[-1]` of a stable sort: an index with a maximal key, all later keys strictly smaller |
| SearchTree.SelectChild | mcts/uct.py:444-450 | a visited child of `p` whose score is maximal among the children, the last such child on a tie; requires the visits that UCB1 divides by and takes the log of to be positive |
| SearchTree.BestMove | mcts/uct.py:536 | None exactly when the root has no children; otherwise the move of a most visited root child, the last one on a tie |
| Seqs.RemoveFirst | mcts/uct.py:457 | `list.remove`: one element fewer, the multiset minus one `x`, and the list with its first `x` cut out |
| Uct.Descend | mcts/uct.py:509-510 | from a fully expanded node with children, the child `SelectChild` picks, with the positive visit counts UCB1 needs there |
| Uct.DescentExtends | mcts/uct.py:509-511 | a descent extended by the child selected at its end is still a descent, and its state is the old one after that child's move |
| Uct.Select | mcts/uct.py:508-511 | the node reached is the end of a path from the root in which every step is the child `SelectChild` picks at a fully expanded node; it can be expanded or has no children; the state returned is the root state after the moves along that path |
| Uct.Expand | mcts/uct.py:513-517 | `Expansion`: when the node has untried moves, the tree becomes exactly `WithChild` for one of them: that move leaves the node's untried list, the node gains the new child as its last child, the new child is a fresh unvisited node for the state after the move, and every other node is unchanged; the leaf is that child and the state is the old one after its move; otherwise the tree, leaf and state are unchanged; the root's visits stay, its children only grow, and every root move is still untried or the move of exactly one root child |
| Uct.Rollout | mcts/uct.py:519-521 | `Playout`: the playout ends in a state with no moves, reached from the start by a sequence of moves each legal where it was played; it ends for every sequence of random choices, given a game in which every legal move lowers a rank |
| GameState.ReplayStep | mcts/uct.py:511 | the unfolding of `Replay`, the moves of a descent played from the root state: replaying one more move is one more `DoMove` on the replayed state |
| Uct.Iterate | mcts/uct.py:504-528 | one search round descends from the root along a path whose every step is `SelectChild`'s choice, with the state replayed along it, and which stops at a node that has untried moves or no children; expands the node reached as `Expansion` states; plays out from the leaf's state to a finished `Playout`; and leaves the tree equal to `Backpropagated` from the leaf, with every node from the leaf up to the root credited with that playout's `GetResult` for its own mover and no other node changed. It adds exactly one visit to the root and at most one node to the tree, keeps the tree and statistics invariants, keeps the account of the root's moves, and only ever extends the root's child list |
| Uct.RootAfterAddChild | mcts/uct.py:457-458 | expanding a root move moves it from the untried list to a child, so the root's moves stay accounted for |
| Uct.RootAfterBackpropagate | mcts/uct.py:524-526 | backpropagation gives the root one more visit and keeps its children and their moves |
| Uct.RootChildMove | mcts/uct.py:536 | the move of every root child is one of the root state's moves |
| Uct.UCT | mcts/uct.py:496-540 | after `iterations` rounds the root has exactly that many visits and the tree at most one node per round besides the root; the answer is the move of the last most visited root child; it is one of the root's moves; there is none exactly when no round ran or the root has no moves (where the source fails) |
| Hearth.HearthState.constructor | mcts/uct.py:48-66 | a fresh state: player 2 just moved, player 1 builds a Mage deck, no second hero, both decks empty, no match |
| Hearth.HearthState.Clone | mcts/uct.py:89-103 | a fresh object with the same field values |
| Hearth.HearthState.DoMove | mcts/uct.py:105-155 | fails and changes nothing when the match is over for the current player; otherwise records the mover from the match, sets the second hero on PICK_CLASS, appends the card to the first deck while it is short and to the second after that, and leaves the rest as it was when the engine fails |
| Hearth.HearthState.GetMoves | mcts/uct.py:157-395 | the appending loops build exactly `LegalMoves`: collection first, then the offer from it |
| Hearth.NoMovesWhenOver | mcts/uct.py:160-162 | no moves once the match is over for the current player |
| Hearth.PhaseDispatch | mcts/uct.py:165-176 | both decks full and no match: PRE_GAME only; first deck full, no second hero: exactly the nine PICK_CLASS moves |
| Hearth.CardPhase | mcts/uct.py:177-180 | the test groups as `(no match and deck1 short) or deck2 short`: cards for deck 1 while it is short, for deck 2 afterwards, and failure when the second hero is unset |
| Hearth.CollectionMembers | mcts/uct.py:321-330 | a card is in the collection exactly when it is listed, collectible, not a hero, and neutral or of the deck's class |
| Hearth.PicksMembers | mcts/uct.py:332-336 | a PICK_CARD move is offered exactly for a collection card that is not a legendary already in the deck and has fewer than the maximum copies |
| Hearth.OfferMembers | mcts/uct.py:340-355 | both filters together: a move is offered exactly when all five conditions hold |
| Hearth.InitialBuilding | mcts/uct.py:48-66 | the initial state is in the deck-building phase with 61 moves to go |
| Hearth.BuildingStep | mcts/uct.py:125-131 | in the deck-building phase the move list is defined, PRE_GAME is offered exactly when nothing remains, and every other legal move stays in the phase, keeps the mover and brings the end one move closer |
| Hearth.BuildingOffers | mcts/uct.py:321-355 | in the deck-building phase, a card of the pool that the deck being built can still take is offered, so the move list is not empty |
| Hearth.BuildingDeadEnd | mcts/uct.py:332-336 | with an empty card pool while the first deck is short, the move list is empty and no match exists |
| Hearth.PickCardAppends | mcts/uct.py:127-131 | PICK_CARD adds exactly its card's id to one deck, deck 1 while it is short, and changes no hero or match |
| Hearth.Result | mcts/uct.py:397-407 | 0.5 when both heroes or neither hero are dead |
| Hearth.ResultPerspectives | mcts/uct.py:400-405 | the winner scores `100 - turn` and the loser minus half of that, from the two viewpoints of one match |
| Hearth.ResultOrder | mcts/uct.py:402-405 | before turn 100 a score above 0.5 means a win and below 0.5 a loss; outside [0, 1]: a win before turn 99 scores above 1 and a loss below 0 |
| Warlock.SummoningPortalCost | fireplace/cards/classic/warlock.py:60-61 | never raises a cost; two less from 3 up; 1 for costs 1 to 3; a cost of 0 or below is kept |
| Warlock.SummoningPortalMonotone | fireplace/cards/classic/warlock.py:61 | the aura keeps the order of costs |
| Warlock.DestroyAdjacent | fireplace/cards/classic/warlock.py:37-40 | the loop sums the attack and the health the adjacent minions had, and destroys every one of them |
| Warlock.VoidTerrorPlay | fireplace/cards/classic/warlock.py:31-41 | with adjacent minions, they are destroyed and Void Terror gains one EX1_304e buff carrying their summed attack and health; with none, nothing changes |
| Warlock.DemonsMember | fireplace/cards/classic/warlock.py:145 | every card the filter returns is a demon of the deck |
| Warlock.DemonsComplete | fireplace/cards/classic/warlock.py:145 | every demon of the deck is returned by the filter |
| Warlock.DemonsRemove | fireplace/cards/classic/warlock.py:147 | drawing a demon leaves one demon fewer in the deck and keeps the other cards |
| Warlock.PickDemon | fireplace/cards/classic/warlock.py:145-149 | a demon of the deck exactly when the deck holds one, and the deck is left as `AfterDraw` says: without that demon's first occurrence, the other cards in order; a Worthless Imp otherwise, with the deck unchanged |
| Warlock.AfterDrawRemoves | fireplace/cards/classic/warlock.py:147 | a drawn card leaves the deck exactly as `list.remove` takes it out (`Seqs.RemoveFirst`) |
| Warlock.SenseDemons | fireplace/cards/classic/warlock.py:142-149 | two draws: the first a demon iff the deck held at least one, the second iff it held at least two; Worthless Imps otherwise; the second pass draws from the deck the first left; the final deck is the old one after both `AfterDraw`s, so it loses exactly the demons drawn and keeps the order of the rest; hand, graveyard and weapon are unchanged |
| Warlock.DemonfirePlay | fireplace/cards/classic/warlock.py:158-163 | the EX1_596e buff exactly for a demon of the caster's controller; 2 damage to any other target |
| NeutralCommon.SouthseaDeckhandCharge | fireplace/cards/classic/neutral_common.py:86-87 | charge whenever a weapon is equipped; the base charge otherwise |
| NeutralCommon.SouthseaDeckhandWeaponMonotone | fireplace/cards/classic/neutral_common.py:87 | a weapon never removes charge, and which weapon it is does not matter |
| NeutralCommon.BloodsailRaiderBuff | fireplace/cards/classic/neutral_common.py:214-215 | a NEW1_018e buff with the weapon's attack exactly when a weapon is equipped |
| NeutralCommon.BloodsailRaiderPlay | fireplace/cards/classic/neutral_common.py:211-215 | the raider gains that buff with a weapon and nothing without one; its attack, health and destroyed flag are unchanged |
| NeutralCommon.DreadCorsairCost | fireplace/cards/classic/neutral_common.py:219-223 | the cost is lowered by exactly the weapon's attack; kept without a weapon |
| NeutralCommon.DreadCorsairMonotone | fireplace/cards/classic/neutral_common.py:220-223 | a stronger weapon never makes the corsair dearer, and a weapon with non-negative attack never raises its cost |
| NeutralCommon.DreadCorsairNoFloor | fireplace/cards/classic/neutral_common.py:220-223 | no floor at this step: a weapon with more attack than the cost makes it negative |
| CardHelpers.Discard | fireplace/carddata/helpers.py:11-17 | fails, changing nothing, exactly when count is negative; otherwise discards `min(count, hand size)` cards of the hand: the new hand is the old one with each sampled card removed once, the others in their old order, and the sample is appended to the graveyard; nothing changes for count 0; the whole hand goes when count reaches its size |
| CardHelpers.DiscardAll | fireplace/carddata/helpers.py:15-16 | the loop removes each sampled card from the hand in turn, as `list.remove` does, and puts them into the graveyard in order |
| Seqs.WithoutMultiset | fireplace/carddata/helpers.py:14-16 | removing a sample drawn from the hand takes out exactly its cards, counted with multiplicity |
| Seqs.WithoutHas | fireplace/carddata/helpers.py:15-16 | each sampled card is still in the hand when its turn to be discarded comes |

## Left out

- Time budget and printing: `time.time()`, the verbose tree dump and the iteration count print in `UCT` are left out. The budget is an iteration count.
- UCB1 arithmetic: floating-point `sqrt`/`log` and the division by visit counts are a parameter `score`. `SelectChild` requires the positive visit counts those operations need.
- GameState.Game, Uct.Select: `doMove` is a function of the state and the move, with any randomness the engine uses counted as part of the state. In the source, engine moves draw from Python's shared `random` generator, which every round's `Clone` reseeds with `random.seed(1857)`, and the expansion's `random.choice` advances it before `DoMove`. So in the source, replaying a path in a later round need not reach the state from which a node's untried moves were taken; the model's `Replay` clauses hold only under the functional reading.
- Uct.Rollout: termination of the random playout assumes a game in which every legal move lowers a rank (`GameState.Terminating`). The source assumes the match ends without stating it.
- Hearth.HearthState.DoMove:
  - PRE_GAME and the play-phase moves (END_TURN, HERO_POWER, PLAY_CARD, MINION_ATTACK, HERO_ATTACK) are resolved by a transition parameter `engine`; the fireplace rules engine is not part of this model.
  - The bare `except` that swallows engine errors is the case where `engine` returns None. The rest of the state, including the mover already recorded, then stays as it was.
- Hearth.HearthState.GetMoves:
  - The play-phase move list (playable cards, hero power, attacks) is the engine's list `playMoves`, followed by END_TURN as in the source.
  - The hard-coded `owned_cards` ids and `cards.cardlist` are inputs, as card records.
  - `Deck.MAX_UNIQUE_CARDS` is a parameter.
- Hearth.HearthState.Clone: `deepcopy` of the engine's game is a copy of the `Engine` value; player objects are not modelled.
- Deck-building dead end: when the card pool offers nothing that the deck being built can take, `GetMoves` returns no moves before any match exists, and the search then calls `GetResult` on a state without a match, which fails in the source. `Hearth.Result` takes a match (`Engine`), so that failure is outside the model; `BuildingDeadEnd` exhibits the dead end, and `BuildingOffers` states when it cannot occur.
- Hearth.Result: Python 3 true division is assumed for `(turn - 100) / 2`, as fireplace is Python 3 code.
- UCT's docstring promises results in [0.0, 1.0]; `GetResult` does not keep to that range. The code is followed, and `ResultOrder` states the consequence: a win before turn 99 scores above 1.0 and a loss scores below 0.0.
- Ties in `UCTSelectChild` and in the final choice are broken as Python's stable sort breaks them, towards the last child; no tie-breaking rule is stated beyond that.
- Hearth.HearthState.DoMove is not atomic: the mover is recorded before the move is tried, and an engine failure keeps that change.
- A search round whose playout fails is not discarded: `UCT` has no handler, and an exception ends the search. The model has no failing playout: every move is total.
- Declarative card definitions (`Buff`, `Hit`, `Summon`, `Draw`, auras, events) belong to fireplace's action language, which is not part of this model; this includes fireplace/cards/gvg/shaman.py and the other classes of the two card files.
- Warlock.SenseDemons:
  - The drawn demon only leaves the deck; adding it to the hand (and the hand limit) belongs to the engine's `Draw`.
  - Each pass filters the deck after the previous draw resolved, and the two passes are written out one after the other.
- Warlock.PickDemon: cards are objects, so the first occurrence of the chosen demon is the card itself; which demon `random.choice` picks is left open.
- Warlock.DemonfirePlay returns the effect rather than applying the engine's `Buff`/`Hit` actions.
- Warlock.VoidTerrorPlay: destroying a minion only sets its destroyed flag; death processing is the engine's.
- NeutralCommon.SouthseaDeckhandCharge: the charge value is a boolean, as the engine supplies it; Python's `or` then returns the same truth value.
- CardHelpers.Discard: `card.discard()` is modelled as leaving the hand for the graveyard; discard events and triggers are the engine's.
- Sampling in `random.sample` is any choice of `min(count, hand size)` distinct positions of the hand, in any order.
