/**
 * The game adapter `HearthState` of mcts/uct.py in its deck-building phase:
 * the first player fills a 30-card deck for a fixed class, the second player
 * picks a class and fills a deck of its own, and `PRE_GAME` starts the
 * match. The rules engine that runs the match is reached only through
 * `Engine`, a record of what the adapter reads of it, and through a
 * transition parameter for the moves it resolves.
 */
module Hearth {

  import opened Wrappers
  import opened Moves

  /** The number of cards in a finished deck. */
  const DeckSize: nat := 30

  /**
   * What the adapter reads of a running match: whether the current player is
   * player one and still `PLAYING`, the turn counter, both heroes' health,
   * and the play-phase moves the engine allows the current player.
   */
  datatype Engine = Engine(currentIsPlayerOne: bool, currentPlaying: bool, turn: int,
                           health1: int, health2: int, playMoves: seq<Move>)

  /** The fields of a `HearthState` as one value. */
  datatype HearthView = HearthView(playerJustMoved: int, hero1: HeroClass, deck1: seq<string>,
                                   hero2: Option<HeroClass>, deck2: seq<string>, game: Option<Engine>)

  // ---------------------------------------------------------------------
  // Offering cards

  /** The card passes the class filter of the collection loop for `hero`. */
  predicate Eligible(c: CardInfo, hero: HeroClass)
  {
    c.collectible && c.cardType != HeroCard && (c.cardClass.None? || c.cardClass == Some(hero))
  }

  /** The card may still go into `deck`: no second legendary copy, fewer than `maxUnique` copies. */
  predicate Pickable(c: CardInfo, deck: seq<string>, maxUnique: nat)
  {
    !(c.rarity == Legendary && c.id in deck) && multiset(deck)[c.id] < maxUnique
  }

  /** The collection built from `cards` for `hero`, in order. */
  function Collection(cards: seq<CardInfo>, hero: HeroClass): seq<CardInfo>
  {
    if cards == [] then []
    else Collection(cards[..|cards| - 1], hero)
         + (if Eligible(cards[|cards| - 1], hero) then [cards[|cards| - 1]] else [])
  }

  /** The `PICK_CARD` moves for the cards of `collection` that `deck` can take, in order. */
  function Picks(collection: seq<CardInfo>, deck: seq<string>, maxUnique: nat): seq<Move>
  {
    if collection == [] then []
    else Picks(collection[..|collection| - 1], deck, maxUnique)
         + (if Pickable(collection[|collection| - 1], deck, maxUnique)
            then [PickCard(collection[|collection| - 1])] else [])
  }

  /** The cards offered to a deck of class `hero` from the card list `cards`. */
  function Offer(cards: seq<CardInfo>, hero: HeroClass, deck: seq<string>, maxUnique: nat): seq<Move>
  {
    Picks(Collection(cards, hero), deck, maxUnique)
  }

  /** The nine `PICK_CLASS` moves, in the order the source lists them. */
  const ClassChoices: seq<Move> :=
    [PickClass(Druid), PickClass(Hunter), PickClass(Mage), PickClass(Paladin), PickClass(Priest),
     PickClass(Rogue), PickClass(Shaman), PickClass(Warlock), PickClass(Warrior)]

  /**
   * `GetMoves`: the legal moves of the state `s`, or `None` where the source
   * fails (looking up the class of an unset hero, or reading the current
   * player of a missing game). Note the grouping of the card-picking test:
   * `(game is None and deck1 short) or deck2 short`.
   */
  function LegalMoves(s: HearthView, owned: seq<CardInfo>, cardlist: seq<CardInfo>, maxUnique: nat)
    : Option<seq<Move>>
  {
    if s.game.Some? && !s.game.value.currentPlaying then Some([])
    else if s.game.None? && |s.deck1| == DeckSize && |s.deck2| == DeckSize then Some([PreGame])
    else if s.game.None? && |s.deck1| == DeckSize && s.hero2.None? then Some(ClassChoices)
    else if (s.game.None? && |s.deck1| < DeckSize) || |s.deck2| < DeckSize then
      if |s.deck1| < DeckSize then Some(Offer(owned, s.hero1, s.deck1, maxUnique))
      else if s.hero2.None? then None
      else Some(Offer(cardlist, s.hero2.value, s.deck2, maxUnique))
    else if s.game.None? then None
    else Some(s.game.value.playMoves + [EndTurn])
  }

  // ---------------------------------------------------------------------
  // Applying a move

  /**
   * `DoMove` on the state `s`: `None` where its assertion fails (the match
   * is over for the current player); otherwise the mover is recorded from
   * the match, `PICK_CLASS` sets the second hero, `PICK_CARD` adds the card
   * to the first deck while it is short and to the second deck after that,
   * and every other move is resolved by `engine`, whose failure (`None`)
   * leaves the rest of the state as it was.
   */
  function Played(s: HearthView, m: Move, engine: (HearthView, Move) -> Option<Engine>): Option<HearthView>
  {
    if s.game.Some? && !s.game.value.currentPlaying then None
    else
      var pjm := if s.game.Some? then (if s.game.value.currentIsPlayerOne then 1 else 2) else s.playerJustMoved;
      var t := s.(playerJustMoved := pjm);
      match m
      case PickClass(h) => Some(t.(hero2 := Some(h)))
      case PickCard(c) =>
        Some(if |s.deck1| < DeckSize then t.(deck1 := s.deck1 + [c.id]) else t.(deck2 := s.deck2 + [c.id]))
      case _ =>
        var e := if m.PreGame? || s.game.Some? then engine(t, m) else None;
        Some(if e.Some? then t.(game := e) else t)
  }

  /**
   * `GetResult`: the score of a finished match from the viewpoint of player
   * `playerjm`: 0.5 when both heroes or neither hero are dead, and otherwise
   * `100 - turn` for a win and `(turn - 100) / 2` for a loss, so that quicker
   * wins and slower losses score higher.
   */
  function Result(game: Engine, playerjm: int): (r: real)
    requires playerjm == 1 || playerjm == 2
    ensures (game.health1 <= 0) == (game.health2 <= 0) ==> r == 0.5
  {
    var mine := if playerjm == 1 then game.health1 else game.health2;
    var theirs := if playerjm == 1 then game.health2 else game.health1;
    if game.health1 <= 0 && game.health2 <= 0 then 0.5
    else if mine <= 0 then (game.turn - 100) as real / 2.0
    else if theirs <= 0 then (100 - game.turn) as real
    else 0.5
  }

  // ---------------------------------------------------------------------
  // The adapter object

  class HearthState {
    var playerJustMoved: int
    var hero1: HeroClass
    var deck1: seq<string>
    var hero2: Option<HeroClass>
    var deck2: seq<string>
    var game: Option<Engine>

    function View(): HearthView
      reads this
    {
      HearthView(playerJustMoved, hero1, deck1, hero2, deck2, game)
    }

    /** A fresh state: player two "just moved", player one builds a Mage deck, nothing else is set. */
    constructor ()
      ensures View() == HearthView(2, Mage, [], None, [], None)
    {
      playerJustMoved := 2;
      hero1 := Mage;
      deck1 := [];
      hero2 := None;
      deck2 := [];
      game := None;
    }

    /** `Clone`: an independent state with the same contents. */
    method Clone() returns (st: HearthState)
      ensures fresh(st) && st.View() == View()
    {
      st := new HearthState();
      st.playerJustMoved := playerJustMoved;
      st.hero1 := hero1;
      st.deck1 := deck1;
      st.hero2 := hero2;
      st.deck2 := deck2;
      st.game := game;
    }

    /**
     * `DoMove`: `ok` is false where the source's assertion fails, and then
     * nothing changes; otherwise the new state is the one `Played` describes.
     */
    method DoMove(m: Move, engine: (HearthView, Move) -> Option<Engine>) returns (ok: bool)
      modifies this
      ensures ok == Played(old(View()), m, engine).Some?
      ensures View() == if ok then Played(old(View()), m, engine).value else old(View())
    {
      if game.Some? {
        if !game.value.currentPlaying {
          return false;
        }
        playerJustMoved := if game.value.currentIsPlayerOne then 1 else 2;
      }
      ok := true;
      match m {
        case PickClass(h) =>
          hero2 := Some(h);
        case PickCard(c) =>
          if |deck1| < DeckSize {
            deck1 := deck1 + [c.id];
          } else {
            deck2 := deck2 + [c.id];
          }
        case _ =>
          if m.PreGame? || game.Some? {
            var e := engine(View(), m);
            if e.Some? {
              game := e;
            }
          }
      }
    }

    /**
     * `GetMoves`: the legal moves, built by appending as the source does:
     * first the collection of eligible cards, then the offer from it.
     */
    method GetMoves(owned: seq<CardInfo>, cardlist: seq<CardInfo>, maxUnique: nat)
        returns (r: Option<seq<Move>>)
      ensures r == LegalMoves(View(), owned, cardlist, maxUnique)
    {
      if game.Some? && !game.value.currentPlaying {
        return Some([]);
      }
      if game.None? && |deck1| == DeckSize && |deck2| == DeckSize {
        return Some([PreGame]);
      } else if game.None? && |deck1| == DeckSize && hero2.None? {
        return Some(ClassChoices);
      } else if (game.None? && |deck1| < DeckSize) || |deck2| < DeckSize {
        var cards, hero, deck;
        if |deck1| < DeckSize {
          cards, hero, deck := owned, hero1, deck1;
        } else if hero2.None? {
          return None;
        } else {
          cards, hero, deck := cardlist, hero2.value, deck2;
        }
        var collection := [];
        for i := 0 to |cards|
          invariant collection == Collection(cards[..i], hero)
        {
          assert cards[..i + 1][..i] == cards[..i];
          if Eligible(cards[i], hero) {
            collection := collection + [cards[i]];
          }
        }
        assert cards[..|cards|] == cards;
        var valid := [];
        for i := 0 to |collection|
          invariant valid == Picks(collection[..i], deck, maxUnique)
        {
          assert collection[..i + 1][..i] == collection[..i];
          if Pickable(collection[i], deck, maxUnique) {
            valid := valid + [PickCard(collection[i])];
          }
        }
        assert collection[..|collection|] == collection;
        return Some(valid);
      } else if game.None? {
        return None;
      } else {
        return Some(game.value.playMoves + [EndTurn]);
      }
    }
  }

  // ---------------------------------------------------------------------
  // Properties

  lemma {:induction false} CollectionMembers(cards: seq<CardInfo>, hero: HeroClass, c: CardInfo)
    ensures c in Collection(cards, hero) <==> c in cards && Eligible(c, hero)
  {
    if cards != [] {
      CollectionMembers(cards[..|cards| - 1], hero, c);
      assert cards == cards[..|cards| - 1] + [cards[|cards| - 1]];
    }
  }

  lemma {:induction false} PicksMembers(collection: seq<CardInfo>, deck: seq<string>, maxUnique: nat, m: Move)
    ensures m in Picks(collection, deck, maxUnique) <==>
            m.PickCard? && m.card in collection && Pickable(m.card, deck, maxUnique)
  {
    if collection != [] {
      PicksMembers(collection[..|collection| - 1], deck, maxUnique, m);
      assert collection == collection[..|collection| - 1] + [collection[|collection| - 1]];
    }
  }

  /**
   * A move is offered exactly when it picks a card of the list that is
   * collectible, not a hero, neutral or of the deck's class, not a legendary
   * already in the deck, and held fewer than `maxUnique` times by the deck.
   */
  lemma OfferMembers(cards: seq<CardInfo>, hero: HeroClass, deck: seq<string>, maxUnique: nat, m: Move)
    ensures m in Offer(cards, hero, deck, maxUnique) <==>
            && m.PickCard? && m.card in cards
            && m.card.collectible && m.card.cardType != HeroCard
            && (m.card.cardClass.None? || m.card.cardClass == Some(hero))
            && !(m.card.rarity == Legendary && m.card.id in deck)
            && multiset(deck)[m.card.id] < maxUnique
  {
    PicksMembers(Collection(cards, hero), deck, maxUnique, m);
    if m.PickCard? {
      CollectionMembers(cards, hero, m.card);
    }
  }

  /** Once the match is over for the current player, there are no moves. */
  lemma NoMovesWhenOver(s: HearthView, owned: seq<CardInfo>, cardlist: seq<CardInfo>, maxUnique: nat)
    requires s.game.Some? && !s.game.value.currentPlaying
    ensures LegalMoves(s, owned, cardlist, maxUnique) == Some([])
  {
  }

  /**
   * With both decks full and no match yet, the only move starts the match;
   * with the first deck full and no second hero, the moves are one
   * `PICK_CLASS` for each of the nine classes.
   */
  lemma PhaseDispatch(s: HearthView, owned: seq<CardInfo>, cardlist: seq<CardInfo>, maxUnique: nat)
    requires s.game.None? && |s.deck1| == DeckSize
    ensures |s.deck2| == DeckSize ==> LegalMoves(s, owned, cardlist, maxUnique) == Some([PreGame])
    ensures |s.deck2| != DeckSize && s.hero2.None? ==>
              var r := LegalMoves(s, owned, cardlist, maxUnique);
              r.Some? && |r.value| == 9 && (forall m :: m in r.value <==> m.PickClass?)
  {
    forall m ensures m in ClassChoices <==> m.PickClass? {
      if m.PickClass? {
        match m.hero
        case Druid => assert m == ClassChoices[0];
        case Hunter => assert m == ClassChoices[1];
        case Mage => assert m == ClassChoices[2];
        case Paladin => assert m == ClassChoices[3];
        case Priest => assert m == ClassChoices[4];
        case Rogue => assert m == ClassChoices[5];
        case Shaman => assert m == ClassChoices[6];
        case Warlock => assert m == ClassChoices[7];
        case Warrior => assert m == ClassChoices[8];
      }
    }
  }

  /**
   * The grouping at the card-picking test: while the second deck is short,
   * cards are offered even with a match under way, for the first deck while
   * that is short and for the second deck otherwise.
   */
  lemma CardPhase(s: HearthView, owned: seq<CardInfo>, cardlist: seq<CardInfo>, maxUnique: nat)
    requires s.game.None? || s.game.value.currentPlaying
    requires !(s.game.None? && |s.deck1| == DeckSize && (|s.deck2| == DeckSize || s.hero2.None?))
    requires (s.game.None? && |s.deck1| < DeckSize) || |s.deck2| < DeckSize
    ensures |s.deck1| < DeckSize ==>
              LegalMoves(s, owned, cardlist, maxUnique) == Some(Offer(owned, s.hero1, s.deck1, maxUnique))
    ensures |s.deck1| >= DeckSize && s.hero2.Some? ==>
              LegalMoves(s, owned, cardlist, maxUnique) == Some(Offer(cardlist, s.hero2.value, s.deck2, maxUnique))
    ensures |s.deck1| >= DeckSize && s.hero2.None? ==> LegalMoves(s, owned, cardlist, maxUnique).None?
  {
  }

  /**
   * The states of the deck-building phase reached from the initial state:
   * no match yet, neither deck over full, no second hero before the first
   * deck is full, and no card in the second deck before its hero is picked.
   */
  ghost predicate Building(s: HearthView)
  {
    && s.game.None? && |s.deck1| <= DeckSize && |s.deck2| <= DeckSize
    && (|s.deck1| < DeckSize ==> s.hero2.None?)
    && (s.hero2.None? ==> s.deck2 == [])
  }

  /** How many of the 61 deck-building moves are still to be made. */
  function Remaining(s: HearthView): int
  {
    2 * DeckSize + 1 - |s.deck1| - |s.deck2| - (if s.hero2.Some? then 1 else 0)
  }

  lemma InitialBuilding()
    ensures Building(HearthView(2, Mage, [], None, [], None))
    ensures Remaining(HearthView(2, Mage, [], None, [], None)) == 2 * DeckSize + 1
  {
  }

  /**
   * In the deck-building phase the move list is always defined (it can be
   * empty: see `BuildingDeadEnd`), and playing any of its moves other than
   * `PRE_GAME` stays in the phase,
   * leaves the mover unchanged and brings the phase one move closer to its
   * end; `PRE_GAME` is offered exactly when nothing remains.
   */
  lemma {:induction false} BuildingStep(s: HearthView, owned: seq<CardInfo>, cardlist: seq<CardInfo>,
                                        maxUnique: nat, m: Move, engine: (HearthView, Move) -> Option<Engine>)
    requires Building(s)
    ensures LegalMoves(s, owned, cardlist, maxUnique).Some?
    ensures 0 <= Remaining(s)
    ensures LegalMoves(s, owned, cardlist, maxUnique) == Some([PreGame]) <==> Remaining(s) == 0
    ensures m in LegalMoves(s, owned, cardlist, maxUnique).value && !m.PreGame? ==>
              && Played(s, m, engine).Some?
              && Building(Played(s, m, engine).value)
              && Played(s, m, engine).value.playerJustMoved == s.playerJustMoved
              && Remaining(Played(s, m, engine).value) == Remaining(s) - 1
  {
    var r := LegalMoves(s, owned, cardlist, maxUnique);
    if |s.deck1| < DeckSize {
      assert r == Some(Offer(owned, s.hero1, s.deck1, maxUnique));
      OfferMembers(owned, s.hero1, s.deck1, maxUnique, m);
      OfferMembers(owned, s.hero1, s.deck1, maxUnique, PreGame);
    } else if s.hero2.None? {
      assert r == Some(ClassChoices);
    } else if |s.deck2| < DeckSize {
      assert r == Some(Offer(cardlist, s.hero2.value, s.deck2, maxUnique));
      OfferMembers(cardlist, s.hero2.value, s.deck2, maxUnique, m);
      OfferMembers(cardlist, s.hero2.value, s.deck2, maxUnique, PreGame);
    }
  }

  /**
   * The deck-building phase offers a move whenever the card pool for the
   * deck being built holds a card that deck can still take.
   */
  lemma BuildingOffers(s: HearthView, owned: seq<CardInfo>, cardlist: seq<CardInfo>, maxUnique: nat, c: CardInfo)
    requires Building(s)
    requires |s.deck1| < DeckSize ==> c in owned && Eligible(c, s.hero1) && Pickable(c, s.deck1, maxUnique)
    requires |s.deck1| == DeckSize && s.hero2.Some? && |s.deck2| < DeckSize ==>
               c in cardlist && Eligible(c, s.hero2.value) && Pickable(c, s.deck2, maxUnique)
    ensures LegalMoves(s, owned, cardlist, maxUnique).Some?
    ensures LegalMoves(s, owned, cardlist, maxUnique).value != []
    ensures |s.deck1| < DeckSize || (s.hero2.Some? && |s.deck2| < DeckSize) ==>
              PickCard(c) in LegalMoves(s, owned, cardlist, maxUnique).value
  {
    if |s.deck1| < DeckSize {
      OfferMembers(owned, s.hero1, s.deck1, maxUnique, PickCard(c));
    } else if s.hero2.Some? && |s.deck2| < DeckSize {
      OfferMembers(cardlist, s.hero2.value, s.deck2, maxUnique, PickCard(c));
    } else if s.hero2.None? {
      assert ClassChoices[0] in ClassChoices;
    }
  }

  /**
   * Without such a card the phase is stuck: with an empty card pool the first
   * deck is never built, there are no moves, and no match ever starts.
   */
  lemma BuildingDeadEnd(s: HearthView, cardlist: seq<CardInfo>, maxUnique: nat)
    requires Building(s) && |s.deck1| < DeckSize
    ensures LegalMoves(s, [], cardlist, maxUnique) == Some([])
    ensures s.game.None?
  {
  }

  /** `PICK_CARD` adds exactly its card's id to the deck being built, and changes nothing else but the mover. */
  lemma PickCardAppends(s: HearthView, c: CardInfo, engine: (HearthView, Move) -> Option<Engine>)
    requires s.game.None? || s.game.value.currentPlaying
    ensures Played(s, PickCard(c), engine).Some?
    ensures var t := Played(s, PickCard(c), engine).value;
            && t.hero1 == s.hero1 && t.hero2 == s.hero2 && t.game == s.game
            && (|s.deck1| < DeckSize ==> t.deck1 == s.deck1 + [c.id] && t.deck2 == s.deck2)
            && (|s.deck1| >= DeckSize ==> t.deck1 == s.deck1 && t.deck2 == s.deck2 + [c.id])
            && multiset(t.deck1) + multiset(t.deck2) == multiset(s.deck1) + multiset(s.deck2) + multiset{c.id}
  {
  }

  /**
   * The scores of one finished match: a drawn or unfinished match scores 0.5
   * for both players; otherwise the winner scores `100 - turn` and the loser
   * minus half of that, which is the winner's score rescaled rather than its
   * complement to one.
   */
  lemma ResultPerspectives(game: Engine)
    ensures (game.health1 <= 0) == (game.health2 <= 0) ==> Result(game, 1) == Result(game, 2) == 0.5
    ensures game.health1 <= 0 < game.health2 ==>
              Result(game, 2) == (100 - game.turn) as real && Result(game, 1) == -Result(game, 2) / 2.0
    ensures game.health2 <= 0 < game.health1 ==>
              Result(game, 1) == (100 - game.turn) as real && Result(game, 2) == -Result(game, 1) / 2.0
  {
  }

  /**
   * Within the first hundred turns a win outscores a draw, which outscores a
   * loss; the scores are not confined to [0, 1]: before turn 99 a win
   * scores more than 1, and a loss always scores below 0.
   */
  lemma ResultOrder(game: Engine, p: int)
    requires p == 1 || p == 2
    requires game.turn < 100
    ensures var mine := if p == 1 then game.health1 else game.health2;
            var theirs := if p == 1 then game.health2 else game.health1;
            && (Result(game, p) > 0.5 <==> theirs <= 0 < mine)
            && (Result(game, p) < 0.5 <==> mine <= 0 < theirs)
            && (theirs <= 0 < mine && game.turn < 99 ==> Result(game, p) > 1.0)
            && (mine <= 0 < theirs ==> Result(game, p) < 0.0)
  {
  }
}
