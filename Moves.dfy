/**
 * The move vocabulary of the search (the `MOVE` enumeration of mcts/uct.py and
 * the payloads a move list carries) and the card-catalog records the
 * deck-building phase filters.
 */
module Moves {

  import opened Wrappers

  /** The nine playable classes, in the order the class-picking phase offers them. */
  datatype HeroClass = Druid | Hunter | Mage | Paladin | Priest | Rogue | Shaman | Warlock | Warrior

  datatype CardType = HeroCard | MinionCard | SpellCard | WeaponCard | HeroPowerCard | EnchantmentCard

  datatype Rarity = Free | Common | Rare | Epic | Legendary

  /**
   * What the deck-building phase reads of a card class: its id, whether it is
   * collectible, its type, its class (`None` for a neutral card, whose
   * `card_class` is falsy) and its rarity.
   */
  datatype CardInfo = CardInfo(id: string, collectible: bool, cardType: CardType,
                               cardClass: Option<HeroClass>, rarity: Rarity)

  /**
   * A move, `[kind, card, index, target]` in the source. Two moves are equal
   * exactly when their kind and payload are.
   */
  datatype Move =
    | PreGame
    | PickClass(hero: HeroClass)
    | PickCard(card: CardInfo)
    | EndTurn
    | HeroPower(target: Option<nat>)
    | PlayCard(cardId: string, handIndex: nat, target: Option<nat>)
    | MinionAttack(minionId: string, fieldIndex: nat, attackTarget: nat)
    | HeroAttack(attackTarget: nat)

  /** Moves after which a new search node gets no untried moves of its own. */
  predicate EndsDecision(m: Move)
  {
    m.EndTurn? || m.PreGame?
  }
}
