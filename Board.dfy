/**
 * The parts of the board the card rules read and change: cards in a deck or
 * hand, characters on the field, a player's deck, hand, graveyard and
 * weapon, and the buffs a card puts on a character.
 */
module Board {

  import opened Wrappers

  datatype Race = Demon | Beast | Murloc | Pirate | Dragon | Totem | Mech | NoRace

  /** An equipped weapon: its attack and remaining durability. */
  datatype Weapon = Weapon(atk: int, durability: int)

  /** An enchantment put on a character, with the attack and maximum health it adds. */
  datatype Buff = Buff(enchantment: string, atk: int, maxHealth: int)

  /** A card in a deck or hand. */
  class Card {
    const id: string
    const race: Race

    constructor (id: string, race: Race)
      ensures this.id == id && this.race == race
    {
      this.id := id;
      this.race := race;
    }
  }

  /** A player: the cards of its deck and hand, its discarded cards, its weapon if any. */
  class Player {
    var deck: seq<Card>
    var hand: seq<Card>
    var graveyard: seq<Card>
    var weapon: Option<Weapon>

    constructor (deck: seq<Card>, hand: seq<Card>, weapon: Option<Weapon>)
      ensures this.deck == deck && this.hand == hand && graveyard == [] && this.weapon == weapon
    {
      this.deck := deck;
      this.hand := hand;
      graveyard := [];
      this.weapon := weapon;
    }
  }

  /** A minion or hero in play: its race, controller, current attack and health, and buffs. */
  class Character {
    const race: Race
    const controller: Player
    var atk: int
    var health: int
    var destroyed: bool
    var buffs: seq<Buff>

    constructor (race: Race, controller: Player, atk: int, health: int)
      ensures this.race == race && this.controller == controller
      ensures this.atk == atk && this.health == health && !destroyed && buffs == []
    {
      this.race := race;
      this.controller := controller;
      this.atk := atk;
      this.health := health;
      destroyed := false;
      buffs := [];
    }
  }
}
