/**
 * The neutral common cards of fireplace/cards/classic/neutral_common.py
 * whose rules are code rather than declarations, each of which reads the
 * controller's weapon: Southsea Deckhand, Bloodsail Raider, Dread Corsair.
 */
module NeutralCommon {

  import opened Wrappers
  import opened Board

  // ---------------------------------------------------------------------
  // Southsea Deckhand (CS2_146)

  /**
   * Southsea Deckhand's charge: the charge it has otherwise, or charge while
   * its controller has a weapon equipped.
   */
  function SouthseaDeckhandCharge(i: bool, weapon: Option<Weapon>): (r: bool)
    ensures weapon.Some? ==> r
    ensures weapon.None? ==> r == i
  {
    i || weapon.Some?
  }

  /**
   * Equipping a weapon never takes charge away, and any weapon will do: its
   * attack and durability play no part.
   */
  lemma SouthseaDeckhandWeaponMonotone(i: bool, w: Weapon, v: Weapon)
    ensures SouthseaDeckhandCharge(i, None) ==> SouthseaDeckhandCharge(i, Some(w))
    ensures SouthseaDeckhandCharge(i, Some(w)) == SouthseaDeckhandCharge(i, Some(v))
  {
  }

  // ---------------------------------------------------------------------
  // Bloodsail Raider (NEW1_018)

  /** The buff Bloodsail Raider's battlecry gives it: its controller's weapon attack, if any. */
  function BloodsailRaiderBuff(weapon: Option<Weapon>): (b: Option<Buff>)
    ensures b.None? <==> weapon.None?
    ensures b.Some? ==> b.value == Buff("NEW1_018e", weapon.value.atk, 0)
  {
    match weapon
    case None => None
    case Some(w) => Some(Buff("NEW1_018e", w.atk, 0))
  }

  /**
   * Bloodsail Raider's battlecry: with a weapon equipped by its controller,
   * it gains attack equal to the weapon's; without one nothing happens.
   */
  method BloodsailRaiderPlay(self: Character)
    modifies self
    ensures self.controller.weapon.None? ==> self.buffs == old(self.buffs)
    ensures self.controller.weapon.Some? ==>
              self.buffs == old(self.buffs) + [Buff("NEW1_018e", self.controller.weapon.value.atk, 0)]
    ensures self.atk == old(self.atk) && self.health == old(self.health) && self.destroyed == old(self.destroyed)
  {
    var b := BloodsailRaiderBuff(self.controller.weapon);
    if b.Some? {
      self.buffs := self.buffs + [b.value];
    }
  }

  // ---------------------------------------------------------------------
  // Dread Corsair (NEW1_022)

  /**
   * Dread Corsair's cost: less by the attack of its controller's weapon,
   * with no floor at this step; without a weapon the cost is kept.
   */
  function DreadCorsairCost(value: int, weapon: Option<Weapon>): (r: int)
    ensures weapon.None? ==> r == value
    ensures weapon.Some? ==> r + weapon.value.atk == value
  {
    if weapon.Some? then value - weapon.value.atk else value
  }

  /** A stronger weapon never makes Dread Corsair dearer. */
  lemma DreadCorsairMonotone(value: int, w: Weapon, v: Weapon)
    requires w.atk <= v.atk
    ensures DreadCorsairCost(value, Some(v)) <= DreadCorsairCost(value, Some(w))
    ensures w.atk >= 0 ==> DreadCorsairCost(value, Some(w)) <= DreadCorsairCost(value, None)
  {
  }

  /** The cost is not floored here: a weapon stronger than the cost makes it negative. */
  lemma DreadCorsairNoFloor(value: int, w: Weapon)
    requires w.atk > value
    ensures DreadCorsairCost(value, Some(w)) < 0
  {
  }
}
