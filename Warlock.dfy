/**
 * The warlock cards of fireplace/cards/classic/warlock.py whose rules are
 * code rather than declarations: Summoning Portal's cost aura, Void Terror,
 * Sense Demons and Demonfire.
 */
module Warlock {

  import opened Board
  import opened Seqs

  // ---------------------------------------------------------------------
  // Summoning Portal (EX1_315a)

  /**
   * The cost of a minion under Summoning Portal's aura: two less, but not
   * below one; a cost already below one is kept.
   */
  function SummoningPortalCost(i: int): (r: int)
    ensures r <= i
    ensures i >= 3 ==> r == i - 2
    ensures 1 <= i <= 3 ==> r == 1
    ensures i <= 0 ==> r == i
  {
    var lowered := if 1 < i - 2 then i - 2 else 1;
    if lowered < i then lowered else i
  }

  /** The aura keeps the order of costs: a cheaper minion never becomes dearer than another. */
  lemma SummoningPortalMonotone(i: int, j: int)
    requires i <= j
    ensures SummoningPortalCost(i) <= SummoningPortalCost(j)
  {
  }

  // ---------------------------------------------------------------------
  // Void Terror (EX1_304)

  function Sum(xs: seq<int>): int
  {
    if xs == [] then 0 else Sum(xs[..|xs| - 1]) + xs[|xs| - 1]
  }

  /** The attack of each character of `ms`. */
  function Atks(ms: seq<Character>): (r: seq<int>)
    reads set m | m in ms
    ensures |r| == |ms| && forall j :: 0 <= j < |ms| ==> r[j] == ms[j].atk
  {
    if ms == [] then [] else Atks(ms[..|ms| - 1]) + [ms[|ms| - 1].atk]
  }

  /** The health of each character of `ms`. */
  function Healths(ms: seq<Character>): (r: seq<int>)
    reads set m | m in ms
    ensures |r| == |ms| && forall j :: 0 <= j < |ms| ==> r[j] == ms[j].health
  {
    if ms == [] then [] else Healths(ms[..|ms| - 1]) + [ms[|ms| - 1].health]
  }

  /**
   * The loop of Void Terror's battlecry: add up the attack and the health of
   * the adjacent minions, destroying each after reading it.
   */
  method DestroyAdjacent(adjacent: seq<Character>) returns (atk: int, health: int)
    modifies set m | m in adjacent
    ensures atk == Sum(old(Atks(adjacent))) && health == Sum(old(Healths(adjacent)))
    ensures forall j :: 0 <= j < |adjacent| ==> adjacent[j].destroyed
    ensures forall j :: 0 <= j < |adjacent| ==>
              && adjacent[j].atk == old(adjacent[j].atk) && adjacent[j].health == old(adjacent[j].health)
              && adjacent[j].buffs == old(adjacent[j].buffs)
  {
    ghost var atks, healths := Atks(adjacent), Healths(adjacent);
    atk, health := 0, 0;
    for i := 0 to |adjacent|
      invariant atk == Sum(atks[..i]) && health == Sum(healths[..i])
      invariant forall j :: 0 <= j < |adjacent| ==>
                  && (j < i ==> adjacent[j].destroyed)
                  && adjacent[j].atk == atks[j] && adjacent[j].health == healths[j]
                  && adjacent[j].buffs == old(adjacent[j].buffs)
    {
      assert atks[..i + 1][..i] == atks[..i] && healths[..i + 1][..i] == healths[..i];
      atk := atk + adjacent[i].atk;
      health := health + adjacent[i].health;
      adjacent[i].destroyed := true;
    }
    assert atks[..|adjacent|] == atks && healths[..|adjacent|] == healths;
  }

  /**
   * Void Terror's battlecry: destroy the adjacent minions and buff itself
   * with the sum of their attack and the sum of their health, each read
   * before the minion is destroyed; with no adjacent minion nothing happens.
   */
  method VoidTerrorPlay(self: Character, adjacent: seq<Character>)
    modifies self, set m | m in adjacent
    ensures adjacent == [] ==> self.buffs == old(self.buffs)
    ensures adjacent != [] ==>
              self.buffs == old(self.buffs) + [Buff("EX1_304e", Sum(old(Atks(adjacent))), Sum(old(Healths(adjacent))))]
    ensures self.atk == old(self.atk) && self.health == old(self.health)
    ensures self.destroyed == (old(self.destroyed) || self in adjacent)
    ensures forall j :: 0 <= j < |adjacent| ==> adjacent[j].destroyed
    ensures forall j :: 0 <= j < |adjacent| ==>
              adjacent[j].atk == old(adjacent[j].atk) && adjacent[j].health == old(adjacent[j].health)
    ensures forall j :: 0 <= j < |adjacent| && adjacent[j] != self ==> adjacent[j].buffs == old(adjacent[j].buffs)
  {
    if adjacent != [] {
      var atk, health := DestroyAdjacent(adjacent);
      self.buffs := self.buffs + [Buff("EX1_304e", atk, health)];
    }
  }

  // ---------------------------------------------------------------------
  // Sense Demons (EX1_317)

  /** What a `Draw` action draws: a given card from the deck, or a new card made from an id. */
  datatype Draw = DrawCard(card: Card) | DrawToken(id: string)

  /** The id of the Worthless Imp drawn when the deck holds no demon. */
  const WorthlessImp := "EX1_317t"

  /** The demons of a deck, in deck order. */
  function Demons(deck: seq<Card>): (r: seq<Card>)
    ensures |r| <= |deck|
  {
    if deck == [] then []
    else Demons(deck[..|deck| - 1]) + (if deck[|deck| - 1].race == Demon then [deck[|deck| - 1]] else [])
  }

  /** Every card of `Demons(deck)` is a demon of the deck. */
  lemma {:induction false} DemonsMember(deck: seq<Card>, k: nat)
    requires k < |Demons(deck)|
    ensures Demons(deck)[k] in deck && Demons(deck)[k].race == Demon
  {
    var init := deck[..|deck| - 1];
    if k < |Demons(init)| {
      DemonsMember(init, k);
    }
  }

  /** Every demon of the deck is among `Demons(deck)`: the filter misses none. */
  lemma {:induction false} DemonsComplete(deck: seq<Card>, c: Card)
    requires c in deck && c.race == Demon
    ensures c in Demons(deck)
  {
    var init := deck[..|deck| - 1];
    if c != deck[|deck| - 1] {
      assert deck == init + [deck[|deck| - 1]];
      DemonsComplete(init, c);
    }
  }

  lemma {:induction false} DemonsAppend(a: seq<Card>, b: seq<Card>)
    ensures Demons(a + b) == Demons(a) + Demons(b)
  {
    if b != [] {
      var init := b[..|b| - 1];
      assert (a + b)[..|a + b| - 1] == a + init;
      DemonsAppend(a, init);
    } else {
      assert a + b == a;
    }
  }

  /** Drawing a demon out of the deck leaves one demon fewer in it. */
  lemma DemonsRemove(deck: seq<Card>, i: nat)
    requires i < |deck| && deck[i].race == Demon
    ensures |Demons(deck[..i] + deck[i + 1..])| == |Demons(deck)| - 1
    ensures multiset(deck[..i] + deck[i + 1..]) + multiset{deck[i]} == multiset(deck)
  {
    var a, b := deck[..i], deck[i + 1..];
    assert deck == a + ([deck[i]] + b);
    DemonsAppend(a, [deck[i]] + b);
    DemonsAppend([deck[i]], b);
    DemonsAppend(a, b);
    assert Demons([deck[i]]) == [deck[i]] by {
      assert [deck[i]][..0] == [];
    }
  }

  /** The cards `d` draws from the deck: one for a drawn card, none for a new one. */
  function DrawnBag(d: Draw): multiset<Card>
  {
    if d.DrawCard? then multiset{d.card} else multiset{}
  }

  /** The deck after the draw `d`: a drawn card leaves at its first occurrence; a made Imp takes nothing. */
  function AfterDraw(deck: seq<Card>, d: Draw): seq<Card>
  {
    if d.DrawCard? && d.card in deck then
      var i := IndexOf(deck, d.card);
      deck[..i] + deck[i + 1..]
    else deck
  }

  /** A drawn card leaves the deck as `list.remove` takes it out: the first occurrence, the rest in order. */
  lemma AfterDrawRemoves(deck: seq<Card>, d: Draw)
    requires d.DrawCard? && d.card in deck
    ensures AfterDraw(deck, d) == RemoveFirst(deck, d.card)
  {
  }

  /**
   * The choice of one pass of Sense Demons' loop: a demon of `deck`, chosen
   * arbitrarily, and the deck without its first occurrence, if the deck
   * holds one; a Worthless Imp and the deck as it is otherwise.
   */
  method PickDemon(deck: seq<Card>) returns (d: Draw, rest: seq<Card>)
    ensures d.DrawCard? <==> |Demons(deck)| > 0
    ensures d.DrawCard? <==> exists i :: 0 <= i < |deck| && deck[i].race == Demon
    ensures d.DrawCard? ==> d.card in deck && d.card.race == Demon
    ensures d.DrawToken? ==> d.id == WorthlessImp
    ensures |Demons(rest)| == if d.DrawCard? then |Demons(deck)| - 1 else 0
    ensures multiset(rest) + DrawnBag(d) == multiset(deck)
    ensures rest == AfterDraw(deck, d)
  {
    var demons := Demons(deck);
    if exists i :: 0 <= i < |deck| && deck[i].race == Demon {
      var i :| 0 <= i < |deck| && deck[i].race == Demon;
      DemonsComplete(deck, deck[i]);
    }
    if demons != [] {
      var k :| 0 <= k < |demons|;
      DemonsMember(deck, k);
      var at := IndexOf(deck, demons[k]);
      DemonsRemove(deck, at);
      d, rest := DrawCard(deck[at]), deck[..at] + deck[at + 1..];
    } else {
      d, rest := DrawToken(WorthlessImp), deck;
    }
  }

  /**
   * Sense Demons: two draws, each of a demon from the controller's deck
   * while the deck holds one, and of a Worthless Imp otherwise. The demons
   * drawn leave the deck; nothing else of the player changes here (putting
   * the cards into the hand is the engine's `Draw`).
   */
  method SenseDemons(p: Player) returns (draws: seq<Draw>)
    modifies p
    ensures |draws| == 2
    ensures draws[0].DrawCard? <==> |Demons(old(p.deck))| >= 1
    ensures draws[1].DrawCard? <==> |Demons(old(p.deck))| >= 2
    ensures draws[0].DrawCard? ==> draws[0].card.race == Demon
    ensures draws[1].DrawCard? ==> draws[1].card.race == Demon
    ensures draws[0].DrawToken? ==> draws[0].id == WorthlessImp
    ensures draws[1].DrawToken? ==> draws[1].id == WorthlessImp
    ensures multiset(p.deck) + DrawnBag(draws[0]) + DrawnBag(draws[1]) == multiset(old(p.deck))
    ensures p.deck == AfterDraw(AfterDraw(old(p.deck), draws[0]), draws[1])
    ensures p.hand == old(p.hand) && p.graveyard == old(p.graveyard) && p.weapon == old(p.weapon)
  {
    // the two passes of the source's `for i in range(2)`, each on the deck the previous one left
    var first, mid := PickDemon(p.deck);
    var second, rest := PickDemon(mid);
    p.deck := rest;
    draws := [first, second];
  }

  // ---------------------------------------------------------------------
  // Demonfire (EX1_596)

  /** What a card's play does to its target. */
  datatype Effect = BuffTarget(enchantment: string) | HitTarget(amount: int)

  /**
   * Demonfire: a friendly demon gets the Demonfire buff; any other target
   * takes 2 damage.
   */
  function DemonfirePlay(target: Character, controller: Player): (e: Effect)
    ensures e.BuffTarget? <==> target.race == Demon && target.controller == controller
    ensures e.BuffTarget? ==> e.enchantment == "EX1_596e"
    ensures e.HitTarget? ==> e.amount == 2
  {
    if target.race == Demon && target.controller == controller then BuffTarget("EX1_596e") else HitTarget(2)
  }
}
