/**
 * The action helper `discard` of fireplace/carddata/helpers.py, used by
 * card definitions: the card's controller discards at most `count` cards of
 * the hand, chosen at random.
 */
module CardHelpers {

  import opened Wrappers
  import opened Board
  import opened Seqs

  function Min(a: int, b: int): int
  {
    if a < b then a else b
  }

  /**
   * `discard(count)` run for a card controlled by `p`: a random sample of
   * `min(count, |hand|)` cards of the hand, each then discarded, that is
   * taken out of the hand, the other cards keeping their order, and put into
   * the graveyard, in sample order. A negative count is the error of the
   * sampler: `None`, with nothing changed.
   */
  method Discard(p: Player, count: int) returns (discarded: Option<seq<Card>>)
    modifies p
    ensures discarded.None? <==> count < 0
    ensures discarded.None? ==> p.hand == old(p.hand) && p.graveyard == old(p.graveyard)
    ensures discarded.Some? ==> |discarded.value| == Min(count, |old(p.hand)|)
    ensures discarded.Some? ==> multiset(discarded.value) <= multiset(old(p.hand))
    ensures discarded.Some? ==> p.hand == Without(old(p.hand), discarded.value)
    ensures discarded.Some? ==> multiset(p.hand) + multiset(discarded.value) == multiset(old(p.hand))
    ensures discarded.Some? ==> p.graveyard == old(p.graveyard) + discarded.value
    ensures count == 0 ==> p.hand == old(p.hand) && p.graveyard == old(p.graveyard)
    ensures count >= |old(p.hand)| ==> p.hand == []
    ensures p.deck == old(p.deck) && p.weapon == old(p.weapon)
  {
    if count < 0 {
      return None;
    }
    var k := Min(count, |p.hand|);
    assert p.hand == p.hand[..k] + p.hand[k..];
    var sample :| |sample| == k && multiset(sample) <= multiset(p.hand);
    WithoutMultiset(p.hand, sample);
    DiscardAll(p, sample);
    discarded := Some(sample);
  }

  /**
   * The loop of `discard`: each card of `sample`, in order, leaves the hand
   * for the graveyard; the cards kept stay in order.
   */
  method DiscardAll(p: Player, sample: seq<Card>)
    requires multiset(sample) <= multiset(p.hand)
    modifies p
    ensures p.hand == Without(old(p.hand), sample)
    ensures p.graveyard == old(p.graveyard) + sample
    ensures p.deck == old(p.deck) && p.weapon == old(p.weapon)
  {
    for i := 0 to |sample|
      invariant p.hand == Without(old(p.hand), sample[..i])
      invariant p.graveyard == old(p.graveyard) + sample[..i]
      invariant p.deck == old(p.deck) && p.weapon == old(p.weapon)
    {
      var card := sample[i];
      DiscardStep(old(p.hand), sample, i);
      p.hand := RemoveFirst(p.hand, card);
      p.graveyard := p.graveyard + [card];
    }
    assert sample[..|sample|] == sample;
  }

  /**
   * Each sampled card is still in the hand when its turn to leave comes, and
   * removing it is the next step of `Without`.
   */
  lemma DiscardStep(hand: seq<Card>, sample: seq<Card>, i: nat)
    requires i < |sample| && multiset(sample) <= multiset(hand)
    ensures sample[i] in Without(hand, sample[..i])
    ensures Without(hand, sample[..i + 1]) == RemoveFirst(Without(hand, sample[..i]), sample[i])
    ensures sample[..i + 1] == sample[..i] + [sample[i]]
  {
    assert sample == sample[..i] + [sample[i]] + sample[i + 1..];
    WithoutHas(hand, sample[..i], sample[i]);
    assert sample[..i + 1][..i] == sample[..i];
  }
}
