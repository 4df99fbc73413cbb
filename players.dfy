/** Players and the cards in their hands. */
module Players {
  import opened Results
  import opened Cards

  /** The position of the first occurrence of `c` in `h`. */
  function FirstIndex(h: seq<Card>, c: Card): (i: nat)
    requires c in h
    ensures i < |h| && h[i] == c && c !in h[..i]
  {
    if h[0] == c then 0 else 1 + FirstIndex(h[1..], c)
  }

  /** The hand without the first occurrence of `c`, the other cards keeping their order. */
  function RemoveFirst(h: seq<Card>, c: Card): (r: seq<Card>)
    requires c in h
    ensures r == h[..FirstIndex(h, c)] + h[FirstIndex(h, c) + 1..]
  {
    if h[0] == c then h[1..]
    else
      var rest := RemoveFirst(h[1..], c);
      assert h[1..][..FirstIndex(h[1..], c)] == h[1..FirstIndex(h, c)];
      [h[0]] + rest
  }

  /** Removing one occurrence shrinks the hand by exactly one card, that card. */
  lemma {:induction false} RemoveFirstShrinks(h: seq<Card>, c: Card)
    requires c in h
    ensures |RemoveFirst(h, c)| == |h| - 1
    ensures multiset(RemoveFirst(h, c)) + multiset{c} == multiset(h)
  {
    var i := FirstIndex(h, c);
    assert h == h[..i] + [c] + h[i + 1..];
  }

  /**
   * The card at a caller-chosen position; a position past the end means the
   * last card, so every choice names a card of the hand.
   */
  function CardAt(h: seq<Card>, pick: nat): (c: Card)
    requires h != []
    ensures c in h
  {
    h[if pick < |h| then pick else |h| - 1]
  }

  /** Every card of a hand can be the one chosen. */
  lemma EveryCardChoosable(h: seq<Card>, c: Card)
    requires c in h
    ensures exists pick: nat :: CardAt(h, pick) == c
  {
    var i := FirstIndex(h, c);
    assert CardAt(h, i) == c;
  }

  /** A player at the table; the hand is replaced when dealt and shrinks as cards are played. */
  class Player {
    const name: string
    var hand: seq<Card>

    constructor (name: string)
      ensures this.name == name && hand == []
    {
      this.name := name;
      hand := [];
    }

    /** Replaces the hand. */
    method DealCards(cards: seq<Card>)
      modifies this`hand
      ensures hand == cards
    {
      hand := cards;
    }

    /**
     * Picks a card of the hand (the position is the caller's random draw)
     * and removes one occurrence of it; an empty hand is an error.
     */
    method ChooseCard(pick: nat) returns (r: Result<Card>)
      modifies this`hand
      ensures old(hand) == [] ==> r == Err(EmptyHand) && hand == old(hand)
      ensures old(hand) != [] ==>
                r == Ok(CardAt(old(hand), pick)) && hand == RemoveFirst(old(hand), r.value)
      ensures old(hand) != [] ==>
                |hand| == |old(hand)| - 1 && multiset(hand) + multiset{r.value} == multiset(old(hand))
    {
      if hand == [] {
        return Err(EmptyHand);
      }
      var card := CardAt(hand, pick);
      RemoveFirstShrinks(hand, card);
      hand := RemoveFirst(hand, card);
      return Ok(card);
    }
  }
}
