/** Suits, ranks and cards, with the trump-relative strength and point tables. */
module Cards {
  import opened Results

  datatype Suit = Diamond | Hearts | Spades | Clubs

  datatype Rank = Six | Seven | Eight | Nine | Ten | Jack | Queen | King | Ace

  /** A card is a plain (suit, rank) value; equal pairs are the same card. */
  datatype Card = Card(suit: Suit, rank: Rank)

  /** The number each rank carries in its enumeration: Six is 1, Ace is 9. */
  function Ordinal(r: Rank): (k: nat)
    ensures 1 <= k <= 9
  {
    match r
    case Six => 1
    case Seven => 2
    case Eight => 3
    case Nine => 4
    case Ten => 5
    case Jack => 6
    case Queen => 7
    case King => 8
    case Ace => 9
  }

  /** A card is trump when a trump suit is declared and it is the card's suit. */
  function IsTrumpf(c: Card, trumpf: Option<Suit>): (b: bool)
    ensures trumpf.None? ==> !b
    ensures trumpf.Some? ==> (b <==> c.suit == trumpf.value)
  {
    if trumpf.None? then false else trumpf.value == c.suit
  }

  /** The ranks of the trump suit from strongest to weakest. */
  const TRUMPF_ORDER: seq<Rank> := [Jack, Nine, Ace, King, Queen, Ten, Eight, Seven, Six]

  /**
   * The comparison key of a card in a trick: the lower, the stronger.
   * Trump cards take 1..9, the others 11..19, so every trump card is
   * stronger than every other card.
   */
  function Strength(c: Card, trumpf: Option<Suit>): (s: int)
    ensures IsTrumpf(c, trumpf) ==> 1 <= s <= 9 && TRUMPF_ORDER[s - 1] == c.rank
    ensures !IsTrumpf(c, trumpf) ==> 11 <= s <= 19 && s == 20 - Ordinal(c.rank)
  {
    var t := IsTrumpf(c, trumpf);
    match c.rank
    case Six => if t then 9 else 19
    case Seven => if t then 8 else 18
    case Eight => if t then 7 else 17
    case Nine => if t then 2 else 16
    case Ten => if t then 6 else 15
    case Jack => if t then 1 else 14
    case Queen => if t then 5 else 13
    case King => if t then 4 else 12
    case Ace => if t then 3 else 11
  }

  /** The points a card is worth to the side that wins it. */
  function Value(c: Card, trumpf: Option<Suit>): (v: nat)
    ensures v <= 20
    ensures v == 20 <==> IsTrumpf(c, trumpf) && c.rank == Jack
    ensures v == 14 <==> IsTrumpf(c, trumpf) && c.rank == Nine
    ensures !IsTrumpf(c, trumpf) && c.rank == Nine ==> v == 0
    ensures !IsTrumpf(c, trumpf) && c.rank == Jack ==> v == 2
  {
    var t := IsTrumpf(c, trumpf);
    match c.rank
    case Six => 0
    case Seven => 0
    case Eight => 0
    case Nine => if t then 14 else 0
    case Ten => 10
    case Jack => if t then 20 else 2
    case Queen => 3
    case King => 4
    case Ace => 11
  }

  /** Any trump card beats any card that is not trump. */
  lemma TrumpfBeatsNonTrumpf(a: Card, b: Card, trumpf: Option<Suit>)
    requires IsTrumpf(a, trumpf) && !IsTrumpf(b, trumpf)
    ensures Strength(a, trumpf) < Strength(b, trumpf)
  {
  }

  /** Among cards of the same trump status, strength determines the rank and vice versa. */
  lemma StrengthInjective(a: Card, b: Card, trumpf: Option<Suit>)
    requires IsTrumpf(a, trumpf) == IsTrumpf(b, trumpf)
    ensures Strength(a, trumpf) == Strength(b, trumpf) <==> a.rank == b.rank
  {
    if IsTrumpf(a, trumpf) {
      assert TRUMPF_ORDER[Strength(a, trumpf) - 1] == a.rank;
      assert TRUMPF_ORDER[Strength(b, trumpf) - 1] == b.rank;
    }
  }

  /** The Jack of trump is the strongest card of all; no other card reaches strength 1. */
  lemma JackOfTrumpfStrongest(c: Card, trumpf: Option<Suit>)
    ensures Strength(c, trumpf) >= 1
    ensures Strength(c, trumpf) == 1 <==> IsTrumpf(c, trumpf) && c.rank == Jack
  {
  }

  /** Only Nine and Jack of the trump suit change value with the trump declaration. */
  lemma ValueDependsOnTrumpfOnlyForNineAndJack(c: Card, trumpf: Option<Suit>)
    ensures Value(c, trumpf) != Value(c, None) <==>
              IsTrumpf(c, trumpf) && (c.rank == Nine || c.rank == Jack)
  {
  }
}
