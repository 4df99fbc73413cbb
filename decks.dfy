/** The 36-card deck, its canonical order, shuffling, and the split into hands. */
module Decks {
  import opened Results
  import opened Cards

  /** The suits and ranks in the order they are declared, which is the order the deck is built in. */
  const SUITS: seq<Suit> := [Diamond, Hearts, Spades, Clubs]
  const RANKS: seq<Rank> := [Six, Seven, Eight, Nine, Ten, Jack, Queen, King, Ace]

  const DECK_SIZE: nat := 36

  function SuitIndex(s: Suit): (i: nat)
    ensures i < |SUITS| && SUITS[i] == s
  {
    match s
    case Diamond => 0
    case Hearts => 1
    case Spades => 2
    case Clubs => 3
  }

  function RankIndex(r: Rank): (i: nat)
    ensures i < |RANKS| && RANKS[i] == r
  {
    Ordinal(r) - 1
  }

  /** The deck as built, suit by suit and within a suit rank by rank. */
  function FreshDeck(): (d: seq<Card>)
    ensures |d| == DECK_SIZE
  {
    seq(DECK_SIZE, k requires 0 <= k < DECK_SIZE => Card(SUITS[k / 9], RANKS[k % 9]))
  }

  /** The position of a card in the fresh deck. */
  function DeckIndex(c: Card): (k: nat)
    ensures k < DECK_SIZE
  {
    9 * SuitIndex(c.suit) + RankIndex(c.rank)
  }

  lemma FreshDeckAt(i: nat, j: nat)
    requires i < 4 && j < 9
    ensures FreshDeck()[9 * i + j] == Card(SUITS[i], RANKS[j])
  {
    assert (9 * i + j) / 9 == i && (9 * i + j) % 9 == j;
  }

  /**
   * Every (suit, rank) pair sits in the fresh deck at DeckIndex, and nowhere
   * else: the fresh deck holds each of the 36 cards exactly once.
   */
  lemma FreshDeckIndex(c: Card, k: nat)
    requires k < DECK_SIZE
    ensures FreshDeck()[DeckIndex(c)] == c
    ensures FreshDeck()[k] == c <==> k == DeckIndex(c)
  {
    FreshDeckAt(SuitIndex(c.suit), RankIndex(c.rank));
    var i, j := k / 9, k % 9;
    assert k == 9 * i + j;
    FreshDeckAt(i, j);
    if FreshDeck()[k] == c {
      assert SUITS[i] == c.suit && RANKS[j] == c.rank;
      assert i == SuitIndex(c.suit) by {
        assert SUITS[i] == SUITS[SuitIndex(c.suit)];
      }
      assert j == RankIndex(c.rank) by {
        assert RANKS[j] == RANKS[RankIndex(c.rank)];
      }
    }
  }

  /** The fresh deck contains every card, once each. */
  lemma FreshDeckComplete(c: Card)
    ensures multiset(FreshDeck())[c] == 1
  {
    var d := FreshDeck();
    var k := DeckIndex(c);
    FreshDeckIndex(c, k);
    assert d == d[..k] + [c] + d[k + 1..];
    assert c !in d[..k] by {
      forall m | 0 <= m < k ensures d[..k][m] != c { FreshDeckIndex(c, m); }
    }
    assert c !in d[k + 1..] by {
      forall m | k + 1 <= m < DECK_SIZE ensures d[m] != c { FreshDeckIndex(c, m); }
    }
  }

  /** The fresh deck has no two equal cards. */
  lemma FreshDeckDistinct(a: nat, b: nat)
    requires a < DECK_SIZE && b < DECK_SIZE && a != b
    ensures FreshDeck()[a] != FreshDeck()[b]
  {
    FreshDeckIndex(FreshDeck()[a], a);
    FreshDeckIndex(FreshDeck()[a], b);
  }

  /** The card deck: its cards in their current order. */
  class Deck {
    var cards: seq<Card>

    /** Builds the deck by enumerating suits and, within each suit, ranks. */
    constructor ()
      ensures cards == FreshDeck()
    {
      cards := [];
      new;
      for i := 0 to |SUITS|
        invariant cards == FreshDeck()[..9 * i]
      {
        for j := 0 to |RANKS|
          invariant cards == FreshDeck()[..9 * i + j]
        {
          FreshDeckAt(i, j);
          cards := cards + [Card(SUITS[i], RANKS[j])];
        }
      }
    }

    function NumCards(): (n: nat)
      reads this
      ensures n == |cards|
      ensures IsShuffledDeck(cards) ==> n == DECK_SIZE
    {
      if IsShuffledDeck(cards) then ShuffledDeckSize(cards); |cards| else |cards|
    }

    /** Puts the cards into the given order; the random permutation is chosen by the caller. */
    method Shuffle(shuffled: seq<Card>)
      requires multiset(shuffled) == multiset(cards)
      modifies this
      ensures cards == shuffled
      ensures multiset(cards) == multiset(old(cards))
    {
      cards := shuffled;
    }
  }

  /**
   * The card list as the code keeps it: a single list shared by every deck,
   * to which each deck built appends a full set of cards; `built` decks have
   * been built so far.
   */
  function SharedCardsAsWritten(built: nat): (cards: seq<Card>)
    ensures |cards| == built * DECK_SIZE
  {
    if built == 0 then [] else SharedCardsAsWritten(built - 1) + FreshDeck()
  }

  /** With the shared list the second deck built holds 72 cards, every card twice: it is no deck. */
  lemma SecondDeckHoldsEveryCardTwice(c: Card)
    ensures |SharedCardsAsWritten(2)| == 72
    ensures multiset(SharedCardsAsWritten(2))[c] == 2
    ensures !IsShuffledDeck(SharedCardsAsWritten(2))
  {
    FreshDeckComplete(c);
    assert SharedCardsAsWritten(1) == FreshDeck();
    assert SharedCardsAsWritten(2) == FreshDeck() + FreshDeck();
  }

  /** The cards of the fresh deck in some order. */
  predicate IsShuffledDeck(cards: seq<Card>) {
    multiset(cards) == multiset(FreshDeck())
  }

  /** A fresh or shuffled deck always holds 36 cards. */
  lemma ShuffledDeckSize(cards: seq<Card>)
    requires IsShuffledDeck(cards)
    ensures |cards| == DECK_SIZE
  {
    assert |multiset(cards)| == |cards|;
  }

  function Sum(xs: seq<nat>): nat {
    if xs == [] then 0 else xs[0] + Sum(xs[1..])
  }

  function Flatten<T>(parts: seq<seq<T>>): seq<T> {
    if parts == [] then [] else parts[0] + Flatten(parts[1..])
  }

  /** A sequence of k copies of x. */
  function Repeat(x: nat, k: nat): (r: seq<nat>)
    ensures |r| == k && forall i :: 0 <= i < k ==> r[i] == x
  {
    if k == 0 then [] else [x] + Repeat(x, k - 1)
  }

  lemma {:induction false} SumRepeat(x: nat, k: nat)
    ensures Sum(Repeat(x, k)) == k * x
  {
    if k > 0 {
      assert Repeat(x, k)[1..] == Repeat(x, k - 1);
      SumRepeat(x, k - 1);
    }
  }

  lemma {:induction false} SumAppend(a: seq<nat>, b: seq<nat>)
    ensures Sum(a + b) == Sum(a) + Sum(b)
  {
    if a == [] {
      assert a + b == b;
    } else {
      assert (a + b)[1..] == a[1..] + b;
      SumAppend(a[1..], b);
    }
  }

  /**
   * The lengths into which the split of `len` items into `n` sections cuts:
   * the first `len % n` sections get one item more than the others.
   */
  function SectionSizes(len: nat, n: nat): (sizes: seq<nat>)
    requires n > 0
  {
    Repeat(len / n + 1, len % n) + Repeat(len / n, n - len % n)
  }

  /** The section sizes cover the items exactly, and differ by at most one. */
  lemma SectionSizesSum(len: nat, n: nat)
    requires n > 0
    ensures |SectionSizes(len, n)| == n
    ensures Sum(SectionSizes(len, n)) == len
    ensures forall k :: 0 <= k < n ==>
              SectionSizes(len, n)[k] == len / n + (if k < len % n then 1 else 0)
  {
    var q, r := len / n, len % n;
    SumAppend(Repeat(q + 1, r), Repeat(q, n - r));
    SumRepeat(q + 1, r);
    SumRepeat(q, n - r);
    SectionArithmetic(len, n, q, r);
  }

  lemma SectionArithmetic(len: nat, n: nat, q: nat, r: nat)
    requires n > 0 && q == len / n && r == len % n
    ensures r <= n && r * (q + 1) + (n - r) * q == len
  {
    assert len == n * q + r;
    assert r * (q + 1) + (n - r) * q == r * q + r + n * q - r * q;
  }

  /** Cuts `s` into consecutive pieces of the given sizes. */
  function Cut<T>(s: seq<T>, sizes: seq<nat>): (parts: seq<seq<T>>)
    requires Sum(sizes) == |s|
    ensures |parts| == |sizes|
    ensures forall k :: 0 <= k < |parts| ==> |parts[k]| == sizes[k]
    ensures Flatten(parts) == s
    decreases sizes
  {
    if sizes == [] then []
    else
      var rest := Cut(s[sizes[0]..], sizes[1..]);
      assert ([s[..sizes[0]]] + rest)[1..] == rest;
      [s[..sizes[0]]] + rest
  }

  /**
   * Splits `s` into `n` contiguous sections whose sizes differ by at most one,
   * the longer ones first; zero sections is an error.
   */
  function ArraySplit<T>(s: seq<T>, n: nat): (r: Result<seq<seq<T>>>)
    ensures r.Err? <==> n == 0
    ensures r.Err? ==> r.error == NoSections
    ensures r.Ok? ==> |r.value| == n && Flatten(r.value) == s
    ensures r.Ok? ==> forall k :: 0 <= k < n ==>
              |r.value[k]| == |s| / n + (if k < |s| % n then 1 else 0)
  {
    if n == 0 then Err(NoSections)
    else
      SectionSizesSum(|s|, n);
      Ok(Cut(s, SectionSizes(|s|, n)))
  }

  /** Dealing the 36 cards to four players gives every player nine of them. */
  lemma DealFourHands<T>(s: seq<T>)
    requires |s| == DECK_SIZE
    ensures ArraySplit(s, 4).Ok?
    ensures forall k :: 0 <= k < 4 ==> |ArraySplit(s, 4).value[k]| == 9
  {
  }

  /** When n divides the number of items, all sections have the same length. */
  lemma ArraySplitEven<T>(s: seq<T>, n: nat)
    requires n > 0 && |s| % n == 0
    ensures forall k :: 0 <= k < n ==> |ArraySplit(s, n).value[k]| == |s| / n
  {
  }
}
