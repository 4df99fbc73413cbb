/** The game loop: shuffle, deal, declare trump, then play every trick in turn. */
module Game {
  import opened Results
  import opened Cards
  import opened Decks
  import opened Players
  import opened Tricks

  /** No player object sits at two seats. */
  predicate Distinct(players: seq<Player>) {
    forall i, j :: 0 <= i < j < |players| ==> players[i] != players[j]
  }

  /** The players in the order they act when `lead` leads. */
  function Seated(players: seq<Player>, lead: nat): (s: seq<Player>)
    requires lead < |players|
    ensures |s| == |players|
    ensures forall m :: 0 <= m < |s| ==> s[m] == players[TurnOrder(lead, |players|)[m]]
  {
    var order := TurnOrder(lead, |players|);
    seq(|players|, m requires 0 <= m < |players| => players[order[m]])
  }

  /** Rotating the seats keeps distinct players distinct: no one else acts as the i-th player. */
  lemma SeatedDistinct(players: seq<Player>, lead: nat, i: nat)
    requires lead < |players| && i < |players| && Distinct(players)
    ensures forall m :: 0 <= m < |players| && m != i ==> Seated(players, lead)[m] != Seated(players, lead)[i]
  {
    TurnOrderIsRotation(lead, |players|);
  }

  /** The cards seat `p` played in the given turns. */
  function CardsOf(turns: seq<Turn>, p: nat): multiset<Card> {
    if turns == [] then multiset{}
    else
      CardsOf(turns[..|turns| - 1], p)
        + (if turns[|turns| - 1].player == p then multiset{turns[|turns| - 1].card} else multiset{})
  }

  /**
   * In a trick played in rotation every seat plays exactly once: seat p's
   * only card is the one at its position.
   */
  lemma {:induction false} CardsOfRotation(turns: seq<Turn>, lead: nat, n: nat, p: nat)
    requires lead < n && p < n && |turns| == n
    requires forall i :: 0 <= i < n ==> turns[i].player == TurnOrder(lead, n)[i]
    ensures CardsOf(turns, p) == multiset{turns[Position(p, lead, n)].card}
  {
    TurnOrderIsRotation(lead, n);
    CardsOfPrefix(turns, lead, n, p, n);
    assert turns[..n] == turns;
  }

  lemma {:induction false} CardsOfPrefix(turns: seq<Turn>, lead: nat, n: nat, p: nat, m: nat)
    requires lead < n && p < n && |turns| == n && m <= n
    requires forall i :: 0 <= i < n ==> turns[i].player == TurnOrder(lead, n)[i]
    requires TurnOrder(lead, n)[Position(p, lead, n)] == p
    ensures CardsOf(turns[..m], p) ==
              if Position(p, lead, n) < m then multiset{turns[Position(p, lead, n)].card} else multiset{}
  {
    if m > 0 {
      assert turns[..m][..m - 1] == turns[..m - 1];
      CardsOfPrefix(turns, lead, n, p, m - 1);
      PositionInTurnOrder(lead, n, m - 1);
      assert turns[m - 1].player == p <==> Position(p, lead, n) == m - 1;
    }
  }

  /** A resolved trick played in rotation from `lead` by `n` seats. */
  predicate Resolved(t: Trick, lead: nat, n: nat, trumpf: Option<Suit>) {
    && lead < n && t.playerOrder == TurnOrder(lead, n)
    && |t.turns| == n
    && (forall i :: 0 <= i < n ==> t.turns[i].player == t.playerOrder[i])
    && Winner(t.turns, trumpf).Ok?
    && t.winningPlayer == Some(Winner(t.turns, trumpf).value)
  }

  /**
   * A sequence of resolved tricks, the first led by `first` and each later one
   * led by the winner of the trick before it.
   */
  predicate Chained(ts: seq<Trick>, first: nat, n: nat, trumpf: Option<Suit>) {
    ts != [] ==>
      && Chained(ts[..|ts| - 1], first, n, trumpf)
      && Resolved(ts[|ts| - 1], if |ts| == 1 then first else ts[|ts| - 2].winningPlayer.value, n, trumpf)
  }

  /** The cards seat `p` played over the given tricks. */
  function PlayedBy(ts: seq<Trick>, p: nat): multiset<Card> {
    if ts == [] then multiset{} else PlayedBy(ts[..|ts| - 1], p) + CardsOf(ts[|ts| - 1].turns, p)
  }

  /**
   * The bookkeeping of one seat over one more trick: if what it was dealt is its
   * hand plus what it played so far, and the hand then gives up `now`, what it
   * was dealt is the new hand plus everything it played.
   */
  lemma Conserve(dealt: multiset<Card>, before: multiset<Card>, after: multiset<Card>,
                 prev: multiset<Card>, now: multiset<Card>)
    requires dealt == before + prev && before == after + now
    ensures dealt == after + (prev + now)
  {
  }

  /** Slicing a concatenation at the seam gives back its two parts. */
  lemma SplitAppend<T>(a: seq<T>, b: seq<T>)
    ensures (a + b)[..|a|] == a && (a + b)[|a|..] == b
  {
  }

  lemma AppendAssociative<T>(a: seq<T>, b: seq<T>, c: seq<T>)
    ensures (a + b) + c == a + (b + c)
  {
  }

  /** Appending a trick led by the previous winner keeps a chain of tricks chained. */
  lemma ChainedAppend(ts: seq<Trick>, t: Trick, first: nat, n: nat, trumpf: Option<Suit>)
    requires Chained(ts, first, n, trumpf)
    requires Resolved(t, if ts == [] then first else ts[|ts| - 1].winningPlayer.value, n, trumpf)
    ensures Chained(ts + [t], first, n, trumpf)
  {
    assert (ts + [t])[..|ts|] == ts;
  }

  /** The last trick of a nonempty chain has a recorded winner. */
  lemma ChainedLastWon(ts: seq<Trick>, first: nat, n: nat, trumpf: Option<Suit>)
    requires Chained(ts, first, n, trumpf) && ts != []
    ensures ts[|ts| - 1].winningPlayer.Some?
  {
  }

  /** Every prefix of a chain of tricks is a chain: `m` is past the end or `ts[..m]` is chained. */
  lemma {:induction false} ChainedPrefix(ts: seq<Trick>, first: nat, n: nat, trumpf: Option<Suit>, m: nat)
    requires Chained(ts, first, n, trumpf)
    ensures m > |ts| || Chained(ts[..m], first, n, trumpf)
    decreases |ts|
  {
    if m == |ts| {
      assert ts[..m] == ts;
    } else if m < |ts| {
      var pre := ts[..|ts| - 1];
      ChainedPrefix(pre, first, n, trumpf, m);
      assert pre[..m] == ts[..m];
    }
  }

  /**
   * Trick k of a chain is resolved and led by `first` when it is the first
   * trick, and by the winner of trick k - 1 otherwise.
   */
  lemma ChainedAt(ts: seq<Trick>, first: nat, n: nat, trumpf: Option<Suit>, k: nat)
    requires Chained(ts, first, n, trumpf) && k < |ts|
    ensures k > 0 ==> ts[k - 1].winningPlayer.Some?
    ensures Resolved(ts[k], if k == 0 then first else ts[k - 1].winningPlayer.value, n, trumpf)
  {
    ChainedPrefix(ts, first, n, trumpf, k + 1);
    var upto := ts[..k + 1];
    assert upto[k] == ts[k];
    if k > 0 {
      ChainedPrefix(ts, first, n, trumpf, k);
      ChainedLastWon(ts[..k], first, n, trumpf);
      assert upto[k - 1] == ts[..k][k - 1] == ts[k - 1];
    }
    var lead := if k == 0 then first else ts[k - 1].winningPlayer.value;
    assert Resolved(upto[k], lead, n, trumpf);
  }

  /** The cards a seat played over a chain of tricks grow by its card in the appended trick. */
  lemma PlayedByAppend(ts: seq<Trick>, t: Trick, p: nat)
    ensures PlayedBy(ts + [t], p) == PlayedBy(ts, p) + CardsOf(t.turns, p)
  {
    assert (ts + [t])[..|ts|] == ts;
  }

  /** Every card played in the given turns, whoever played it. */
  function TurnCards(turns: seq<Turn>): multiset<Card> {
    if turns == [] then multiset{} else TurnCards(turns[..|turns| - 1]) + multiset{turns[|turns| - 1].card}
  }

  /** Every card played over the given tricks. */
  function AllPlayed(ts: seq<Trick>): multiset<Card> {
    if ts == [] then multiset{} else AllPlayed(ts[..|ts| - 1]) + TurnCards(ts[|ts| - 1].turns)
  }

  /** The cards seats 0 .. n-1 played in the given turns. */
  function CardsOfSeats(turns: seq<Turn>, n: nat): multiset<Card> {
    if n == 0 then multiset{} else CardsOfSeats(turns, n - 1) + CardsOf(turns, n - 1)
  }

  /** The cards seats 0 .. n-1 played over the given tricks. */
  function PlayedBySeats(ts: seq<Trick>, n: nat): multiset<Card> {
    if n == 0 then multiset{} else PlayedBySeats(ts, n - 1) + PlayedBy(ts, n - 1)
  }

  /** The cards dealt to seats 0 .. n-1. */
  function DealtToSeats(hands: seq<seq<Card>>, n: nat): multiset<Card>
    requires n <= |hands|
  {
    if n == 0 then multiset{} else DealtToSeats(hands, n - 1) + multiset(hands[n - 1])
  }

  lemma {:induction false} CardsOfSeatsAppend(turns: seq<Turn>, x: Turn, n: nat)
    ensures CardsOfSeats(turns + [x], n) ==
              CardsOfSeats(turns, n) + (if x.player < n then multiset{x.card} else multiset{})
  {
    if n > 0 {
      CardsOfSeatsAppend(turns, x, n - 1);
      assert (turns + [x])[..|turns|] == turns;
    }
  }

  lemma {:induction false} CardsOfSeatsNone(n: nat)
    ensures CardsOfSeats([], n) == multiset{}
  {
    if n > 0 {
      CardsOfSeatsNone(n - 1);
    }
  }

  lemma {:induction false} PlayedBySeatsNone(n: nat)
    ensures PlayedBySeats([], n) == multiset{}
  {
    if n > 0 {
      PlayedBySeatsNone(n - 1);
    }
  }

  /** When every player of the turns has one of the seats 0 .. n-1, those seats played all the cards. */
  lemma {:induction false} CardsOfSeatsAll(turns: seq<Turn>, n: nat)
    requires forall i :: 0 <= i < |turns| ==> turns[i].player < n
    ensures CardsOfSeats(turns, n) == TurnCards(turns)
  {
    if turns == [] {
      CardsOfSeatsNone(n);
    } else {
      var pre := turns[..|turns| - 1];
      assert pre + [turns[|turns| - 1]] == turns;
      CardsOfSeatsAll(pre, n);
      CardsOfSeatsAppend(pre, turns[|turns| - 1], n);
    }
  }

  lemma {:induction false} PlayedBySeatsAppend(ts: seq<Trick>, t: Trick, n: nat)
    ensures PlayedBySeats(ts + [t], n) == PlayedBySeats(ts, n) + CardsOfSeats(t.turns, n)
  {
    if n > 0 {
      PlayedBySeatsAppend(ts, t, n - 1);
      PlayedByAppend(ts, t, n - 1);
    }
  }

  /** Every player of a chain of tricks has one of the seats 0 .. n-1. */
  lemma {:induction false} ChainedSeats(ts: seq<Trick>, first: nat, n: nat, trumpf: Option<Suit>)
    requires Chained(ts, first, n, trumpf)
    ensures forall k, i :: 0 <= k < |ts| && 0 <= i < |ts[k].turns| ==> ts[k].turns[i].player < n
  {
    if ts != [] {
      ChainedSeats(ts[..|ts| - 1], first, n, trumpf);
      assert forall k :: 0 <= k < |ts| - 1 ==> ts[..|ts| - 1][k] == ts[k];
    }
  }

  /** Over a chain of tricks the seats together played every card played. */
  lemma {:induction false} PlayedBySeatsAll(ts: seq<Trick>, first: nat, n: nat, trumpf: Option<Suit>)
    requires Chained(ts, first, n, trumpf)
    ensures PlayedBySeats(ts, n) == AllPlayed(ts)
  {
    if ts == [] {
      PlayedBySeatsNone(n);
    } else {
      var pre, t := ts[..|ts| - 1], ts[|ts| - 1];
      assert pre + [t] == ts;
      PlayedBySeatsAll(pre, first, n, trumpf);
      PlayedBySeatsAppend(pre, t, n);
      ChainedSeats(ts, first, n, trumpf);
      CardsOfSeatsAll(t.turns, n);
    }
  }

  lemma {:induction false} FlattenAppend(hands: seq<seq<Card>>, h: seq<Card>)
    ensures Flatten(hands + [h]) == Flatten(hands) + h
  {
    if hands != [] {
      assert (hands + [h])[1..] == hands[1..] + [h];
      FlattenAppend(hands[1..], h);
    }
  }

  /** The seats were dealt, between them, every card of the split sequence. */
  lemma {:induction false} DealtToSeatsFlatten(hands: seq<seq<Card>>)
    ensures DealtToSeats(hands, |hands|) == multiset(Flatten(hands))
  {
    if hands != [] {
      var pre := hands[..|hands| - 1];
      assert pre + [hands[|hands| - 1]] == hands;
      DealtToSeatsFlatten(pre);
      assert DealtToSeats(hands, |pre|) == DealtToSeats(pre, |pre|) by {
        DealtToSeatsPrefix(hands, pre, |pre|);
      }
      FlattenAppend(pre, hands[|hands| - 1]);
    }
  }

  lemma {:induction false} DealtToSeatsPrefix(hands: seq<seq<Card>>, pre: seq<seq<Card>>, n: nat)
    requires n <= |pre| <= |hands| && pre == hands[..|pre|]
    ensures DealtToSeats(hands, n) == DealtToSeats(pre, n)
  {
    if n > 0 {
      DealtToSeatsPrefix(hands, pre, n - 1);
    }
  }

  lemma {:induction false} DealtToSeatsPlayed(hands: seq<seq<Card>>, ts: seq<Trick>, n: nat)
    requires n <= |hands|
    requires forall p :: 0 <= p < n ==> multiset(hands[p]) == PlayedBy(ts, p)
    ensures DealtToSeats(hands, n) == PlayedBySeats(ts, n)
  {
    if n > 0 {
      DealtToSeatsPlayed(hands, ts, n - 1);
    }
  }

  /**
   * When every seat played out the whole hand it was dealt, the tricks of the
   * chain hold exactly the cards the hands were cut from, each as often as it
   * was dealt.
   */
  lemma WholeDeckPlayed(hands: seq<seq<Card>>, ts: seq<Trick>, first: nat, trumpf: Option<Suit>)
    requires Chained(ts, first, |hands|, trumpf)
    requires forall p :: 0 <= p < |hands| ==> multiset(hands[p]) == PlayedBy(ts, p)
    ensures AllPlayed(ts) == multiset(Flatten(hands))
  {
    DealtToSeatsPlayed(hands, ts, |hands|);
    DealtToSeatsFlatten(hands);
    PlayedBySeatsAll(ts, first, |hands|, trumpf);
  }

  /** One turn of a trick: `player`, at seat `seat`, draws a card and it is recorded. */
  method PlayTurn(r: Round, player: Player, seat: nat, pick: nat)
    requires player.hand != []
    modifies player`hand, r`turns
    ensures r.turns == old(r.turns) + [Turn(seat, CardAt(old(player.hand), pick))]
    ensures player.hand == RemoveFirst(old(player.hand), CardAt(old(player.hand), pick))
  {
    var card := player.ChooseCard(pick);
    r.AddTurn(Turn(seat, card.value));
  }

  class SchieberGame {
    const players: seq<Player>
    const deck: Deck
    var rounds: seq<Trick>           // the finished tricks, by value: none changes after it is played
    var trumpf: Option<Suit>
    var initialPlayer: Option<nat>   // the seat of the player who leads the next trick
    var playerOrder: seq<nat>

    ghost predicate Valid()
      reads this, deck
    {
      && IsShuffledDeck(deck.cards)
      && Distinct(players)
      && (initialPlayer.Some? ==> initialPlayer.value < |players|)
    }

    constructor (players: seq<Player>)
      requires Distinct(players)
      ensures Valid()
      ensures this.players == players && fresh(deck) && deck.cards == FreshDeck()
      ensures rounds == [] && trumpf == None && initialPlayer == None && playerOrder == []
    {
      this.players := players;
      deck := new Deck();
      rounds := [];
      trumpf := None;
      initialPlayer := None;
      playerOrder := [];
    }

    function NumPlayers(): (n: nat)
      ensures n == |players|
    {
      |players|
    }

    /**
     * Splits the deck into one contiguous hand per seat and gives each player theirs;
     * with no players the split fails and nothing is dealt.
     */
    method DealCards() returns (ok: bool)
      requires Valid()
      modifies players
      ensures ok == (|players| > 0)
      ensures ok ==> forall p :: 0 <= p < |players| ==>
                players[p].hand == ArraySplit(deck.cards, |players|).value[p]
    {
      var dealt := ArraySplit(deck.cards, NumPlayers());
      if dealt.Err? {
        return false;
      }
      for pid := 0 to |players|
        invariant forall p :: 0 <= p < pid ==> players[p].hand == dealt.value[p]
      {
        players[pid].DealCards(dealt.value[pid]);
      }
      return true;
    }

    /**
     * Every seat of the turn order that starts at `lead` in turn draws a card
     * from its hand (its position is `pick` of its place in the order) and the
     * play is added to the trick `r`.
     */
    method PlayTurns(r: Round, lead: nat, picks: seq<nat>)
      requires Distinct(players) && lead < |players|
      requires forall p :: 0 <= p < |players| ==> players[p].hand != []
      requires r.turns == [] && |picks| == |players|
      modifies players, r`turns
      ensures var order := TurnOrder(lead, |players|);
              |r.turns| == |players| &&
              forall m :: 0 <= m < |players| ==>
                r.turns[m].player == order[m] &&
                r.turns[m].card == CardAt(old(players[order[m]].hand), picks[m]) &&
                players[order[m]].hand == RemoveFirst(old(players[order[m]].hand), r.turns[m].card)
    {
      var n := |players|;
      var order := TurnOrder(lead, n);
      var seated := Seated(players, lead);
      for i := 0 to n
        invariant |r.turns| == i
        invariant forall m :: 0 <= m < i ==> r.turns[m].player == order[m]
        invariant forall m :: 0 <= m < i ==> r.turns[m].card == CardAt(old(seated[m].hand), picks[m])
        invariant forall m :: 0 <= m < i ==> seated[m].hand == RemoveFirst(old(seated[m].hand), r.turns[m].card)
        invariant forall m :: i <= m < n ==> seated[m].hand == old(seated[m].hand)
      {
        SeatedDistinct(players, lead, i);
        PlayTurn(r, seated[i], order[i], picks[i]);
      }
    }

    /**
     * Opens a trick in the turn order that starts at `lead` and plays every
     * seat's turn into it: each seat gives up exactly the one card it played.
     */
    method OpenTrick(lead: nat, picks: seq<nat>) returns (r: Round)
      requires Distinct(players) && lead < |players| && |picks| == |players|
      requires forall p :: 0 <= p < |players| ==> players[p].hand != []
      modifies players
      ensures fresh(r) && r.winningPlayer == None
      ensures var order := TurnOrder(lead, |players|);
              r.playerOrder == order && |r.turns| == |players| &&
              forall m :: 0 <= m < |players| ==>
                r.turns[m].player == order[m] &&
                r.turns[m].card == CardAt(old(players[order[m]].hand), picks[m])
      ensures forall p :: 0 <= p < |players| ==>
                |players[p].hand| == |old(players[p].hand)| - 1 &&
                multiset(old(players[p].hand)) == multiset(players[p].hand) + CardsOf(r.turns, p)
    {
      var order := TurnOrder(lead, |players|);
      r := new Round(order);
      PlayTurns(r, lead, picks);
      TurnOrderIsRotation(lead, |players|);
      forall p | 0 <= p < |players|
        ensures |players[p].hand| == |old(players[p].hand)| - 1
        ensures multiset(old(players[p].hand)) == multiset(players[p].hand) + CardsOf(r.turns, p)
      {
        var c := r.turns[Position(p, lead, |players|)].card;
        assert order[Position(p, lead, |players|)] == p;
        RemoveFirstShrinks(old(players[p].hand), c);
        CardsOfRotation(r.turns, lead, |players|, p);
      }
    }

    /**
     * Plays one trick: starting from the lead, every seat in turn draws a card
     * from its hand; the strongest card's player wins and leads next.
     */
    method PlayRound(picks: seq<nat>) returns (r: Round)
      requires Distinct(players) && initialPlayer.Some? && initialPlayer.value < |players| && |picks| == |players|
      requires forall p :: 0 <= p < |players| ==> players[p].hand != []
      modifies this`initialPlayer, this`playerOrder, players
      ensures fresh(r) && initialPlayer.Some? && initialPlayer.value < |players|
      ensures Resolved(r.Snapshot(), old(initialPlayer).value, |players|, trumpf) && playerOrder == r.playerOrder
      ensures initialPlayer == r.winningPlayer
      ensures var order := TurnOrder(old(initialPlayer).value, |players|);
              forall i :: 0 <= i < |players| ==>
                r.turns[i].card == CardAt(old(players[order[i]].hand), picks[i])
      ensures forall p :: 0 <= p < |players| ==>
                |players[p].hand| == |old(players[p].hand)| - 1 &&
                multiset(old(players[p].hand)) == multiset(players[p].hand) + CardsOf(r.turns, p)
    {
      var lead := initialPlayer.value;
      r := OpenTrick(lead, picks);
      playerOrder := r.playerOrder;
      var w := r.DetermineWinner(trumpf);
      initialPlayer := Some(w.value);
    }

    /**
     * Plays one more trick of a chain and appends its record to `rounds`; the
     * chain stays chained because the trick is led by the previous winner.
     */
    method AppendRound(picks: seq<nat>, ghost history: seq<Trick>, ghost first: nat) returns (trick: Trick)
      requires Distinct(players) && initialPlayer.Some? && initialPlayer.value < |players| && |picks| == |players|
      requires forall p :: 0 <= p < |players| ==> players[p].hand != []
      requires Chained(history, first, |players|, trumpf)
      requires initialPlayer == if history == [] then Some(first) else history[|history| - 1].winningPlayer
      modifies this`rounds, this`initialPlayer, this`playerOrder, players
      ensures rounds == old(rounds) + [trick] && playerOrder == trick.playerOrder
      ensures Chained(history + [trick], first, |players|, trumpf)
      ensures initialPlayer == trick.winningPlayer && initialPlayer.Some? && initialPlayer.value < |players|
      ensures var order := TurnOrder(old(initialPlayer).value, |players|);
              forall i :: 0 <= i < |players| ==>
                trick.turns[i].card == CardAt(old(players[order[i]].hand), picks[i])
      ensures forall p :: 0 <= p < |players| ==>
                |players[p].hand| == |old(players[p].hand)| - 1 &&
                multiset(old(players[p].hand)) == multiset(players[p].hand) + CardsOf(trick.turns, p)
    {
      var r := PlayRound(picks);
      trick := r.Snapshot();
      rounds := rounds + [trick];
      ChainedAppend(history, trick, first, |players|, trumpf);
    }

    /**
     * Plays the next trick of a game whose earlier tricks are `history`: every
     * seat still holds what it was dealt, less what it played so far.
     */
    method NextRound(picks: seq<nat>, ghost history: seq<Trick>, ghost first: nat, ghost dealt: seq<seq<Card>>)
      returns (trick: Trick)
      requires Distinct(players) && initialPlayer.Some? && initialPlayer.value < |players| && |picks| == |players|
      requires Chained(history, first, |players|, trumpf)
      requires initialPlayer == if history == [] then Some(first) else history[|history| - 1].winningPlayer
      requires |dealt| == |players|
      requires forall p :: 0 <= p < |players| ==>
                 |dealt[p]| > |history| && |players[p].hand| == |dealt[p]| - |history| &&
                 multiset(dealt[p]) == multiset(players[p].hand) + PlayedBy(history, p)
      modifies this`rounds, this`initialPlayer, this`playerOrder, players
      ensures rounds == old(rounds) + [trick] && playerOrder == trick.playerOrder
      ensures Chained(history + [trick], first, |players|, trumpf)
      ensures initialPlayer == trick.winningPlayer && initialPlayer.Some? && initialPlayer.value < |players|
      ensures var order := TurnOrder(old(initialPlayer).value, |players|);
              forall i :: 0 <= i < |players| ==>
                trick.turns[i].card == CardAt(old(players[order[i]].hand), picks[i])
      ensures forall p :: 0 <= p < |players| ==>
                |players[p].hand| == |dealt[p]| - (|history| + 1) &&
                multiset(dealt[p]) == multiset(players[p].hand) + PlayedBy(history + [trick], p)
    {
      forall p | 0 <= p < |players| ensures players[p].hand != [] {
        assert |players[p].hand| > 0;
      }
      trick := AppendRound(picks, history, first);
      forall p | 0 <= p < |players|
        ensures |players[p].hand| == |dealt[p]| - (|history| + 1)
        ensures multiset(dealt[p]) == multiset(players[p].hand) + PlayedBy(history + [trick], p)
      {
        PlayedByAppend(history, trick, p);
        Conserve(multiset(dealt[p]), multiset(old(players[p].hand)), multiset(players[p].hand),
                 PlayedBy(history, p), CardsOf(trick.turns, p));
      }
    }

    /**
     * Plays `count` tricks in a row, each led by the winner of the previous one,
     * and appends them to `rounds`; every seat's hand loses the card it played
     * in each trick.
     */
    method PlayRounds(count: nat, choices: seq<seq<nat>>, ghost dealt: seq<seq<Card>>)
      requires Distinct(players) && initialPlayer.Some? && initialPlayer.value < |players|
      requires |dealt| == |players| && forall p :: 0 <= p < |players| ==> players[p].hand == dealt[p]
      requires forall p :: 0 <= p < |players| ==> |dealt[p]| >= count
      requires |choices| == count && forall t :: 0 <= t < count ==> |choices[t]| == |players|
      modifies this`rounds, this`initialPlayer, this`playerOrder, players
      ensures initialPlayer.Some? && initialPlayer.value < |players|
      ensures |rounds| == |old(rounds)| + count && rounds[..|old(rounds)|] == old(rounds)
      ensures count > 0 ==>
                initialPlayer == rounds[|rounds| - 1].winningPlayer && playerOrder == rounds[|rounds| - 1].playerOrder
      ensures count == 0 ==> initialPlayer == old(initialPlayer) && playerOrder == old(playerOrder)
      ensures Chained(rounds[|old(rounds)|..], old(initialPlayer).value, |players|, trumpf)
      ensures forall p :: 0 <= p < |players| ==>
                |players[p].hand| == |dealt[p]| - count &&
                multiset(dealt[p]) == multiset(players[p].hand) + PlayedBy(rounds[|old(rounds)|..], p)
    {
      var n := |players|;
      ghost var history: seq<Trick> := [];
      for t := 0 to count
        invariant initialPlayer.Some? && initialPlayer.value < n
        invariant |history| == t && rounds == old(rounds) + history
        invariant Chained(history, old(initialPlayer).value, n, trumpf)
        invariant t > 0 ==> initialPlayer == history[t - 1].winningPlayer && playerOrder == history[t - 1].playerOrder
        invariant t == 0 ==> initialPlayer == old(initialPlayer) && playerOrder == old(playerOrder)
        invariant forall p :: 0 <= p < n ==>
                    |players[p].hand| == |dealt[p]| - t &&
                    multiset(dealt[p]) == multiset(players[p].hand) + PlayedBy(history, p)
      {
        var trick := NextRound(choices[t], history, old(initialPlayer).value, dealt);
        AppendAssociative(old(rounds), history, [trick]);
        history := history + [trick];
      }
      SplitAppend(old(rounds), history);
      if count > 0 {
        assert rounds[|rounds| - 1] == history[count - 1];
      }
    }

    /**
     * The set-up of a game: the deck is shuffled into `shuffled` and dealt,
     * seat 0 leads and declares the suit `declared` Trumpf. With no players
     * the deal fails and neither a lead nor a trump suit is set.
     */
    method StartGame(shuffled: seq<Card>, declared: Suit) returns (ok: bool)
      requires Valid() && IsShuffledDeck(shuffled)
      modifies this`trumpf, this`playerOrder, this`initialPlayer, deck, players
      ensures Valid() && deck.cards == shuffled
      ensures ok == (|players| > 0) && playerOrder == Seats(|players|)
      ensures !ok ==> trumpf == None && initialPlayer == old(initialPlayer)
      ensures ok ==> trumpf == Some(declared) && initialPlayer == Some(0)
      ensures ok ==> forall p :: 0 <= p < |players| ==> players[p].hand == ArraySplit(shuffled, |players|).value[p]
    {
      trumpf := None;
      playerOrder := Seats(NumPlayers());
      deck.Shuffle(shuffled);
      ok := DealCards();
      if !ok {
        return;
      }
      initialPlayer := Some(0);
      trumpf := Some(declared);
    }

    /**
     * When every seat has played as many tricks as it was dealt cards, all hands
     * are empty and the tricks hold exactly the cards that were dealt.
     */
    lemma PlayedOut(dealt: seq<seq<Card>>, ts: seq<Trick>)
      requires |dealt| == |players| && Chained(ts, 0, |players|, trumpf)
      requires forall p :: 0 <= p < |players| ==>
                 |players[p].hand| == |dealt[p]| - |ts| &&
                 multiset(dealt[p]) == multiset(players[p].hand) + PlayedBy(ts, p)
      requires forall p :: 0 <= p < |players| ==> |dealt[p]| == |ts|
      ensures forall p :: 0 <= p < |players| ==> players[p].hand == []
      ensures AllPlayed(ts) == multiset(Flatten(dealt))
    {
      WholeDeckPlayed(dealt, ts, 0, trumpf);
    }

    /**
     * The state after the tricks of a game dealt from `shuffled`, appended to
     * the earlier tricks `before`: as many tricks as every seat had cards for,
     * the first led by seat 0 and each later one by the previous winner; the
     * last winner leads and the last turn order stays in `playerOrder`; every
     * seat holds what it was dealt less what it played, and when the deck
     * splits evenly all hands are empty and the tricks hold the whole deck.
     */
    ghost predicate PlayedFrom(shuffled: seq<Card>, before: seq<Trick>)
      reads this, players
    {
      && |players| > 0
      && |rounds| == |before| + DECK_SIZE / |players| && rounds[..|before|] == before
      && Chained(rounds[|before|..], 0, |players|, trumpf)
      && (|rounds| > |before| ==>
            initialPlayer == rounds[|rounds| - 1].winningPlayer && playerOrder == rounds[|rounds| - 1].playerOrder)
      && (forall p :: 0 <= p < |players| ==>
            var dealt := ArraySplit(shuffled, |players|).value[p];
            |players[p].hand| == |dealt| - DECK_SIZE / |players| &&
            multiset(dealt) == multiset(players[p].hand) + PlayedBy(rounds[|before|..], p))
      && (DECK_SIZE % |players| == 0 ==>
            (forall p :: 0 <= p < |players| ==> players[p].hand == []) &&
            AllPlayed(rounds[|before|..]) == multiset(shuffled))
    }

    /** The tricks of a game once the deck `shuffled` is dealt, led first by seat 0. */
    method PlayAllRounds(shuffled: seq<Card>, choices: seq<seq<nat>>)
      requires Distinct(players) && |players| > 0 && initialPlayer == Some(0)
      requires deck.cards == shuffled && |shuffled| == DECK_SIZE
      requires forall p :: 0 <= p < |players| ==> players[p].hand == ArraySplit(shuffled, |players|).value[p]
      requires |choices| == DECK_SIZE / |players| && forall t :: 0 <= t < |choices| ==> |choices[t]| == |players|
      modifies this`rounds, this`initialPlayer, this`playerOrder, players
      ensures PlayedFrom(shuffled, old(rounds))
      ensures |rounds| == |old(rounds)| ==> initialPlayer == Some(0) && playerOrder == old(playerOrder)
    {
      ghost var dealt := ArraySplit(shuffled, |players|).value;
      var numRounds := deck.NumCards() / NumPlayers();
      PlayRounds(numRounds, choices, dealt);
      if DECK_SIZE % NumPlayers() == 0 {
        ArraySplitEven(shuffled, NumPlayers());
        PlayedOut(dealt, rounds[|old(rounds)|..]);
      }
    }

    /**
     * One game: after the set-up, as many tricks are played as every seat has
     * cards for, the first led by seat 0 and each later one by the previous
     * winner. With no players the deal fails and no trick is played.
     */
    method PlayGame(shuffled: seq<Card>, declared: Suit, choices: seq<seq<nat>>) returns (ok: bool)
      requires Valid() && IsShuffledDeck(shuffled)
      requires |players| > 0 ==> |choices| == DECK_SIZE / |players|
      requires forall t :: 0 <= t < |choices| ==> |choices[t]| == |players|
      modifies this, deck, players
      ensures Valid() && deck.cards == shuffled
      ensures ok == (|players| > 0)
      ensures !ok ==> trumpf == None && rounds == old(rounds) && playerOrder == [] && initialPlayer == old(initialPlayer)
      ensures ok ==> trumpf == Some(declared)
      ensures !ok || PlayedFrom(shuffled, old(rounds))
      ensures ok && |rounds| == |old(rounds)| ==> initialPlayer == Some(0) && playerOrder == Seats(|players|)
    {
      ok := StartGame(shuffled, declared);
      if !ok {
        return;
      }
      ShuffledDeckSize(shuffled);
      PlayAllRounds(shuffled, choices);
      assert deck.cards == shuffled;
      assert IsShuffledDeck(deck.cards);
    }
  }
}
