# Schieber Jass rules engine in Dafny

This project models the rules engine of a Schieber Jass simulation: the card model,
building and dealing the 36-card deck, the trick resolver, and the game loop that plays
one trick after another. The source is `schieber/main.py`. It is split into six modules:

- `Results` (results.dfy): `Option`, `Result` and the error cases.
- `Cards` (cards.dfy): suits, ranks, cards, and the trump-relative strength and point tables.
  In the strength table a lower number means a stronger card.
- `Decks` (decks.dfy):
  - the fresh deck, built suit by suit and, within a suit, rank by rank;
  - the `Deck` class;
  - `ArraySplit`, the split into contiguous sections whose sizes differ by at most one
    (numpy's `array_split`), which is how hands are dealt.
- `Players` (players.dfy): drawing a card from a hand, which removes its first occurrence,
  and the `Player` class.
- `Tricks` (tricks.dfy):
  - the turn order, a rotation of the seats that starts at the lead;
  - the winner of a trick, the first card of least strength;
  - the `Round` class, one trick being played, and `Trick`, its record as a value.
- `Game` (game.dfy): the `SchieberGame` class. It deals, declares trump, and plays
  `36 / number of players` tricks. Each trick is led by the winner of the one before it.

Players are identified by their seat, an index into `players`. Turns, trick records and the
lead refer to seats, not to player objects. The code finds a seat with `players.index`:
- the game methods require the player objects to be distinct (`Game.Distinct`);
- the seat is then the player's index.

The code's random choices and the trump choice become parameters:
- `random.shuffle` becomes a caller-supplied permutation of the deck;
- `random.choice` on a hand becomes a caller-supplied position `pick`. `CardAt` returns the card
  at that position, or the last card when `pick` is past the end, so any pick names a card of
  the hand and any card can be picked (`EveryCardChoosable`);
- `choose_trumpf` becomes a caller-supplied suit.

The game's main contract (`Game.SchieberGame.PlayGame`, through `PlayedFrom`) states the following:
- after the deal and `36 / n` tricks, the tricks form a chain. Every trick is played by all
  seats in rotation from its lead, every trick's recorded winner is the first strongest card
  of that trick, the first trick is led by seat 0, and every later one by the previous winner;
- after the last trick its winner is the lead and its turn order is the game's `playerOrder`;
  with no trick (more than 36 players) seat 0 stays the lead and the seating order stays;
- every seat's hand is what it was dealt minus exactly the cards it played;
- when `n` divides 36 (four players give nine tricks), every hand ends empty and the tricks
  together hold exactly the shuffled deck, so every card is played exactly once.

Three behaviours of the code shape the model:
- **Ties in a trick are possible.** The strength table gives every card of one rank in a
  plain suit the same strength (two plain Aces are both 11). `np.argmin` (schieber/main.py:150)
  gives such a trick to the first of the tied cards. The model does the same;
  `Tricks.TieGoesToFirstPlayed` shows such a trick.
- **An uneven deal does not fail.** `np.array_split` (schieber/main.py:165) deals sections whose
  sizes differ by one for any positive number of players. Only zero players makes it raise;
  there the model returns `false` (`Err(NoSections)` from `ArraySplit`). The game then plays
  `36 // n` tricks.
- **The turn order departs from the code.** The code computes the order modulo 4
  (schieber/main.py:188, see Findings); the model plays the rotation modulo the number of
  players. The game's contract therefore describes the game with the rotation. Under it,
  when `n` does not divide 36, the seats with the larger sections each keep one card. The
  code as written agrees with this only for one or four players. With three players it indexes a
  seat that does not exist as soon as seat 1 or 2 leads, and with two players as soon as
  seat 1 leads. With 5 to 36 players, every trick draws all its cards from seats 0-3, which
  hold fewer cards than the tricks take. For five players, seven tricks take 35 cards from
  the 29 that seats 0-3 hold. Some hand runs empty and `random.choice` raises
  (schieber/main.py:121).

## Model

| member | source | states |
|---|---|---|
| Cards.Ordinal | schieber/main.py:13-22 | each rank's enumeration number lies in 1..9 |
| Cards.IsTrumpf | schieber/main.py:35-43 | with no trump suit no card is trump; otherwise a card is trump exactly when its suit is the trump suit |
| Cards.Strength | schieber/main.py:45-64 | a trump card's strength is in 1..9, and position `s-1` of the trump ranking Jack, Nine, Ace, King, Queen, Ten, Eight, Seven, Six holds its rank; a plain card's strength is in 11..19, equal to 20 minus its rank's number |
| Cards.Value | schieber/main.py:66-85 | points are at most 20; 20 exactly for the Jack of trump, 14 exactly for the Nine of trump; a plain Nine is worth 0 and a plain Jack 2 |
| Cards.TrumpfBeatsNonTrumpf | schieber/main.py:52-62 | any trump card is strictly stronger (lower) than any plain card |
| Cards.StrengthInjective | schieber/main.py:52-62 | among cards of the same trump status, equal strength holds exactly when the ranks are equal |
| Cards.JackOfTrumpfStrongest | schieber/main.py:52-62 | every strength is at least 1, and only the Jack of trump has strength 1 |
| Cards.ValueDependsOnTrumpfOnlyForNineAndJack | schieber/main.py:73-83 | a card's points differ from its points with no trump exactly when it is the Nine or Jack of the trump suit |
| Decks.FreshDeckAt | schieber/main.py:91-93 | the fresh deck holds suit i's rank j at position 9i+j, the order of the nested enumeration |
| Decks.FreshDeckIndex | schieber/main.py:91-93 | every card sits in the fresh deck at exactly one position, `DeckIndex(c)` |
| Decks.FreshDeckComplete | schieber/main.py:90-93 | every one of the 36 (suit, rank) cards occurs exactly once in the fresh deck |
| Decks.FreshDeckDistinct | schieber/main.py:90-93 | no two positions of the fresh deck hold the same card |
| Decks.Deck.constructor | schieber/main.py:90-93 | the nested loops build exactly the fresh deck |
| Decks.Deck.NumCards | schieber/main.py:95-96 | the number of cards is the length of the card list, 36 for any shuffled deck |
| Decks.Deck.Shuffle | schieber/main.py:98-99 | the deck takes the given permutation of its cards; the multiset of cards is unchanged |
| Decks.ShuffledDeckSize | schieber/main.py:95-99 | any permutation of the fresh deck has 36 cards |
| Decks.SectionSizesSum | schieber/main.py:165 | the section sizes are `n` numbers summing to the length; the first `len % n` are one larger than `len / n` |
| Decks.Cut | schieber/main.py:165 | cutting by sizes gives pieces of exactly those sizes whose concatenation is the input |
| Decks.ArraySplit | schieber/main.py:165 | the split fails (no sections) exactly when `n` is 0; otherwise it gives `n` contiguous hands whose concatenation in seat order is the deck, hand k having `len / n` cards plus one if `k < len % n` |
| Decks.DealFourHands | schieber/main.py:164-168 | dealing 36 cards to four seats gives every seat nine cards |
| Decks.ArraySplitEven | schieber/main.py:165 | when `n` divides the length, all hands have `len / n` cards |
| Decks.SharedCardsAsWritten | schieber/main.py:88-93 | after `k` decks are built, the shared card list holds `36k` cards |
| Decks.SecondDeckHoldsEveryCardTwice | schieber/main.py:88-93 | with the shared list, the second deck built holds 72 cards, every card twice, and is no permutation of the fresh deck |
| Players.FirstIndex | schieber/main.py:122 | the position of a card's first occurrence: the card is there and nowhere before |
| Players.RemoveFirst | schieber/main.py:122 | removing a card deletes exactly its first occurrence; the other cards keep their order |
| Players.RemoveFirstShrinks | schieber/main.py:122 | removal shrinks the hand by one and takes away exactly one copy of the card |
| Players.CardAt | schieber/main.py:121 | the drawn card is always a card of the hand |
| Players.EveryCardChoosable | schieber/main.py:121 | every card of the hand can be the one drawn |
| Players.Player.constructor | schieber/main.py:106-110 | a new player has the given name and an empty hand |
| Players.Player.DealCards | schieber/main.py:112-113 | the hand becomes exactly the dealt cards |
| Players.Player.ChooseCard | schieber/main.py:119-123 | on an empty hand: the error and no change; otherwise it returns the card at the pick, and the hand loses exactly its first occurrence (one card fewer, one copy fewer) |
| Tricks.Seats | schieber/main.py:175 | the seating order is 0, 1, ..., n-1 |
| Tricks.TurnOrder | schieber/main.py:187-188 | the playing order for a lead has one entry per seat, each a seat below n |
| Tricks.TurnOrderIsModular | schieber/main.py:188 | the i-th player to act sits at seat (lead + i) mod n |
| Tricks.TurnOrderIsRotation | schieber/main.py:187-192 | the lead plays first, no seat plays twice, and seat p plays at `Position(p, lead, n)` |
| Tricks.PositionInTurnOrder | schieber/main.py:188 | the i-th player to act has position i |
| Tricks.TurnOrderAsWritten | schieber/main.py:188 | the order as the code computes it, wrapping at four seats: one entry per player |
| Tricks.TurnOrderAsWrittenAgreesForFour | schieber/main.py:188 | with four players, the code's order equals the rotation |
| Tricks.TurnOrderAsWrittenLeavesTable | schieber/main.py:188 | with three players and seat 2 leading, the code's order is [2, 3, 0] (seat 3 does not exist), the rotation is [2, 0, 1] |
| Tricks.TurnOrderAsWrittenRepeatsSeat | schieber/main.py:188 | with five players, the code's order is [0, 1, 2, 3, 0]: seat 0 plays twice, seat 4 never |
| Tricks.Strengths | schieber/main.py:147-148 | one strength per turn: the strength of that turn's card under the trump suit |
| Tricks.FirstArgMin | schieber/main.py:150 | the index holds a least value, and every earlier value is strictly larger |
| Tricks.WinningTurn | schieber/main.py:146-151 | the winning turn's card is at most as strong as every played card (lowest strength), and every earlier turn's card is strictly weaker |
| Tricks.Winner | schieber/main.py:146-152 | an empty trick has no winner (the error); otherwise the winner is the seat of the winning turn |
| Tricks.WinningTurnUnique | schieber/main.py:150 | a turn that is strongest and earliest among the strongest is the winning turn: the winner is unique |
| Tricks.TrumpfWinsTrick | schieber/main.py:146-152 | if any trump card is played, a trump card wins |
| Tricks.WinnerPlayedInTrick | schieber/main.py:151-152 | the winner is the seat of one of the trick's turns |
| Tricks.JackOfTrumpfTakesTrick | schieber/main.py:146-152 | with Hearts trump, the Jack of Hearts played third beats the Six of Hearts, a plain Ace and a plain Ten |
| Tricks.TieGoesToFirstPlayed | schieber/main.py:150 | two plain Aces have equal strength, and the one played first wins |
| Tricks.Round.constructor | schieber/main.py:137-141 | a new trick has the given playing order, no turns and no winner |
| Tricks.Round.AddTurn | schieber/main.py:143-144 | the turn is appended; nothing else changes |
| Tricks.Round.DetermineWinner | schieber/main.py:146-152 | returns the trick's winner (the error for an empty trick) and records it as the winner; the record is unchanged on error |
| Game.Seated | schieber/main.py:192-193 | the players in playing order: the i-th is the player at the i-th seat of the turn order |
| Game.SeatedDistinct | schieber/main.py:192-193 | with distinct players, nobody but the i-th player in playing order is that player object |
| Game.CardsOfRotation | schieber/main.py:192-195 | in a trick played in rotation, seat p played exactly one card, the one at its position |
| Game.CardsOfPrefix | schieber/main.py:192-195 | in the first m turns of a rotation, seat p played its card if its position is below m, otherwise nothing |
| Game.ChainedAppend | schieber/main.py:184-197 | appending a resolved trick led by the previous winner keeps the tricks chained |
| Game.ChainedLastWon | schieber/main.py:184-187 | the last trick of a nonempty chain has a recorded winner, the next lead |
| Game.ChainedPrefix | schieber/main.py:183-184 | every prefix of a chain of tricks is itself a chain from the same first lead |
| Game.ChainedAt | schieber/main.py:183-187 | in a chain of tricks, trick k is resolved and led by the first lead when k is 0, otherwise by the recorded winner of trick k - 1 |
| Game.PlayedByAppend | schieber/main.py:184 | what a seat played over the tricks grows by what it played in the appended trick |
| Game.CardsOfSeatsAppend | schieber/main.py:195 | one more turn adds its card to what seats 0..n-1 played exactly when its seat is below n |
| Game.CardsOfSeatsAll | schieber/main.py:192-195 | when every turn's seat is below n, seats 0..n-1 together played every card of the turns |
| Game.PlayedBySeatsAppend | schieber/main.py:184 | what seats 0..n-1 played grows by their cards in the appended trick |
| Game.ChainedSeats | schieber/main.py:188-195 | every turn of a chain of tricks is played by a seat below n |
| Game.PlayedBySeatsAll | schieber/main.py:183-184 | over a chain of tricks, seats 0..n-1 together played every card played |
| Game.DealtToSeatsFlatten | schieber/main.py:165-168 | the hands dealt to all seats together hold exactly the cards of the deck they were cut from |
| Game.DealtToSeatsPlayed | schieber/main.py:183-184 | if every seat played exactly its hand, the seats' hands together equal all they played |
| Game.WholeDeckPlayed | schieber/main.py:173-184 | if every seat played out exactly its hand, the tricks hold exactly the cards the hands were cut from |
| Game.PlayTurn | schieber/main.py:193-195 | the player's drawn card is appended to the trick as a turn of its seat; the hand loses its first occurrence |
| Game.SchieberGame.constructor | schieber/main.py:154-162 | a new game has the given players, a fresh deck, no tricks, no trump and no lead |
| Game.SchieberGame.NumPlayers | schieber/main.py:170-171 | the number of players is the length of `players` |
| Game.SchieberGame.DealCards | schieber/main.py:164-168 | fails exactly with zero players; otherwise seat p's hand becomes the p-th section of the split deck |
| Game.SchieberGame.PlayTurns | schieber/main.py:192-195 | seats take turns in rotation from the lead: the m-th turn is the m-th seat's draw from its hand, and that hand loses the card's first occurrence |
| Game.SchieberGame.OpenTrick | schieber/main.py:188-195 | a new trick with the rotation as its order gets one turn per seat in that order, each with the seat's drawn card; every hand shrinks by one card, the one that seat played |
| Game.SchieberGame.PlayRound | schieber/main.py:186-204 | the trick is led by the current lead, played in rotation and resolved to its first strongest card; the winner becomes the next lead; every hand loses exactly the card it played |
| Game.SchieberGame.AppendRound | schieber/main.py:184-204 | the played trick is appended to `rounds` and its turn order becomes `playerOrder`; the chain of tricks stays chained, led next by this trick's winner; the i-th turn's card is the i-th seat's draw at its pick; every hand loses exactly the card it played |
| Game.SchieberGame.NextRound | schieber/main.py:183-184 | one more trick of a game: it is appended and keeps the chain; the i-th turn's card is the i-th seat's draw at its pick; if every hand was its dealt cards minus what it played in the earlier tricks, that still holds with this trick added |
| Game.SchieberGame.PlayRounds | schieber/main.py:182-184 | `count` tricks are appended, old ones kept; they form a chain from the current lead; after them the last winner leads and the last turn order is `playerOrder` (with no trick, lead and order are unchanged); every hand loses `count` cards, its dealt cards being what remains plus exactly those it played |
| Game.SchieberGame.StartGame | schieber/main.py:173-179 | trump cleared, seating order set, deck shuffled to the permutation; with zero players the deal fails and no trump or lead is set; otherwise hands are the sections of the shuffled deck, seat 0 leads and trump is declared |
| Game.SchieberGame.PlayedOut | schieber/main.py:182-184 | when every seat plays as many tricks as it was dealt cards, all hands end empty and the tricks hold exactly the dealt cards |
| Game.SchieberGame.PlayAllRounds | schieber/main.py:182-184 | from a deal of the 36-card deck with seat 0 leading: `36 // n` tricks are appended as a chain led first by seat 0; afterwards the last winner leads and the last turn order is `playerOrder` (with no trick, seat 0 leads and the order is unchanged); each hand is its dealt section minus exactly what it played; when `n` divides 36, every hand ends empty and every card of the deck is played exactly once |
| Game.SchieberGame.PlayGame | schieber/main.py:173-184 | the deck becomes the given permutation and the game invariant holds; with zero players the deal fails, no trump is declared, no trick is played and the lead is unchanged; otherwise trump is declared and, from the deal of the shuffled deck, the tricks of `PlayAllRounds` are played: `36 / n` tricks as a chain led first by seat 0, the last winner leading afterwards with the last turn order as `playerOrder`; each hand is its dealt section minus exactly what it played; when `n` divides 36, every hand ends empty and every card of the deck is played exactly once |

## Left out

- Printing: `__str__`/`__repr__`, the trump announcement and the trick printout (schieber/main.py:29-33, 131-135, 180, 199-202). They only display state.
- `main()` (schieber/main.py:207-225) and the `Team` record. A player keeps only its label, as `name`. The team matters only to the dataclass equality that `players.index` uses (see the player-identity line below).
- Players.Player.constructor: the optional `hand_cards` argument (schieber/main.py:110) is not modelled; a new player always starts with an empty hand. The game deals every hand before any card is drawn.
- Game.SchieberGame.constructor and Tricks.Round.constructor: the optional `rounds`, `trumpf_suit` and `initial_player` arguments of the game (schieber/main.py:158-161) and `winning_player` and `turns` of a trick (schieber/main.py:140-141) are not modelled. A new game starts with no tricks, no trump and no lead, and a new trick with no turns and no winner, as the code's defaults give.
- The random sources. `random.shuffle`, `random.choice` and `choose_trumpf` become caller-supplied values: a permutation, a position per draw, and a suit. Their distribution is not modelled.
- Players.CardAt: a position past the end of the hand names the last card. This keeps every pick valid. `random.choice` itself only draws positions inside the hand.
- The shared deck. In the code, `deck: Deck = Deck()` and the class-level `cards` list are evaluated once and shared by every game and every deck. The model gives each game its own 36-card deck. The shared list's behaviour appears only under Findings.
- Player identity. The code compares players with dataclass equality (label, team and hand) when it calls `players.index`. The model requires distinct player objects and works with seat numbers. Players equal by value but sitting at different seats are not modelled.
- The `Round` objects of `rounds`. The game keeps each finished trick as a `Trick` value. No `Round` changes after `play_round` returns it, so none of its behaviour is lost. Aliasing of those objects is not modelled.
- Game.SchieberGame.OpenTrick, PlayRound, AppendRound, NextRound, PlayRounds, PlayAllRounds and PlayGame state the hands after play as multisets: dealt cards = hand + cards played. The order of the remaining cards is stated one draw at a time by `Players.Player.ChooseCard` and `Game.SchieberGame.PlayTurns`.
- Game.SchieberGame.PlayRounds, PlayAllRounds and PlayGame hold for every `choices`; which card each pick names is stated only one trick at a time, by PlayRound, AppendRound and NextRound.
- Game.PlayTurn, Game.SchieberGame.PlayTurns, OpenTrick, PlayRound and AppendRound require non-empty hands; NextRound and PlayRounds require enough cards for every trick. Under these requirements the empty-hand error of `ChooseCard` and the empty-trick error of `DetermineWinner` cannot occur. Those errors are modelled in the members themselves. PlayAllRounds and PlayGame need no such requirement: every seat is dealt at least `36 // n` cards.
- Game.SchieberGame.PlayRound, AppendRound, NextRound and PlayRounds require a lead (`initialPlayer.Some?`). The ValueError that `players.index(None)` raises on a game with no lead (schieber/main.py:187) is not modelled. `play_game` sets the lead before any trick (schieber/main.py:178), so PlayGame never meets that case.
- The `player_order = List[int]` line (schieber/main.py:162) has no annotation, so it is a class attribute holding the typing alias `List[int]`, not a dataclass field; the game starts with that alias as its `player_order`. The model starts `playerOrder` as the empty sequence. Both are overwritten by `play_game` before they are read.
- Game.SchieberGame.PlayTurns: the turn order is `Tricks.TurnOrder`, the corrected rotation. The code's `% 4` order is modelled only as `Tricks.TurnOrderAsWritten` (see Findings).
- Suit-following and other legal-move rules. The code does not enforce them.
- `schieber/card.py` is not part of this model. It duplicates the card model and adds no behaviour.

## Findings

| source | as written | input that shows it | evidently intended | confidence | as-written member | corrected member |
|---|---|---|---|---|---|---|
| schieber/main.py:188 | the turn order is `(arange(n) + start) mod 4`, always wrapping at four seats | three players with seat 2 leading: order [2, 3, 0], and `players[3]` does not exist; five players with seat 0 leading: [0, 1, 2, 3, 0], so seat 0 plays twice and seat 4 never | `(arange(n) + start) mod n`, a rotation of the seats | high for the order, not executed | Tricks.TurnOrderAsWritten, Tricks.TurnOrderAsWrittenLeavesTable, Tricks.TurnOrderAsWrittenRepeatsSeat | Tricks.TurnOrder, Tricks.TurnOrderIsRotation |
| schieber/main.py:88-93 | `cards` is a class-level list, and every `Deck()` appends 36 cards to that one list | build a second `Deck()`: it holds 72 cards, every card twice, and `num_cards()` is 72 | each deck holds its own 36 cards | low (the only `Deck()` is the one built once for the field default `deck: Deck = Deck()`, schieber/main.py:157), not executed | Decks.SharedCardsAsWritten, Decks.SecondDeckHoldsEveryCardTwice | Decks.Deck.constructor, Decks.FreshDeckComplete |
