/** One trick ("round"): who plays in which order, the cards played, and who wins. */
module Tricks {
  import opened Results
  import opened Cards

  /** One play: the seat of the player and the card played. */
  datatype Turn = Turn(player: nat, card: Card)

  /** The seats 0 .. n-1 in seating order. */
  function Seats(n: nat): (seats: seq<nat>)
    ensures |seats| == n && forall i :: 0 <= i < n ==> seats[i] == i
  {
    seq(n, i => i)
  }

  /** The seats in playing order: the seating order rotated so that the lead plays first. */
  function TurnOrder(lead: nat, n: nat): (order: seq<nat>)
    requires lead < n
    ensures |order| == n
    ensures forall i :: 0 <= i < n ==> order[i] < n
  {
    Seats(n)[lead..] + Seats(n)[..lead]
  }

  /** The order the trick is played in as the code writes it, always wrapping at four seats. */
  function TurnOrderAsWritten(lead: nat, n: nat): (order: seq<nat>)
    ensures |order| == n
  {
    seq(n, i requires 0 <= i < n => (lead + i) % 4)
  }

  /** Where seat `p` comes in the turn order that starts at `lead`. */
  function Position(p: nat, lead: nat, n: nat): (i: nat)
    requires p < n && lead < n
    ensures i < n
  {
    if lead <= p then p - lead else p + n - lead
  }

  lemma ModWrap(x: nat, n: nat)
    requires 0 < n && x < 2 * n
    ensures x % n == if x < n then x else x - n
  {
    if x < n {
      assert x == n * 0 + x;
    } else {
      assert x == n * 1 + (x - n);
    }
  }

  /** The i-th player to act sits at seat (lead + i) mod n. */
  lemma TurnOrderIsModular(lead: nat, n: nat, i: nat)
    requires lead < n && i < n
    ensures TurnOrder(lead, n)[i] == (lead + i) % n
  {
    ModWrap(lead + i, n);
  }

  /**
   * The turn order is a rotation of the seats: the lead plays first, every
   * seat plays exactly once, and seat p plays at Position(p, lead, n).
   */
  lemma TurnOrderIsRotation(lead: nat, n: nat)
    requires lead < n
    ensures TurnOrder(lead, n)[0] == lead
    ensures forall i, j :: 0 <= i < j < n ==> TurnOrder(lead, n)[i] != TurnOrder(lead, n)[j]
    ensures forall p :: 0 <= p < n ==> TurnOrder(lead, n)[Position(p, lead, n)] == p
  {
  }

  /** The i-th player to act is the seat whose position is i. */
  lemma PositionInTurnOrder(lead: nat, n: nat, i: nat)
    requires lead < n && i < n
    ensures Position(TurnOrder(lead, n)[i], lead, n) == i
  {
  }

  /** For four seats the code's turn order and the rotation agree. */
  lemma TurnOrderAsWrittenAgreesForFour(lead: nat)
    requires lead < 4
    ensures TurnOrderAsWritten(lead, 4) == TurnOrder(lead, 4)
  {
    forall i | 0 <= i < 4 ensures TurnOrderAsWritten(lead, 4)[i] == TurnOrder(lead, 4)[i] {
      TurnOrderIsModular(lead, 4, i);
    }
  }

  /** With three players and the third seat leading, the code's order names seat 3, which does not exist. */
  lemma TurnOrderAsWrittenLeavesTable()
    ensures TurnOrderAsWritten(2, 3) == [2, 3, 0]
    ensures TurnOrder(2, 3) == [2, 0, 1]
  {
  }

  /** With five players the code's order lets seat 0 play twice and seat 4 never. */
  lemma TurnOrderAsWrittenRepeatsSeat()
    ensures TurnOrderAsWritten(0, 5) == [0, 1, 2, 3, 0]
    ensures TurnOrder(0, 5) == [0, 1, 2, 3, 4]
  {
  }

  /** The strength of every card played, in playing order. */
  function Strengths(turns: seq<Turn>, trumpf: Option<Suit>): (s: seq<int>)
    ensures |s| == |turns|
    ensures forall i :: 0 <= i < |turns| ==> s[i] == Strength(turns[i].card, trumpf)
  {
    seq(|turns|, i requires 0 <= i < |turns| => Strength(turns[i].card, trumpf))
  }

  /** The first position holding the least value. */
  function FirstArgMin(s: seq<int>): (k: nat)
    requires s != []
    ensures k < |s|
    ensures forall j :: 0 <= j < |s| ==> s[k] <= s[j]
    ensures forall j :: 0 <= j < k ==> s[j] > s[k]
    decreases |s|
  {
    if |s| == 1 then 0
    else
      var k := FirstArgMin(s[..|s| - 1]);
      if s[|s| - 1] < s[k] then |s| - 1 else k
  }

  /** The turn that wins the trick: the strongest card, the earliest of equally strong ones. */
  function WinningTurn(turns: seq<Turn>, trumpf: Option<Suit>): (k: nat)
    requires turns != []
    ensures k < |turns|
    ensures forall j :: 0 <= j < |turns| ==>
              Strength(turns[k].card, trumpf) <= Strength(turns[j].card, trumpf)
    ensures forall j :: 0 <= j < k ==>
              Strength(turns[j].card, trumpf) > Strength(turns[k].card, trumpf)
  {
    FirstArgMin(Strengths(turns, trumpf))
  }

  /** The seat that wins the trick; a trick nobody played in has no winner. */
  function Winner(turns: seq<Turn>, trumpf: Option<Suit>): (r: Result<nat>)
    ensures r.Err? <==> turns == []
    ensures r.Err? ==> r.error == EmptyTrick
    ensures r.Ok? ==> r.value == turns[WinningTurn(turns, trumpf)].player
  {
    if turns == [] then Err(EmptyTrick) else Ok(turns[WinningTurn(turns, trumpf)].player)
  }

  /** The winning turn is the only one that is strongest and earliest among the strongest. */
  lemma WinningTurnUnique(turns: seq<Turn>, trumpf: Option<Suit>, k: nat)
    requires k < |turns|
    requires forall j :: 0 <= j < |turns| ==>
               Strength(turns[k].card, trumpf) <= Strength(turns[j].card, trumpf)
    requires forall j :: 0 <= j < k ==>
               Strength(turns[j].card, trumpf) > Strength(turns[k].card, trumpf)
    ensures k == WinningTurn(turns, trumpf)
  {
  }

  /** If any trump card was played, a trump card wins the trick. */
  lemma TrumpfWinsTrick(turns: seq<Turn>, trumpf: Option<Suit>, j: nat)
    requires j < |turns| && IsTrumpf(turns[j].card, trumpf)
    ensures IsTrumpf(turns[WinningTurn(turns, trumpf)].card, trumpf)
  {
    var k := WinningTurn(turns, trumpf);
    if !IsTrumpf(turns[k].card, trumpf) {
      TrumpfBeatsNonTrumpf(turns[j].card, turns[k].card, trumpf);
    }
  }

  /** The winner is one of the players of the trick. */
  lemma WinnerPlayedInTrick(turns: seq<Turn>, trumpf: Option<Suit>)
    requires turns != []
    ensures exists k :: 0 <= k < |turns| && Winner(turns, trumpf) == Ok(turns[k].player)
  {
    var k := WinningTurn(turns, trumpf);
    assert Winner(turns, trumpf) == Ok(turns[k].player);
  }

  /** Hearts trump: the Jack of Hearts, played third, beats the Six of Hearts and two plain cards. */
  lemma JackOfTrumpfTakesTrick()
    ensures Winner([Turn(0, Card(Hearts, Six)), Turn(1, Card(Diamond, Ace)),
                    Turn(2, Card(Hearts, Jack)), Turn(3, Card(Clubs, Ten))], Some(Hearts)) == Ok(2)
  {
    var turns := [Turn(0, Card(Hearts, Six)), Turn(1, Card(Diamond, Ace)),
                  Turn(2, Card(Hearts, Jack)), Turn(3, Card(Clubs, Ten))];
    assert Strength(turns[2].card, Some(Hearts)) == 1;
    WinningTurnUnique(turns, Some(Hearts), 2);
  }

  /** Two plain Aces tie at strength 11; the one played first wins. */
  lemma TieGoesToFirstPlayed()
    ensures Strength(Card(Diamond, Ace), Some(Hearts)) == Strength(Card(Spades, Ace), Some(Hearts))
    ensures Winner([Turn(1, Card(Diamond, Ace)), Turn(3, Card(Spades, Ace))], Some(Hearts)) == Ok(1)
  {
    var turns := [Turn(1, Card(Diamond, Ace)), Turn(3, Card(Spades, Ace))];
    WinningTurnUnique(turns, Some(Hearts), 0);
  }

  /** The record of a trick at one moment: the playing order, the plays and the winner. */
  datatype Trick = Trick(playerOrder: seq<nat>, turns: seq<Turn>, winningPlayer: Option<nat>)

  /** A trick being played: the seats in playing order, the plays made so far, and the winner once resolved. */
  class Round {
    var playerOrder: seq<nat>
    var winningPlayer: Option<nat>
    var turns: seq<Turn>

    function Snapshot(): Trick
      reads this
    {
      Trick(playerOrder, turns, winningPlayer)
    }

    constructor (playerOrder: seq<nat>)
      ensures this.playerOrder == playerOrder && winningPlayer == None && turns == []
    {
      this.playerOrder := playerOrder;
      winningPlayer := None;
      turns := [];
    }

    method AddTurn(t: Turn)
      modifies this`turns
      ensures turns == old(turns) + [t]
    {
      turns := turns + [t];
    }

    /** Records and returns the seat whose card is strongest, the earliest on ties. */
    method DetermineWinner(trumpf: Option<Suit>) returns (w: Result<nat>)
      modifies this`winningPlayer
      ensures w == Winner(turns, trumpf)
      ensures winningPlayer == if w.Ok? then Some(w.value) else old(winningPlayer)
    {
      if turns == [] {
        return Err(EmptyTrick);
      }
      var k := FirstArgMin(Strengths(turns, trumpf));
      winningPlayer := Some(turns[k].player);
      return Ok(turns[k].player);
    }
  }
}
