/** Playing cards: a rank from Ace (1) to King (13) and one of four suits, each
    suit carrying the colour it is printed in. */
module PlayingCards {

  datatype Suit = Club | Diamond | Heart | Spade

  datatype Colour = Red | Black

  /** Hearts and diamonds are printed red, clubs and spades black. */
  function ColourOf(s: Suit): Colour
  {
    match s
    case Heart => Red
    case Diamond => Red
    case Club => Black
    case Spade => Black
  }

  type Rank = r: int | 1 <= r <= 13 witness 1

  const King: Rank := 13

  datatype Card = Card(rank: Rank, suit: Suit)

  /** True when `card` is of the other colour than `self`; the test is written
      suit by suit, as the game writes it. */
  function IsOppositeSuit(self: Card, card: Card): (r: bool)
    ensures r <==> ColourOf(self.suit) != ColourOf(card.suit)
  {
    if self.suit == Club || self.suit == Spade then
      card.suit == Heart || card.suit == Diamond
    else
      card.suit == Spade || card.suit == Club
  }

  /** True when `self` ranks exactly one below `card`: so a King is below no
      card and an Ace is above none. */
  function IsFacedUp(self: Card, card: Card): (r: bool)
    ensures r <==> card.rank == self.rank + 1
    ensures r ==> self.rank != King && card.rank != 1
  {
    self.rank == card.rank - 1
  }

  /** True when `card` may be laid on `self` in a tableau column: one rank lower
      and of the other colour. */
  function IsTransferableToTableauPile(self: Card, card: Card): (r: bool)
    ensures r <==> card.rank + 1 == self.rank && ColourOf(card.suit) != ColourOf(self.suit)
  {
    IsOppositeSuit(card, self) && IsFacedUp(card, self)
  }

  /** The top card of a non-empty pile. */
  function Top(s: seq<Card>): Card
    requires s != []
  {
    s[|s| - 1]
  }

  /** A non-empty pile without its top card. */
  function Below(s: seq<Card>): seq<Card>
    requires s != []
  {
    s[..|s| - 1]
  }

  /** A tableau run: read bottom to top, every card may be laid on the one
      below it. */
  predicate IsRun(s: seq<Card>)
  {
    forall i :: 0 <= i < |s| - 1 ==> IsTransferableToTableauPile(s[i], s[i + 1])
  }

  /** In a run the ranks fall by exactly one per card and the colours alternate. */
  lemma {:induction false} RunShape(s: seq<Card>, i: int)
    requires IsRun(s) && 0 <= i < |s|
    ensures s[i].rank == s[0].rank - i
    ensures ColourOf(s[i].suit) == ColourOf(s[0].suit) <==> i % 2 == 0
  {
    if i > 0 {
      RunShape(s, i - 1);
      assert IsTransferableToTableauPile(s[i - 1], s[i]);
    }
  }

  /** A run holds no two cards of the same rank. */
  lemma RunRanksDistinct(s: seq<Card>, i: int, j: int)
    requires IsRun(s) && 0 <= i < |s| && 0 <= j < |s|
    requires s[i].rank == s[j].rank
    ensures i == j
  {
    RunShape(s, i);
    RunShape(s, j);
  }

  /** Any slice of a run is a run. */
  lemma RunSlice(s: seq<Card>, i: int, j: int)
    requires IsRun(s) && 0 <= i <= j <= |s|
    ensures IsRun(s[i..j])
  {
    forall k | 0 <= k < j - i - 1
      ensures IsTransferableToTableauPile(s[i..j][k], s[i..j][k + 1])
    {
      assert s[i..j][k] == s[i + k] && s[i..j][k + 1] == s[i + k + 1];
    }
  }

  /** Laying a run on a run whose top accepts the run's first card gives a run. */
  lemma RunJoin(s: seq<Card>, t: seq<Card>)
    requires IsRun(s) && IsRun(t)
    requires s != [] && t != [] ==> IsTransferableToTableauPile(s[|s| - 1], t[0])
    ensures IsRun(s + t)
  {
    forall k | 0 <= k < |s + t| - 1
      ensures IsTransferableToTableauPile((s + t)[k], (s + t)[k + 1])
    {
      if k < |s| - 1 {
        assert (s + t)[k] == s[k] && (s + t)[k + 1] == s[k + 1];
      } else if k == |s| - 1 {
        assert (s + t)[k] == s[|s| - 1] && (s + t)[k + 1] == t[0];
      } else {
        assert (s + t)[k] == t[k - |s|] && (s + t)[k + 1] == t[k - |s| + 1];
      }
    }
  }

}
