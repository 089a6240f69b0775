/** The deck: the 52-card template repeated `deckNum` times, shuffled, then
    dealt from its end. */
module Decks {
  import opened PlayingCards

  /** The suits in the order the template lists them within each rank. */
  const TemplateSuits: seq<Suit> := [Club, Diamond, Heart, Spade]

  /** One unshuffled deck: rank by rank from Ace to King, and within a rank
      club, diamond, heart, spade. */
  function OneDeck(): (d: seq<Card>)
    ensures |d| == 52
  {
    seq(52, i requires 0 <= i < 52 => Card(i / 4 + 1, TemplateSuits[i % 4]))
  }

  /** The unshuffled template repeated `deckNum` times, as a list repetition does. */
  function Template(deckNum: nat): (d: seq<Card>)
    ensures |d| == 52 * deckNum
  {
    if deckNum == 0 then [] else Template(deckNum - 1) + OneDeck()
  }

  /** The template holds every card of the game once, and no card twice. */
  lemma OneDeckIsComplete(c: Card)
    ensures c in OneDeck()
    ensures forall i, j :: 0 <= i < j < 52 ==> OneDeck()[i] != OneDeck()[j]
  {
    var k := match c.suit case Club => 0 case Diamond => 1 case Heart => 2 case Spade => 3;
    var i := (c.rank - 1) * 4 + k;
    assert OneDeck()[i] == c;
    forall i, j | 0 <= i < j < 52
      ensures OneDeck()[i] != OneDeck()[j]
    {
      if i / 4 == j / 4 {
        assert i % 4 != j % 4;
      }
    }
  }

  class Deck {
    /** The cards still in the deck; the top of the deck is the last element. */
    var deck: seq<Card>

    /** A new deck of `deckNum` templates, in the order the shuffle left it. */
    constructor (deckNum: nat, shuffled: seq<Card>)
      requires multiset(shuffled) == multiset(Template(deckNum))
      ensures deck == shuffled && |deck| == 52 * deckNum
    {
      assert |multiset(shuffled)| == |multiset(Template(deckNum))|;
      deck := shuffled;
    }

    /** Pops `cardCount` cards off the deck one at a time and returns them in
        the order they were popped. */
    method DealCard(cardCount: nat) returns (dealt: seq<Card>)
      requires cardCount <= |deck|
      modifies this
      ensures |dealt| == cardCount
      ensures forall k :: 0 <= k < cardCount ==> dealt[k] == old(deck)[|old(deck)| - 1 - k]
      ensures deck == old(deck)[..|old(deck)| - cardCount]
      ensures multiset(dealt) + multiset(deck) == multiset(old(deck))
    {
      dealt := [];
      var x := 0;
      while x < cardCount
        invariant 0 <= x <= cardCount
        invariant |dealt| == x
        invariant forall k :: 0 <= k < x ==> dealt[k] == old(deck)[|old(deck)| - 1 - k]
        invariant deck == old(deck)[..|old(deck)| - x]
        invariant multiset(dealt) + multiset(deck) == multiset(old(deck))
      {
        var card := FlipCard();
        dealt := dealt + [card];
        x := x + 1;
      }
    }

    /** Pops the top card off the deck. */
    method FlipCard() returns (card: Card)
      requires deck != []
      modifies this
      ensures card == old(deck)[|old(deck)| - 1]
      ensures deck == old(deck)[..|old(deck)| - 1]
      ensures multiset(deck) + multiset{card} == multiset(old(deck))
    {
      card := deck[|deck| - 1];
      assert deck == deck[..|deck| - 1] + [card];
      deck := deck[..|deck| - 1];
    }
  }

}
