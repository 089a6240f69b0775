/** One game: the deck dealt into seven tableau columns and the stock, four
    empty foundation piles, and the five moves a player can make between
    these zones. Every move either succeeds or changes nothing, and no move
    creates or loses a card. */
module Engine {
  import opened PlayingCards
  import Decks
  import Tableaux
  import StockWaste
  import Foundations

  /** How many cards the 52-card deck holds before pile n (from 1) is dealt,
      at index n - 1; the last entry is what is left for the stock. */
  const DeckBeforePile: seq<int> := [52, 51, 49, 46, 42, 37, 31, 24]

  /** The cards popped off a deck to deal `piles`, in deck order: pile 0 was
      popped first, so it lies reversed at the top (the end) of the deck, with
      every later pile below it. */
  function Dealt(piles: seq<seq<Card>>): seq<Card>
  {
    if piles == [] then [] else StockWaste.Reversed(piles[|piles| - 1]) + Dealt(piles[..|piles| - 1])
  }

  /** Popping the cards `dealt` off `before` one at a time leaves `rest` on
      top of them, reversed. */
  lemma {:induction false} PoppedOff(before: seq<Card>, rest: seq<Card>, dealt: seq<Card>)
    requires |dealt| <= |before| && rest == before[..|before| - |dealt|]
    requires forall k :: 0 <= k < |dealt| ==> dealt[k] == before[|before| - 1 - k]
    ensures rest + StockWaste.Reversed(dealt) == before
    decreases |dealt|
  {
    if dealt != [] {
      var x := dealt[|dealt| - 1];
      var shorter := dealt[..|dealt| - 1];
      assert rest + [x] == before[..|before| - |shorter|];
      PoppedOff(before, rest + [x], shorter);
      assert StockWaste.Reversed(dealt) == [x] + StockWaste.Reversed(shorter);
      assert rest + StockWaste.Reversed(dealt) == (rest + [x]) + StockWaste.Reversed(shorter);
    }
  }

  /** Dealing one more pile off a deck keeps deck and dealt cards in deck order. */
  lemma DealtSnoc(piles: seq<seq<Card>>, pile: seq<Card>, rest: seq<Card>, before: seq<Card>, full: seq<Card>)
    requires before + Dealt(piles) == full
    requires |pile| <= |before| && rest == before[..|before| - |pile|]
    requires forall k :: 0 <= k < |pile| ==> pile[k] == before[|before| - 1 - k]
    ensures rest + Dealt(piles + [pile]) == full
  {
    PoppedOff(before, rest, pile);
    assert (piles + [pile])[..|piles|] == piles;
    assert rest + Dealt(piles + [pile]) == (rest + StockWaste.Reversed(pile)) + Dealt(piles);
  }

  /** The cards dealt are the cards of the piles. */
  lemma {:induction false} DealtCards(piles: seq<seq<Card>>)
    ensures multiset(Dealt(piles)) == Tableaux.Total(piles)
  {
    if piles != [] {
      var init := piles[..|piles| - 1];
      var last := piles[|piles| - 1];
      DealtCards(init);
      StockWaste.ReversedCards(last);
      assert piles == init + [last];
      Tableaux.TotalSnoc(init, last);
    }
  }

  /** Deals piles of 1, 2, ..., 7 cards off a full deck, in that order,
      leaving 24 cards in the deck. */
  method DealTableau(deck1: Decks.Deck) returns (piles: seq<seq<Card>>)
    requires |deck1.deck| == 52
    modifies deck1
    ensures |piles| == 7 && forall k :: 0 <= k < 7 ==> |piles[k]| == k + 1
    ensures |deck1.deck| == 24
    // each pile is the next cards popped off the deck, in the order popped
    ensures deck1.deck + Dealt(piles) == old(deck1.deck)
    ensures multiset(deck1.deck) + Tableaux.Total(piles) == multiset(old(deck1.deck))
  {
    piles := [];
    var n := 1;
    while n < 8
      invariant 1 <= n <= 8 && |piles| == n - 1
      invariant |deck1.deck| == DeckBeforePile[n - 1]
      invariant forall k :: 0 <= k < n - 1 ==> |piles[k]| == k + 1
      invariant deck1.deck + Dealt(piles) == old(deck1.deck)
    {
      ghost var before := deck1.deck;
      var dealt := deck1.DealCard(n);
      DealtSnoc(piles, dealt, deck1.deck, before, old(deck1.deck));
      piles := piles + [dealt];
      n := n + 1;
    }
    DealtCards(piles);
  }

  class Game {
    const deck: Decks.Deck
    const tableau: Tableaux.Tableau
    const stockWaste: StockWaste.StockAndWaste
    const foundation: Foundations.Foundation
    /** The cards the game was dealt. */
    ghost const cards: multiset<Card>

    /** Every card in every zone. */
    ghost function AllCards(): multiset<Card>
      reads deck, tableau, stockWaste, foundation
      requires forall s: Suit :: s in foundation.stacks
    {
      multiset(deck.deck) + Tableaux.Cards(tableau.Value()) + (multiset(stockWaste.stock) + multiset(stockWaste.waste))
        + Foundations.Cards(foundation.stacks)
    }

    /** The game invariant: the columns keep their runs, the foundation piles
        are built up from the Ace, the deck is used up, and the zones together
        hold exactly the dealt cards. */
    ghost predicate Valid()
      reads this, deck, tableau, stockWaste, foundation
    {
      tableau.Valid() && Tableaux.Orderly(tableau.Value()) && foundation.Valid() &&
      deck.deck == [] && AllCards() == cards && cards == multiset(Decks.Template(1))
    }

    /** Sets up a game from a shuffled deck: deals piles of 1 to 7 cards to the
        tableau and the remaining 24 cards to the stock. */
    constructor (shuffled: seq<Card>)
      requires multiset(shuffled) == multiset(Decks.Template(1))
      ensures Valid() && cards == multiset(shuffled)
      ensures fresh(deck) && fresh(tableau) && fresh(stockWaste) && fresh(foundation)
      ensures forall n :: 0 <= n < 7 ==> |tableau.unflipped[n]| == n && |tableau.flipped[n]| == 1
      ensures |stockWaste.stock| == 24 && stockWaste.waste == []
      ensures forall s: Suit :: foundation.stacks[s] == []
    {
      var deck1 := new Decks.Deck(1, shuffled);
      var piles := DealTableau(deck1);
      var t := new Tableaux.Tableau(piles);
      assert piles[..7] == piles;
      var stock := deck1.DealCard(24);
      var sw := new StockWaste.StockAndWaste(stock);
      var f := new Foundations.Foundation();
      deck := deck1;
      tableau := t;
      stockWaste := sw;
      foundation := f;
      cards := multiset(shuffled);
    }

    /** s2w: draws one card from the stock onto the waste. */
    method StockToWaste() returns (ok: bool)
      requires Valid()
      modifies stockWaste
      ensures Valid()
      ensures ok <==> |old(stockWaste.stock)| + |old(stockWaste.waste)| > 0
      ensures ok ==> (stockWaste.stock, stockWaste.waste) == StockWaste.Drawn(old(stockWaste.stock), old(stockWaste.waste))
      ensures !ok ==> stockWaste.stock == old(stockWaste.stock) && stockWaste.waste == old(stockWaste.waste)
    {
      ok := stockWaste.StockToWaste();
    }

    /** w2f: moves the top card of the waste to its foundation pile. */
    method WasteToFoundation() returns (ok: bool)
      requires Valid()
      modifies stockWaste, foundation
      ensures Valid()
      ensures ok <==> old(stockWaste.waste) != [] && Foundations.CanPlace(old(foundation.stacks), Top(old(stockWaste.waste)))
      ensures ok ==> stockWaste.waste == Below(old(stockWaste.waste))
      ensures ok ==> foundation.stacks == Foundations.Placed(old(foundation.stacks), Top(old(stockWaste.waste)))
      ensures !ok ==> stockWaste.waste == old(stockWaste.waste) && foundation.stacks == old(foundation.stacks)
      ensures stockWaste.stock == old(stockWaste.stock)
    {
      ok := foundation.AddCardFoundation(stockWaste.RetrieveWaste());
      if ok {
        var w := stockWaste.waste;
        assert w == Below(w) + [Top(w)];
        Foundations.PlacedCards(old(foundation.stacks), Top(w));
        var _ := stockWaste.PopWasteCard();
      }
    }

    /** w2t: moves the top card of the waste onto a column. */
    method WasteToTableau(column: int) returns (ok: bool)
      requires Valid() && 0 <= column < 7
      modifies tableau, stockWaste
      ensures Valid()
      ensures ok <==> old(stockWaste.waste) != [] && Tableaux.Accepts(old(tableau.flipped[column]), [Top(old(stockWaste.waste))])
      ensures ok ==> tableau.Value() == Tableaux.Add(old(tableau.Value()), [Top(old(stockWaste.waste))], column)
      ensures ok ==> stockWaste.waste == Below(old(stockWaste.waste))
      ensures !ok ==> tableau.Value() == old(tableau.Value()) && stockWaste.waste == old(stockWaste.waste)
      ensures stockWaste.stock == old(stockWaste.stock)
    {
      ok := tableau.WasteToTableau(stockWaste, column);
      if ok {
        var w := old(stockWaste.waste);
        assert w == Below(w) + [Top(w)];
        Tableaux.AddCards(old(tableau.Value()), [Top(w)], column);
        Tableaux.AddKeepsOrder(old(tableau.Value()), [Top(w)], column);
      }
    }

    /** t2f: moves the top visible card of a column to its foundation pile. */
    method TableauToFoundation(column: int) returns (ok: bool)
      requires Valid() && 0 <= column < 7
      modifies tableau, foundation
      ensures Valid()
      ensures ok <==> old(tableau.flipped[column]) != [] && Foundations.CanPlace(old(foundation.stacks), Top(old(tableau.flipped[column])))
      ensures ok ==> tableau.Value() == Tableaux.RemoveTop(old(tableau.Value()), column)
      ensures ok ==> foundation.stacks == Foundations.Placed(old(foundation.stacks), Top(old(tableau.flipped[column])))
      ensures !ok ==> tableau.Value() == old(tableau.Value()) && foundation.stacks == old(foundation.stacks)
    {
      ok := tableau.TableauToFoundation(foundation, column);
      if ok {
        var v := old(tableau.flipped[column]);
        Tableaux.RemoveTopCards(old(tableau.Value()), column);
        Tableaux.RemoveTopKeepsOrder(old(tableau.Value()), column);
        Foundations.PlacedCards(old(foundation.stacks), Top(v));
      }
    }

    /** t2t: moves the longest acceptable run of visible cards from column
        `col1` onto column `col2`; a column never moves onto itself. */
    method TableauToTableau(col1: int, col2: int) returns (ok: bool)
      requires Valid() && 0 <= col1 < 7 && 0 <= col2 < 7
      modifies tableau
      ensures Valid()
      ensures col1 == col2 ==> !ok
      ensures ok == Tableaux.FirstSplit(old(tableau.flipped[col1]), old(tableau.flipped[col2]), 0).Some?
      ensures ok ==> tableau.Value() == Tableaux.Move(old(tableau.Value()), col1, col2,
                                          Tableaux.FirstSplit(old(tableau.flipped[col1]), old(tableau.flipped[col2]), 0).value)
      ensures !ok ==> tableau.Value() == old(tableau.Value())
    {
      if col1 == col2 {
        Tableaux.NoSplitOntoItself(tableau.flipped[col1]);
      }
      ok := tableau.TableauColToTableauCol(col1, col2);
      if ok {
        var i := Tableaux.FirstSplit(old(tableau.flipped[col1]), old(tableau.flipped[col2]), 0).value;
        Tableaux.MoveCards(old(tableau.Value()), col1, col2, i);
        Tableaux.MoveKeepsOrder(old(tableau.Value()), col1, col2, i);
      }
    }

    /** Once the game is won every dealt card is on the foundation piles: the
        tableau, the stock and the waste are empty. */
    lemma WonClearsBoard()
      requires Valid() && Foundations.Won(foundation.stacks)
      ensures Tableaux.Cards(tableau.Value()) == multiset{}
      ensures stockWaste.stock == [] && stockWaste.waste == []
    {
      assert |cards| == |Decks.Template(1)| == 52;
      Foundations.WonMeansFull(foundation.stacks);
    }
  }

}
