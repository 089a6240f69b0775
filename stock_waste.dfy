/** The stock (the face-down draw pile) and the waste (the face-up discard
    pile). Cards go from the stock to the waste one at a time; when the stock
    is used up, the whole waste is turned over to become the stock again. */
module StockWaste {
  import opened PlayingCards
  import opened Options

  /** `s` in the opposite order. */
  function Reversed<T>(s: seq<T>): (r: seq<T>)
    ensures |r| == |s|
    ensures forall k :: 0 <= k < |s| ==> r[k] == s[|s| - 1 - k]
  {
    if s == [] then [] else [s[|s| - 1]] + Reversed(s[..|s| - 1])
  }

  /** Reversing keeps every card. */
  lemma {:induction false} ReversedCards<T>(s: seq<T>)
    ensures multiset(Reversed(s)) == multiset(s)
  {
    if s != [] {
      ReversedCards(s[..|s| - 1]);
      assert s == s[..|s| - 1] + [s[|s| - 1]];
    }
  }

  /** The stock and waste after one draw, when there is a card to draw. */
  function Drawn(stock: seq<Card>, waste: seq<Card>): (r: (seq<Card>, seq<Card>))
    requires |stock| + |waste| > 0
    // the draw neither creates nor loses a card
    ensures |r.0| + |r.1| == |stock| + |waste|
    ensures multiset(r.0) + multiset(r.1) == multiset(stock) + multiset(waste)
    // with cards in the stock, its top card moves onto the waste
    ensures stock != [] ==> r.0 == stock[..|stock| - 1] && r.1 == waste + [stock[|stock| - 1]]
    // with the stock empty, the card drawn is the first card ever laid on the
    // waste, and the rest of the old waste is drawn next in the order it was laid
    ensures stock == [] ==> r.1 == [waste[0]] && |r.0| == |waste| - 1
    ensures stock == [] ==> forall k :: 1 <= k < |waste| ==> r.0[|waste| - 1 - k] == waste[k]
  {
    if stock != [] then
      assert stock == stock[..|stock| - 1] + [stock[|stock| - 1]];
      (stock[..|stock| - 1], waste + [stock[|stock| - 1]])
    else
      var s := Reversed(waste);
      ReversedCards(waste);
      assert s == s[..|s| - 1] + [s[|s| - 1]];
      (s[..|s| - 1], [s[|s| - 1]])
  }

  class StockAndWaste {
    /** The stock; its top card is the last element. */
    var stock: seq<Card>
    /** The waste; its top card is the last element. */
    var waste: seq<Card>

    /** The dealt stock and an empty waste. */
    constructor (cardDeck: seq<Card>)
      ensures stock == cardDeck && waste == []
    {
      stock := cardDeck;
      waste := [];
    }

    /** Draws one card from the stock onto the waste, first turning the waste
        over into the stock when the stock is empty; refuses only when both
        piles are empty. */
    method StockToWaste() returns (ok: bool)
      modifies this
      ensures ok <==> |old(stock)| + |old(waste)| > 0
      ensures ok ==> (stock, waste) == Drawn(old(stock), old(waste))
      ensures !ok ==> stock == old(stock) && waste == old(waste)
    {
      if |stock| + |waste| == 0 {
        return false;
      }
      if |stock| == 0 {
        waste := Reversed(waste);
        stock := waste;
        waste := [];
        assert [] + [stock[|stock| - 1]] == [stock[|stock| - 1]];
      }
      waste := waste + [stock[|stock| - 1]];
      stock := stock[..|stock| - 1];
      ok := true;
    }

    /** The top card of the waste, or `None` when the waste is empty. */
    function RetrieveWaste(): (r: Option<Card>)
      reads this
      ensures r.None? <==> waste == []
      ensures r.Some? ==> r.value == waste[|waste| - 1]
    {
      if |waste| > 0 then Some(waste[|waste| - 1]) else None
    }

    /** The number of cards left in the stock, or `None` when it is empty. */
    function RetrieveStock(): (r: Option<nat>)
      reads this
      ensures r.None? <==> stock == []
      ensures r.Some? ==> r.value == |stock| > 0
    {
      if |stock| > 0 then Some(|stock|) else None
    }

    /** Removes and returns the top card of the waste; an empty waste gives
        `None` and stays empty. */
    method PopWasteCard() returns (card: Option<Card>)
      modifies this
      ensures card == old(RetrieveWaste())
      ensures waste == if old(waste) == [] then [] else old(waste)[..|old(waste)| - 1]
      ensures stock == old(stock)
    {
      if |waste| > 0 {
        card := Some(waste[|waste| - 1]);
        waste := waste[..|waste| - 1];
      } else {
        card := None;
      }
    }
  }

}
