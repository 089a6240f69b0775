/** The four foundation piles, one per suit, each built up from the Ace. */
module Foundations {
  import opened PlayingCards
  import opened Options

  /** The piles, keyed by suit; the top of each pile is its last element. */
  type Stacks = map<Suit, seq<Card>>

  /** A pile built up from the Ace in one suit: its k-th card (from 0) is rank
      k + 1 of that suit. */
  predicate Ordered(suit: Suit, stack: seq<Card>)
  {
    forall i :: 0 <= i < |stack| ==> stack[i].rank == i + 1 && stack[i].suit == suit
  }

  /** All four piles are present and each is built up from the Ace in its suit. */
  predicate WellFormed(stacks: Stacks)
  {
    forall s: Suit :: s in stacks && Ordered(s, stacks[s])
  }

  /** Whether the pile of `card`'s suit takes it: an Ace on an empty pile, or a
      card whose rank is one above the pile's top. */
  predicate CanPlace(stacks: Stacks, card: Card)
    requires card.suit in stacks
  {
    var stack := stacks[card.suit];
    (card.rank == 1 && |stack| == 0) || (|stack| > 0 && IsFacedUp(stack[|stack| - 1], card))
  }

  /** The piles after `card` is laid on the pile of its suit. */
  function Placed(stacks: Stacks, card: Card): Stacks
    requires card.suit in stacks
  {
    stacks[card.suit := stacks[card.suit] + [card]]
  }

  /** Every card on the four piles. */
  function Cards(stacks: Stacks): multiset<Card>
    requires forall s: Suit :: s in stacks
  {
    multiset(stacks[Club]) + multiset(stacks[Heart]) + multiset(stacks[Spade]) + multiset(stacks[Diamond])
  }

  /** The game is won: every pile is non-empty and shows a King. */
  predicate Won(stacks: Stacks)
    requires forall s: Suit :: s in stacks
  {
    forall s: Suit :: stacks[s] != [] && stacks[s][|stacks[s]| - 1].rank == King
  }

  /** On well-formed piles a card is accepted exactly when its rank is one more
      than the number of cards on its suit's pile: an Ace only on an empty pile,
      and never on a non-empty one. */
  lemma CanPlaceNext(stacks: Stacks, card: Card)
    requires WellFormed(stacks)
    ensures CanPlace(stacks, card) <==> card.rank == |stacks[card.suit]| + 1
  {
    var stack := stacks[card.suit];
    assert Ordered(card.suit, stack);
    if |stack| > 0 {
      assert stack[|stack| - 1].rank == |stack|;
    }
  }

  /** Accepting a card keeps every pile built up from the Ace in its suit. */
  lemma PlacedKeepsOrder(stacks: Stacks, card: Card)
    requires WellFormed(stacks) && CanPlace(stacks, card)
    ensures WellFormed(Placed(stacks, card))
  {
    CanPlaceNext(stacks, card);
    var p := Placed(stacks, card);
    forall s: Suit
      ensures s in p && Ordered(s, p[s])
    {
      assert Ordered(s, stacks[s]);
    }
  }

  /** Accepting a card adds exactly that card to the piles. */
  lemma PlacedCards(stacks: Stacks, card: Card)
    requires forall s: Suit :: s in stacks
    ensures Cards(Placed(stacks, card)) == Cards(stacks) + multiset{card}
  {
    match card.suit
    case Club =>
    case Heart =>
    case Spade =>
    case Diamond =>
  }

  /** On well-formed piles the game is won exactly when every pile holds all
      thirteen cards of its suit, fifty-two in all. */
  lemma WonMeansFull(stacks: Stacks)
    requires WellFormed(stacks)
    ensures Won(stacks) <==> forall s: Suit :: |stacks[s]| == 13
    ensures Won(stacks) ==> |Cards(stacks)| == 52
  {
    forall s: Suit
      ensures |stacks[s]| <= 13
      ensures stacks[s] != [] ==> stacks[s][|stacks[s]| - 1].rank == |stacks[s]|
    {
      assert Ordered(s, stacks[s]);
      if stacks[s] != [] {
        assert stacks[s][|stacks[s]| - 1].rank == |stacks[s]|;
      }
    }
  }

  class Foundation {
    /** The four piles, keyed by suit. */
    var stacks: Stacks

    ghost predicate Valid()
      reads this
    {
      WellFormed(stacks)
    }

    /** Four empty piles. */
    constructor ()
      ensures Valid()
      ensures forall s: Suit :: stacks[s] == []
    {
      var empty: Stacks := map[Club := [], Heart := [], Spade := [], Diamond := []];
      forall s: Suit
        ensures s in empty && empty[s] == []
      {
        match s
        case Club =>
        case Heart =>
        case Spade =>
        case Diamond =>
      }
      stacks := empty;
    }

    /** Lays `card` on the pile of its suit when that pile accepts it. `None`
        stands for the "no card" the waste offers when it is empty, and is
        refused. */
    method AddCardFoundation(card: Option<Card>) returns (ok: bool)
      requires Valid()
      modifies this
      ensures Valid()
      ensures ok <==> card.Some? && CanPlace(old(stacks), card.value)
      ensures stacks == if ok then Placed(old(stacks), card.value) else old(stacks)
    {
      if card.None? {
        return false;
      }
      var c := card.value;
      var stack := stacks[c.suit];
      if (c.rank == 1 && |stack| == 0) || (|stack| > 0 && IsFacedUp(stack[|stack| - 1], c)) {
        PlacedKeepsOrder(stacks, c);
        stacks := stacks[c.suit := stack + [c]];
        ok := true;
      } else {
        ok := false;
      }
    }

    /** The top card of one suit's pile, or `None` when that pile is empty; the
        top of a pile is always the card whose rank counts the pile. */
    function RetrieveTopCard(suit: Suit): (r: Option<Card>)
      reads this
      requires Valid()
      ensures r.None? <==> stacks[suit] == []
      ensures r.Some? ==> r.value.suit == suit && r.value.rank == |stacks[suit]|
    {
      var stack := stacks[suit];
      assert Ordered(suit, stack);
      if |stack| == 0 then None else Some(stack[|stack| - 1])
    }

    /** Checks the piles one by one (club, heart, spade, diamond) and reports
        whether each is non-empty with a King on top. */
    method WinningMessage() returns (won: bool)
      requires Valid()
      ensures won == Won(stacks)
    {
      var order := [Club, Heart, Spade, Diamond];
      var i := 0;
      while i < |order|
        invariant 0 <= i <= |order|
        invariant forall k :: 0 <= k < i ==> stacks[order[k]] != [] && stacks[order[k]][|stacks[order[k]]| - 1].rank == King
      {
        var stack := stacks[order[i]];
        if |stack| == 0 {
          return false;
        }
        if stack[|stack| - 1].rank != King {
          return false;
        }
        i := i + 1;
      }
      forall s: Suit
        ensures stacks[s] != [] && stacks[s][|stacks[s]| - 1].rank == King
      {
        var k := match s case Club => 0 case Heart => 1 case Spade => 2 case Diamond => 3;
        assert order[k] == s;
      }
      won := true;
    }
  }

}
