/** The seven tableau columns. Each column has a hidden (face-down) part and a
    visible (face-up) part, both listed bottom to top. The visible part is a
    run that descends by one rank and alternates colours. A hidden card is
    turned up when the visible part empties. */
module Tableaux {
  import opened PlayingCards
  import opened Options
  import Foundations
  import StockWaste

  /** The seven columns as a value: `unflipped[c]` is column c's hidden part
      and `flipped[c]` its visible part. */
  datatype Columns = Columns(unflipped: seq<seq<Card>>, flipped: seq<seq<Card>>)

  predicate WellShaped(t: Columns)
  {
    |t.unflipped| == 7 && |t.flipped| == 7
  }

  /** The column invariants: every visible part is a run, and no column shows
      an empty visible part while it still has hidden cards. */
  predicate Orderly(t: Columns)
  {
    WellShaped(t) &&
    forall c :: 0 <= c < 7 ==> IsRun(t.flipped[c]) && (t.flipped[c] == [] ==> t.unflipped[c] == [])
  }

  /** Every card in a list of piles. */
  function Total(piles: seq<seq<Card>>): multiset<Card>
  {
    if piles == [] then multiset{} else Total(piles[..|piles| - 1]) + multiset(piles[|piles| - 1])
  }

  /** Every card on the tableau, hidden or visible. */
  function Cards(t: Columns): multiset<Card>
  {
    Total(t.unflipped) + Total(t.flipped)
  }

  /** Replacing one pile replaces its cards and leaves the other piles' cards. */
  lemma {:induction false} TotalUpdate(piles: seq<seq<Card>>, k: int, p: seq<Card>)
    requires 0 <= k < |piles|
    ensures Total(piles[k := p]) + multiset(piles[k]) == Total(piles) + multiset(p)
  {
    var n := |piles| - 1;
    var q := piles[k := p];
    assert Total(q) == Total(q[..n]) + multiset(q[n]);
    assert Total(piles) == Total(piles[..n]) + multiset(piles[n]);
    if k < n {
      assert q[..n] == piles[..n][k := p];
      assert q[n] == piles[n] && piles[..n][k] == piles[k];
      TotalUpdate(piles[..n], k, p);
      calc {
        Total(q) + multiset(piles[k]);
        Total(piles[..n][k := p]) + multiset(piles[n]) + multiset(piles[k]);
        (Total(piles[..n][k := p]) + multiset(piles[..n][k])) + multiset(piles[n]);
        (Total(piles[..n]) + multiset(p)) + multiset(piles[n]);
        Total(piles) + multiset(p);
      }
    } else {
      assert q[..n] == piles[..n];
    }
  }

  /** Adding cards on top of one pile adds exactly those cards. */
  lemma TotalGrow(piles: seq<seq<Card>>, k: int, extra: seq<Card>)
    requires 0 <= k < |piles|
    ensures Total(piles[k := piles[k] + extra]) == Total(piles) + multiset(extra)
  {
    var grown := Total(piles[k := piles[k] + extra]);
    TotalUpdate(piles, k, piles[k] + extra);
    assert grown + multiset(piles[k]) == (Total(piles) + multiset(extra)) + multiset(piles[k]);
    CancelRight(grown, Total(piles) + multiset(extra), multiset(piles[k]));
  }

  /** Taking the cards `gone` off the top of one pile removes exactly those cards. */
  lemma TotalShrink(piles: seq<seq<Card>>, k: int, kept: seq<Card>, gone: seq<Card>)
    requires 0 <= k < |piles| && piles[k] == kept + gone
    ensures Total(piles[k := kept]) + multiset(gone) == Total(piles)
  {
    var shrunk := Total(piles[k := kept]);
    TotalUpdate(piles, k, kept);
    assert (shrunk + multiset(gone)) + multiset(kept) == Total(piles) + multiset(kept);
    CancelRight(shrunk + multiset(gone), Total(piles), multiset(kept));
  }

  lemma CancelRight(x: multiset<Card>, y: multiset<Card>, a: multiset<Card>)
    requires x + a == y + a
    ensures x == y
  {
    assert forall o :: x[o] == (x + a)[o] - a[o] && y[o] == (y + a)[o] - a[o];
  }

  /** One more pile adds its cards. */
  lemma TotalSnoc(piles: seq<seq<Card>>, p: seq<Card>)
    ensures Total(piles + [p]) == Total(piles) + multiset(p)
  {
    assert (piles + [p])[..|piles|] == piles;
  }

  /** Whether a column whose visible part is `column` takes the run `card`:
      onto a non-empty column its first card must go on the top card; onto an
      empty one it must be a King. */
  predicate Accepts(column: seq<Card>, card: seq<Card>)
    requires card != []
  {
    if |column| > 0 then IsTransferableToTableauPile(Top(column), card[0]) else card[0].rank == King
  }

  /** The tableau after column c turns its top hidden card up, if it has one. */
  function Flip(t: Columns, c: int): Columns
    requires WellShaped(t) && 0 <= c < 7
  {
    if t.unflipped[c] != [] then
      Columns(t.unflipped[c := Below(t.unflipped[c])], t.flipped[c := t.flipped[c] + [Top(t.unflipped[c])]])
    else
      t
  }

  /** The tableau after the run `card` is laid on column c. */
  function Add(t: Columns, card: seq<Card>, c: int): Columns
    requires WellShaped(t) && 0 <= c < 7
  {
    t.(flipped := t.flipped[c := t.flipped[c] + card])
  }

  /** The tableau after the visible cards of column `src` from index i up are
      laid on column `dst`; column `src` keeps the cards below i and turns up a
      hidden card when none are left. */
  function Move(t: Columns, src: int, dst: int, i: int): Columns
    requires WellShaped(t) && 0 <= src < 7 && 0 <= dst < 7 && 0 <= i < |t.flipped[src]|
  {
    var v := t.flipped[src];
    var added := Add(t, v[i..], dst);
    var cut := added.(flipped := added.flipped[src := v[..i]]);
    if i == 0 then Flip(cut, src) else cut
  }

  /** The tableau after the top visible card of column c is taken away; the
      column turns up a hidden card when no visible card is left. */
  function RemoveTop(t: Columns, c: int): Columns
    requires WellShaped(t) && 0 <= c < 7 && t.flipped[c] != []
  {
    var cut := t.(flipped := t.flipped[c := Below(t.flipped[c])]);
    if cut.flipped[c] == [] then Flip(cut, c) else cut
  }

  /** The smallest index i, from `from` on, at which the visible cards
      `src[i..]` are taken by a column showing `dst`; `None` when there is none. */
  function FirstSplit(src: seq<Card>, dst: seq<Card>, from: nat): (r: Option<nat>)
    decreases |src| - from
    ensures r.Some? ==> from <= r.value < |src| && Accepts(dst, src[r.value..])
    ensures r.Some? ==> forall j :: from <= j < r.value ==> !Accepts(dst, src[j..])
    ensures r.None? ==> forall j :: from <= j < |src| ==> !Accepts(dst, src[j..])
  {
    if from >= |src| then None
    else if Accepts(dst, src[from..]) then Some(from)
    else FirstSplit(src, dst, from + 1)
  }

  /** The tallest column among the first k, counting hidden and visible cards. */
  function Tallest(t: Columns, k: int): (r: nat)
    requires WellShaped(t) && 0 < k <= 7
    ensures forall c :: 0 <= c < k ==> |t.unflipped[c]| + |t.flipped[c]| <= r
    ensures exists c :: 0 <= c < k && |t.unflipped[c]| + |t.flipped[c]| == r
  {
    var h := |t.unflipped[k - 1]| + |t.flipped[k - 1]|;
    if k == 1 then h
    else
      var m := Tallest(t, k - 1);
      if h > m then h else m
  }

  // ---- cards are neither created nor lost ----

  /** Turning a hidden card up keeps every card on the tableau. */
  lemma FlipCards(t: Columns, c: int)
    requires WellShaped(t) && 0 <= c < 7
    ensures Cards(Flip(t, c)) == Cards(t)
  {
    var h := t.unflipped[c];
    if h != [] {
      assert h == Below(h) + [Top(h)];
      TotalShrink(t.unflipped, c, Below(h), [Top(h)]);
      TotalGrow(t.flipped, c, [Top(h)]);
    }
  }

  /** Laying a run on a column adds exactly the run's cards. */
  lemma AddCards(t: Columns, card: seq<Card>, c: int)
    requires WellShaped(t) && 0 <= c < 7
    ensures Cards(Add(t, card, c)) == Cards(t) + multiset(card)
  {
    TotalGrow(t.flipped, c, card);
  }

  /** Moving a run between two different columns keeps every card. */
  lemma MoveCards(t: Columns, src: int, dst: int, i: int)
    requires WellShaped(t) && 0 <= src < 7 && 0 <= dst < 7 && 0 <= i < |t.flipped[src]|
    requires src != dst
    ensures Cards(Move(t, src, dst, i)) == Cards(t)
  {
    var v := t.flipped[src];
    var added := Add(t, v[i..], dst);
    AddCards(t, v[i..], dst);
    assert v == v[..i] + v[i..];
    assert added.flipped[src] == v;
    TotalShrink(added.flipped, src, v[..i], v[i..]);
    var cut := added.(flipped := added.flipped[src := v[..i]]);
    assert Cards(cut) + multiset(v[i..]) == Cards(t) + multiset(v[i..]);
    CancelRight(Cards(cut), Cards(t), multiset(v[i..]));
    if i == 0 {
      FlipCards(cut, src);
    }
  }

  /** Taking the top visible card away removes exactly that card. */
  lemma RemoveTopCards(t: Columns, c: int)
    requires WellShaped(t) && 0 <= c < 7 && t.flipped[c] != []
    ensures Cards(RemoveTop(t, c)) + multiset{Top(t.flipped[c])} == Cards(t)
  {
    var v := t.flipped[c];
    assert v == Below(v) + [Top(v)];
    TotalShrink(t.flipped, c, Below(v), [Top(v)]);
    var cut := t.(flipped := t.flipped[c := Below(v)]);
    if Below(v) == [] {
      FlipCards(cut, c);
    }
  }

  // ---- the column invariants are kept ----

  /** Laying a run that the column accepts keeps the column invariants. */
  lemma AddKeepsOrder(t: Columns, card: seq<Card>, c: int)
    requires Orderly(t) && 0 <= c < 7 && card != [] && IsRun(card)
    requires Accepts(t.flipped[c], card)
    ensures Orderly(Add(t, card, c))
  {
    RunJoin(t.flipped[c], card);
  }

  /** Turning up a hidden card of a column whose visible part is empty, where
      every other column keeps the invariants, restores them. */
  lemma FlipRestoresOrder(t: Columns, c: int)
    requires WellShaped(t) && 0 <= c < 7 && t.flipped[c] == []
    requires forall d :: 0 <= d < 7 && d != c ==> IsRun(t.flipped[d]) && (t.flipped[d] == [] ==> t.unflipped[d] == [])
    ensures Orderly(Flip(t, c))
  {
    var r := Flip(t, c);
    forall d | 0 <= d < 7
      ensures IsRun(r.flipped[d]) && (r.flipped[d] == [] ==> r.unflipped[d] == [])
    {
      if d == c && t.unflipped[c] != [] {
        assert r.flipped[c] == [Top(t.unflipped[c])];
      }
    }
  }

  /** Moving the run from index i of one column onto another column that
      accepts it keeps the column invariants. */
  lemma MoveKeepsOrder(t: Columns, src: int, dst: int, i: int)
    requires Orderly(t) && 0 <= src < 7 && 0 <= dst < 7 && src != dst
    requires 0 <= i < |t.flipped[src]| && Accepts(t.flipped[dst], t.flipped[src][i..])
    ensures Orderly(Move(t, src, dst, i))
  {
    var v := t.flipped[src];
    RunSlice(v, i, |v|);
    RunSlice(v, 0, i);
    AddKeepsOrder(t, v[i..], dst);
    var added := Add(t, v[i..], dst);
    var cut := added.(flipped := added.flipped[src := v[..i]]);
    if i == 0 {
      FlipRestoresOrder(cut, src);
    } else {
      assert Orderly(cut);
    }
  }

  /** Taking the top visible card away keeps the column invariants. */
  lemma RemoveTopKeepsOrder(t: Columns, c: int)
    requires Orderly(t) && 0 <= c < 7 && t.flipped[c] != []
    ensures Orderly(RemoveTop(t, c))
  {
    var v := t.flipped[c];
    RunSlice(v, 0, |v| - 1);
    var cut := t.(flipped := t.flipped[c := Below(v)]);
    if Below(v) == [] {
      FlipRestoresOrder(cut, c);
    } else {
      assert Orderly(cut);
    }
  }

  // ---- what a column-to-column move picks ----

  /** A column can never take any part of its own visible run. */
  lemma NoSplitOntoItself(v: seq<Card>)
    requires IsRun(v)
    ensures FirstSplit(v, v, 0) == None
  {
    forall j | 0 <= j < |v|
      ensures !Accepts(v, v[j..])
    {
      assert v[j..][0] == v[j];
      RunShape(v, j);
      RunShape(v, |v| - 1);
    }
  }

  /** At most one part of a run is accepted by a given column, so the smallest
      accepted index is the only one. */
  lemma SplitUnique(src: seq<Card>, dst: seq<Card>, i: int, j: int)
    requires IsRun(src) && 0 <= i < |src| && 0 <= j < |src|
    requires Accepts(dst, src[i..]) && Accepts(dst, src[j..])
    ensures i == j
  {
    assert src[i..][0] == src[i] && src[j..][0] == src[j];
    RunRanksDistinct(src, i, j);
  }

  /** Of the visible run King, Queen, Jack an empty column takes the whole run
      and not the Queen-Jack part. */
  lemma KingRunExample()
    ensures var v := [Card(13, Spade), Card(12, Diamond), Card(11, Spade)];
      !Accepts([], v[1..]) && FirstSplit(v, [], 0) == Some(0)
  {
  }

  /** Laying out dealt piles, each as a hidden part under one visible card,
      keeps exactly the dealt cards. */
  lemma {:induction false} LayOutCards(u: seq<seq<Card>>, f: seq<seq<Card>>, cardList: seq<seq<Card>>, n: int)
    requires 0 <= n <= |cardList| && |u| == n && |f| == n
    requires forall k :: 0 <= k < n ==> cardList[k] != [] && u[k] == Below(cardList[k]) && f[k] == [Top(cardList[k])]
    ensures Total(u) + Total(f) == Total(cardList[..n])
  {
    if n > 0 {
      LayOutCards(u[..n - 1], f[..n - 1], cardList, n - 1);
      var pile := cardList[n - 1];
      assert Total(u) == Total(u[..n - 1]) + multiset(Below(pile));
      assert Total(f) == Total(f[..n - 1]) + multiset([Top(pile)]);
      assert cardList[..n][..n - 1] == cardList[..n - 1];
      assert Total(cardList[..n]) == Total(cardList[..n - 1]) + multiset(pile);
      assert pile == Below(pile) + [Top(pile)];
      Regroup(Total(u[..n - 1]), Total(f[..n - 1]), Total(cardList[..n - 1]), multiset(Below(pile)), multiset([Top(pile)]));
    }
  }

  lemma Regroup(a: multiset<Card>, b: multiset<Card>, c: multiset<Card>, x: multiset<Card>, y: multiset<Card>)
    requires a + b == c
    ensures (a + x) + (b + y) == c + (x + y)
  {
  }

  class Tableau {
    /** Hidden cards of each column, bottom to top. */
    var unflipped: seq<seq<Card>>
    /** Visible cards of each column, bottom to top. */
    var flipped: seq<seq<Card>>

    ghost function Value(): Columns
      reads this
    {
      Columns(unflipped, flipped)
    }

    ghost predicate Valid()
      reads this
    {
      WellShaped(Value())
    }

    /** Lays out the first seven dealt piles: the last card of each becomes the
        column's only visible card and the rest stay hidden. */
    constructor (cardList: seq<seq<Card>>)
      requires |cardList| >= 7
      requires forall n :: 0 <= n < 7 ==> cardList[n] != []
      ensures Valid() && Orderly(Value())
      ensures forall n :: 0 <= n < 7 ==> unflipped[n] == Below(cardList[n]) && flipped[n] == [Top(cardList[n])]
      ensures Cards(Value()) == Total(cardList[..7])
    {
      var u: seq<seq<Card>> := [];
      var f: seq<seq<Card>> := [];
      var n := 0;
      while n < 7
        invariant 0 <= n <= 7 && |u| == n && |f| == n
        invariant forall k :: 0 <= k < n ==> u[k] == Below(cardList[k]) && f[k] == [Top(cardList[k])]
      {
        var pile := cardList[n];
        u := u + [Below(pile)];
        f := f + [[Top(pile)]];
        n := n + 1;
      }
      forall k | 0 <= k < 7
        ensures IsRun(f[k]) && f[k] != []
      {
        assert f[k] == [Top(cardList[k])];
      }
      LayOutCards(u, f, cardList, 7);
      unflipped := u;
      flipped := f;
    }

    /** Turns the top hidden card of a column up onto its visible part, if
        the column has a hidden card. */
    method FlipCard(column: int)
      requires Valid() && 0 <= column < 7
      modifies this
      ensures Valid()
      ensures Value() == Flip(old(Value()), column)
    {
      if |unflipped[column]| > 0 {
        var h := unflipped[column];
        flipped := flipped[column := flipped[column] + [h[|h| - 1]]];
        unflipped := unflipped[column := h[..|h| - 1]];
      }
    }

    /** Lays the run `card` on a column if the column accepts it. */
    method AddCard(card: seq<Card>, column: int) returns (ok: bool)
      requires Valid() && 0 <= column < 7 && card != []
      modifies this
      ensures Valid()
      ensures ok == Accepts(old(flipped[column]), card)
      ensures Value() == if ok then Add(old(Value()), card, column) else old(Value())
    {
      var tableauColumn := flipped[column];
      if |tableauColumn| > 0 && IsTransferableToTableauPile(tableauColumn[|tableauColumn| - 1], card[0]) {
        flipped := flipped[column := tableauColumn + card];
        ok := true;
      } else if |tableauColumn| == 0 && card[0].rank == King {
        flipped := flipped[column := tableauColumn + card];
        ok := true;
      } else {
        ok := false;
      }
    }

    /** The height of the tallest column, hidden and visible cards together. */
    function TableauPileLength(): (r: nat)
      reads this
      requires Valid()
      ensures forall n :: 0 <= n < 7 ==> |unflipped[n]| + |flipped[n]| <= r
      ensures exists n :: 0 <= n < 7 && |unflipped[n]| + |flipped[n]| == r
    {
      Tallest(Columns(unflipped, flipped), 7)
    }

    /** Moves visible cards from column `col1` to column `col2`: tries the
        splits of `col1`'s visible run from the bottom up and moves the first
        part that `col2` accepts. */
    method TableauColToTableauCol(col1: int, col2: int) returns (ok: bool)
      requires Valid() && 0 <= col1 < 7 && 0 <= col2 < 7
      modifies this
      ensures Valid()
      ensures ok == FirstSplit(old(flipped[col1]), old(flipped[col2]), 0).Some?
      ensures ok ==> Value() == Move(old(Value()), col1, col2, FirstSplit(old(flipped[col1]), old(flipped[col2]), 0).value)
      ensures !ok ==> Value() == old(Value())
    {
      var col1Card := flipped[col1];
      var i := 0;
      while i < |col1Card|
        invariant 0 <= i <= |col1Card|
        invariant Value() == old(Value())
        invariant forall j :: 0 <= j < i ==> !Accepts(old(flipped[col2]), col1Card[j..])
      {
        ok := AddCard(col1Card[i..], col2);
        if ok {
          flipped := flipped[col1 := col1Card[..i]];
          if i == 0 {
            FlipCard(col1);
          }
          ghost var split := FirstSplit(col1Card, old(flipped[col2]), 0);
          assert split == Some(i);
          return;
        }
        i := i + 1;
      }
      ok := false;
    }

    /** Moves the top visible card of a column to its foundation pile if that
        pile accepts it, turning up a hidden card when the column's visible
        part empties. */
    method TableauToFoundation(foundation: Foundations.Foundation, column: int) returns (ok: bool)
      requires Valid() && foundation.Valid() && 0 <= column < 7
      modifies this, foundation
      ensures Valid() && foundation.Valid()
      ensures ok <==> old(flipped[column]) != [] && Foundations.CanPlace(old(foundation.stacks), Top(old(flipped[column])))
      ensures ok ==> Value() == RemoveTop(old(Value()), column)
      ensures ok ==> foundation.stacks == Foundations.Placed(old(foundation.stacks), Top(old(flipped[column])))
      ensures !ok ==> Value() == old(Value()) && foundation.stacks == old(foundation.stacks)
    {
      var columnCard := flipped[column];
      if |columnCard| == 0 {
        return false;
      }
      ok := foundation.AddCardFoundation(Some(columnCard[|columnCard| - 1]));
      if ok {
        flipped := flipped[column := columnCard[..|columnCard| - 1]];
        if |flipped[column]| == 0 {
          FlipCard(column);
        }
      }
    }

    /** Moves the top card of the waste onto a column if the column accepts
        it; an empty waste is refused. */
    method WasteToTableau(wastepile: StockWaste.StockAndWaste, column: int) returns (ok: bool)
      requires Valid() && 0 <= column < 7
      modifies this, wastepile
      ensures Valid()
      ensures ok <==> old(wastepile.waste) != [] && Accepts(old(flipped[column]), [Top(old(wastepile.waste))])
      ensures ok ==> Value() == Add(old(Value()), [Top(old(wastepile.waste))], column)
      ensures ok ==> wastepile.waste == Below(old(wastepile.waste))
      ensures !ok ==> Value() == old(Value()) && wastepile.waste == old(wastepile.waste)
      ensures wastepile.stock == old(wastepile.stock)
    {
      if |wastepile.waste| == 0 {
        return false;
      }
      var card := wastepile.waste[|wastepile.waste| - 1];
      ok := AddCard([card], column);
      if ok {
        var _ := wastepile.PopWasteCard();
      }
    }
  }

}
