# Klondike solitaire rules engine, modelled in Dafny

This project models the rules engine of a text-mode Klondike solitaire game
(`solitaire.py`). The game has four zones:

- the **tableau**: seven columns, each with hidden (face-down) cards under a
  visible (face-up) run;
- the **stock** (the draw pile) and the **waste** (the discard pile);
- four **foundation** piles, one per suit, built up from the Ace.

Cards reach these zones from the **deck** when the game is set up. A player
then makes five moves. `s2w` draws a card from the stock onto the waste.
`w2f` moves the waste's top card to its foundation pile. `w2t` moves the
waste's top card onto a column. `t2f` moves a column's top card to its
foundation pile. `t2t` moves visible cards from one column to another. The
game is won when every foundation pile shows a King.

The modules follow the program's classes:

| file | module | models |
|---|---|---|
| `cards.dfy` | `PlayingCards` | `PlayingCard`: suits with their colours, ranks, the colour and rank tests, what a visible run is |
| `deck.dfy` | `Decks` | `Deck`: the 52-card template, dealing from the end of the deck |
| `foundation.dfy` | `Foundations` | `Foundation`: the four suit piles, acceptance, the win test |
| `stock_waste.dfy` | `StockWaste` | `StockAndWaste`: drawing, recycling the waste, peeking and popping |
| `tableau.dfy` | `Tableaux` | `Tableau`: the seven columns, placement, the three moves that start at a column or end on one |
| `game.dfy` | `Engine` | the set-up in `Engine.engine` and the five moves of its command loop, as the class `Game` |
| `options.dfy` | `Options` | `Option`, for the "no card" results |

Each zone that the program changes in place is a class with the same fields.
Python lists become `seq` fields, and the suit-keyed dictionary becomes a
`map`. Each mutating method states its new state in terms of a function of
the old state: `Tableaux.Flip`, `Add`, `Move` and `RemoveTop`,
`StockWaste.Drawn`, and `Foundations.Placed`. Lemmas about those functions
prove what the game promises:

- every move keeps the column invariants: each visible run descends by one
  rank with alternating colours, and no column shows an empty visible run
  while hidden cards remain;
- the foundation piles stay built up from the Ace;
- no move creates or loses a card.

`Engine.Game.Valid()` combines these with conservation of the dealt cards.
Every move requires and ensures it. Every move also ensures that on failure
nothing changes.

Where the program's comments and its code disagree, or where the code
crashes instead of answering, the model follows the code:

- The docstring of `isOppositeSuit` calls clubs and diamonds red. The code
  and the suit definitions make hearts and diamonds red.
- `deal_card` pops from an empty list and raises `IndexError` when too few
  cards remain (solitaire.py:81), so the model requires `cardCount <= |deck|`.
- A column number outside 0..6 is looked up in the column dictionaries and
  raises `KeyError` on most paths, so the moves that take a column require
  `0 <= column < 7` (two paths that answer false first are listed under
  "## Left out").

## Model

| member | source | states |
|---|---|---|
| `PlayingCards.IsOppositeSuit` | solitaire.py:30-38 | true exactly when the two cards' suits differ in colour, with hearts and diamonds red and clubs and spades black as the suit constants print them |
| `PlayingCards.IsFacedUp` | solitaire.py:40-45 | true exactly when the second card ranks one above the first, so a King is below no card and an Ace above none |
| `PlayingCards.IsTransferableToTableauPile` | solitaire.py:47-55 | a card may be laid on another exactly when it ranks one lower and is of the other colour |
| `PlayingCards.RunShape` | solitaire.py:119-125 | in a visible run the i-th card's rank is i below the bottom card's, and its colour matches the bottom card's exactly when i is even |
| `PlayingCards.RunRanksDistinct` | solitaire.py:119-125 | no rank occurs twice in a visible run |
| `PlayingCards.RunSlice` | solitaire.py:138-142 | any slice of a visible run, such as the part left behind or the part moved, is itself a run |
| `PlayingCards.RunJoin` | solitaire.py:120-122 | laying a run on a run whose top takes its first card gives a run |
| `Decks.OneDeck` | solitaire.py:69-70 | the unshuffled template has 52 cards |
| `Decks.OneDeckIsComplete` | solitaire.py:69-70 | the template holds every card of the game, and no two of its positions hold the same card |
| `Decks.Template` | solitaire.py:72-73 | repeating the template `deck_num` times gives 52 × `deck_num` cards |
| `Decks.Deck.constructor` | solitaire.py:72-74 | the new deck is the given shuffle, a permutation of the template, so it holds 52 × `deck_num` cards |
| `Decks.Deck.DealCard` | solitaire.py:76-81 | removes the last n cards of the deck and returns them in the order they were popped, top card first; deck and dealt cards together hold the old deck's cards |
| `Decks.Deck.FlipCard` | solitaire.py:83-88 | removes and returns the top card of a non-empty deck |
| `Foundations.CanPlaceNext` | solitaire.py:241-248 | on piles built up from the Ace, a card is accepted exactly when its rank is one more than the size of its suit's pile: an Ace only on an empty pile, never on a non-empty one, and otherwise exactly the next rank |
| `Foundations.PlacedKeepsOrder` | solitaire.py:244-246 | an accepted card keeps every pile built up from the Ace in its own suit |
| `Foundations.PlacedCards` | solitaire.py:242-246 | accepting a card adds exactly that card to the foundation piles |
| `Foundations.WonMeansFull` | solitaire.py:264-277 | on well-formed piles the game is won exactly when each pile holds all 13 cards of its suit, so a won foundation holds 52 cards |
| `Foundations.Foundation.constructor` | solitaire.py:233-234 | four empty piles, one per suit |
| `Foundations.Foundation.AddCardFoundation` | solitaire.py:236-250 | accepts a card exactly when its suit's pile takes it, and then lays it on that pile; the "no card" input and every refused card leave the piles unchanged; the piles stay built up from the Ace |
| `Foundations.Foundation.RetrieveTopCard` | solitaire.py:252-262 | a suit's pile gives no card when it is empty; otherwise it gives a card of that suit whose rank is the pile's size |
| `Foundations.Foundation.WinningMessage` | solitaire.py:264-277 | the loop over the four piles answers true exactly when every pile is non-empty and shows a King |
| `StockWaste.Reversed` | solitaire.py:202 | the reversed pile has the same length, and its k-th card is the original's k-th card from the top |
| `StockWaste.ReversedCards` | solitaire.py:201-204 | turning the waste over keeps every card |
| `StockWaste.Drawn` | solitaire.py:192-206 | a draw keeps the number and multiset of stock and waste cards; with cards in the stock its top card moves onto the waste; with the stock empty the card drawn is the bottom card of the waste, and the rest of the old waste is drawn next in the order it was laid |
| `StockWaste.StockAndWaste.constructor` | solitaire.py:188-190 | the stock is the dealt cards and the waste is empty |
| `StockWaste.StockAndWaste.StockToWaste` | solitaire.py:192-206 | refuses exactly when stock and waste are both empty; otherwise performs one draw |
| `StockWaste.StockAndWaste.RetrieveWaste` | solitaire.py:208-213 | gives no card exactly when the waste is empty, and otherwise its top card |
| `StockWaste.StockAndWaste.RetrieveStock` | solitaire.py:215-220 | gives no count exactly when the stock is empty, and otherwise its positive size |
| `StockWaste.StockAndWaste.PopWasteCard` | solitaire.py:222-225 | removes and returns the waste's top card; an empty waste gives no card and stays empty; the stock is untouched |
| `Tableaux.FirstSplit` | solitaire.py:140-146 | the smallest index whose suffix of the source's visible run the destination accepts; none when no suffix is accepted |
| `Tableaux.Tallest` | solitaire.py:131 | at least the height of every column and equal to the height of one of them |
| `Tableaux.LayOutCards` | solitaire.py:102-104 | splitting each dealt pile into hidden cards under one visible card keeps exactly the dealt cards |
| `Tableaux.FlipCards` | solitaire.py:106-112 | turning a hidden card up keeps every card on the tableau |
| `Tableaux.AddCards` | solitaire.py:119-125 | laying a run on a column adds exactly the run's cards to the tableau |
| `Tableaux.MoveCards` | solitaire.py:138-146 | moving a run between two different columns keeps every card on the tableau |
| `Tableaux.RemoveTopCards` | solitaire.py:153-162 | taking a column's top card away removes exactly that card from the tableau |
| `Tableaux.AddKeepsOrder` | solitaire.py:114-127 | laying an accepted run keeps every visible run descending by one with alternating colours |
| `Tableaux.FlipRestoresOrder` | solitaire.py:106-112 | turning up a hidden card on an emptied visible run restores the column invariants |
| `Tableaux.MoveKeepsOrder` | solitaire.py:133-146 | a column-to-column move of an accepted suffix keeps the column invariants in both columns |
| `Tableaux.RemoveTopKeepsOrder` | solitaire.py:153-162 | taking a top card away keeps the column invariants, because a hidden card is turned up when the run empties |
| `Tableaux.NoSplitOntoItself` | solitaire.py:138-146 | a column never accepts any suffix of its own visible run, so a move onto the same column always fails |
| `Tableaux.SplitUnique` | solitaire.py:140-145 | at most one suffix of a run is accepted by a given column, so the first accepted split is the only one |
| `Tableaux.KingRunExample` | solitaire.py:119-125 | of the visible run King, Queen, Jack an empty column refuses the Queen-Jack part and takes the whole run |
| `Tableaux.Tableau.constructor` | solitaire.py:102-104 | each of the first seven dealt piles keeps its last card as the single visible card and the rest hidden; the tableau holds exactly the dealt cards and meets the column invariants |
| `Tableaux.Tableau.FlipCard` | solitaire.py:106-112 | turns the top hidden card of a column up onto its visible run, and does nothing when the column has no hidden card |
| `Tableaux.Tableau.AddCard` | solitaire.py:114-127 | accepts a run exactly when the column shows a card that takes the run's first card, or is empty and the run starts with a King; appends the whole run on acceptance and changes nothing on refusal |
| `Tableaux.Tableau.TableauPileLength` | solitaire.py:129-131 | the height of the tallest column, hidden and visible cards together |
| `Tableaux.Tableau.TableauColToTableauCol` | solitaire.py:133-146 | succeeds exactly when some suffix of the source's visible run is accepted; it then moves the first such suffix and turns up a hidden card when the whole run moved; otherwise nothing changes |
| `Tableaux.Tableau.TableauToFoundation` | solitaire.py:148-164 | succeeds exactly when the column shows a card its foundation pile takes; the card leaves the column top for that pile, and a hidden card is turned up if the column's visible run empties; otherwise neither zone changes |
| `Tableaux.Tableau.WasteToTableau` | solitaire.py:166-179 | succeeds exactly when the waste is non-empty and the column takes its top card; that card leaves the waste for the column; otherwise neither zone changes |
| `Engine.DealTableau` | solitaire.py:323 | deals piles of 1 to 7 cards off a 52-card deck, leaving 24 cards; each pile is the next cards popped off the deck in the order popped, so the deck left over followed by the dealt cards is the old deck, and no card is lost |
| `Engine.Game.constructor` | solitaire.py:322-325 | sets up seven columns with 0 to 6 hidden cards under one visible card each, 24 stock cards, an empty waste, empty foundations and an empty deck; the four zones are new objects, so moves can be played on them; all 52 dealt cards are in play and the game invariant holds |
| `Engine.Game.StockToWaste` | solitaire.py:350-351 | s2w: one draw, refused only when stock and waste are both empty; the game invariant holds afterwards |
| `Engine.Game.WasteToFoundation` | solitaire.py:339-341 | w2f: succeeds exactly when the waste is non-empty and its top card's suit pile takes it; that card moves from the waste top to the pile top; on failure nothing changes; the game invariant holds afterwards |
| `Engine.Game.WasteToTableau` | solitaire.py:345-346 | w2t: the waste's top card moves onto the column exactly when it is accepted; on failure nothing changes; the game invariant holds afterwards |
| `Engine.Game.TableauToFoundation` | solitaire.py:353-354 | t2f: the column's top card moves to its foundation pile exactly when the pile takes it; on failure nothing changes; the game invariant holds afterwards |
| `Engine.Game.TableauToTableau` | solitaire.py:358-360 | t2t: moves the first accepted suffix between columns; moving a column onto itself always fails; on failure nothing changes; the game invariant holds afterwards |
| `Engine.Game.WonClearsBoard` | solitaire.py:331 | in any game reached from set-up, once every foundation pile shows a King, all 52 cards are on the foundations and the tableau, stock and waste are empty |

## Left out

- The shuffle (`random.shuffle`) is not modelled. The deck constructor takes the shuffled order as a parameter. That order must be a permutation of the template.
- Terminal output is not modelled. This covers colour codes, the board display (`Solitaire.gameEnv`), the help menu, `__repr__`, the rank display names and the "No cards left" message. None of it changes game state.
- The interactive command loop is not modelled: reading input, matching command strings, converting digits with `int()`, and the quit and win messages. Its five moves are modelled as the methods of `Engine.Game`. That includes `w2f`, which the loop itself builds from `addCardFoundation`, `retrieveWaste` and `popWasteCard`. The 1-based column numbers the player types become 0-based parameters.
- String sentinels are replaced by `Option`. The waste gives "Empty", an empty foundation pile gives its suit symbol, and the stock gives "{n} cards" or "Empty".
- Exceptions are replaced by explicit emptiness tests that return false. These are the `IndexError` and `AttributeError` caught in `waste_to_tableau` and `addCardFoundation`.
- Crashes become preconditions, not modelled error paths. Dealing more cards than the deck holds raises `IndexError`. A column index outside 0..6 raises `KeyError` on most paths, so every move taking a column requires `0 <= column < 7`. Two out-of-range inputs are answered with false by the program but excluded by that precondition: `waste_to_tableau` with an empty waste fails at `waste_card[-1]` (solitaire.py:172) before the column is looked up and the caught `IndexError` (solitaire.py:178) makes it return false; `tableauCol_to_tableauCol` from an empty source column never calls `addCard` (solitaire.py:140), so an out-of-range `col2` is never looked up and the move returns false. This affects `Tableaux.Tableau.WasteToTableau`, `Engine.Game.WasteToTableau` and `Engine.Game.TableauToTableau`.
- The template repeated `deck_num` times holds the same card objects several times. Cards are modelled as values, so object identity is not modelled.
- `Decks.Template`: states only the length of the repeated template, not how many copies of each card it holds.
- `Engine.Game.Valid` follows only the game's own path. The zone methods are modelled for any input. A column-to-column move onto the same column, made in a state where the column invariants fail, is modelled with the list aliasing of the program. Only in such a state can that move lose cards, and no sequence of moves reaches one.
