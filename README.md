# simple-solitaire: a verified model of the game core

This project models the core of the `simple-solitaire-lib` crate in Dafny: the
cards and the deck (`cards.rs`), piles, their rule engine and the board
(`board.rs`), and the game state machine with its FreeCell setup
(`games.rs`). Each part is proved against a specification stated in the
crate's own terms.

- `cards.dfy` covers suits, ranks, colours and rank values. `Deck` is a class
  over a sequence of cards whose end is the top. `AddDeck` builds the 52 cards
  suit by suit. `DealCard` pops the top card. `Shuffle` is Fisher-Yates, proved
  to be a permutation.
- `pile_rules.dfy` covers the five rule axes of a pile (suit ordering, rank
  ordering, availability, accept and empty-accept) and the predicates that
  evaluate them. `u8::saturating_sub` is written out.
- `board.rs` is modelled in `board.dfy`:
  - Piles are values: the board's vector owns them. Their operations return
    the updated pile.
  - The pile builder is a class whose `with_*` methods set one field each.
  - The board is a class over its sequence of piles. New ids are one past the
    largest id in use.
  - `get_pile_mut` returns the position of the first pile with that id.
- `games.dfy` covers the game and FreeCell:
  - `GameView` is the value of a game: its piles and at most one selected run.
    Its `HandleEvent` function is the reference definition.
  - `Game`'s methods are proved equal to that definition.
  - Lemmas state the game's promises:
    - events keep the layout and unique ids;
    - a select detaches exactly `cards[idx..]`;
    - a drop appends the run either to the target or back to its source;
    - select followed by `DropEvent(None)` restores the board;
    - drops, and selects made with nothing selected, conserve the cards in
      play, over any sequence of such events.
  - A select while a run is already selected overwrites the selection and
    takes those cards out of play. The model follows the code here, and
    `SelectWhileSelectedLosesRun` states exactly what is lost.
  - FreeCell's `setup` creates 16 piles with ids `base..base+15`, where `base`
    is the next free id:
    - four cells (Stack, at most one card);
    - four foundations, one per suit (Ace first, then the same suit one rank
      up, only the top lifts);
    - eight tableau columns (alternating colour, one rank down, any card on
      an empty column, only the top lifts).
  - `setup` then deals one shuffled deck round-robin. The `k`-th card dealt
    lies at depth `k / 8` of column `k % 8`, giving columns of 7, 7, 7, 7, 6,
    6, 6, 6 cards, and the dealt cards are a permutation of the standard deck.

An event's precondition (`GameView.EventDefined`) is exactly what the source
needs to avoid a panic: known pile ids, and a card index no larger than the
pile. Selecting at an index equal to the pile's length selects an empty run.
This follows the code: `is_card_available` is evaluated on an empty slice,
which is allowed under `All`, allowed under `Ordered` (two-card windows of an
empty slice are vacuously ordered) and refused under `Top`.

## Model

| member | source | states |
|---|---|---|
| `Cards.Card.Color` | simple-solitaire-lib/src/cards.rs:38-45 | red exactly for Hearts and Diamonds, black exactly for Clubs and Spades |
| `Cards.OrderedSuits` | simple-solitaire-lib/src/cards.rs:18-20 | the suit order has four pairwise distinct suits |
| `Cards.SuitPosition` | simple-solitaire-lib/src/cards.rs:18-20 | every suit appears in the suit order |
| `Cards.OrderedSuitsAlternateColor` | simple-solitaire-lib/src/cards.rs:18-20 | neighbouring suits in the order have different colours |
| `Cards.Card.RankValue` | simple-solitaire-lib/src/cards.rs:47-55 | the value of a rank; `Cards.RankValueRoundTrip` states it is 1..13 on standard ranks and inverse to the deck builder's rank-from-value |
| `Cards.StandardDeck` | simple-solitaire-lib/src/cards.rs:71-84 | the 52 cards `add_deck` pushes; `Cards.StandardDeckAt` and `Cards.StandardDeckIsComplete` state where each card sits and that all standard cards occur once |
| `Cards.RankFromValue` | simple-solitaire-lib/src/cards.rs:73-81 | the rank the deck builder pushes for a value in 1..13 is a standard rank |
| `Cards.RankValueRoundTrip` | simple-solitaire-lib/src/cards.rs:47-55 | rank value and the builder's rank-from-value are inverse on standard ranks, with values in 1..13 |
| `Cards.StandardDeckAt` | simple-solitaire-lib/src/cards.rs:71-84 | suit number `s` with value `v` sits at index `13*s + v - 1` of a built deck |
| `Cards.StandardDeckIsComplete` | simple-solitaire-lib/src/cards.rs:71-84 | a built deck holds 52 distinct standard cards, and every standard card occurs in it |
| `Cards.Deck.Default` | simple-solitaire-lib/src/cards.rs:62 | a default deck is empty |
| `Cards.Deck.SingleDeck` | simple-solitaire-lib/src/cards.rs:64-69 | a single deck is exactly the standard 52 cards in build order |
| `Cards.Deck.AddDeck` | simple-solitaire-lib/src/cards.rs:71-84 | appends the standard deck after the cards already present |
| `Cards.Deck.DealCard` | simple-solitaire-lib/src/cards.rs:86-88 | an empty deck gives `None` and stays empty; otherwise returns the last card and the deck loses exactly that card |
| `Cards.Deck.Shuffle` | simple-solitaire-lib/src/cards.rs:90-92 | the deck afterwards is a permutation of the deck before (same length, same multiset) |
| `PileRules.SaturatingSub` | simple-solitaire-lib/src/board.rs:209-211 | `u8::saturating_sub`; `PileRules.SaturatingRankOrders` states the rank relation it yields |
| `PileRules.PileLogic.AreSuitsOrdered` | simple-solitaire-lib/src/board.rs:196-203 | the suit axis; `Boards.UnsetAxesArePermissive` states that `Any` orders every pair, and the FreeCell lemmas state `Same` and `AlternatingColor` |
| `PileRules.PileLogic.AreRanksOrdered` | simple-solitaire-lib/src/board.rs:205-213 | the rank axis; `PileRules.SaturatingRankOrders` and `PileRules.DecrementingExamples` state its saturating cases |
| `PileRules.PileLogic.AreCardsOrdered` | simple-solitaire-lib/src/board.rs:215-217 | both axes together; `Games.FoundationAcceptsAscendingSuit` and `Games.TableauAcceptsDescendingAlternating` state it for FreeCell |
| `PileRules.PileLogic.AllWindowsOrdered` | simple-solitaire-lib/src/board.rs:222-224 | `windows(2).all(..)`; `PileRules.WindowsOrderedIff` states it holds iff every adjacent pair is ordered |
| `PileRules.PileLogic.IsSequenceOrdered` | simple-solitaire-lib/src/board.rs:219-225 | `PileRules.SequenceOrderedIff` states it holds iff every adjacent pair is ordered |
| `PileRules.PileLogic.IsSequenceAvailable` | simple-solitaire-lib/src/board.rs:227-233 | `PileRules.SequenceAvailableIff` states it per availability setting |
| `PileRules.PileLogic.CanAccept` | simple-solitaire-lib/src/board.rs:235-249 | `PileRules.EmptyPileAccept` and `PileRules.NonEmptyPileAccept` state its full truth table |
| `PileRules.SequenceOrderedIff` | simple-solitaire-lib/src/board.rs:219-225 | a sequence is ordered iff every adjacent pair is ordered (a single card trivially) |
| `PileRules.WindowsOrderedIff` | simple-solitaire-lib/src/board.rs:222-224 | `windows(2).all(..)` holds iff every adjacent pair is ordered |
| `PileRules.SequenceAvailableIff` | simple-solitaire-lib/src/board.rs:227-233 | `All` frees every run, `Top` exactly one-card runs, `Ordered` exactly runs whose adjacent pairs are ordered |
| `PileRules.SaturatingRankOrders` | simple-solitaire-lib/src/board.rs:205-213 | with saturating subtraction, `Decrementing` holds iff top is one rank above bottom, `Incrementing` iff one below |
| `PileRules.DecrementingExamples` | simple-solitaire-lib/src/board.rs:209 | King then Queen is decrementing; Ace then King and Queen then King are not |
| `PileRules.EmptyPileAccept` | simple-solitaire-lib/src/board.rs:236-241 | an empty pile decides by the empty-accept axis alone: Any yes, None no, Only(r) iff the rank is r |
| `PileRules.NonEmptyPileAccept` | simple-solitaire-lib/src/board.rs:242-248 | a non-empty pile decides by the accept axis: Any yes, None no, Ordered iff the last card and the incoming one are ordered, Count(n) iff fewer than n cards, whatever the card |
| `PileRules.PermissiveLogicAllowsEverything` | simple-solitaire-lib/src/board.rs:303-311 | the default logic accepts any card on any pile, frees any run and orders any pair |
| `Boards.Pile.CanAcceptCard` | simple-solitaire-lib/src/board.rs:39-41 | the pile's logic on its own cards; the accept lemmas of `PileRules` and the FreeCell lemmas state its cases |
| `Boards.Pile.CanAcceptCards` | simple-solitaire-lib/src/board.rs:43-49 | a run is judged by its first card and an empty run is refused; `Games.DropPlacesRun` states where a drop then puts the run |
| `Boards.Pile.IsCardAvailable` | simple-solitaire-lib/src/board.rs:51-53 | availability of `cards[idx..]`; `Games.TopLiftsOnlyLastCard` and `Games.SelectDetachesRun` state its effect |
| `Boards.Pile.TakeFromCard` | simple-solitaire-lib/src/board.rs:55-57 | the pile keeps exactly the first `idx` cards and the rest is returned in order; kept and returned cards concatenate to the old cards |
| `Boards.Pile.AddCards` | simple-solitaire-lib/src/board.rs:59-61 | the old cards stay below and the incoming run lies on top in order; nothing else about the pile changes |
| `Boards.Pile.AddCard` | simple-solitaire-lib/src/board.rs:63-65 | the card goes on top and the old cards stay below; nothing else changes |
| `Boards.TakeThenAddRestores` | simple-solitaire-lib/src/board.rs:55-61 | adding a taken run back to its pile restores the pile exactly |
| `Boards.MaxIdIsMaximum` | simple-solitaire-lib/src/board.rs:108 | the maximum id is one of the ids and bounds all of them |
| `Boards.NextPileIdIsFresh` | simple-solitaire-lib/src/board.rs:107-109 | the next id exceeds every id in use, is not in use, is one past an id in use, keeps ids unique, and the id after it is one more |
| `Boards.NextPileId` | simple-solitaire-lib/src/board.rs:107-109 | 0 for no ids, else one past the largest; `Boards.NextPileIdIsFresh` states it is fresh and above every id in use |
| `Boards.IndexOf` | simple-solitaire-lib/src/board.rs:128 | the position found holds the id, and no earlier position does |
| `Boards.IndexOfUnique` | simple-solitaire-lib/src/board.rs:128 | with unique ids, finding the id at position `k` gives `k` |
| `Boards.PileBuilder.constructor` | simple-solitaire-lib/src/board.rs:262-266 | a new builder has no axis, flow or style set |
| `Boards.PileBuilder.WithSuitOrdering` | simple-solitaire-lib/src/board.rs:268-271 | sets the suit ordering and no other field |
| `Boards.PileBuilder.WithRankOrdering` | simple-solitaire-lib/src/board.rs:273-276 | sets the rank ordering and no other field |
| `Boards.PileBuilder.WithAvailability` | simple-solitaire-lib/src/board.rs:278-281 | sets the availability and no other field |
| `Boards.PileBuilder.WithAccept` | simple-solitaire-lib/src/board.rs:283-286 | sets the accept logic and no other field |
| `Boards.PileBuilder.WithEmptyAccept` | simple-solitaire-lib/src/board.rs:288-291 | sets the empty-accept logic and no other field |
| `Boards.PileBuilder.WithPileFlow` | simple-solitaire-lib/src/board.rs:293-296 | sets the flow and no other field |
| `Boards.PileBuilder.WithPileStyle` | simple-solitaire-lib/src/board.rs:298-301 | sets the empty style and no other field |
| `Boards.PileBuilder.BuildLogic` | simple-solitaire-lib/src/board.rs:303-311 | set axes as set, unset axes permissive; `Boards.UnsetAxesArePermissive` and the `Games.Configure*` methods state its results |
| `Boards.PileBuilder.BuildPile` | simple-solitaire-lib/src/board.rs:313-324 | an empty pile with the given id and location and the built logic; flow and style are as set, or Down and Empty when unset |
| `Boards.UnsetAxesArePermissive` | simple-solitaire-lib/src/board.rs:303-311 | each unset axis behaves permissively whatever else is set; a builder with no axis set builds the permissive logic |
| `Boards.Board.Default` | simple-solitaire-lib/src/board.rs:99-105 | a new board has no piles |
| `Boards.Board.GetNextPileId` | simple-solitaire-lib/src/board.rs:107-109 | `Boards.NextPileId` of the board's ids; `Boards.Board.CreatePile` states it is fresh and advances by one |
| `Boards.Board.AddPile` | simple-solitaire-lib/src/board.rs:111-113 | the pile is appended after the existing ones |
| `Boards.Board.CreatePile` | simple-solitaire-lib/src/board.rs:115-121 | returns the next free id, which is unused; appends the built empty pile under that id; ids stay unique; the next id becomes one more |
| `Boards.Board.GetPileMut` | simple-solitaire-lib/src/board.rs:127-129 | for a known id, the position of the first pile carrying it |
| `Boards.Board.MaxBoardPos` | simple-solitaire-lib/src/board.rs:131-141 | (0, 0) for an empty board; otherwise each coordinate bounds every pile's and is attained by some pile |
| `Games.GameView.SelectCards` | simple-solitaire-lib/src/games.rs:47-55 | reference definition of `select_cards`; `Games.SelectDetachesRun` and `Games.SelectCardsMovesRun` state its effect |
| `Games.GameView.AddSelectionToPile` | simple-solitaire-lib/src/games.rs:57-64 | reference definition of `add_selection_to_pile`; `Games.AddSelectionKeepsCards` and `Games.DropPlacesRun` state its effect |
| `Games.GameView.ReturnSelection` | simple-solitaire-lib/src/games.rs:66-70 | reference definition of `return_selection`; `Games.SelectThenCancelRestores` states it undoes a select |
| `Games.GameView.HandleEvent` | simple-solitaire-lib/src/games.rs:80-105 | reference definition of `handle_event`; the lemmas below state what it promises |
| `Games.HandleEventKeepsLayout` | simple-solitaire-lib/src/games.rs:80-105 | every event keeps the ids, locations, logic, flow and style of every pile, and keeps the state valid |
| `Games.SelectDetachesRun` | simple-solitaire-lib/src/games.rs:82-87 | an available run `cards[idx..]` becomes the selection with its source's flow and id, `cards[..idx]` stays, and other piles are untouched; an unavailable one changes nothing |
| `Games.DropPlacesRun` | simple-solitaire-lib/src/games.rs:88-103 | with a selection, an accepted drop appends the run to the target; a refused drop or a drop on no pile appends it to its source; either way the selection is cleared and other piles are untouched |
| `Games.DropWithoutSelectionIsNoop` | simple-solitaire-lib/src/games.rs:101 | with nothing selected every drop is defined and changes nothing |
| `Games.DropClearsSelection` | simple-solitaire-lib/src/games.rs:88-103 | after any drop nothing is selected |
| `Games.SelectThenCancelRestores` | simple-solitaire-lib/src/games.rs:66-70 | select followed by a drop on no pile gives back exactly the state before |
| `Games.SelectCardsMovesRun` | simple-solitaire-lib/src/games.rs:47-55 | selecting moves cards from the pile into the selection without creating or destroying any |
| `Games.AddSelectionKeepsCards` | simple-solitaire-lib/src/games.rs:57-64 | laying the selection on a known pile keeps the cards in play |
| `Games.HandleEventConservesCards` | simple-solitaire-lib/src/games.rs:80-105 | drops, and selects made with nothing selected, keep the multiset of cards in play |
| `Games.SelectWhileSelectedLosesRun` | simple-solitaire-lib/src/games.rs:50-54 | a select made while a run is selected takes exactly the old run's cards out of play |
| `Games.Run` | simple-solitaire-lib/src/games.rs:80-105 | handling a sequence of admissible events keeps the state valid |
| `Games.RunConservesCards` | simple-solitaire-lib/src/games.rs:80-105 | over any admissible sequence of events the cards in play never change |
| `Games.CellHoldsOneCard` | simple-solitaire-lib/src/games.rs:130-135 | a FreeCell cell accepts a card iff it is empty |
| `Games.FoundationAcceptsAscendingSuit` | simple-solitaire-lib/src/games.rs:144-153 | an empty foundation takes exactly Aces; otherwise exactly the same suit one rank above the top card |
| `Games.TableauAcceptsDescendingAlternating` | simple-solitaire-lib/src/games.rs:161-170 | an empty column takes any card; otherwise exactly the other colour one rank below the top card |
| `Games.TopLiftsOnlyLastCard` | simple-solitaire-lib/src/board.rs:227-233 | under `Top` availability only the last card of a pile can be selected |
| `Games.ColumnLength` | simple-solitaire-lib/src/games.rs:178-184 | column `j` receives one card for each dealing position congruent to `j` modulo 8 |
| `Games.ColumnAt` | simple-solitaire-lib/src/games.rs:178-184 | the `m`-th card of column `j` is the card dealt at position `8m + j` |
| `Games.FreeCellPiles` | simple-solitaire-lib/src/games.rs:127-173 | setup lays out sixteen piles |
| `Games.FreeCellPilesAt` | simple-solitaire-lib/src/games.rs:127-173 | positions 0-3 are the cells, 4-7 the foundations in suit order, 8-15 the tableau columns holding their dealt cards |
| `Games.TableauDealStep` | simple-solitaire-lib/src/games.rs:179-181 | dealing one more card extends exactly the column its position falls in |
| `Games.FreeCellPilesIds` | simple-solitaire-lib/src/games.rs:127-173 | the sixteen piles carry ids `base`..`base+15` in order and are distinct from every earlier id |
| `Games.FreeCellPilesCards` | simple-solitaire-lib/src/games.rs:175-184 | the sixteen piles hold exactly the dealt cards |
| `Games.CellsAndFoundationsEmpty` | simple-solitaire-lib/src/games.rs:127-156 | the cells and foundations start empty |
| `Games.TableauCards` | simple-solitaire-lib/src/games.rs:178-184 | the tableau holds exactly the dealt cards |
| `Games.TableauDealCards` | simple-solitaire-lib/src/games.rs:181 | dealing one card adds exactly that card to the tableau |
| `Games.FreeCellDealShape` | simple-solitaire-lib/src/games.rs:175-184 | after a full deal the cells and foundations are empty, the columns hold 7,7,7,7,6,6,6,6 cards, and card `k` lies at depth `k / 8` of column `k % 8` |
| `Games.ConfigureCell` | simple-solitaire-lib/src/games.rs:130-135 | the cell closure builds the cell logic (at most one card), Stack flow and Empty style |
| `Games.ConfigureFoundation` | simple-solitaire-lib/src/games.rs:144-153 | the foundation closure builds the foundation logic, Stack flow and the suit's Ace style |
| `Games.ConfigureTableau` | simple-solitaire-lib/src/games.rs:161-170 | the tableau closure builds the tableau logic, Down flow and Empty style |
| `Games.CreateCellPile` | simple-solitaire-lib/src/games.rs:129-135 | appends cell `i` at (i, 0) under id `base + i` |
| `Games.CreateFoundationPile` | simple-solitaire-lib/src/games.rs:142-153 | appends the foundation of the `i`-th suit at (i + 4, 0) under id `base + 4 + i` |
| `Games.CreateTableauPile` | simple-solitaire-lib/src/games.rs:160-170 | appends tableau column `i` at (i, 1) under id `base + 8 + i` |
| `Games.FreeCell.Default` | simple-solitaire-lib/src/games.rs:113-121 | a new FreeCell has no recorded pile ids |
| `Games.FreeCell.Setup` | simple-solitaire-lib/src/games.rs:122-185 | appends the sixteen FreeCell piles from the next free id and records their ids; ids stay unique; the dealt cards are a permutation of one standard deck |
| `Games.FreeCell.LayOut` | simple-solitaire-lib/src/games.rs:127-173 | the three creation loops append the empty cells, foundations and columns and record ids `base`..`base+15` |
| `Games.FreeCell.DealShuffledDeck` | simple-solitaire-lib/src/games.rs:175-184 | shuffles one standard deck and deals all 52 cards into the columns |
| `Games.FreeCell.CreateCells` | simple-solitaire-lib/src/games.rs:127-138 | appends the four cells and records ids `base`..`base+3` |
| `Games.FreeCell.CreateFoundations` | simple-solitaire-lib/src/games.rs:140-156 | appends the four foundations in suit order and records ids `base+4`..`base+7` |
| `Games.FreeCell.CreateTableau` | simple-solitaire-lib/src/games.rs:158-173 | appends the eight empty columns and records ids `base+8`..`base+15` |
| `Games.FreeCell.Deal` | simple-solitaire-lib/src/games.rs:178-184 | deals the deck from its top until it is empty, the `i`-th card onto column `i % 8`: card `i` dealt is the deck's `i`-th card from the top, the deck ends empty, and the dealt cards are a permutation of the deck |
| `Games.Game.CreateWithLogic` | simple-solitaire-lib/src/games.rs:39-45 | a new game has the given rules, a new empty board and no selection |
| `Games.Game.Setup` | simple-solitaire-lib/src/games.rs:72-74 | the rules' setup appends the FreeCell piles from the next free id, records their cell, foundation and tableau ids in the rules, deals a permutation of one deck, and the game stays valid |
| `Games.Game.SelectCards` | simple-solitaire-lib/src/games.rs:47-55 | the new state is `GameView.SelectCards` of the old one |
| `Games.Game.AddSelectionToPile` | simple-solitaire-lib/src/games.rs:57-64 | the new state is `GameView.AddSelectionToPile` of the old one |
| `Games.Game.ReturnSelection` | simple-solitaire-lib/src/games.rs:66-70 | the new state is `GameView.ReturnSelection` of the old one |
| `Games.Game.HandleEvent` | simple-solitaire-lib/src/games.rs:80-105 | the new state is `GameView.HandleEvent` of the old one, and the game stays valid |
| `Games.NewFreeCellGame` | simple-solitaire-lib/src/lib.rs:13-24 | the registered FreeCell entry creates a valid game with an empty board, no selection and no recorded ids |

## Left out

- Randomness: `thread_rng` becomes the parameter `rng`, the index drawn at each Fisher-Yates step. `Cards.Deck.Shuffle` promises only a permutation, not a uniform one.
- The first deck built by FreeCell's `setup` (games.rs:124-125) is never used. Building it has no effect on the board, so it is not modelled.
- `GameLogic::get_status` and `GameStatus`: the FreeCell implementation is `todo!()`.
- The `GameLogic` trait and its dynamic dispatch: FreeCell is the only implementation, so `Game` holds a `FreeCell`. The `GAME_ENTRIES` registry and `get_game_entries` become `NewFreeCellGame`.
- `ActionItem` and `Board::add_action_item` are not modelled: nothing in the core calls `add_action_item`.
- The read-only iterators `card_iter`, `card_iter_ex`, `card_iter_rev`, `pile_iter` and `board_ref` are left out. They expose state that the model's fields expose directly.
- The GUI crate, the `add` placeholder in lib.rs and its test are not part of this model.
- Fixed-width integers: `PileId(usize)` and card indices are unbounded naturals. The source's `i += 1` and `id.0 + 1` cannot overflow in practice, and the model does not bound them. Grid coordinates are bytes, as in the source, and FreeCell's are at most 7.
- References into the board: `get_pile_mut` returns a position rather than a mutable reference. Callers replace the pile at that position, because piles are values owned by the board's vector.
- The `create_pile` builder closure is modelled as a builder configured before the call (`Games.ConfigureCell` and its siblings). `Boards.Board.CreatePile` then builds from it.
- `Pile::add_cards` empties the caller's vector. In the model the selection that held the run is cleared at the same time, so nothing can observe that vector.
- Panics (`expect("Pile ID is invalid")` and slicing past a pile's end) are excluded by preconditions: `requires pileId in Ids()` and `GameView.EventDefined`.
- Games.FreeCell.Setup: requires `tableauIds` to be empty on entry. The source pushes onto it, and dealing indexes its first eight entries, so a second setup on the same FreeCell would deal onto the first setup's columns. The model covers only the first setup.
- Games.Game.Setup: requires the FreeCell's `tableauIds` to be empty, for the same reason.
- Games.HandleEventConservesCards: requires nothing to be selected when a select arrives. A select over an existing selection discards that run, as `Games.SelectWhileSelectedLosesRun` states.
