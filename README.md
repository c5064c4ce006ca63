# Airport English lesson — a verified Dafny model

The modelled program is a single-page English lesson about airports and
travel. A lesson page leads the learner through nine tasks and keeps track of
which tasks are done. This project models the state machines behind six of
those tasks:

- the **word search**: a fixed 12×12 letter grid; the learner drags a straight
  line across the grid and the line is checked against six target words, read
  forwards or backwards;
- the **word-picture match**: 53 vocabulary items in six topics; the learner
  pairs a word with a picture, and the pair is scored;
- the **sentence builder**: ten sentences, each to be rebuilt from its word
  cards;
- the **vocabulary flashcards**: the 53 words as cards, browsed topic by topic,
  with a reveal toggle;
- the **sentence-structure** lesson: ten sentence patterns, with navigation and a
  translation toggle;
- the **image slideshow**: eleven photographs shown in a circle.

There is one Dafny module per component, plus a few shared modules:

- `Common`: an option type, the shared scoring rule, and facts about sequences
  without repeats;
- `Decimal`: printing and reading decimal numbers;
- `Topics`: the six vocabulary topics;
- `CellIds`: the `"row-col"` ids of the word-search grid;
- `LinePaths`: the geometry of a straight drag.

Each component's state is a class. Its fields are the component's state
variables, and each event handler is a method. A handler reads the state as it
was when the event arrived, which is how the batched state updates of the
source behave. Each handler's postcondition states the whole new state. Pure
specification functions carry the lemmas that state what the component
promises: round trips, iff-characterisations, bounds and inverse operations.

A button that is hidden or disabled is modelled as a guard inside its
handler, so a click that cannot happen changes nothing. For example, the
lesson page's Previous button is shown only after the first task, the
flashcard arrows are disabled at the ends of the deck, the sentence builder's
check button is shown only while the sentence has a word, and its Next button
only while the result is shown.

Two behaviours of the code are easy to misread. The model follows the code
in both cases:

- **Dragging off a line.** Dragging to a cell that is not on a row, column or
  diagonal with the start cell empties the selection. It does not keep the last
  valid line (`LinePaths.LinePathNonEmptyIff`, `WordSearch.Game.MouseEnter`).
- **The match game's completion test.** The test runs after every checked pair,
  right or wrong, and it counts the matches made before the check. Selections
  survive a change of topic. So a wrong pair can end the game:
  1. In the booking topic, five of the six items are matched.
  2. The learner switches to the airline topic and selects word 7 there.
  3. The learner switches back to booking and selects picture 6.

  The pair is wrong, and yet the game is marked complete with item 6 unmatched.
  `WordPictureMatch.CompletionAfterMiss` states that whenever the test fires, an
  item is still unmatched. `WordPictureMatch.Game.CheckMatch` states that the
  flag is set exactly when the test holds.

## Model

| member | source | states |
|---|---|---|
| Common.Rescore | src/components/SentenceBuilder.tsx:234-247 | a right answer adds ten; a wrong one takes two off, but never below zero (exactly two off from two up), so a non-negative score stays non-negative |
| Decimal.NatToString | src/components/WordSearch.tsx:175 | the decimal text of a number is non-empty, all digits and has no dash |
| Decimal.DecimalRoundTrip | src/components/WordSearch.tsx:169-175 | reading the printed decimal text of `n` gives back `n` |
| Decimal.NatToStringInjective | src/components/WordSearch.tsx:175 | two numbers print alike exactly when they are equal |
| CellIds.ParseId | src/components/WordSearch.tsx:169-172 | an id that parses gives non-negative coordinates |
| CellIds.DashOfCellId | src/components/WordSearch.tsx:175 | the first dash of a printed id is the one after the row number |
| CellIds.CellIdRoundTrip | src/components/WordSearch.tsx:169-175 | `getCoordinates(getCellId(r, c))` is `(r, c)` |
| CellIds.CellIdInjective | src/components/WordSearch.tsx:175 | two cells have the same id exactly when they are the same cell |
| LinePaths.LinePath | src/components/WordSearch.tsx:179-207 | a path between cells with non-negative coordinates has only non-negative coordinates |
| LinePaths.DeltaIsSteps | src/components/WordSearch.tsx:191-200 | on a line, the last step of the rounded walk reaches the end cell in both coordinates |
| LinePaths.LinePathNonEmptyIff | src/components/WordSearch.tsx:191-206 | the path is non-empty exactly when the cells share a row, a column or a diagonal, and it is empty otherwise |
| LinePaths.LinePathShape | src/components/WordSearch.tsx:192-203 | on a line the path has `max(abs dr, abs dc) + 1` cells, starts at the start, ends at the end, and moves one unit step per cell |
| LinePaths.LinePathSameCell | src/components/WordSearch.tsx:194-196 | start equal to end gives the one-cell path |
| LinePaths.LinePathReverse | src/components/WordSearch.tsx:179-207 | the path from the end to the start is the path from the start to the end, reversed |
| LinePaths.LinePathInGrid | src/components/WordSearch.tsx:179-207 | a path between two grid cells stays inside the grid |
| WordSearch.GridRow | src/components/WordSearch.tsx:64-77 | every row of the grid has twelve letters |
| WordSearch.GridLetters | src/components/WordSearch.tsx:64-77 | the grid read row by row has 144 letters |
| WordSearch.PositionOfIndex | src/components/WordSearch.tsx:85-95 | position `12 r + c` of the row-major cell list is row `r`, column `c` |
| WordSearch.InitialRow | src/components/WordSearch.tsx:87-93 | the initializer pushes twelve cells per row |
| WordSearch.RowsUpTo | src/components/WordSearch.tsx:84-97 | after `n` rows the list has `12 n` cells |
| WordSearch.RowsUpToAt | src/components/WordSearch.tsx:84-97 | column `c` of row `r` is at index `12 r + c` |
| WordSearch.InitialCellAt | src/components/WordSearch.tsx:84-97 | the initial cell at index `i` has id `"i/12-i%12"`, the grid letter there, and is not found |
| WordSearch.LaidOutLetter | src/components/WordSearch.tsx:84-97 | in a laid-out cell list, each cell carries the grid letter of its position |
| WordSearch.InitialCellsValid | src/components/WordSearch.tsx:84-97 | the initial cell list is laid out in grid order and has no coloured cell |
| WordSearch.PathIds | src/components/WordSearch.tsx:197-203 | one id per position of the path |
| WordSearch.GetCellsInLine | src/components/WordSearch.tsx:179-207 | the loop that pushes one id per step returns exactly `CellsInLine(start, end)` |
| WordSearch.CellsInLineOf | src/components/WordSearch.tsx:186-206 | between two readable ids the selection is empty off a line, the start id alone for one cell, and otherwise the ids of the walk |
| WordSearch.WalkIds | src/components/WordSearch.tsx:197-203 | the `for` loop pushes exactly the ids of the walk from start to end |
| WordSearch.CellsInLineParses | src/components/WordSearch.tsx:179-207 | each selected id reads back as the matching position of the line walk |
| WordSearch.CellsInLineOfIds | src/components/WordSearch.tsx:179-207 | between two printed ids, the selection is the ids of the line walk |
| WordSearch.CellsInLineSymmetric | src/components/WordSearch.tsx:179-207 | dragging back from the end to the start selects the same cells in reverse order |
| WordSearch.FindCell | src/components/WordSearch.tsx:213 | a found cell has that id and is in the list; with no result, no cell has the id |
| WordSearch.FindTarget | src/components/WordSearch.tsx:252-254 | a result is a target that matches the selection forwards or backwards; with no result, no target matches |
| WordSearch.MarkFoundKeepsLayout | src/components/WordSearch.tsx:259-268 | marking cells found keeps every id and letter and uses only palette colours |
| WordSearch.ClearFoundKeepsLayout | src/components/WordSearch.tsx:159-165 | the reset keeps ids and letters and leaves no cell coloured |
| WordSearch.FindCellAt | src/components/WordSearch.tsx:211-216 | in a laid-out list, looking up a cell's id finds the cell at `12 r + c` |
| WordSearch.FindCellFirst | src/components/WordSearch.tsx:213 | `find` returns the first cell with the id |
| WordSearch.LetterTextAt | src/components/WordSearch.tsx:212-215 | the letter looked up for a position's id is the grid letter there |
| WordSearch.PathIdsPrefix | src/components/WordSearch.tsx:197-203 | the ids of a path are the ids of its prefix followed by the id of its last cell |
| WordSearch.GridWordPrefix | src/components/WordSearch.tsx:211-216 | the grid word of a path is the word of its prefix followed by its last letter |
| WordSearch.WordFromPath | src/components/WordSearch.tsx:211-216 | on laid-out cells, the letters of a path's ids are the grid letters along the path |
| WordSearch.NotReverse | src/components/WordSearch.tsx:252-254 | words of different lengths, or with mismatched ends, are not each other's reverse |
| WordSearch.WordListUnambiguous | src/components/WordSearch.tsx:54-61 | no target occurs twice and no target is the reverse of another |
| WordSearch.TargetWordsCount | src/components/WordSearch.tsx:54-61 | there are exactly six distinct target words |
| WordSearch.MatchUnique | src/components/WordSearch.tsx:252-254 | a selection matches at most one target |
| WordSearch.NewFindIff | src/components/WordSearch.tsx:243-256 | mouse-up records a word exactly when it is dragging over a non-empty selection and an unfound target matches it, and the word recorded is that target |
| WordSearch.NoFindWhenComplete | src/components/WordSearch.tsx:256 | once all six targets are found, no drag records anything |
| WordSearch.FoundWordsBound | src/components/WordSearch.tsx:256-271 | the found list never holds more than six words |
| WordSearch.MarkFoundExactly | src/components/WordSearch.tsx:259-268 | a find marks exactly the cells on the selected line, in one colour, and leaves every other cell as it was |
| WordSearch.RowPath | src/components/WordSearch.tsx:191-203 | a drag along a row visits the columns left to right |
| WordSearch.ColumnPath | src/components/WordSearch.tsx:191-203 | a drag down a column visits the rows top to bottom |
| WordSearch.RowWord | src/components/WordSearch.tsx:64-77 | along a row, the selected word is the letters of that row read left to right |
| WordSearch.ColumnWord | src/components/WordSearch.tsx:64-77 | down a column, the selected word is that column's letters from top to bottom |
| WordSearch.AirlinePlaced | src/components/WordSearch.tsx:69 | AIRLINE lies in row 5, columns 1 to 7 |
| WordSearch.BoardingPlaced | src/components/WordSearch.tsx:72 | BOARDING lies in row 8, columns 3 to 10 |
| WordSearch.GatePlaced | src/components/WordSearch.tsx:65 | GATE lies in row 0, columns 0 to 3 |
| WordSearch.FlightPlaced | src/components/WordSearch.tsx:66-71 | FLIGHT lies in column 10, rows 1 to 6 |
| WordSearch.LuggagePlaced | src/components/WordSearch.tsx:68-74 | LUGGAGE lies in column 0, rows 4 to 10 |
| WordSearch.TicketPlaced | src/components/WordSearch.tsx:67-72 | TICKET lies in column 11, rows 3 to 8 |
| WordSearch.EveryTargetPlaced | src/components/WordSearch.tsx:54-77 | every target is spelled along a straight line of the grid, so the puzzle can be completed |
| WordSearch.AirlineSelection | src/components/WordSearch.tsx:179-207 | the drag from `"5-1"` to `"5-7"` selects the ids of the row walk |
| WordSearch.AirlineExample | src/components/WordSearch.tsx:211-216 | that drag spells AIRLINE, and AIRLINE is the first target |
| WordSearch.BuildCells | src/components/WordSearch.tsx:84-97 | the nested `forEach` loops build exactly the initial cell list |
| WordSearch.Game.constructor | src/components/WordSearch.tsx:45-51 | no word found, no drag, and the initial cells |
| WordSearch.Game.MouseDown | src/components/WordSearch.tsx:222-227 | starts a drag whose selection is the pressed cell alone; nothing else changes |
| WordSearch.Game.MouseEnter | src/components/WordSearch.tsx:232-238 | while dragging, the selection becomes the line from the start cell; otherwise nothing changes |
| WordSearch.Game.MouseUp | src/components/WordSearch.tsx:243-290 | records the new find, if any: appends the word and colours its cells with `colors[found % 5]`. It celebrates exactly when the sixth word is found, and always ends the drag |
| WordSearch.Game.MouseLeave | src/components/WordSearch.tsx:293-297 | ends the drag without checking anything |
| WordSearch.Game.DismissCelebration | src/components/WordSearch.tsx:418-421 | hides the popup |
| WordSearch.Game.Reset | src/components/WordSearch.tsx:154-166 | forgets the found words and the drag, and clears every cell's found flag and colour |
| WordSearch.ResetRestoresInitialCells | src/components/WordSearch.tsx:154-166 | after a reset the cells equal the initial cells |
| WordSearch.AirlineFind | src/components/WordSearch.tsx:243-271 | releasing the AIRLINE drag on a fresh game records AIRLINE |
| WordSearch.AirlineRow | src/components/WordSearch.tsx:191-203 | row 5 meets that drag exactly in columns 1 to 7 |
| WordSearch.AirlineIds | src/components/WordSearch.tsx:175 | the end cells of that drag are `"5-1"` and `"5-7"` |
| WordSearch.AirlineMarks | src/components/WordSearch.tsx:259-268 | marking that drag in red colours exactly columns 1 to 7 of row 5 |
| WordSearch.InitialCellsUnfound | src/components/WordSearch.tsx:84-97 | no initial cell is found |
| WordSearch.AirlineScenario | src/components/WordSearch.tsx:222-290 | on a fresh game, press at (5,1), enter (5,7) and release: AIRLINE is found, exactly columns 1 to 7 of row 5 turn red, and there is no celebration |
| Topics.FirstOf | src/components/VocabularyFlashcards.tsx:29-94 | the first word of each topic is a word of that topic |
| WordPictureMatch.Items | src/components/WordPictureMatch.tsx:31-96 | the table has 53 items |
| WordPictureMatch.ItemIds | src/components/WordPictureMatch.tsx:31-96 | the ids `'1'` to `'53'` are distinct and non-empty |
| WordPictureMatch.Filtered | src/components/WordPictureMatch.tsx:98-100 | the shown list is no longer than the table |
| WordPictureMatch.FilteredMembers | src/components/WordPictureMatch.tsx:98-100 | an item is shown exactly when it is in the table and passes the filter |
| WordPictureMatch.FilteredIdempotent | src/components/WordPictureMatch.tsx:231-234 | filtering the shown items again by the same topic changes nothing |
| WordPictureMatch.FilteredDistinct | src/components/WordPictureMatch.tsx:98-103 | the shown ids stay distinct |
| WordPictureMatch.FilteredAll | src/components/WordPictureMatch.tsx:98-99 | `'all'` shows the whole table |
| WordPictureMatch.FindItem | src/components/WordPictureMatch.tsx:188-189 | a found item is in the table with that id; with no result, no item has the id |
| WordPictureMatch.FindItemIff | src/components/WordPictureMatch.tsx:188-189 | with distinct ids, the lookup gives an item exactly when that item has the id |
| WordPictureMatch.IsMatchIff | src/components/WordPictureMatch.tsx:188-194 | a pair matches exactly when the word and the picture name the same item of the table |
| WordPictureMatch.MatchedIsKey | src/components/WordPictureMatch.tsx:111-128 | for self matches, `matches[id]` is truthy and `id` is among the values exactly when `id` is a key |
| WordPictureMatch.SelfMatchedAdd | src/components/WordPictureMatch.tsx:200 | storing a right pair keeps every stored pair an item matched with itself |
| WordPictureMatch.KeyShownIff | src/components/WordPictureMatch.tsx:233-238 | a stored key is shown exactly when its item passes the filter |
| WordPictureMatch.ShownAll | src/components/WordPictureMatch.tsx:98-99 | under `'all'` the shown ids are all ids |
| WordPictureMatch.CategoryKeysShown | src/components/WordPictureMatch.tsx:233-238 | the keys counted for a topic are the shown ids that are keys |
| WordPictureMatch.ShownCount | src/components/WordPictureMatch.tsx:233 | the shown ids have as many elements as there are shown items |
| WordPictureMatch.KeysShownAll | src/components/WordPictureMatch.tsx:216-218 | under `'all'` every key counts |
| WordPictureMatch.CompletionTestIff | src/components/WordPictureMatch.tsx:216-239 | the completion test holds exactly when one shown item is unmatched |
| WordPictureMatch.CompletionAll | src/components/WordPictureMatch.tsx:216-218 | under `'all'` the test holds exactly when one item of the table is unmatched |
| WordPictureMatch.CompletionOnly | src/components/WordPictureMatch.tsx:233-239 | under a topic the test holds exactly when one item of that topic is unmatched |
| WordPictureMatch.CompletionAfterMatch | src/components/WordPictureMatch.tsx:198-239 | after a right pair for an unmatched shown item, the test held exactly when nothing shown is left unmatched |
| WordPictureMatch.MissingAfterAdd | src/components/WordPictureMatch.tsx:200 | storing item `id` removes it, and only it, from the unmatched shown ids |
| WordPictureMatch.CompletionAfterMiss | src/components/WordPictureMatch.tsx:205-239 | whenever the test fires, some shown item is still unmatched, so after a wrong pair the game is declared complete with an item left |
| WordPictureMatch.UnmatchedWordsIff | src/components/WordPictureMatch.tsx:273 | the word column holds exactly the shown ids that are not matched |
| WordPictureMatch.UnmatchedColumnsAgree | src/components/WordPictureMatch.tsx:273-274 | the word column and the picture column hold the same ids |
| WordPictureMatch.Game.constructor | src/components/WordPictureMatch.tsx:22-29 | nothing selected or matched, zero score and attempts, booking topic |
| WordPictureMatch.Game.HandleWordClick | src/components/WordPictureMatch.tsx:112-124 | selects the word unless it is already matched; nothing else changes |
| WordPictureMatch.Game.HandleImageClick | src/components/WordPictureMatch.tsx:126-132 | selects the picture unless it is already matched; nothing else changes |
| WordPictureMatch.Game.CheckMatch | src/components/WordPictureMatch.tsx:183-253 | without both selections, nothing changes. With both, a right pair is stored, the score follows the shared rule, attempts grow by one, the selections clear, and the game and popup flags are set exactly when the completion test held on the old matches |
| WordPictureMatch.Game.ResetGame | src/components/WordPictureMatch.tsx:256-264 | clears matches, score, attempts, selections and both flags; keeps the topic |
| WordPictureMatch.Game.SelectCategory | src/components/WordPictureMatch.tsx:288-293 | changes the topic only; the selections survive |
| WordPictureMatch.Game.ClosePopup | src/components/WordPictureMatch.tsx:513-516 | hides the popup only |
| SentenceBuilder.Words | src/components/SentenceBuilder.tsx:223 | the words of the cards, one per card, in order |
| SentenceBuilder.Ids | src/components/SentenceBuilder.tsx:269 | the ids of the cards, one per card, in order |
| SentenceBuilder.SplitJoin | src/components/SentenceBuilder.tsx:223 | words without spaces, joined with spaces, split back into the same words |
| SentenceBuilder.JoinInjective | src/components/SentenceBuilder.tsx:223-224 | two non-empty lists of space-free words join alike exactly when they are equal |
| SentenceBuilder.JoinNonEmpty | src/components/SentenceBuilder.tsx:223 | a join that starts with a non-empty word is non-empty |
| SentenceBuilder.Template1Spells | src/components/SentenceBuilder.tsx:36-47 | sentence 1's cards are space-free words with distinct ids, and they join to its correct sentence |
| SentenceBuilder.Template2Spells | src/components/SentenceBuilder.tsx:48-59 | the same for sentence 2 |
| SentenceBuilder.Template3Spells | src/components/SentenceBuilder.tsx:60-72 | the same for sentence 3 |
| SentenceBuilder.Template4Spells | src/components/SentenceBuilder.tsx:73-85 | the same for sentence 4 |
| SentenceBuilder.Template5Spells | src/components/SentenceBuilder.tsx:86-97 | the same for sentence 5 |
| SentenceBuilder.Template6Spells | src/components/SentenceBuilder.tsx:98-109 | the same for sentence 6 |
| SentenceBuilder.Template7Spells | src/components/SentenceBuilder.tsx:110-121 | the same for sentence 7 |
| SentenceBuilder.Template8Spells | src/components/SentenceBuilder.tsx:122-135 | the same for sentence 8 |
| SentenceBuilder.Template9Spells | src/components/SentenceBuilder.tsx:136-146 | the same for sentence 9 |
| SentenceBuilder.Template10Spells | src/components/SentenceBuilder.tsx:147-159 | the same for sentence 10 |
| SentenceBuilder.TemplateSpells | src/components/SentenceBuilder.tsx:35-160 | every sentence of the table can be built from its own cards |
| SentenceBuilder.RemoveAtSpec | src/components/SentenceBuilder.tsx:280-282 | removing index `i` drops exactly that card when `i` is in range, and changes nothing otherwise |
| SentenceBuilder.EmptyDrawnFrom | src/components/SentenceBuilder.tsx:250-252 | the empty sentence is a valid sentence for any template |
| SentenceBuilder.RemoveAtDrawnFrom | src/components/SentenceBuilder.tsx:280-282 | removing a card keeps the sentence made of distinct cards of the template |
| SentenceBuilder.SentenceBound | src/components/SentenceBuilder.tsx:265-278 | a sentence of distinct cards of the template is no longer than the template |
| SentenceBuilder.CheckCorrectIff | src/components/SentenceBuilder.tsx:222-224 | the sentence is correct exactly when its words are the template's words in the template's order |
| SentenceBuilder.Builder.constructor | src/components/SentenceBuilder.tsx:28-33 | first sentence, empty answer, zero score and attempts |
| SentenceBuilder.Builder.AddWord | src/components/SentenceBuilder.tsx:265-278 | appends the card unless a card with its id is already there; the answer never outgrows the template |
| SentenceBuilder.Builder.RemoveWord | src/components/SentenceBuilder.tsx:280-282 | drops the card at the index |
| SentenceBuilder.Builder.CheckSentence | src/components/SentenceBuilder.tsx:222-247 | on an empty sentence (no check button) nothing changes; otherwise the verdict is the text comparison, which is the word-list comparison; the result is shown, attempts grow by one, and the score follows the shared rule |
| SentenceBuilder.Builder.ResetSentence | src/components/SentenceBuilder.tsx:250-253 | empties the answer and hides the result |
| SentenceBuilder.Builder.NextSentence | src/components/SentenceBuilder.tsx:255-263 | while the result is hidden (no Next button) nothing changes; otherwise it moves on to an empty next sentence, except on the last sentence, where it reports completion and changes nothing |
| VocabularyFlashcards.CardIds | src/components/VocabularyFlashcards.tsx:29-94 | the deck has 53 cards |
| VocabularyFlashcards.Vocabulary | src/components/VocabularyFlashcards.tsx:29-94 | the deck lists the six topics in blocks of 6, 16, 8, 10, 6 and 7 cards |
| VocabularyFlashcards.CardsOf | src/components/VocabularyFlashcards.tsx:105 | the current cards are no more than the deck |
| VocabularyFlashcards.CardsOfMembers | src/components/VocabularyFlashcards.tsx:105 | a card is current exactly when it is in the deck and belongs to the topic |
| VocabularyFlashcards.CardsOfAppend | src/components/VocabularyFlashcards.tsx:105 | the filter keeps deck order: filtering two parts one after the other is filtering the whole |
| VocabularyFlashcards.CardsOfBlock | src/components/VocabularyFlashcards.tsx:105 | when a topic fills one block of the deck, its cards are that block |
| VocabularyFlashcards.TopicCards | src/components/VocabularyFlashcards.tsx:29-105 | each topic's cards are its block of the deck; the counter after "of" is 6, 16, 8, 10, 6 or 7, never 0 |
| VocabularyFlashcards.StaleIndex | src/components/VocabularyFlashcards.tsx:105-109 | index 15 names an airline card but no booking card, so a topic switch can leave the index past the end |
| VocabularyFlashcards.ClickTwice | src/components/VocabularyFlashcards.tsx:107-117 | two clicks restore the reveal flag, and a click on a card always changes it |
| VocabularyFlashcards.Deck.CurrentCard | src/components/VocabularyFlashcards.tsx:108-109 | `currentCards[currentCardIndex]` exists exactly when the index is in range, and is then a card of the current topic |
| VocabularyFlashcards.Deck.constructor | src/components/VocabularyFlashcards.tsx:25-27 | the first booking card, word hidden |
| VocabularyFlashcards.Deck.HandleCardClick | src/components/VocabularyFlashcards.tsx:107-117 | flips the reveal flag when there is a current card; otherwise nothing changes |
| VocabularyFlashcards.Deck.HandleCardChange | src/components/VocabularyFlashcards.tsx:127-130 | shows the new index with the word hidden |
| VocabularyFlashcards.Deck.Previous | src/components/VocabularyFlashcards.tsx:210-214 | one card back with the word hidden, except on the first card, where nothing changes; an index in range stays in range |
| VocabularyFlashcards.Deck.Next | src/components/VocabularyFlashcards.tsx:220-224 | one card on with the word hidden, and a stale index comes back to the last card; nothing changes on the last card; it always ends on a card of the topic |
| VocabularyFlashcards.Deck.SelectCategory | src/components/VocabularyFlashcards.tsx:143-148 | changes the topic and keeps the index and the reveal flag |
| SentenceStructure.Patterns | src/components/SentenceStructure.tsx:30-171 | ten patterns |
| SentenceStructure.TranslationOf | src/components/SentenceStructure.tsx:194-205 | the lookup gives a value exactly for a key of `translations`, and then the value stored for it |
| SentenceStructure.TranslationCoverage | src/components/SentenceStructure.tsx:194-205 | the first seven patterns have a translation and the last three do not |
| SentenceStructure.NavigationSpec | src/components/SentenceStructure.tsx:365-387 | Previous and Next stay among the ten patterns, stop at the ends, and undo each other away from the ends |
| SentenceStructure.Structure.constructor | src/components/SentenceStructure.tsx:24-28 | first pattern, nothing selected or completed, translation hidden |
| SentenceStructure.Structure.CurrentTranslation | src/components/SentenceStructure.tsx:307-311 | the translation box has text exactly for the first seven patterns |
| SentenceStructure.Structure.Previous | src/components/SentenceStructure.tsx:365-372 | the index becomes `max(0, p - 1)`; nothing else changes |
| SentenceStructure.Structure.Next | src/components/SentenceStructure.tsx:380-387 | the index becomes `min(9, p + 1)`; nothing else changes |
| SentenceStructure.Structure.GoToPattern | src/components/SentenceStructure.tsx:224-236 | a dot selects its own pattern |
| SentenceStructure.Structure.ToggleTranslation | src/components/SentenceStructure.tsx:330 | negates the translation flag, so two presses restore it |
| SentenceStructure.Structure.HandleExampleClick | src/components/SentenceStructure.tsx:183-186 | the clicked example becomes the selected one |
| SentenceStructure.Structure.HandlePatternComplete | src/components/SentenceStructure.tsx:188-190 | adds the current pattern to the completed set. The set only grows, and a second call changes nothing |
| ImageSlideshow.Captions | src/components/ImageSlideshow.tsx:12-68 | eleven slides |
| ImageSlideshow.StepRange | src/components/ImageSlideshow.tsx:86-92 | Next and Previous stay among the slides; Next wraps from 10 to 0 and Previous from 0 to 10 |
| ImageSlideshow.StepInverse | src/components/ImageSlideshow.tsx:86-92 | Previous undoes Next and Next undoes Previous |
| ImageSlideshow.AdvanceMod | src/components/ImageSlideshow.tsx:90-92 | `n` steps forward land `(i + n) mod 11` |
| ImageSlideshow.FullCycle | src/components/ImageSlideshow.tsx:90-92 | eleven steps return to the start, and no fewer do |
| ImageSlideshow.Slideshow.constructor | src/components/ImageSlideshow.tsx:71 | the first slide |
| ImageSlideshow.Slideshow.GoToNext | src/components/ImageSlideshow.tsx:90-92 | the next slide, with wrap-around |
| ImageSlideshow.Slideshow.GoToPrevious | src/components/ImageSlideshow.tsx:86-88 | the previous slide, with wrap-around |
| ImageSlideshow.Slideshow.Tick | src/components/ImageSlideshow.tsx:75-77 | the timer's step is the same as Next |
| ImageSlideshow.Slideshow.GoToSlide | src/components/ImageSlideshow.tsx:82-84 | a dot selects its own slide, so `slides[currentSlide]` stays defined |
| LessonPage.Tasks | src/app/page.tsx:40-50 | nine tasks |
| LessonPage.TaskIdsArePositions | src/app/page.tsx:40-50 | task `k` is at position `k - 1`, so `tasks[currentTask - 1]` is the current task |
| LessonPage.AddCompletedSpec | src/app/page.tsx:52-58 | completing a task keeps the list free of repeats, adds exactly that task, and grows the list by at most one |
| LessonPage.AddCompletedIdempotent | src/app/page.tsx:52-58 | completing a task twice is completing it once |
| LessonPage.ProgressPercent | src/app/page.tsx:140 | the bar width is `100 n / 9` rounded to the nearest integer |
| LessonPage.ProgressRange | src/app/page.tsx:140 | the bar is 0 with no task, 100 with all nine, and strictly grows with each task |
| LessonPage.CompletedBound | src/app/page.tsx:52-58 | at most nine tasks are completed |
| LessonPage.Lesson.constructor | src/app/page.tsx:20-21 | task 1, nothing completed |
| LessonPage.Lesson.CurrentEntry | src/app/page.tsx:76 | the shown entry has the current task's id |
| LessonPage.Lesson.HandleTaskComplete | src/app/page.tsx:52-58 | records the task unless it is already recorded |
| LessonPage.Lesson.HandleTaskChange | src/app/page.tsx:60-74 | selects the task |
| LessonPage.Lesson.Previous | src/app/page.tsx:188-208 | one task back, except on the first task |
| LessonPage.Lesson.Next | src/app/page.tsx:209-229 | one task on, except on the last task |
| LessonPage.Lesson.ResetProgress | src/app/page.tsx:121-130 | with some task completed, clears the list and returns to task 1; otherwise there is no button and nothing changes |
| LessonPage.Lesson.Progress | src/app/page.tsx:140 | the bar is at most 100, and exactly 100 when all nine tasks are completed |

## Left out

- Audio: speech synthesis, the success and winner tones. These are browser calls with no effect on the modelled state.
- Timers. The word search's celebration popup closes after three seconds or on its button; both are modelled by the one step `DismissCelebration`. The match game's popup has no timer and closes only on a click on its backdrop or its Continue button, modelled by `ClosePopup`. The match check waits half a second after a selection, modelled as the separate step `CheckMatch`; the winner sound played after a delay is left out with the audio. `CheckMatch` reads the current topic and matches, whereas the delayed check in the code uses the topic and matches of the render in which the selection last changed, so a topic switch inside the half-second window is not modelled. The scroll after a task change is not modelled. The slideshow's interval is modelled as a `Tick` step.
- Shuffling. The available sentence cards and the match pictures are shuffled with `Math.random`; the model keeps table order, since only the display order changes.
- Storage and logging. Saving and loading of the current task and completed list go through `localStorage`, `parseInt` and `JSON.parse`. The page's loading state is left out too. `console.log` calls are left out.
- Rendering and display data. Images, transcriptions, meanings, explanations, examples, difficulty colours, word types and the match game's words are left out. So are the flashcard's image and transcription and the topic heading above the deck: they are displayed, not computed on. In the word search, touch events call the same three handlers as the mouse (`MouseDown`, `MouseEnter`, `MouseUp`). The one step not modelled is the hit test that maps a finger's screen position to the id of the cell under it.
- The `onComplete` callbacks into the lesson page, which are foreign calls. The components and the page are modelled separately.
- `showPractice` in the sentence-structure lesson is declared but never read or written.
- `HandlePatternComplete` models `handlePatternComplete`, which no control of the component calls, so in the program the completed set stays empty.
- WordSearch.GetCellsInLine: `Math.round((delta / steps) * i)` is modelled as the integer sign of `delta` times `i`. This is exact on every line the guard admits, and floating point is not modelled.
- CellIds.ParseId: only ids of the form digits-dash-digits are read. Other strings would give `NaN` coordinates in the program, but no other id is ever produced.
- SentenceBuilder.Builder.AddWord: requires the card to be one of the current template's cards, as the only caller passes.
- LessonPage.Lesson.HandleTaskComplete and LessonPage.Lesson.HandleTaskChange: require a task id from 1 to 9; the task buttons and the current task are the only callers.
- The other lesson tasks are not part of this model: the alphabet drill, the number drill, the vocabulary lesson and the check-in dialog.
