# Pointed Words: tile deck, selection and scoring

A Dafny model of the logic of the Pointed Words game, a word game played with
Scrabble tiles: nine tiles on a shared grid, three in the player's hand, and a word
built from them that an online dictionary accepts or rejects.

The model covers three parts of the game:

- The deck hook (`src/usecarddeck.ts`), modelled as the class `CardDeck.Deck`. It
  holds four fields: `allCards` (the lookup table of every minted tile),
  `cardDeck` (the draw pile), `gridCards` and `handCards`. Around it are:
  - `Minting`: the id counter that starts at 101 and the nested minting loops;
  - `FisherYates`: the in-place shuffle over an `array`;
  - `CardLookup`: find-by-id and map-by-id.
- The app component (`src/App.tsx`), modelled as the class `App.Game`. It holds
  the chosen ids and cards, the running point total, the score, and the two
  verdict flags `shouldAcceptWord` and `willAcceptWord`. The pure word and
  point-sum definitions are in `Selection`.
- The game phases (`src/types.ts`): the enum and its three classifications, in
  `GameStates`.

`Collections` models the JavaScript pieces the source relies on: `undefined` as
`Option`, `Array.prototype.filter` with `!==`, and the clamping `slice`.

The dictionary call is outside the model. A request is the word returned by
`CheckWord` or `Submit`. The answer comes back through the event methods
`CheckWordResolved` and `SubmitResolved`, each carrying a boolean. `Math.random`
is an oracle: `picks[k]` is the index chosen in round `k` of the shuffle. Like
`Math.floor(Math.random() * m)`, it lies in `[0, m)`.

The code has no phase machine beyond the enum and its predicates, and no tile
trade-in, redealing, blank substitution or tagging of stale dictionary answers, so
the model has none either. Three behaviours of the code are worth stating:
- `deal` on a pile shorter than twelve deals what there is;
- a rejected submission still scores (see Findings);
- `chooseCard` records an id that names no tile.

## Model

| member | source | states |
|---|---|---|
| Collections.Slice | src/usecarddeck.ts:71-77 | `slice` clamps both bounds to the length; the result is the run of elements from `start` on |
| Collections.Without | src/usecarddeck.ts:96-102 | filtering by id keeps exactly the elements whose key differs: every kept element is from the input, and every input element with another key is kept |
| Collections.WithoutAppend | src/usecarddeck.ts:98-99 | filtering distributes over concatenation, so the kept elements stay in their original order |
| Collections.WithoutIdempotent | src/App.tsx:77-83 | removing the same id twice is the same as removing it once |
| Collections.WithoutAbsent | src/usecarddeck.ts:98-99 | removing an id no element carries leaves the list unchanged |
| Collections.WithoutKeepsNoDuplicates | src/App.tsx:80 | filtering a duplicate-free id list keeps it duplicate-free |
| GameStates.IsInSubmitState | src/types.ts:13-20 | definition: the submit phases are submit-accept, discarding, submit-reject and confirm-reject |
| GameStates.WordWasAccepted | src/types.ts:23-25 | definition: a word was accepted in submit-accept and discarding |
| GameStates.WordWasRejected | src/types.ts:28-30 | definition: a word was rejected in submit-reject and confirm-reject |
| GameStates.AcceptedAndRejectedDisjoint | src/types.ts:23-30 | no phase is both accepted and rejected |
| GameStates.SubmitStateIsAcceptedOrRejected | src/types.ts:13-30 | `isInSubmitState` holds exactly when the phase is accepted or rejected |
| GameStates.OtherStatesUnclassified | src/types.ts:1-30 | pregame, init-deal, word-building, resetting, final-round and game-over satisfy none of the three predicates |
| CardLookup.DistinctIds | src/usecarddeck.ts:11-17 | definition: no two cards of a table share an id, as the counter that mints them never repeats |
| CardLookup.Lookup | src/usecarddeck.ts:104-110 | a found card is in the table and carries the id; `undefined` exactly when no card carries it |
| CardLookup.LookupMulti | src/usecarddeck.ts:112-114 | one result per id, same length and order as the ids |
| CardLookup.LookupFindsFirst | src/usecarddeck.ts:106 | the lookup returns the first card carrying the id |
| CardLookup.LookupDistinct | src/usecarddeck.ts:104-110 | with distinct ids, the lookup finds a card exactly when the card is in the table |
| CardLookup.LookupIgnoresOrder | src/usecarddeck.ts:63-66 | two orderings of the same tiles with distinct ids answer every lookup alike |
| Minting.IdGenerator.constructor | src/usecarddeck.ts:11-12 | the counter starts at 101 |
| Minting.IdGenerator.Next | src/usecarddeck.ts:13-16 | yields the current value and advances the counter by one |
| Minting.TileCount | src/usecarddeck.ts:48-50 | definition: the inner loop runs `tiles` times, and not at all when `tiles` is zero or negative |
| Minting.TotalTiles | src/usecarddeck.ts:47-61 | definition: the population size is the sum of the rows' tile counts, in row order |
| Minting.Run | src/usecarddeck.ts:49-59 | definition: one row's tiles carry its letter and points and consecutive ids |
| Minting.Minted | src/usecarddeck.ts:47-61 | the population has exactly the sum of the rows' tile counts, and the j-th tile has id first + j |
| Minting.Mint | src/usecarddeck.ts:43-61 | the nested loops with a fresh generator produce exactly `Minted(dist, 101)` |
| Minting.MintedLayout | src/usecarddeck.ts:47-61 | row k's tiles sit right after the rows before it, in row order, with that row's letter and points and consecutive ids |
| Minting.MintedPrefixBound | src/usecarddeck.ts:47-61 | the rows up to and including row k never exceed the population |
| Minting.MintedIdsIncreasing | src/usecarddeck.ts:51-54 | minted ids are strictly increasing in push order, hence pairwise distinct |
| FisherYates.ValidPicks | src/usecarddeck.ts:27 | definition: the pick of round k lies in [0, m) for the m elements still unshuffled, as `Math.floor(Math.random() * m)` does |
| FisherYates.Swap | src/usecarddeck.ts:30-32 | exchanging two slots keeps the length |
| FisherYates.SwapPermutes | src/usecarddeck.ts:30-32 | exchanging two slots keeps the multiset of elements |
| FisherYates.SwapInPlace | src/usecarddeck.ts:30-32 | the three assignments through `t` leave the array equal to `Swap` of its old contents |
| FisherYates.Rounds | src/usecarddeck.ts:25-33 | definition: each round decrements m and exchanges slot m with the picked slot, until m is 0 |
| FisherYates.Shuffled | src/usecarddeck.ts:19-36 | definition: the shuffle is all `deck.length` rounds, starting from m = length |
| FisherYates.RoundsPermute | src/usecarddeck.ts:25-33 | any number of the loop's rounds, each swapping the last unshuffled slot with the picked one, keeps the length and the multiset of elements |
| FisherYates.ShuffledPermutes | src/usecarddeck.ts:19-36 | for every valid sequence of picks, the shuffle keeps the length and is a permutation of its input |
| FisherYates.Shuffle | src/usecarddeck.ts:19-36 | shuffles the array in place, returns that same array, and its contents are a permutation of the old ones |
| CardDeck.SwapKeepsDistinctIds | src/usecarddeck.ts:30-32 | a swap keeps ids distinct |
| CardDeck.RoundsKeepLookup | src/usecarddeck.ts:25-33 | any number of shuffle rounds over a table with distinct ids keeps them distinct and leaves every lookup unchanged |
| CardDeck.ShuffleKeepsLookup | src/usecarddeck.ts:63-66 | shuffling a table with distinct ids keeps them distinct and leaves every lookup unchanged |
| CardDeck.ShuffledMintIsValid | src/usecarddeck.ts:40-67 | the shuffled population has distinct ids, the minted tiles, and the minted table's answer to every lookup |
| CardDeck.PileCardsFindable | src/usecarddeck.ts:104-110 | every card of a pile drawn from a table with distinct ids is found by its own id |
| CardDeck.Drawn | src/usecarddeck.ts:88-94 | a draw of n hands back exactly n entries |
| CardDeck.DrawnStep | src/usecarddeck.ts:88-94 | drawing one more appends the next card of the pile, or `undefined` once the pile is exhausted |
| CardDeck.DrawnThenRest | src/usecarddeck.ts:80-94 | the cards a draw of n hands out, followed by the remaining pile, are the old pile |
| CardDeck.Deck.Valid | src/usecarddeck.ts:63-66 | invariant: the lookup table has distinct ids and every pile card is one of its tiles; the effect establishes it and deal and draws keep it, so `DrawOne`, `DrawNumber` and `Deal` promise that every tile they hand out is found by its id |
| CardDeck.Deck.constructor | src/usecarddeck.ts:6-9 | all four lists start empty |
| CardDeck.Deck.MintAndShuffle | src/usecarddeck.ts:40-67 | with a non-empty pile nothing changes; with an empty pile, lookup table and pile both become the shuffled population, grid and hand are untouched, and lookups match the unshuffled population |
| CardDeck.Deck.MakeNewDeck | src/usecarddeck.ts:38 | changes nothing |
| CardDeck.Deck.Deal | src/usecarddeck.ts:69-78 | grid = first min(9, n) cards, hand = the next up to 3, pile = the rest; grid ++ hand ++ pile equals the old pile; every dealt tile is found by its id in the lookup table |
| CardDeck.Deck.DrawOne | src/usecarddeck.ts:80-86 | empty pile: `undefined` and the pile is unchanged; otherwise the front card, and the pile loses it; a drawn tile is found by its id in the lookup table |
| CardDeck.Deck.DrawNumber | src/usecarddeck.ts:88-94 | exactly max(num, 0) results: the front cards in order, then `undefined` once the pile is exhausted; the pile loses exactly the cards handed out; every drawn tile is found by its id in the lookup table |
| CardDeck.Deck.RemoveCard | src/usecarddeck.ts:96-102 | grid and hand lose every card with that id, keep the rest in order; pile and lookup table are untouched |
| Selection.FoundCards | src/App.tsx:96-103 | the cards a selection names are at most one per id and all come from the table |
| Selection.FoundCardsAppend | src/App.tsx:70-75 | the cards of a concatenated selection are the cards of the two parts, in order |
| Selection.FoundCardsWithout | src/App.tsx:77-83 | dropping an id from the selection drops exactly the cards carrying that id |
| Selection.LettersOf | src/App.tsx:97-101 | definition: the letters pushed, one per found card, in selection order |
| Selection.LettersOfAppend | src/App.tsx:97-101 | the letters of concatenated card lists are the concatenated letters |
| Selection.Join | src/App.tsx:102 | definition: `join("")` concatenates the parts in order |
| Selection.JoinAppend | src/App.tsx:102 | joining concatenated part lists is concatenating the joins |
| Selection.JoinLength | src/App.tsx:102 | one-character parts join to a string of one character per part |
| Selection.Lower | src/App.tsx:102 | `toLowerCase` over ASCII keeps the length, leaves no upper-case letter and keeps every other character |
| Selection.LowerAppend | src/App.tsx:102 | lower-casing distributes over concatenation |
| Selection.LettersOfStep | src/App.tsx:98-101 | one more id appends its card's letter, if it has a card, to the letters |
| Selection.WordOf | src/App.tsx:96-103 | the word has no upper-case ASCII letter |
| Selection.WordOfAppend | src/App.tsx:96-103 | the word of a concatenated selection is the concatenation of the words, in selection order |
| Selection.WordOfOne | src/App.tsx:96-103 | a single id spells its card's lower-cased letter, or nothing when no card carries it |
| Selection.WordOfChoose | src/App.tsx:70-75 | choosing an id extends the word by its card's lower-cased letter, or by nothing when no card carries the id |
| Selection.WordLength | src/App.tsx:96-103 | with one-character letters, the word has one character per found card |
| Selection.ValueOrZero | src/App.tsx:65 | definition: `card?.value ?? 0`, so a missing card is worth 0 |
| Selection.SumValues | src/App.tsx:65 | definition: the `reduce` sum of the mapped values; 0 for no entries, a case the guard on line 61 keeps from being reached |
| Selection.PointSum | src/App.tsx:63-65 | definition: the values of the looked-up cards summed; its meaning is stated by PointSumIsFoundTotal, PointSumAppend and PointSumOrderIndependent |
| Selection.TotalValue | src/App.tsx:65 | definition: the reference total of a list of found cards |
| Selection.TotalValueAppend | src/App.tsx:65 | the total of concatenated card lists is the sum of the totals |
| Selection.PointSumIsFoundTotal | src/App.tsx:63-65 | the point sum is the total value of the found cards, missing cards counting 0 |
| Selection.PointSumAppend | src/App.tsx:65 | the points of a concatenated selection add up |
| Selection.PointSumOrderIndependent | src/App.tsx:65 | two selections with the same ids in any order are worth the same |
| App.Game.SelectionMatches | src/App.tsx:70-83 | invariant: the chosen cards are exactly the found cards of the chosen ids, in order; choose, un-choose, click and reset keep it |
| App.Game.constructor | src/App.tsx:36-41 | empty selection, zero total and score, both verdicts `undefined` |
| App.Game.AddToScore | src/App.tsx:52-58 | the score grows by the argument; nothing else changes |
| App.Game.ChooseCard | src/App.tsx:70-75 | the id is always appended; the card is appended only when the table has it; the check verdict is cleared; chosen cards keep matching chosen ids |
| App.Game.UnChooseCard | src/App.tsx:77-83 | every occurrence of the id and every card carrying it is dropped, the rest keep their order, the check verdict is cleared, and cards keep matching ids |
| App.Game.ClickCard | src/PointCard.tsx:26-28 | a click on a chosen id filters it out of the ids and its cards out of the chosen cards; on any other id it appends the id and its card when found; either way the check verdict becomes `undefined`, the selection stays matched and clicks never create duplicate ids |
| App.Game.ResetChecks | src/App.tsx:91-94 | both verdicts become `undefined` |
| App.Game.Reset | src/App.tsx:85-89 | empties the selection and clears both verdicts; score and point total are untouched |
| App.Game.GetWordFromCards | src/App.tsx:96-103 | the loop returns the lower-cased join of the letters of the found cards, in selection order |
| App.Game.RefreshPointTotal | src/App.tsx:60-68 | with a non-empty selection and a non-zero sum, the total becomes the found cards' value; otherwise it keeps its old value |
| App.Game.CheckWord | src/App.tsx:105-116 | with a verdict shown, it only clears both verdicts and asks nothing; otherwise it asks about the current word and changes nothing |
| App.Game.CheckWordResolved | src/App.tsx:112-113 | the answer becomes the check verdict |
| App.Game.Submit | src/App.tsx:125-143 | with no verdict, it asks about the current word and changes nothing; with a verdict shown, it only clears both verdicts |
| App.Game.SubmitResolved | src/App.tsx:129-136 | the answer becomes the submit verdict and the point total is added to the score, whatever the answer |
| App.Game.SubmitResolvedAsIntended | src/App.tsx:129-136 | corrected: only an accepted answer adds the point total; a rejected one leaves the score |
| App.Game.StartNewGame | src/App.tsx:119-123 | clears the selection and verdicts, then deals: the grid is the first nine cards of the old pile, the hand the next three (fewer on a short pile), the pile the rest, and grid ++ hand ++ pile is the old pile |
| App.OneTileMint | src/usecarddeck.ts:43-66 | a table of one "A" worth 5 mints the single tile with id 101, and the one-round shuffle leaves it in place |
| App.OneTileSelection | src/App.tsx:60-103 | choosing that tile finds it, spells "a" and is worth 5 |
| App.OneTileDeck | src/usecarddeck.ts:40-67 | a fresh deck after the minting effect has that one tile as its table |
| App.OneTileGame | src/App.tsx:60-75 | a fresh game over that deck, after a click on the tile, has it chosen, a point total of 5, score 0 and no submit verdict |
| App.RejectedWordStillScores | src/App.tsx:129-136 | choosing a single 5-point "A" and submitting "a" that the dictionary rejects still yields a score of 5 |
| App.RejectedWordAsIntended | src/App.tsx:129-136 | the same game under the corrected rule ends with a score of 0 |

## Left out

- The dictionary lookup in `src/dictionary.ts` (an HTTP request with an API key) is not part of this model. Its answer is the boolean argument of `CheckWordResolved` and `SubmitResolved`.
- Timers and promise chaining are left out (`wait`, `setTimeout`, the `.then` sequencing). The delayed `resetChecks` after a check and the delayed `reset` after a submit are plain calls to `ResetChecks` and `Reset` that the caller makes later.
- `Math.random` is replaced by the `picks` oracle. The model makes no claim about uniformity.
- `scrabbleDistribution` is not part of this model. The table is the parameter `dist`, in the order `Object.entries` lists it.
- React mechanics are left out: effect scheduling, `useCallback` dependency lists, and state updates applied at the next render. The point-total effect is the method `RefreshPointTotal`, which the caller runs after each selection change.
- CardDeck.Deck.DrawNumber: draws one card after another from a pile that changes between draws. Under React, every `drawOne` inside one `drawNumber` reads the same stale `cardDeck`, so it would return the same front card each time.
- App.Game.SubmitResolved: adds the point total current at answer time. The source adds the value captured when `submit` was created, and adds it to the `score` captured by `addToScore`; these differ only if the selection or score changed while the request was in flight.
- CardDeck.Deck.Valid covers the lookup table and the pile only. Grid and hand are left out because a re-mint (the pile ran empty) replaces the table while grid and hand still hold earlier tiles.
- Numbers are unbounded integers. JavaScript doubles, fractions and `NaN` are not modelled, for example a fractional `num` in `drawNumber` or a fractional `tiles` count.
- Selection.Lower lower-cases ASCII `A`-`Z` only. `toLowerCase` also maps other Unicode letters.
- The generator's `done` check in the minting loop is left out, because the generator is endless and never reports `done`.
- `console.log` calls are left out.
- All rendering is left out: the JSX in `src/App.tsx`, the `gridAreas` layout table, `src/PointCard.tsx` apart from its click rule, `src/common.tsx`, `src/DisplayLetter.tsx` and the styles.

## Findings

| source | as written | input that shows it | evidently intended | confidence | as-written member | corrected member |
|---|---|---|---|---|---|---|
| src/App.tsx:129-136 | after the dictionary answers a submission, the continuation adds `pointTotal` to the score whether the answer is true or false | a table with one "A" worth 5; click it, submit "a", dictionary answers false: score goes from 0 to 5 | only an accepted word adds its points (the rejected word is shown as "not a word") | high; not executed | App.Game.SubmitResolved, shown by App.RejectedWordStillScores | App.Game.SubmitResolvedAsIntended, shown by App.RejectedWordAsIntended |
