# mln131 game core, modelled in Dafny

mln131 is a browser game about the five historical stages of building
socialism in Vietnam. A tiled roadmap is painted on a canvas, and five
checkpoint markers sit on it. Clicking an unlocked checkpoint opens a quiz.
Each correct answer awards one of nine puzzle pieces in a shuffled order.
With all nine pieces the stage's picture puzzle opens. Solving the puzzle
completes the stage, and a flag then walks along a fixed path to the next
checkpoint. Completed stage pictures can be browsed in a collection
carousel, and all five in a final gallery. The questions can also come
from a remote question store, which regroups a flat record list into
per-stage buckets sorted by question number.

The project models that logic module by module:

- `Base`: `Option`/`Result`, distinctness and counting facts, decimal
  text of integers and left padding (JavaScript's `String(n)` and
  `padStart`), with round-trip and injectivity lemmas.
- `TileMap` (`src/App.jsx`):
  - collects the distinct positive tile numbers of all layers;
  - maps each tile to its image address;
  - waits until every image has loaded or failed;
  - then paints every layer, bottom to top and row by row, as a log of draw commands.
- `FlagPath` (`src/components/Flag.jsx`):
  - the waypoint segment table and its `"c-(c+1)"` keys;
  - the animator, as a class whose interval ticks and hold timeout are explicit events;
  - the flag picture shown.
- `Stages`: the per-stage puzzle configuration table of
  `src/components/PuzzleModal.jsx`, defined once here.
  `src/components/QuizModal.jsx` declares the same table without the
  `fullImage` and `aspectRatio` fields; the quiz reads only `folder` and
  `pieces`, which agree between the two.
- `Puzzle` (`src/components/PuzzleModal.jsx`): the nine-cell board and
  the piece pool as a class. Picking, placing and returning pieces keep
  pool plus board equal to the stage's nine pieces. A full board is judged
  right exactly when it is the solved board.
- `Quiz` (`src/components/QuizModal.jsx`): the quiz as a class. It covers
  scoring, piece awards in shuffled order, completion only with nine
  pieces, close and retry.
- `QuizApi` (`src/services/quizApi.js`):
  - HTTP error results;
  - routing of records to `"Stage <stage>"` buckets;
  - the stable sort by question number;
  - the whole transform, proved to give exactly the five buckets, each the
    sorted projection of its records.
- `Carousel` (`src/components/CollectionModal.jsx`,
  `src/components/FinalCompletionModal.jsx`):
  - the completed-stage filter;
  - wrap-around previous/next and slide clicks, on a small class;
  - the stage indicators.
- `CheckpointButton` (`src/components/CheckpointButton.jsx`): the click
  guard, the cursor and the tooltip, the only parts of the transparent
  marker that reach the screen, and the flag under the first marker. The
  style and icon helpers are defined in the component but not rendered;
  they are modelled too and follow the tooltip's precedence (completed,
  then unlocked, then locked).

Randomness (the shuffles), timers, image loading and the network are
inputs or explicit events. A shuffle is any permutation of the stage's
pieces or piece indices. A timer firing is a method call, and so is an
image load or failure. A fetch becomes a `Response` value with its `ok`
flag, status and decoded body.

The model follows the code as written; in particular:

- The walking flag reports positions 2 to L+1 for a segment of L
  waypoints. The tick that passes the end still reports.
- The quiz's submit handler has no guard on an already shown result.
- Closing the quiz keeps the collected-piece count.

## Model

| member | source | states |
|---|---|---|
| Base.DecimalRoundTrip | src/App.jsx:35 | the decimal text of a number is all digits and reads back as that number |
| Base.DecimalInjective | src/App.jsx:35 | different numbers have different decimal texts |
| Base.IntStringInjective | src/services/quizApi.js:40 | different integers, negative ones included, have different texts |
| Base.PaddedDecimalValue | src/App.jsx:35 | left padding with '0' keeps every character a digit and keeps the value read back |
| Base.DistinctCard | src/App.jsx:16-22 | a duplicate-free list has as many distinct elements as entries |
| TileMap.UniqueTiles | src/App.jsx:16-22 | the list has no duplicates; it holds a number exactly when some layer has it and it is positive; its length is the size of the set of such tiles |
| TileMap.OneAttemptPerTile | src/App.jsx:22-24 | one request per distinct tile: a duplicate-free list of exactly the wanted tiles has the size of the tile set |
| TileMap.TilePathShape | src/App.jsx:35 | a positive tile's address is the prefix, then at least three digits (never truncated) that read back as the tile, then ".png" |
| TileMap.TilePathInjective | src/App.jsx:35 | different positive tiles never share an image address |
| TileMap.RowDrawsExact | src/App.jsx:69-81 | a row's draws are exactly its drawable cells (positive value, image loaded), strictly left to right |
| TileMap.GridDrawsExact | src/App.jsx:68-83 | a layer's draws are exactly its drawable cells, in row-major order |
| TileMap.CompositeInCanvas | src/App.jsx:65-84 | every draw fits the 64·W by 64·H canvas and shows a positive tile whose image loaded |
| TileMap.CompositeAppend | src/App.jsx:65 | layers are painted in order: lower layers' draws all precede upper layers' |
| TileMap.CellDrawnIff | src/App.jsx:70-78 | cell (x, y) of a layer, at flat index y·W+x, is drawn at (64x, 64y, 64, 64) exactly when its value is positive and its image loaded |
| TileMap.TileMapView.constructor | src/App.jsx:10-11 | the screen starts with no requests, no images, not loaded, empty canvas |
| TileMap.TileMapView.LoadTiles | src/App.jsx:14-42 | one pending request per distinct wanted tile; with no tiles the join settles at once |
| TileMap.TileMapView.OnLoad | src/App.jsx:27-31 | a loaded tile is stored under its own address and settles; the join completes with the last |
| TileMap.TileMapView.OnError | src/App.jsx:32 | a failed tile stores nothing but still settles |
| TileMap.TileMapView.SettleAll | src/App.jsx:39-41 | whatever mix of loads and failures, the join completes and the image table holds exactly the tiles that loaded |
| TileMap.TileMapView.Paint | src/App.jsx:45-85 | nothing is drawn before the join settles; afterwards the canvas is cleared and holds exactly the composite of all layers |
| TileMap.TileMapView.PaintLayer | src/App.jsx:66-83 | one layer is painted row by row |
| TileMap.TileMapView.PaintRow | src/App.jsx:69-81 | one row is painted left to right, skipping empty cells and tiles without an image |
| TileMap.RepaintIsStable | src/App.jsx:45-85 | two paints in a row from the same settled state leave the same canvas, whatever it held before |
| FlagPath.SegmentAt | src/components/Flag.jsx:15-59 | each of the four segments has at least seven waypoints, each drawn at the centre of its 64-pixel cell |
| FlagPath.SegmentKeyInjective | src/components/Flag.jsx:92 | the "c-(c+1)" key of a checkpoint is the key of no other integer, so each checkpoint looks up its own segment |
| FlagPath.SegmentFound | src/components/Flag.jsx:91-102 | a segment exists exactly for checkpoints 0 to 3, and it is the segment from c to c+1 |
| FlagPath.SegmentsChain | src/components/Flag.jsx:6-59 | segment k starts at checkpoint k and ends at checkpoint k+1, and consecutive segments meet |
| FlagPath.Reports | src/components/Flag.jsx:112-121 | the position reports from a given start, one per tick, in order |
| FlagPath.Flag.constructor | src/components/Flag.jsx:61-65 | the flag starts hidden at position 0 with no timer |
| FlagPath.Flag.Start | src/components/Flag.jsx:78-106 | the running timer is cleared; without a segment nothing else changes; otherwise the flag shows at position 1, drawn at the segment's first waypoint, and the timer starts |
| FlagPath.FinalHoldDrawsNothing | src/components/Flag.jsx:122-153 | after the final tick of any segment (position L+1, still visible) the render guard (`DrawnAt`, the test at line 149) draws nothing |
| FlagPath.FinalHoldDrawsCheckpoint | src/components/Flag.jsx:122-153 | with the intended guard (`DrawnHeld`, which keeps a position past the end on the last waypoint), the flag rests on the next checkpoint's pixel centre during the whole hold |
| FlagPath.Flag.Stop | src/components/Flag.jsx:85-89 | not animating: timer cleared, position 0, flag hidden |
| FlagPath.Flag.Unmount | src/components/Flag.jsx:137-142 | the cleanup clears only the interval; a scheduled hold survives |
| FlagPath.Flag.Tick | src/components/Flag.jsx:112-135 | a tick advances and reports the position; while the timer runs the render guard (`Shown`) draws the flag at waypoint position-1; passing the end clears the timer, schedules one hold and leaves nothing drawn |
| FlagPath.Flag.FireHold | src/components/Flag.jsx:128-133 | the hold hides the flag and reports completion once |
| FlagPath.Flag.Animate | src/components/Flag.jsx:78-135 | a run over a segment of L waypoints reports positions 2 to L+1 in order, then completes exactly once and ends hidden; a missing segment reports nothing |
| Stages.Config | src/components/PuzzleModal.jsx:12-93 | exactly the five stage names have a configuration, each with nine pieces |
| Stages.StageNamesDistinct | src/services/quizApi.js:30-36 | the five stage names are pairwise different |
| Puzzle.SolvedHoldsTarget | src/components/PuzzleModal.jsx:147-149 | the board the check accepts (every cell holding the piece of the same index of the solved order) is full and holds exactly the stage's pieces |
| Puzzle.RemoveAt | src/components/PuzzleModal.jsx:122 | the filter drops exactly the picked entry: entries before it stay, later entries shift down by one, and one copy of the piece leaves the pool |
| Puzzle.PlacedUpdate | src/components/PuzzleModal.jsx:117-118 | overwriting a cell swaps what it held for what it holds now in the board's contents |
| Puzzle.MoveToBoard | src/components/PuzzleModal.jsx:116-123 | moving a pool entry into an empty cell keeps pool plus board unchanged |
| Puzzle.MoveToPool | src/components/PuzzleModal.jsx:132-138 | moving a placed piece back to the end of the pool keeps pool plus board unchanged |
| Puzzle.PlacedSize | src/components/PuzzleModal.jsx:147 | a full board holds exactly one piece per cell |
| Puzzle.VerdictRightIff | src/components/PuzzleModal.jsx:142-174 | a verdict exists exactly when the board is full, and it is "right" exactly when the board is the solved board |
| Puzzle.FullBoardEmptiesPool | src/components/PuzzleModal.jsx:115-140 | when pool plus board hold the stage's nine pieces, a full board leaves the pool empty |
| Puzzle.FullBoardJudged | src/components/PuzzleModal.jsx:142-174 | in any reachable state, a full board has used the whole pool and is judged right exactly when it is the solved board |
| Puzzle.PuzzleModal.constructor | src/components/PuzzleModal.jsx:5-9 | an empty pool, an empty board, no selection, no notification |
| Puzzle.PuzzleModal.Deal | src/components/PuzzleModal.jsx:99-103 | a fresh deal: the pool is the shuffle, the board is nine empty cells (`EmptyBoard`), nothing picked, and pool plus board hold the stage's pieces |
| Puzzle.PuzzleModal.Open | src/components/PuzzleModal.jsx:95-107 | for a configured stage, a fresh deal with the notification hidden; otherwise only the stage changes |
| Puzzle.PuzzleModal.SelectPiece | src/components/PuzzleModal.jsx:109-113 | a pick takes effect only when nothing is picked yet |
| Puzzle.PuzzleModal.PlaceSelected | src/components/PuzzleModal.jsx:115-129 | with a pick and an empty cell, the piece goes there, exactly its pool entry is removed, the pick clears, and a board now full opens the notification, a success naming the stage's full image exactly when every piece sits in its own cell and an error otherwise; in every other case nothing changes |
| Puzzle.PuzzleModal.CheckPuzzleComplete | src/components/PuzzleModal.jsx:142-174 | no notice until all nine cells are filled; then a success notice (full image, stage) for the solved board, an error notice for any other |
| Puzzle.PuzzleModal.ReturnPiece | src/components/PuzzleModal.jsx:131-140 | a placed piece leaves its cell and is appended to the pool; an empty cell changes nothing |
| Puzzle.PuzzleModal.Reset | src/components/PuzzleModal.jsx:176-183 | the game is dealt afresh |
| Puzzle.PuzzleModal.ConfirmNotification | src/components/PuzzleModal.jsx:185-197 | after success the parent is told the puzzle is done once; after an error the game is dealt afresh; the notification closes |
| Puzzle.PuzzleModal.NextStage | src/components/PuzzleModal.jsx:199-201 | the parent is told the puzzle is done once, and the notification closes |
| Quiz.Indices | src/components/QuizModal.jsx:109 | the key list of an n-element array has n entries |
| Quiz.IndicesShape | src/components/QuizModal.jsx:109 | entry i of the key list is i, so each index below n occurs exactly once |
| Quiz.ShuffleShape | src/components/QuizModal.jsx:109 | a shuffle of the nine indices holds nine valid piece indices, none twice |
| Quiz.PieceOrderIsShuffle | src/components/QuizModal.jsx:109 | nine distinct indices below nine are a shuffle of all nine |
| Quiz.DistinctRangeElements | src/components/QuizModal.jsx:109 | n distinct values below n take every value below n |
| Quiz.AwardedPrefix | src/components/QuizModal.jsx:134-135 | the pieces awarded so far are a prefix of the shuffle, no longer than the collected count |
| Quiz.AwardedPieces | src/components/QuizModal.jsx:129-147 | no piece is awarded twice, every award is a valid piece, and with nine collected every piece has been awarded exactly once |
| Quiz.QuizModal.constructor | src/components/QuizModal.jsx:7-18 | first question, no answer, no score, no pieces |
| Quiz.QuizModal.Open | src/components/QuizModal.jsx:94-113 | for a non-empty stage, exactly its list in the quiz data is loaded when the stage has one and no questions otherwise, and the quiz restarts at question one with no choice, result, score or pieces, reshuffled when configured; an empty stage changes nothing; the result flag, the piece announcement and the warning are never touched |
| Quiz.QuizModal.Restart | src/components/QuizModal.jsx:96-111 | the restart state, with the shuffle adopted only for a configured stage |
| Quiz.QuizModal.SelectAnswer | src/components/QuizModal.jsx:117-120 | a choice is ignored once the result shows |
| Quiz.QuizModal.SubmitAnswer | src/components/QuizModal.jsx:122-148 | without a choice nothing at all changes; otherwise the result shows; a correct answer scores and collects one, and while pieces remain it announces the next piece of the shuffle with its picture and 1-based number |
| Quiz.QuizModal.NextQuestion | src/components/QuizModal.jsx:150-171 | before the last question it advances and clears the choice and result, with no warning; at the last it keeps question, choice and result, and completes and closes only with exactly nine pieces, otherwise it warns with the count; score and pieces never change |
| Quiz.QuizModal.Close | src/components/QuizModal.jsx:173-180 | back to question one with no choice, result, score or warning shown, and the parent told; the collected count, the piece order, the last result and the piece announcement are kept |
| Quiz.QuizModal.ConfirmNotification | src/components/QuizModal.jsx:182-184 | the warning is dismissed |
| Quiz.QuizModal.ClosePieceCollected | src/components/QuizModal.jsx:221-223 | the piece announcement is dismissed |
| Quiz.QuizModal.RetryQuiz | src/components/QuizModal.jsx:186-201 | the stage starts over with no choice, result, score or pieces, reshuffled when configured; stage, questions, parent calls, last result and piece announcement are kept |
| QuizApi.StageKeyInjective | src/services/quizApi.js:40 | two records share a bucket exactly when their stages read the same |
| QuizApi.HttpErrorInjective | src/services/quizApi.js:9-11 | different statuses raise different error messages, so the message names the status |
| QuizApi.NumberStageKept | src/services/quizApi.js:39-41 | a record with a numeric stage has a bucket exactly when the stage is 1 to 5 |
| QuizApi.UnknownStageDropped | src/services/quizApi.js:41 | a record whose bucket does not exist lands in no bucket |
| QuizApi.RoutedStep | src/services/quizApi.js:39-50 | one more record goes to the end of its own bucket and leaves every other bucket alone |
| QuizApi.AllRoutedStep | src/services/quizApi.js:39-50 | with distinct bucket names, one more record is added to exactly one bucket if its bucket exists |
| QuizApi.BucketsPartition | src/services/quizApi.js:30-50 | with distinct bucket names, the buckets together hold every kept record exactly once |
| QuizApi.StageBucketsPartition | src/services/quizApi.js:30-50 | the five stage buckets hold every record that has a bucket exactly once |
| QuizApi.InsertPermutes | src/services/quizApi.js:54 | inserting adds exactly the one question |
| QuizApi.InsertBound | src/services/quizApi.js:54 | inserting under an upper bound keeps every entry under it |
| QuizApi.InsertSorted | src/services/quizApi.js:54 | inserting into a sorted bucket keeps it sorted |
| QuizApi.SortByNumberCorrect | src/services/quizApi.js:53-55 | the sorted bucket is ascending by question number and is a permutation of the bucket |
| QuizApi.SortBucket | src/services/quizApi.js:54 | the sort's result: the stable sort, ascending and a permutation |
| QuizApi.EmptyBuckets | src/services/quizApi.js:30-36 | exactly the five stage buckets, all empty |
| QuizApi.GroupByStage | src/services/quizApi.js:30-50 | exactly the five buckets, each holding the projections of its records in arrival order |
| QuizApi.GroupInto | src/services/quizApi.js:39-50 | the bucket set is unchanged and each bucket gets its records in arrival order |
| QuizApi.SortBuckets | src/services/quizApi.js:53-55 | each of the five buckets is replaced by its sorted version |
| QuizApi.TransformQuestions | src/services/quizApi.js:29-57 | exactly the five stage keys; each bucket is its records' projections (`Project`: the five question fields unchanged, id and stage dropped), sorted ascending by question number and a permutation of them |
| QuizApi.GetAllQuestions | src/services/quizApi.js:21-62 | fails on exactly the responses a stage fetch fails on, with the same status message; an OK one succeeds with exactly the five buckets, each the sorted projection of its records |
| QuizApi.StageFetchKeepsBody | src/services/quizApi.js:6-18 | a stage fetch (`GetQuestionsByStage`) succeeds exactly on an OK response and then hands back its body untouched |
| QuizApi.StageFetchErrorNamesStatus | src/services/quizApi.js:6-18 | two failed stage fetches with the same message came from non-OK responses with the same status |
| Carousel.KeptPositionsExact | src/components/CollectionModal.jsx:175 | the kept positions are exactly the completed ones among the stages, ascending, each once |
| Carousel.CompletedSlidesExact | src/components/CollectionModal.jsx:175 | the filter keeps, in order, exactly the slides at completed positions |
| Carousel.CollectionNonEmpty | src/components/CollectionModal.jsx:195 | the collection renders (`CollectionRenders`: open and with a slide) exactly when it is open and one of checkpoints 0 to 4 is completed |
| Carousel.CollectionControls | src/components/CollectionModal.jsx:247 | the previous/next controls (`ShowControls`: more than one slide) show exactly when two different stages are completed |
| Carousel.StepsStayInRange | src/components/CollectionModal.jsx:177-185 | previous and next keep the index among the slides |
| Carousel.StepsAreModular | src/components/FinalCompletionModal.jsx:155-163 | among the slides, next is +1 and previous is -1, both modulo the slide count |
| Carousel.StepsUndo | src/components/FinalCompletionModal.jsx:155-163 | next then previous, and previous then next, return to the same slide |
| Carousel.NextVisitsAll | src/components/FinalCompletionModal.jsx:160-163 | from the first slide, k presses of next reach slide k, so every slide can be reached |
| Carousel.ReplayInRange | src/components/CollectionModal.jsx:177-191 | any series of presses and slide clicks keeps the index among the slides |
| Carousel.CarouselState.constructor | src/components/CollectionModal.jsx:128 | the carousel starts at the first slide |
| Carousel.CarouselState.PreviousClick | src/components/CollectionModal.jsx:177-180 | one back, from the first slide to the last |
| Carousel.CarouselState.NextClick | src/components/CollectionModal.jsx:182-185 | one on, from the last slide to the first |
| Carousel.CarouselState.SlideClickAt | src/components/CollectionModal.jsx:187-191 | the clicked slide becomes current; clicking the current one changes nothing |
| Carousel.Browse | src/components/FinalCompletionModal.jsx:155-169 | a carousel driven by a series of events ends where the replay says, on one of its slides |
| Carousel.CollectionIndicatorMislabels | src/components/CollectionModal.jsx:268 | with stages 1 and 3 completed, the second slide shows stage 3's picture and period but the indicator as written says stage 2 |
| Carousel.CollectionIndicatorNamesStage | src/components/CollectionModal.jsx:268 | the corrected indicator names a completed stage, the one whose picture is shown, with that stage's own period |
| Carousel.FinalIndicatorNamesSlide | src/components/FinalCompletionModal.jsx:244 | different slides get different "Giai đoạn i / 5" texts |
| CheckpointButton.Click | src/components/CheckpointButton.jsx:10-18 | a click starts the checkpoint's quiz, with its id and position, exactly when the marker is unlocked and not completed, i.e. exactly when the tooltip's precedence (`StatusOf`) shows it as unlocked |
| CheckpointButton.LookFollowsStatus | src/components/CheckpointButton.jsx:20-60 | the rendered tooltip and the unrendered style and icon helpers depend on the two flags only through the state |
| CheckpointButton.LooksDiffer | src/components/CheckpointButton.jsx:20-60 | no two states share a tooltip, nor a style or an icon in the unrendered helpers |
| CheckpointButton.CursorMatchesClick | src/components/CheckpointButton.jsx:48 | the pointer cursor shows exactly on the markers a click would start |

## Left out

- CheckpointButton.Style and CheckpointButton.Icon model the `getCheckpointStyle` and `getIcon` helpers (`src/components/CheckpointButton.jsx:20-38`), which the component defines but never renders: the marker on screen is a transparent 48-pixel square, so only its cursor and tooltip show.
- The quiz keeps the configuration read when it opens, while the component reads it again on each submit and retry (`src/components/QuizModal.jsx:133`, `:196`). The two agree whenever the stage is non-empty, since opening re-runs on every stage change; if the stage became empty while a question is shown, the component would award no piece while the model keeps awarding from the previous stage.
- JavaScript's `String(n)` switches to exponent notation from 10^21 and loses integer precision above 2^53; `Base` writes any integer in plain decimal. Tile numbers and statuses stay far below both bounds.
- Canvas pixels, image smoothing, alpha and compositing: the canvas is a log of draw commands.
- The 250 ms step and 500 ms hold timers of the flag: they are explicit events (`Tick`, `FireHold`).
- The 500 ms delay before the puzzle verdict, and the 300 ms delays inside the notification dialog: collapsed to immediate updates.
- `Math.random` shuffles: the shuffle is an input, required to be a permutation of the stage's pieces or of the nine piece indices.
- `fetch` and JSON decoding: a response is a value; network failures that throw before a response exists are not modelled.
- Numeric stage fields that are not integers: a record's stage is an integer or a text.
- Question numbers that are missing or not numeric: the sort's comparator would then yield NaN and the order would be up to the JavaScript engine; here every question number is an integer.
- The flag's position and completion callbacks are called only when the parent passed them (`src/components/Flag.jsx:119`, `:130`); the model assumes both are present and logs every call.
- Question options are a map from option letter to text; their order on screen is not modelled.
- The add, update and delete question calls of the question service (`src/services/quizApi.js`, after line 62): simple requests with no logic of their own.
- Slide titles, captions, download buttons and the slide component's 3D transforms are not modelled.
- Console logging, the intro dialog, the piece announcement dialog's own rendering, and the notification dialog's rendering. Of the notification dialog, only what its confirm, retry and next buttons cause is modelled.
- `src/components/Checkpoints.jsx`, `src/hooks/useQuizData.js`, `src/hooks/useLocalStorage.js`, `src/utils/disableDevTools.js` and `upload_to_mockapi.py` are not part of this model. The game's progress state (unlocked and completed checkpoints) enters only as parameters.
- FlagPath.Flag.Unmount: the hold timeout scheduled at the end of a run is never cancelled by the effect's cleanup. The model keeps a count of scheduled holds, so a stale hold can still hide the flag and report completion during a later run.
- Puzzle.PuzzleModal.SelectPiece, PlaceSelected, ReturnPiece, Reset and ConfirmNotification require a configured stage: the board renders only then, so these handlers cannot run otherwise.
- Quiz.QuizModal.SubmitAnswer and NextQuestion require a question on screen: the modal renders only then.
- Carousel.CollectionIndicator: the model requires the current index to be among the slides. The code's optional read of the period shows nothing past the end; that case is not modelled.

## Findings

| source | as written | input that shows it | evidently intended | confidence | as-written member | corrected member |
|---|---|---|---|---|---|---|
| src/components/CollectionModal.jsx:268 | the collection's indicator shows `current + 1`, the position among the completed stages only | stages 1 and 3 completed (`completedCheckpoints` = [0, 2]), second slide: the picture and period are stage 3's, the indicator says "Giai đoạn 2" | the stage number of the slide shown (`stageNumber`) | not executed | Carousel.CollectionIndicatorMislabels | Carousel.CollectionIndicatorNamesStage |
| src/components/Flag.jsx:122-153 | the last tick moves the position to L+1 and keeps the flag visible for the 500 ms hold, but the render guard draws nothing for a position past the segment | any checkpoint 0 to 3 with its segment of L waypoints: after the final tick the position is L+1, so during the hold the flag is visible and not drawn | the flag stays drawn at the segment's last waypoint, the next checkpoint, during the hold, as the comment at line 127 says | not executed | FlagPath.FinalHoldDrawsNothing | FlagPath.FinalHoldDrawsCheckpoint |
