# 2048 game core in Dafny

A model of the game logic of a Java implementation of 2048 (`Main.java`).
The game is played on a 4 x 4 board whose squares hold 0 for no tile, or a
tile value. A tilt towards a side (north, east, south or west) does three things:

- It turns the board so that the side faces north, into a local copy.
- It runs one pass over each column of the copy, from row 0 down:
  - Each tile moves up as far as the squares above it are empty.
  - If the tile above is equal, the two merge, provided that tile is at or below the column's merge barrier.
  - After a merge, the barrier sits just below the merged square, so a square takes at most one merge per tilt.
- It writes the copy back, turning it back.

Each merge adds the new tile's value to the score. When the new tile is the goal (2048) and the score
then beats the best score, the best score takes it and the score restarts at
0. The game is over when every square holds a tile equal to neither its
left nor its upper neighbour.

Modules:

- `Sides`: the board size, the goal, the four sides, the coordinate maps `TiltRow`/`TiltCol` and their inverses, turning a whole board and turning it back, and the key-to-side map.
- `Lines`: the reference meaning of sliding one line towards its front. Empty squares are dropped, equal neighbours merge greedily from the front, and the result is padded with empty squares.
- `Resolver`: `wheretomove` and the column pass of `tiltBoard`, as functions, proved equal to the reference slide.
- `Scoring`: the score and best-score bookkeeping, as a fold over the merges in the order a tilt makes them.
- `Tilting`: the whole tilt as a function of the board, and what it promises:
  - it reports a change exactly when the board changed;
  - it packs the tiles against the chosen side;
  - it keeps the sum of the tiles;
  - it removes one tile per merge;
  - it keeps every tile a power of two;
  - a board declared over cannot be tilted, while every other non-empty board can;
  - a tilt that changes the board leaves an empty square.
- `Game`: the game object as a class. It holds the board array, the score, the best score and the tile count. `TiltBoard`, `Clear` and `SetRandomPiece` change the array in place. `GameOver` only reads it. `RecordMaxScore` and `CheckGameOver` change only the best score. Each method is proved against the functions above.

## Model

| member | source | states |
|---|---|---|
| Sides.TiltRow | Main.java:249-262 | every square of the turned board maps to a row of the real board |
| Sides.TiltCol | Main.java:271-284 | every square of the turned board maps to a column of the real board |
| Sides.TiltRoundTrip | Main.java:249-284 | the turned-to-real coordinate map is undone by its inverse, so it is one-to-one |
| Sides.UntiltRoundTrip | Main.java:249-284 | the inverse map is undone by the coordinate map, so the map is onto |
| Sides.Turn | Main.java:148-154 | the copy-in loop: square (r, c) of the turned board is the real square the coordinate map names; the result is a 4 x 4 board |
| Sides.Unturn | Main.java:195-200 | the write-back loop: each real square takes the turned square the inverse map names; the result is a 4 x 4 board |
| Sides.UnturnTurn | Main.java:148-154 | turning a board and turning it back gives the same board |
| Sides.TurnUnturn | Main.java:195-200 | writing a turned board back and turning it again gives the turned board |
| Sides.TurnNorth | Main.java:251-252 | turning towards north leaves the board as it is |
| Sides.KeyToSide | Main.java:288-301 | exactly the keys Up, Down, Left and Right name a side, and each names the side that is its own key; any other key has no side |
| Sides.KeyRoundTrip | Main.java:288-301 | the key of every side maps back to that side |
| Lines.SlidePacked | Main.java:156-194 | a slide keeps the line's length and leaves no empty square in front of a tile |
| Lines.SlideSum | Main.java:156-194 | a slide keeps the sum of the line's tiles |
| Lines.SlideCount | Main.java:156-194 | a slide removes exactly one tile per merge |
| Lines.CollapsePowers | Main.java:170-181 | merging squares that are empty or powers of two gives squares that are empty or powers of two |
| Lines.SlidePowers | Main.java:156-194 | a slide of a line whose tiles are powers of two leaves only powers of two |
| Lines.SlideMovesGap | Main.java:162-169 | a line with a tile behind an empty square changes |
| Lines.SlideMergesFull | Main.java:170-182 | a full line with two equal neighbours changes |
| Lines.SlideKeepsBlocked | Main.java:156-194 | a full line with no two equal neighbours is left as it is |
| Lines.CollapseSnoc | Main.java:170-173 | adding one tile behind the merged tiles merges it exactly when the last merged tile is still open and equal to it; otherwise it is appended |
| Resolver.WhereToMove | Main.java:220-238 | the target lies between the barrier and the tile; a merge lands on an equal tile; a move lands on an empty square right after a tile that differs or at the barrier; every square passed over is empty |
| Resolver.StepRow | Main.java:159-192 | one row of the column pass: an empty square is skipped; otherwise the tile moves or merges where WhereToMove says; the column keeps its length |
| Resolver.ColumnPass | Main.java:156-194 | the column pass over rows 0 .. k-1 with the barrier starting at 0; the column keeps its length |
| Resolver.ResolveAgainstPacked | Main.java:220-238 | against a packed prefix the tile merges into the last packed tile exactly when it is at or below the barrier and equal, and otherwise moves to the first empty square |
| Resolver.PassTracksReference | Main.java:156-194 | after each row the column pass holds the reference merge of the tiles seen so far, a barrier consistent with it, the same merged values, and a change flag that is set exactly when a square differs |
| Resolver.ColumnPassIsSlide | Main.java:156-194 | the pass over a column yields the reference slide, reports a change exactly when the column changed, and merges the reference values |
| Resolver.MergesOncePerSquare | Main.java:170-173 | the merges of one pass land on strictly rising rows, all above the barrier: no square merges twice in one tilt |
| Resolver.PassNotIdempotent | Main.java:156-194 | a column such as 2,2,4 becomes 4,4 and then 8 on a second pass: a tilt is not idempotent |
| Scoring.Credit1 | Main.java:174-188 | one merge never lowers the best score; the best score changes only on a goal merge, which then restarts the score at 0 and makes the best the old score plus the goal; otherwise the score grows by the merged value |
| Scoring.Credit | Main.java:156-192 | the merges of a tilt credited one by one, in the order the pass makes them |
| Scoring.RecordMax | Main.java:94-97 | the best score becomes the larger of itself and the score; the score stays |
| Scoring.CreditKeepsMax | Main.java:183-188 | the merges of a tilt never lower the best score |
| Scoring.CreditWithoutGoal | Main.java:172-174 | without a goal tile, the score grows by the sum of the merged values and the best score stays |
| Scoring.GoalResetsScore | Main.java:183-188 | a goal merge that lifts the score above the best makes it the best and restarts the score at 0 |
| Scoring.GoalKeepsScore | Main.java:172-188 | a goal merge that does not lift the score above the best only adds the goal to the score; the best score stays |
| Tilting.Tilt | Main.java:143-202 | the whole tilt: turn, one column pass per column, turn back; the change flag is set when some pass changed its column, and the merges are listed column by column; the result is a 4 x 4 board |
| Tilting.TiltChangedIff | Main.java:141-202 | the tilt returns true exactly when the board changed |
| Tilting.TiltIsSlide | Main.java:143-202 | every line of the tilted board along the chosen side is the reference slide of that line before the tilt |
| Tilting.TiltPacks | Main.java:156-194 | after a tilt every line along the side holds its tiles against that side with no gap |
| Tilting.TiltMergesOnce | Main.java:170-173 | within each line of a tilt the merges land on strictly rising squares |
| Tilting.TiltKeepsPowers | Main.java:143-202 | a tilt of a board whose tiles are powers of two leaves only powers of two |
| Tilting.TiltWestExample | Main.java:143-202 | tilting west turns the row 2, 2, 0, 0 into 4, 0, 0, 0 with one merge of value 4 and a change |
| Tilting.TiltEastExample | Main.java:143-202 | tilting east turns the row 2, 0, 2, 0 into 0, 0, 0, 4 with one merge of value 4 and a change |
| Tilting.TiltKeepsTotal | Main.java:143-202 | a tilt keeps the sum of the tiles on the board |
| Tilting.TiltCountsMerges | Main.java:143-202 | the occupied squares after a tilt plus its number of merges equal the occupied squares before |
| Tilting.Stuck | Main.java:113-123 | the board gameOver declares over: every square holds a tile equal to neither its left nor its upper neighbour |
| Tilting.StuckCannotTilt | Main.java:113-123 | a board the game declares over is left as it is by every tilt |
| Tilting.GameOverIffNoMove | Main.java:111-123 | the game is declared over exactly when the board has a tile and no tilt towards any side changes it |
| Tilting.FullTiltMerges | Main.java:156-194 | on a full board a tilt can change something only by merging |
| Tilting.TiltLeavesRoom | Main.java:70-92 | a move accepted during play leaves an empty square for the tile added next |
| Game.FirstEmpty | Main.java:131-138 | the first offered tile whose square is empty, with every earlier one landing on a tile; none when no offered tile lands on an empty square |
| Game.Place | Main.java:133-135 | the board with the drawn tile's value written on its square; the result is a 4 x 4 board |
| Game.PlaceKeepsPowers | Main.java:125-135 | placing a 2 or a 4 on a board whose tiles are powers of two keeps them so |
| Game.FullBoardNoDraw | Main.java:127-138 | on a full board no offered tile can be placed |
| Game.Game2048.constructor | Main.java:305-315 | a new game has an empty board, score, best score and count 0 |
| Game.Game2048.Clear | Main.java:56-65 | the board is emptied, score and count are 0, and the best score stays |
| Game.Game2048.RecordMaxScore | Main.java:77-80 | the best score takes the score when that is higher |
| Game.Game2048.NewGame | Main.java:93-98 | a new game records the best score, then empties the board and restarts the score |
| Game.Game2048.GameOver | Main.java:113-123 | the result is true exactly when every square holds a tile that equals neither its left nor its upper neighbour |
| Game.Game2048.CheckGameOver | Main.java:76-82 | the check reports whether the game is over, and only then records the best score |
| Game.Game2048.SetRandomPiece | Main.java:127-139 | as written: if the count equals the number of squares nothing changes; otherwise the first offered tile that lands on an empty square is placed there, and nothing else changes; placing a 2 or a 4 keeps every tile a power of two |
| Game.Game2048.PlaceTile | Main.java:127-139 | corrected: on a full board nothing changes; otherwise the first offered tile that lands on an empty square is placed there, and nothing else changes; placing a 2 or a 4 keeps every tile a power of two |
| Game.Game2048.TurnedCopy | Main.java:148-154 | the local copy is the board turned so that the side faces north |
| Game.Game2048.ResolveTile | Main.java:159-192 | one row of the column pass moves or merges the tile as the pass function does, updates the barrier, and credits a merge to the score |
| Game.Game2048.SlideColumn | Main.java:156-194 | the column becomes the pass's result, the change flag is the pass's, the score takes the pass's merges, and other columns are untouched |
| Game.Game2048.WriteBack | Main.java:195-200 | the board becomes the copy turned back |
| Game.Game2048.TiltBoard | Main.java:143-202 | the board becomes the tilt of the old board, the result is the tilt's change flag, and the score and best score are credited with its merges in order |
| Game.Game2048.Move | Main.java:88-92 | a direction key tilts only when the game is not over; an accepted move changed the board and leaves an empty square; the score and best score stay when the game is over and are otherwise credited with the tilt's merges, so the best score never drops; every tile stays a power of two |

## Left out

- The GUI calls (`_game.moveTile`, `mergeTile`, `addTile`, `setScore`, `endGame`, `displayMoves`, `clear`): they only show or log what the model already computes.
- `main`, the constructor's option parsing and the `_testing` flag: the command line and the input mode are not part of the game logic.
- The interactive loop of `play` (reading keys, "Quit", the recursive restart): it is I/O. Its parts are modelled separately: the game-over check at the top of a turn is `CheckGameOver`, a direction key is `Move` and "New Game" is `NewGame`.
- The values the random source offers: that they are 2 or 4 is the premise `TwoOrFour` of the power-of-two clauses, not a check the game makes.
- The random source: `SetRandomPiece` takes the sequence of tiles the source would offer, and it must contain a tile that lands on an empty square. The source draws forever until one does.
- Squares off the board: `SetRandomPiece` and `PlaceTile` take only offered tiles on the board. A source that named a square off the board would make Java throw an index exception, and the model assumes the random source never does this.
- Game.Game2048.SetRandomPiece: requires a placeable tile among those offered whenever the count is not 16. The source promises to return then, but on a full board it loops forever, so no finite list of tiles can model that case.
- Java's 32-bit `int` overflow is not modelled: tile values and scores are unbounded integers. Tiles and scores on a 4 x 4 board stay far below 2^31.
- The board size is fixed at 4, as in the source. The conservation lemmas expand the 16 squares.
- The `default` branches of `tiltRow` and `tiltCol` that throw cannot be reached with a Java enum and have no counterpart. `keyToSide`'s exception for an unknown key is the `None` result.

Behaviour the model keeps exactly as the code has it:

- Tilting twice is not the same as tilting once. The merge barrier stops a merged tile from merging again within one tilt, but the next tilt may merge it (`Resolver.PassNotIdempotent`).
- `_count` is never increased, so the "no effect on a full board" guard of `setRandomPiece` never fires (see Findings).
- After a goal merge the tilt goes on, and the score is reset only when it beats the best score.

## Findings

| source | as written | input that shows it | evidently intended | confidence | as-written member | corrected member |
|---|---|---|---|---|---|---|
| Main.java:127-131 | the full-board guard tests `_count == SQUARES`, but `_count` is set to 0 by `clear` and never raised | a full board with `_count` still 0: the guard is false and no drawn tile lands on an empty square (`Game.FullBoardNoDraw`), so the draw loop never ends | no effect on a full board, as the method's comment says: the guard tests whether the board has an empty square | high; not executed | Game.Game2048.SetRandomPiece | Game.Game2048.PlaceTile |

During play this hang is not reached: a move is accepted only when it changed the board, and such a tilt always leaves an empty square (`Tilting.TiltLeavesRoom`, `Game.Game2048.Move`).
