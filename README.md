# Minesweeper core, modelled in Dafny

This project models the sequential logic under a Go/Ebiten Minesweeper
game, its TypeScript Web Audio shim and its WebAssembly loader, and proves
what that logic promises. One Dafny module stands for each core source file:

- `board.dfy` (`Board`): the mine grid. It covers mine placement that
  avoids one cell, flood-fill reveal, neighbour counts, the win check and
  the rectangle iterator.
- `common.dfy` (`Common`): the circular queue that overwrites its oldest
  element when full, and the shifting FIFO queue.
- `game.dfy` (`Game`): several pieces of game logic:
  - animation scheduling (skip-all and skip-until-tag);
  - particle-slot reuse and the round-robin sound pool;
  - tile parity, the rounded-tile sprite choice and the corner roundness
    rule;
  - highlight de-duplication and the instant-win board.
- `web_player.dfy` (`WebPlayer`) and `web_sound.dfy` (`WebSound`): the
  Web Audio player's play/pause/seek/volume state machine, run against an
  abstract clock. They also cover the buffer and player registry and the
  once-only resume hook.
- `loader.dfy` (`Loader`): streamed-download progress accounting, the
  crash-log trimming in the `writeSync` override, and the exit handler.
- `build.dfy` (`Build`): the build tool. It covers argument parsing, the
  settings file writer and reader, and the rebuild decision.
- `sound_srcs_gen.dfy` (`SoundSrcsGen`): the sound-source list parser and
  the generated Go source.
- `math.dfy`, `util.dfy`, `sprite.dfy`: rectangle lattice operations,
  clamping, duration splitting, file-extension tests and sprite-sheet
  addressing.
- `input.dfy`, `button.dfy`, `graphics.dfy`, `debug_print.dfy`,
  `game_ui.dfy`, `sound.dfy`: small state machines. These are:
  - mouse auto-repeat and button states;
  - the blend/filter stacks;
  - the debug message lists;
  - the game timer, difficulty stepper and mute toggle;
  - the sound player pool.
- `color_table.dfy`, `colortableindex_string.dfy`, `beziercurve_data.dfy`,
  `hsv_mod.dfy`, and `name_table.dfy` which they share: conversion between
  a table and a name map, with default filling, and the generated
  `String` method.
- `beziercurve_editor.dfy`, `itch.dfy`, `tilegen.dfy`: the Bézier editor's
  scale and clamp rules, the itch.io mock-up board and its text dump, and
  the checkerboard generator.
- `gostrings.dfy`, `goint.dfy`, `goconv.dfy`, `seqs.dfy`, `wrappers.dfy`:
  the Go library behaviour the core relies on. This covers `strings`,
  truncating `/` and `%`, `strconv.FormatInt`, and `Option`/`Result`.

Code that changes state in place is modelled as a class. Each method's
`ensures` ties the new state to a pure step function of the old state.
The lemmas beside each step function prove the source's promises. These
are round trips, preserved invariants, ordering and "nothing else
changes". Pure code is modelled as functions and lemmas.

Three kinds of input are modelled as parameters:

- Clocks (`time.Now`, the audio context's `currentTime`, file modification
  times).
- Randomness (the shuffle in `PlaceMines`), given as an arbitrary
  permutation.
- Platform results (a `Content-Length` header that does or does not parse,
  UTF-8 validity, decode success).

JSON encoding is a `map<string, T>`. A document that does not parse is a
`None` input.

## Model

| member | source | states |
|---|---|---|
| Board.RowFromFacts | board.go:281-292 | the cells one iterator row yields from column x are exactly those of row y between x and maxX, in increasing x |
| Board.RowFromLength | board.go:281-292 | one iterator row from x to maxX has maxX − x + 1 cells, none when x > maxX |
| Board.RowsFromFacts | board.go:277-292 | the rows from y to maxY yield exactly the cells of the inclusive rectangle, in row-major order (y outer, x fastest) |
| Board.RowMajorDistinct | board.go:277-292 | a strictly row-major cell sequence repeats no cell, so the iterator yields every cell once |
| Board.CellsEnumerateRect | board.go:262-292 | an iterator made from any two corners yields exactly the cells of the min/max-normalised inclusive rectangle, each once, in row-major order |
| Board.BoardCells | board.go:131-134 | the iterator over (0,0)-(W−1,H−1) covers exactly the cells inside the board |
| Board.RowsFromLength | board.go:277-292 | the rows of a rectangle hold (maxX − minX + 1)·(maxY − y + 1) cells |
| Board.BoardCellCount | board.go:38-46 | the whole-board iteration yields W·H cells |
| Board.VisitedAdvance | board.go:281-292 | one GetNext step adds exactly the returned cell to the set of visited cells |
| Board.PendingStep | board.go:277-292 | while cells remain, the remaining cells are the returned cell followed by the remaining cells after advancing; once none remain, GetNext leaves none |
| Board.BoardIterator.constructor | board.go:262-275 | the corners are normalised with min/max, the cursor starts at (MinX, MinY), and the cells still to come are the whole inclusive rectangle in row-major order |
| Board.BoardIterator.HasNext | board.go:277-279 | true exactly when some cell of the rectangle is still to come |
| Board.BoardIterator.GetNext | board.go:281-292 | returns the cursor cell, which is the head of the remaining cells; the remaining cells lose exactly that head; the corners do not change |
| Board.BoardIterator.Reset | board.go:294-297 | puts the cursor back at (MinX, MinY), so the whole rectangle is to come again |
| Board.CountColIsCard | board.go:105-116 | the inner loop's count over one column equals the number of set cells in that column slice |
| Board.CountBlockIsCard | board.go:105-116 | the nested loops' count over a block equals the number of set cells in that block |
| Board.CountColBound | board.go:107-113 | a column slice contributes at most its height |
| Board.CountBlockBound | board.go:106-114 | a block contributes at most its width times its height |
| Board.NeighborCountFacts | board.go:105-129 | the neighbour count is the number of set cells in the board-clipped 3×3 block including the cell itself, hence at most 9 |
| Board.CountNeighbors | board.go:105-129 | the nested min/max-bounded loops compute exactly that clipped-block count |
| Board.WithoutFacts | board.go:41-46 | dropping the excepted cell from a list of distinct cells keeps every other cell, stays distinct, and shortens the list by one exactly when the cell was in it |
| Board.WithoutSnoc | board.go:41-46 | filtering one more iterated cell appends it unless it is the excepted cell |
| Board.WithoutPrefix | board.go:41-46 | the filtered prefix of the iteration is a prefix of the whole filtered list, which is how minePlaces fills up in order |
| Board.MinePlacesFacts | board.go:35-46 | minePlaces holds W·H − 1 distinct cells: every board cell except the excepted one |
| Board.MinePlacesLength | board.go:35-38 | the list of candidate places has exactly maxCount = W·H − 1 entries, so the fill loop fits the slice |
| Board.ChosenFromPlaces | board.go:47-53 | every cell chosen after the shuffle is one of the candidate places |
| Board.ChosenCard | board.go:47-53 | the first k shuffled places are k distinct cells |
| Board.Elements | board.go:51-53 | the set of cells of a list holds exactly the list's members |
| Board.ChosenAsPrefix | board.go:47-53 | the first k entries of the shuffled array are exactly the chosen set of k places |
| Board.NotYetChosen | board.go:47-53 | a place later in the shuffled order is not among the earlier chosen ones |
| Board.PlaceInBoard | board.go:47-53 | each shuffled place addresses a cell inside the board, so Mines[x][y] is in range |
| Board.MineSetFacts | board.go:34-55 | the cells PlaceMines marks are min(count, W·H − 1) (or none for a negative count) distinct in-board cells, never the excepted cell |
| Board.Board.constructor | board.go:21-31 | a new board has the given size and three fresh grids with no mine, no revealed cell and no flag |
| Board.Board.IsPosInBoard | board.go:73-75 | true exactly when the position is inside the grid |
| Board.Board.GetNeighborMineCount | board.go:105-116 | the number of mines in the board-clipped 3×3 block including the cell, between 0 and 9 |
| Board.Board.GetNeighborFlagCount | board.go:118-129 | the number of flags in the board-clipped 3×3 block including the cell, between 0 and 9 |
| Board.Board.CheckWin | board.go:131-143 | true exactly when every non-mine cell is revealed |
| Board.Board.Copy | board.go:57-71 | a fresh board of the same size whose three grids equal the original's cell by cell |
| Board.Board.SpreadSafeArea | board.go:77-103 | never reveals a mine, never un-reveals a cell, leaves Mines and Flags alone; reveals the start cell when it is an in-board hidden non-mine; if that cell has no neighbouring mine, every in-board non-mine neighbour ends revealed; terminates because each recursive call reveals a hidden cell |
| Board.Board.SpreadAround | board.go:94-102 | the loop over the 3×3 neighbourhood leaves every in-board neighbour revealed or a mine, with the same never-reveal-a-mine and never-un-reveal guarantees |
| Board.Board.PlaceMines | board.go:34-55 | with the shuffle given as a permutation, each cell ends a mine exactly when it was one or it is among the first min(count, W·H − 1) shuffled places; the candidate list has exactly W·H − 1 cells, so the fill never overruns |
| Board.Board.MarkMines | board.go:51-53 | marking the first n shuffled places adds exactly those cells to the mine set |
| Board.Board.MineCells | board.go:15 | the mine set of the grid is exactly its true cells |
| Board.Board.SetMine | board.go:52 | setting one mine adds exactly that cell to the mine set |
| Common.View | common.go:57-59 | the logical contents of the ring hold exactly Length elements |
| Common.WrapIsMod | common.go:29-37 | the single-subtraction wrap the model reasons with equals Go's `%` for the index ranges the queue produces |
| Common.EnqueueKeepsRing | common.go:24-41 | Enqueue preserves 0 ≤ Length ≤ len(Data), Start and End in range, and End ≡ Start + Length (mod len(Data)) |
| Common.DequeueKeepsRing | common.go:43-55 | Dequeue on a non-empty queue preserves the same ring invariant |
| Common.EnqueueView | common.go:24-41 | after Enqueue the contents are the old contents plus the item at the end, with the oldest element dropped when the queue was full |
| Common.EnqueueRoomView | common.go:35-40 | on a non-full queue Enqueue appends the item and keeps every earlier element |
| Common.EnqueueFullView | common.go:29-34 | on a full queue Enqueue drops the oldest element and appends the item; the length stays len(Data) |
| Common.SlotOfIndex | common.go:57-59 | At(i) for a logical index i < Length reads the slot (Start + i) wrapped into the buffer |
| Common.DequeueView | common.go:43-55 | Dequeue returns the old first element and leaves the old contents minus their head |
| Common.PeekLastIndexAsWritten | common.go:65-67 | the slot index PeekLast computes as written, Go's truncated (End − 1) % n, lies strictly between −n and n |
| Common.PeekLastIndex | common.go:65-67 | the corrected slot of the last element: in range and equal to (Start + Length − 1) mod n |
| Common.PeekLastIndexIsLast | common.go:65-67 | stepping End back by one modulo n lands on the last element's slot |
| Common.PeekLastAsWrittenOutOfRange | common.go:65-67 | a full queue of capacity 2 after two Enqueues has End == 0, and PeekLast as written indexes slot −1 |
| Common.PeekLastAsWrittenNegative | common.go:65-67 | for capacity above 1, PeekLast as written indexes a negative slot exactly when End == 0 |
| Common.CircularQueue.constructor | common.go:10-14 | a new queue is empty with a fresh buffer of the given capacity |
| Common.CircularQueue.IsFull | common.go:16-18 | true exactly when the queue holds len(Data) elements |
| Common.CircularQueue.IsEmpty | common.go:20-22 | true exactly when the queue holds nothing |
| Common.CircularQueue.Enqueue | common.go:24-41 | keeps the ring invariant and the buffer; the contents become the old contents plus the item, minus the oldest element when the queue was full |
| Common.CircularQueue.Dequeue | common.go:43-55 | needs a non-empty queue (the source panics otherwise); returns the old first element and leaves the rest in order |
| Common.CircularQueue.At | common.go:57-59 | for a logical index below Length, returns that element of the contents |
| Common.CircularQueue.PeekFirst | common.go:61-63 | on a non-empty queue, returns the first element |
| Common.CircularQueue.PeekLast | common.go:65-67 | on a non-empty queue, returns the last element (using the corrected index, see Findings) |
| Common.CircularQueue.Clear | common.go:69-73 | empties the queue and zeroes Start, End and Length without touching Data |
| Common.Queue.constructor | common.go:75-77 | a new queue is empty |
| Common.Queue.Length | common.go:79-81 | the number of queued items |
| Common.Queue.IsEmpty | common.go:83-85 | true exactly when nothing is queued |
| Common.Queue.Enqueue | common.go:87-89 | appends the item at the end |
| Common.Queue.Dequeue | common.go:91-101 | needs a non-empty queue (the source indexes Data[0]); returns the old head and shifts the rest left by one |
| Common.Queue.At | common.go:103-105 | the item at the index, which is one of the queued items |
| Common.Queue.PeekFirst | common.go:111-113 | the head of a non-empty queue: the queue is it followed by the rest |
| Common.Queue.PeekLast | common.go:115-117 | the tail item of a non-empty queue: the queue is the rest followed by it |
| Common.Queue.Set | common.go:107-109 | replaces the item at the index and nothing else |
| Common.Queue.Clear | common.go:119-121 | empties the queue |
| Game.FirstDead | game.go:217-222 | the first slot whose particle is Dead, or none when every particle is alive |
| Game.AppendTileParticle | game.go:216-225 | overwrites the first Dead slot when there is one, otherwise appends; the length grows by at most one, the new particle is present, and no live particle is disturbed |
| Game.SkipTraceAppend | game.go:272-282 | skipping two runs of animations in turn produces the concatenation of their Skip/AfterDone call traces |
| Game.SkipTraceSnoc | game.go:273-281 | skipping one more animation appends its Skip call and, when it has one, its AfterDone call |
| Game.UntaggedPrefix | game.go:284-299 | the length of the longest prefix whose tags are all outside `tags`; the element after it, if any, carries one of the tags |
| Game.SkipUntilTagThenAll | game.go:272-299 | with no tags every animation is skipped, and skipping up to a tag and then the rest gives the same call trace as skipping all |
| Game.AnimationQueueUpdate | game.go:257-270 | on an empty queue nothing is called; otherwise the head's Update is called, and only when it is done is it dequeued and its AfterDone (if any) called |
| Game.AnimationQueueSkipAll | game.go:272-282 | empties the queue, calling Skip then AfterDone (if present) for every animation in FIFO order |
| Game.AnimationQueueSkipUntilTag | game.go:284-299 | removes exactly the longest untagged prefix, skipping each removed animation in order; afterwards the queue is empty or its head carries one of the tags |
| Game.SkipHead | game.go:274-281 | one loop step: the dequeued animation is the next one of the original contents, and what was skipped plus what remains is still the original contents |
| Game.UntaggedPrefixIs | game.go:284-299 | a prefix with no tag that ends at the queue end or at a tagged animation is the one the loop stops at |
| Game.NextCursor | game.go:349-352 | advancing the cursor and resetting it at the pool size is (cursor + 1) mod size, so it stays in [0, size) |
| Game.AdvanceCursorRoundRobin | game.go:342-353 | k plays move the cursor to (cursor + k) mod size, and fewer than size plays never reuse a player |
| Game.PlayerPool.constructor | game.go:317-328 | a pool of `size` idle players at position 0 and volume 1, cursor at 0, pool volume 1 |
| Game.PlayerPool.SetVolume | game.go:330-336 | stores the volume clamped to [0, 1] and gives it to every player, changing nothing else |
| Game.PlayerPool.Play | game.go:342-353 | does nothing when sound is not ready; otherwise rewinds and plays the player under the cursor and advances the cursor round-robin, keeping it in [0, size) |
| Game.HiddenSafeBeforeStep | game.go:2923-2930 | the counting loop adds one exactly for an unrevealed non-mine cell |
| Game.HiddenSafeBeforeNext | game.go:2923-2930 | the cells counted so far grow by exactly the current cell when it is unrevealed and safe |
| Game.HiddenSafeBeforeColumn | game.go:2924-2925 | the end of one column is the start of the next |
| Game.HiddenSafeBeforeAll | game.go:2922-2930 | after all columns the counted cells are all unrevealed safe cells |
| Game.CountHiddenSafe | game.go:2921-2930 | tilesToReveal is the number of unrevealed non-mine cells |
| Game.RevealCell | game.go:2938-2939 | revealing one hidden safe cell removes exactly it from the hidden safe cells and changes no other cell |
| Game.RevealIfHidden | game.go:2938-2941 | the reveal-loop step reveals the cell only when it is hidden and safe, decrementing the count by one in that case |
| Game.Game.constructor | game.go:404-408 | a game over its board with the given mine count and mines not yet placed |
| Game.Game.FlagCount | game.go:811-822 | the number of flagged cells of the board |
| Game.Game.RevealAllButOne | game.go:2920-2943 | the hidden safe cells shrink to at most one (exactly one when there was one), only safe cells are revealed, and no cell is un-revealed |
| Game.Game.SetBoardForInstantWin | game.go:2915-2943 | places the mines protecting the bottom-right cell when not placed yet, marks them placed, then leaves at most one hidden safe cell, exactly one when any existed before; it never reveals a mine or un-reveals a cell |
| Game.IsOddTile | game.go:2771-2777 | a tile is odd exactly when x + y is odd, for every integer x and y including negatives |
| Game.IsOddTileParity | game.go:2771-2777 | the source's test on Go's truncating `%` (y even: x odd; y odd: x even) holds exactly when x + y is odd, negatives included |
| Game.RoundCountOfFour | game.go:2668-2674 | the counted corners are the number of true entries among the four |
| Game.RoundTileSwitch | game.go:2676-2722 | the switch on roundCount always yields a sprite in 20..24 and a turn count in 0..3 |
| Game.RoundTileSwitchCorrect | game.go:2660-2725 | unless exactly two opposite corners are rounded, the sprite is 20 + the rounded-corner count and turning it gives exactly the requested corners; two opposite corners fall through to sprite 24 with no turn |
| Game.RoundTileCase | game.go:2676-2724 | the same statement for each of the sixteen corner patterns |
| Game.GetRoundTile | game.go:2660-2725 | returns sprite 20 + the number of rounded corners with turns in 0..3 that draw exactly those corners, except that two opposite corners give sprite 24 unturned |
| Game.FirmNeighbors | game.go:1366-1384 | the firmness of the four neighbours (top, right, bottom, left), off-board counting as not firm |
| Game.Roundness | game.go:1353-1391 | the corner flags after clearing corner i and i+1 for every firm neighbour i |
| Game.TileRoundness | game.go:1353-1391 | the loop over the four neighbours computes exactly those corner flags |
| Game.RoundnessNeverOpposite | game.go:1353-1391 | the rule never yields exactly two opposite rounded corners, so GetRoundTile's fall-through is unreachable from DrawBoard |
| Game.CantorInjective | game.go:1689 | the Cantor pairing (a+b)(a+b+1)/2 + b is injective over naturals |
| Game.PairIsCantor | game.go:1687-1689 | the uint64 `pair` equals the exact Cantor pairing when a + b < 2^32, since nothing wraps |
| Game.PairInjective | game.go:1687-1689 | for coordinates with a + b < 2^32, distinct tiles get distinct pair numbers |
| Game.HighlightTile | game.go:1691-1703 | appends the tile's pair number only when it is not already listed, so the list keeps every earlier entry, gains that tile, and stays duplicate-free |
| WebPlayer.AudioBuffer.Duration | sound/internalplayer.ts:77-79 | a buffer's duration, frames over sample rate, is never negative |
| WebPlayer.PlayStep | sound/internalplayer.ts:50-65 | play() is a no-op while Playing; otherwise the player becomes Playing with playStartedAt = now, keeps its play head, and starts a new source carrying the 'ended' listener |
| WebPlayer.PauseAsWritten | sound/internalplayer.ts:67-75 | pause() as written: a no-op while Paused; otherwise adds now − playStartedAt to the play head, drops the source and becomes Paused, but the stopped source keeps its 'ended' listener |
| WebPlayer.PauseStep | sound/internalplayer.ts:67-75 | pause() corrected: the same, and the stopped source no longer carries the listener, as setPosition already does at lines 96-100 |
| WebPlayer.ClampTo | sound/internalplayer.ts:89-94 | setPosition's clamp lands in [0, duration] and leaves an in-range argument alone |
| WebPlayer.SetPositionStep | sound/internalplayer.ts:88-114 | the play head becomes the clamped argument; a Paused player changes nothing else; a Playing player stays Playing with playStartedAt = now and moves the listener from the old source to a new one |
| WebPlayer.SetVolumeStep | sound/internalplayer.ts:120-128 | the gain becomes the volume clamped to [0, 1], equal to it when already in range; nothing else changes |
| WebPlayer.EndedStep | sound/internalplayer.ts:32-39 | an 'ended' event from a source carrying the listener turns a Playing player Paused at the buffer's duration, leaves a Paused player's play head alone, and in every case clears the source; an event from any other source changes nothing |
| WebPlayer.PauseThenPlayKeepsPosition | sound/internalplayer.ts:67-86 | pause() followed by play() at the same clock instant leaves position() unchanged, for the source as written and as corrected |
| WebPlayer.PositionAdvances | sound/internalplayer.ts:81-86 | while Playing, position() advances exactly with the clock (and is not clamped to the duration) |
| WebPlayer.SetPositionThenPosition | sound/internalplayer.ts:81-114 | right after setPosition(at), position() is at clamped to [0, duration] |
| WebPlayer.ListenerInvPreserved | sound/internalplayer.ts:23-128 | with the corrected pause, the only source carrying the listener is the current one, and every operation keeps it so |
| WebPlayer.StaleEndedIgnored | sound/internalplayer.ts:32-39 | under that invariant an 'ended' event from a stopped source changes nothing |
| WebPlayer.LateEndedAfterPauseAsWritten | sound/internalplayer.ts:67-75 | with pause() as written, play; pause; play followed by the first source's late 'ended' event stops the newly playing player and jumps its position to the duration |
| WebPlayer.LateEndedAfterPause | sound/internalplayer.ts:67-75 | with the corrected pause, that late event is ignored and the player keeps playing |
| WebPlayer.PlayerStatics.constructor | sound/internalplayer.ts:6-7 | the shared id counter starts at 0, along with the abstract audio clock and source counter |
| WebPlayer.InternalPlayer.constructor | sound/internalplayer.ts:23-40 | each new player gets id = previous counter + 1 and bumps the counter, so ids are strictly increasing and unique; it starts Paused at 0 with no source and gain 1 |
| WebPlayer.InternalPlayer.Play | sound/internalplayer.ts:50-65 | the player's new state is PlayStep at the current clock, and a source node is created only when it was Paused |
| WebPlayer.InternalPlayer.Pause | sound/internalplayer.ts:67-75 | the player's new state is the corrected PauseStep at the current clock |
| WebPlayer.InternalPlayer.GetPosition | sound/internalplayer.ts:81-86 | now − playStartedAt + playHead while Playing, playHead while Paused |
| WebPlayer.InternalPlayer.SetPosition | sound/internalplayer.ts:88-114 | the player's new state is SetPositionStep with the buffer's duration, and a source node is created only when it was Playing |
| WebPlayer.InternalPlayer.Duration | sound/internalplayer.ts:77-79 | the buffer's duration, never negative for a positive sample rate |
| WebPlayer.InternalPlayer.Volume | sound/internalplayer.ts:116-118 | the current gain |
| WebPlayer.InternalPlayer.SetVolume | sound/internalplayer.ts:120-128 | the player's new state is SetVolumeStep: the gain clamped to [0, 1] |
| WebPlayer.InternalPlayer.OnEnded | sound/internalplayer.ts:32-39 | the player's new state is EndedStep for the source that fired |
| WebSound.OnResumed | sound/sound.ts:32-45 | one resumed event calls ON_AUDIO_RESUME exactly when it is defined and not yet called; the listeners are removed exactly when it is defined |
| WebSound.ResumeAtMostOnce | sound/sound.ts:24-45 | however many qualifying events fire, ON_AUDIO_RESUME is called at most once, never again once it has been called |
| WebSound.ListenersRemovedOnlyAfterCall | sound/sound.ts:34-43 | the listeners are gone only if ON_AUDIO_RESUME has been called, and while it is undefined every event leaves them registered |
| WebSound.CreateBuffer | sound/sound.ts:87-88 | createBuffer succeeds for at least one channel, at least one frame and a sample rate in [3000, 768000], giving zeroed channels of that shape |
| WebSound.CopyToChannel | sound/sound.ts:91 | copyToChannel overwrites the first frames of channel c with the source samples and leaves every other channel and frame alone |
| WebSound.UndecodedLengthAsWrittenTooLong | sound/sound.ts:81-88 | a two-sample mono channel makes an 8-frame buffer as written, four times the intended duration |
| WebSound.UndecodedBufferHoldsChannels | sound/sound.ts:76-95 | with the corrected length, the stored buffer holds exactly the given channels, in order, and lasts samples / sampleRate |
| WebSound.FillChannels | sound/sound.ts:90-92 | the channel-copy loop keeps the buffer's shape |
| WebSound.FillChannelsCopies | sound/sound.ts:90-92 | after copying k channels, channel i < k holds channelDatas[i] and the later channels are untouched |
| WebSound.Shim.constructor | sound/sound.ts:9-10 | the buffer and player tables start empty |
| WebSound.Shim.NewBufferFromAudioFile | sound/sound.ts:55-74 | reports true exactly when decoding succeeds, and only then stores the buffer under the name; a synchronous throw or a rejection stores nothing |
| WebSound.Shim.NewBufferFromUndecodedAudioFile | sound/sound.ts:76-95 | creates a buffer with one channel per array and the corrected frame length, copies the channels in order, and stores it under the name; nothing is stored when createBuffer fails |
| WebSound.Shim.NewPlayer | sound/sound.ts:100-106 | stores a fresh paused player over the named buffer under the next id, returns that id, and touches no other player |
| WebSound.Shim.PlayerIsPlaying | sound/sound.ts:108-110 | true exactly when that player's state is Playing |
| WebSound.Shim.PlayerPlay | sound/sound.ts:112-114 | delegates to that player's play() |
| WebSound.Shim.PlayerPause | sound/sound.ts:116-118 | delegates to that player's pause() |
| WebSound.Shim.PlayerPosition | sound/sound.ts:124-126 | that player's position() at the current clock |
| WebSound.Shim.PlayerSetPosition | sound/sound.ts:128-130 | delegates to that player's setPosition() |
| WebSound.Shim.PlayerDuration | sound/sound.ts:120-122 | that player's buffer duration |
| WebSound.Shim.PlayerVolume | sound/sound.ts:132-134 | that player's gain |
| WebSound.Shim.PlayerSetVolume | sound/sound.ts:136-138 | delegates to that player's setVolume() |
| Math.FPoint.Add | math.go:23-33 | adding q and then subtracting it gives the point back |
| Math.FRectangle.Inset | math.go:126-145 | an axis narrower than 2n collapses to its midpoint; otherwise both of its bounds move inward by n; the result is always canonical |
| Math.FRectangle.Intersect | math.go:147-170 | the result holds exactly the points both rectangles hold; an empty intersection is the zero rectangle, and a non-empty one is In both operands |
| Math.FRectangle.Union | math.go:172-193 | an empty operand yields the other operand; otherwise both operands are In the result, and it is In every rectangle that holds both |
| Math.FRectangle.Canon | math.go:224-234 | swaps bounds as needed so that Min ≤ Max on both axes, keeps the same coordinate pairs, and leaves a canonical rectangle unchanged |
| Math.NoPointInEmpty | math.go:195-198 | an Empty rectangle holds no point (Max is exclusive) |
| Math.EmptyIffNoPoint | math.go:195-198 | Empty (Min.X ≥ Max.X or Min.Y ≥ Max.Y) holds exactly when the rectangle holds no point |
| Math.InIffSubset | math.go:213-222 | r.In(s) holds exactly when every point of r is a point of s |
| Math.OverlapsFacts | math.go:206-211 | Overlaps is symmetric, false whenever either rectangle is Empty, and true exactly when the intersection is not empty |
| Math.CanonIdempotent | math.go:224-234 | Canon applied twice equals Canon applied once |
| Math.InsetZero | math.go:126-145 | Inset(0) is the identity on canonical rectangles |
| Math.PointInClosed | math.go:45-48 | FPoint.In treats the rectangle as closed, so every point of r is In it, and so is Max, which r does not hold |
| Math.FRectMoveTo | math.go:341-346 | the result's Min is the given point and its width and height are the original's |
| Math.CenterFRectangle | math.go:317-332 | the result keeps the width and height and its centre is (x, y) |
| Math.Lerp | math.go:348-350 | Lerp is a at t = 0 and b at t = 1, and stays between a and b for t in [0, 1] |
| Math.Clamp | math.go:352-357 | for lo ≤ hi the result lies in [lo, hi] and equals n when n already does; for lo > hi, max applied last makes it lo |
| Math.ClampInt | math.go:352-357 | the same clamp over integers, the instance Go uses for ints |
| Util.GetHourMinuteSeconds | util.go:100-106 | every component takes the sign of the duration, and minutes and seconds are below 60 in magnitude |
| Util.HourMinuteSecondsNonNegative | util.go:100-106 | for a non-negative duration, minutes and seconds lie in [0, 59] and h·3600 + m·60 + s is the duration in whole seconds |
| Util.HourMinuteSecondsNegative | util.go:100-106 | Go's division truncates toward zero, so a negative duration gives exactly the negated components of its absolute value, each ≤ 0 |
| Util.CheckFileExtMeans | util.go:112-117 | true exactly when the extension, ASCII-lower-cased, is a suffix of the ASCII-lower-cased path (non-ASCII case: see Left out) |
| Util.CheckFileExt | util.go:112-117 | a match needs an extension no longer than the path, and an exact suffix always matches |
| Util.CheckFileExtSameCase | util.go:109 | CheckFileExt("image.png", ".png") is true |
| Util.CheckFileExtUpperCase | util.go:110 | CheckFileExt("image.PNG", ".png") is true |
| Util.CheckFileExtOtherExt | util.go:111 | CheckFileExt("image.jpg", ".png") is false |
| Util.New2DArray | util.go:64-70 | returns `width` distinct fresh rows, each of length `height`, every entry the zero value |
| Sprite.ColCount | sprite.go:29-41 | the column count is at least 1, so the later `%` and `/` never divide by zero |
| Sprite.SpriteRect | sprite.go:23-53 | fails with the index-out-of-range message exactly when n < 0 or n ≥ Count, and also when Width + Margin or Height + Margin is 0 (Go's integer division by zero); otherwise the rectangle is Width wide and Height high |
| Sprite.SpriteRectCell | sprite.go:44-52 | a valid index sits at column n mod colCount and row n div colCount, and its Min is (col·(W+M), row·(H+M)) offset by the image's Min |
| Sprite.SpriteRectDistinct | sprite.go:44-52 | when Width + Margin and Height + Margin are positive, distinct valid indices get distinct Min corners |
| Sprite.SpriteFRect | sprite.go:55-61 | fails exactly when SpriteRect does; otherwise it is the same rectangle in reals, Width by Height |
| Input.RepeatStep | input.go:20-48 | released: returns false and sets the entry to 0; just pressed, or held with no entry: returns true and sets the entry to now + firstRate; otherwise held: returns true exactly when now − entry > repeatRate, and then sets the entry to now; no other button's entry changes |
| Input.MouseRepeat.constructor | input.go:18 | the repeat map starts empty |
| Input.MouseRepeat.HandleMouseButtonRepeat | input.go:20-48 | the result and the new repeat map are those of RepeatStep for the button's state and the clock |
| Input.Hold | input.go:39-45 | holding the button over a run of frames gives one answer per frame |
| Input.LastTrue | input.go:41-43 | the last frame on which the button fired, or −1 |
| Input.EntryBeforePrefix | input.go:39-45 | the entry before frame j depends only on the frames before j |
| Input.EntryBeforeLast | input.go:41-43 | after a run of frames the entry is the time of the last firing frame, or the entry from before the run if none fired |
| Input.HoldEntry | input.go:39-45 | after holding over a run of frames, the button's entry is the time of its last firing, or unchanged when it never fired |
| Input.HoldPrefix | input.go:39-45 | the answers for the first k frames do not depend on later frames |
| Input.HoldFires | input.go:40-44 | while held, frame j fires exactly when more than repeatRate has passed since the last firing (or the initial entry) |
| Input.FirstRepeat | input.go:29-44 | after a press at t0, the first further firing while held needs now > t0 + firstRate + repeatRate |
| Input.RepeatSpacing | input.go:40-44 | consecutive firings while held are more than repeatRate apart |
| Button.UpdateStep | button.go:32-67 | disabled: Normal and no click; cursor outside Rect: Normal and no click; inside: Down if the left button is pressed, Hover otherwise; without repeat, OnClick fires exactly when inside, just pressed and OnClick is set; with RepeateOnHold it fires exactly when HandleMouseButtonRepeat returns true while inside |
| Button.BaseButton.constructor | button.go:19-30 | a button with its rectangle and callback, enabled, not repeating and Normal |
| Button.BaseButton.Update | button.go:32-67 | the new State, the click and the repeat map are those of UpdateStep; the button's configuration does not change |
| Button.ClickNeedsCursor | button.go:33-56 | a click needs an enabled button, a set OnClick and the cursor inside Rect |
| Button.DownIff | button.go:33-66 | the state is Down exactly when the button is enabled, the cursor is inside Rect and the left button is pressed |
| Graphics.Pop | graphics.go:31 | popping keeps every element below the top, in order, and shortens the stack by one |
| Graphics.PushThenTopPop | graphics.go:22-56 | after a Begin the current element is the pushed one, and Begin followed by End restores the stack exactly |
| Graphics.PopBase | graphics.go:28-38 | ending the base element leaves an empty stack, on which Current would index out of range |
| Graphics.GraphicsContext.constructor | graphics.go:14-20 | init leaves one zero blend, one linear filter and anti-aliasing on |
| Graphics.GraphicsContext.BeginBlend | graphics.go:22-26 | pushes the blend and changes nothing else |
| Graphics.GraphicsContext.EndBlend | graphics.go:28-32 | needs a non-empty stack (the slice expression panics otherwise) and pops it, changing nothing else |
| Graphics.GraphicsContext.CurrentBlend | graphics.go:34-38 | the top of the blend stack, so an element of it |
| Graphics.GraphicsContext.BeginFilter | graphics.go:40-44 | pushes the filter and changes nothing else |
| Graphics.GraphicsContext.EndFilter | graphics.go:46-50 | needs a non-empty stack and pops it, changing nothing else |
| Graphics.GraphicsContext.CurrentFilter | graphics.go:52-56 | the top of the filter stack, so an element of it |
| Graphics.GraphicsContext.IsAntiAliasOn | graphics.go:58-60 | the last value given to SetAntiAlias (true after init) |
| Graphics.GraphicsContext.SetAntiAlias | graphics.go:62-64 | stores the flag and leaves both stacks alone |
| DebugPrint.FindKey | debug_print.go:37-42 | the index of the first message with the key, or −1 when no message has it |
| DebugPrint.PutMsg | debug_print.go:34-48 | an existing key has its first match's value replaced in place, with length, keys and order unchanged; a new key is appended at the end |
| DebugPrint.PutThenLookup | debug_print.go:34-48 | after a put, looking the key up gives the new value and every other key gives what it gave before |
| DebugPrint.FindKeySameKeys | debug_print.go:37-42 | a replacement that keeps the keys keeps the position of every key |
| DebugPrint.FindKeyAppend | debug_print.go:44-47 | appending a message under a new key finds that key at the end and every other key where it was |
| DebugPrint.PutKeepsUnique | debug_print.go:34-48 | when only DebugPuts writes, keys stay unique |
| DebugPrint.PutPersistAsWritten | debug_print.go:58-72 | DebugPutsPersist as written: a new key is appended to the persistent list; an existing persistent key at index i leaves the persistent list unchanged and writes DebugMsgs[i] instead, which panics when i ≥ len(DebugMsgs) |
| DebugPrint.PutPersistAsWrittenWrongList | debug_print.go:61-66 | re-putting persistent "fps" with no plain messages panics, and with one plain message it overwrites the unrelated "mouse" value |
| DebugPrint.Lines | debug_print.go:84-86 | one "key: value" line per message, in order |
| DebugPrint.JoinAsTerminated | debug_print.go:88-91 | writing "\n" after every message except the last is joining the lines with "\n" |
| DebugPrint.TerminatedSnoc | debug_print.go:84-91 | one more message adds its line and a newline |
| DebugPrint.TextSplitsIntoLines | debug_print.go:79-103 | when no key or value holds a newline, splitting the assembled text on "\n" gives back exactly the message lines |
| DebugPrint.DebugPrintManager.constructor | debug_print.go:17-24 | both message lists start empty |
| DebugPrint.DebugPrintManager.DebugPuts | debug_print.go:34-48 | the plain list becomes PutMsg of it; the persistent list is untouched |
| DebugPrint.DebugPrintManager.DebugPutsPersist | debug_print.go:58-72 | corrected: the persistent list becomes PutMsg of it and the plain list is untouched (see Findings) |
| DebugPrint.DebugPrintManager.ClearDebugMsgs | debug_print.go:171-175 | empties the plain list and leaves the persistent list untouched |
| DebugPrint.DebugPrintManager.DebugText | debug_print.go:74-112 | the text is "key: value" per message, persistent messages first, joined by "\n" with no trailing newline |
| DebugPrint.AppendLine | debug_print.go:84-91 | one loop step: after a message that is not the last, the text ends with its line and a newline; after the last, the text is the whole join |
| GameUI.TimerUI.constructor | game_ui.go:515-521 | a new timer is stopped and shows zero |
| GameUI.TimerUI.Start | game_ui.go:628-631 | the timer ticks from `now`, keeping the time it showed when stopped |
| GameUI.TimerUI.Pause | game_ui.go:633-636 | the timer stops and freezes at now − startTime, discarding any time shown before the last Start |
| GameUI.TimerUI.Reset | game_ui.go:638-641 | the timer stops at zero |
| GameUI.TimerUI.CurrentTime | game_ui.go:643-648 | the shown time of the timer's state at `now`: timeStartFrom + (now − startTime) while ticking, timeStartFrom while stopped |
| GameUI.TimerMonotone | game_ui.go:643-648 | a ticking timer never goes backwards and a stopped one stands still |
| GameUI.TimerResetStart | game_ui.go:638-648 | after Reset the timer shows 0 at any time; after Start at t0 it shows the earlier frozen time plus now − t0 |
| GameUI.StartPauseTwice | game_ui.go:628-648 | Start/Pause/Start/Pause reports only the last running segment |
| GameUI.StepLeft | game_ui.go:329-335 | the left button moves to max(d − 1, 0) and reports a change only when the value changed, which for a valid difficulty is exactly when d > 0 |
| GameUI.StepRight | game_ui.go:348-354 | the right button moves to min(d + 1, DifficultySize − 1) and reports a change only when the value changed, which for a valid difficulty is exactly when d < DifficultySize − 1 |
| GameUI.StepsUndo | game_ui.go:329-354 | away from the ends, a left step undoes a right step and a right step undoes a left step |
| GameUI.DifficultySelectUI.constructor | game_ui.go:309-320 | the stepper starts at the easiest difficulty, with or without a change callback |
| GameUI.DifficultySelectUI.PressLeft | game_ui.go:329-335 | the difficulty becomes StepLeft's, and OnDifficultyChange is called with it only when it is set and the value changed |
| GameUI.DifficultySelectUI.PressRight | game_ui.go:348-354 | the difficulty becomes StepRight's, and OnDifficultyChange is called with it only when it is set and the value changed |
| GameUI.MuteButtonUI.constructor | game_ui.go:658-673 | not muted, showing the speaker sprite 17 |
| GameUI.MuteButtonUI.Press | game_ui.go:675-688 | each press flips IsMute, shows sprite 16 when muted and 17 otherwise, and sets the global volume to 0 when muted and 1 otherwise, touching nothing else of the sound manager |
| Sound.SetPlayerVolume | sound.go:192-196 | the player's volume becomes v clamped to [0, 1], its backend volume becomes that times the global volume, and playback is untouched |
| Sound.FirstIdle | sound.go:141-148 | the first pooled player that is not playing, or −1 when all are |
| Sound.PoolPlay | sound.go:141-155 | the first idle player is reused (volume set, rewound, played) without growing the pool; when all are busy a new playing player is appended; no other player changes |
| Sound.PoolGrowsOnlyWhenBusy | sound.go:141-155 | the pool grows exactly when every player for that sound is playing, and by at most one |
| Sound.PoolPlayKeepsSynced | sound.go:141-155 | if every player's backend volume is its volume times the global volume, PlaySoundBytes keeps it so |
| Sound.Reapply | sound.go:69-74 | re-applying sets the backend volume to volume × global and changes nothing else |
| Sound.SoundManager.constructor | sound.go:31-51 | the volume and previous volume start at 1, with no players, an empty pool map and the context not ready |
| Sound.SoundManager.GlobalVolume | sound.go:118-122 | the stored global volume |
| Sound.SoundManager.SetGlobalVolume | sound.go:124-127 | stores v clamped to [0, 1] and nothing else |
| Sound.SoundManager.IsSoundReady | sound.go:129-132 | whether the audio context has become ready |
| Sound.SoundManager.PlaySoundBytes | sound.go:134-156 | does nothing unless the context is ready; otherwise the sound's pool becomes PoolPlay of it; volume sync is kept |
| Sound.SoundManager.UpdateSound | sound.go:54-92 | contextReady, once true, stays true; when the global volume changed since the last update every player and every pooled player is its old self with the backend volume re-applied (same pools, same order, same volume, playing state and position), otherwise nothing is; prevVolume becomes the volume |
| Sound.SoundManager.ReapplyAll | sound.go:67-77 | every player, plain and pooled, is its old self with backend volume = volume × global; the pools keep their keys, sizes and order, and volume, playing state and position are unchanged |
| Sound.ReapplyPool | sound.go:72-76 | re-applies the volume to every player of one pool, in place |
| NameTable.ToMap | color_table.go:49-53 | the map built by the To-JSON loops has exactly the index names as keys |
| NameTable.StringToIndex | color_table.go:73-76 | the name-to-index map has exactly the index names as keys |
| NameTable.StringToIndexLast | color_table.go:73-76 | a name maps to the last index carrying it, since later loop iterations overwrite earlier ones |
| NameTable.ToMapLast | color_table.go:51-53 | the map holds, under each name, the entry of the last index carrying that name |
| NameTable.LastUnique | color_table.go:73-76 | two indices that are each the last to carry the same name are the same index |
| NameTable.DecodeByKeys | color_table.go:78-82 | decoding by iterating the parsed map's keys gives one entry per index |
| NameTable.DecodeByNames | beziercurve_data.go:64-70 | decoding by iterating the index names gives one entry per index |
| NameTable.RoundTripByKeys | color_table.go:48-85 | with pairwise distinct names, decoding (zero for absent) the map an encoding built gives the table back |
| NameTable.RoundTripByNames | beziercurve_data.go:34-73 | with pairwise distinct names, decoding (a default for absent) the map an encoding built gives the table back |
| NameTable.IgnoresOtherKeys | color_table.go:78-82 | a map key that is no index name changes nothing, for both decoders |
| NameTable.DecodersDiffer | beziercurve_data.go:64-70 | an index whose name is absent gets the zero value from the key-driven decoder and the default from the name-driven one; a present name gives its map value in both |
| NameTable.ToJson | color_table.go:48-53 | the loop over the indices builds exactly that map |
| NameTable.BuildStringToIndex | color_table.go:73-76 | the loop over the indices builds exactly the name-to-index map |
| NameTable.FromJsonByKeys | color_table.go:63-85 | the loop over the parsed map's keys, in any order, builds exactly the key-driven decoding |
| NameTable.StoreByKey | color_table.go:79-81 | one key step: a key that names an index stores its value there; any other key changes nothing |
| NameTable.FromJsonByNames | beziercurve_data.go:59-72 | the loop over the index names, in any order, builds exactly the name-driven decoding |
| NameTable.StoreByName | beziercurve_data.go:65-69 | one name step: store the map's value when the name is a key, the default otherwise |
| ColorTable.Names | color_table.go:51-52 | there is one key per colour index |
| ColorTable.NamesDistinct | color_table.go:51-52 | the keys String() gives the ten indices are pairwise distinct |
| ColorTable.ColorTableToJson | color_table.go:48-61 | exactly one map entry per index, under its String() name, holding that index's colour |
| ColorTable.ColorTableFromJson | color_table.go:63-85 | fails (with the zero table) exactly when the JSON does not parse; otherwise each index takes the colour under its name, absent indices stay the zero colour, and other keys are ignored |
| ColorTable.ColorTableRoundTrip | color_table.go:48-85 | loading a saved table gives it back |
| ColorTableIndexString.IndexSteps | colortableindex_string.go:45-47 | consecutive offsets differ by the length of the name between them |
| ColorTableIndexString.IndexIsPrefixLength | colortableindex_string.go:45-47 | the k-th offset is the length of the first k names back to back |
| ColorTableIndexString.ConcatSlice | colortableindex_string.go:53 | slicing the joined names between a prefix's length and that plus the next name's length gives that name |
| ColorTableIndexString.NameDataLength | colortableindex_string.go:45-47 | the name string is 450 characters and every offset lies within it |
| ColorTableIndexString.String | colortableindex_string.go:49-54 | never empty; an in-range index's name is as long as the gap between its two offsets |
| ColorTableIndexString.StringIsName | colortableindex_string.go:49-54 | for 0 ≤ i < 32, String(i) is the i-th index name |
| ColorTableIndexString.IndexIncreasing | colortableindex_string.go:47 | the offsets are strictly increasing, so every name is non-empty |
| ColorTableIndexString.NamesDistinct | colortableindex_string.go:45-47 | the 32 in-range names are pairwise distinct |
| ColorTableIndexString.UnknownInjective | colortableindex_string.go:50-52 | different out-of-range values print differently |
| ColorTableIndexString.StringUnknown | colortableindex_string.go:50-52 | an out-of-range value prints as "ColorTableIndex(" + decimal + ")" |
| ColorTableIndexString.NameEnd | colortableindex_string.go:53 | an in-range name is non-empty and does not end in ')' |
| ColorTableIndexString.NamesDiffer | colortableindex_string.go:49-54 | distinct in-range indices have distinct names |
| ColorTableIndexString.UnknownsDiffer | colortableindex_string.go:50-52 | distinct out-of-range values have distinct texts |
| ColorTableIndexString.NameIsNotUnknown | colortableindex_string.go:49-54 | no in-range name equals an out-of-range text |
| ColorTableIndexString.StringInjective | colortableindex_string.go:49-54 | String is one-to-one on all integers, which the table round trips rely on |
| BezierData.NamesDistinct | beziercurve_data.go:9-24 | the nine Bézier index names are pairwise distinct |
| BezierData.InitBezierTable | beziercurve_data.go:28-32 | init sets every one of the nine entries to DefaultBezierCurveData |
| BezierData.BezierTableToJson | beziercurve_data.go:34-47 | exactly one map entry per index, under its name, holding that index's curve |
| BezierData.BezierTableFromJson | beziercurve_data.go:49-73 | fails (with the zero table) exactly when the JSON does not parse; otherwise each index takes the curve under its name, a missing index gets DefaultBezierCurveData, and other keys are ignored |
| BezierData.BezierTableRoundTrip | beziercurve_data.go:34-73 | loading a saved table gives it back |
| HSVMod.NamesDistinct | hsv_mod.go:15-19 | the index names are pairwise distinct |
| HSVMod.HSVmodTableToJson | hsv_mod.go:23-36 | exactly one map entry per index, under its name |
| HSVMod.HSVmodTableFromJson | hsv_mod.go:38-60 | fails (with the zero table) exactly when the JSON does not parse; otherwise each index takes the value under its name, a missing index stays the zero HSVmod (unlike the Bézier table's default), and other keys are ignored |
| HSVMod.HSVmodTableRoundTrip | hsv_mod.go:23-60 | loading a saved table gives it back |
| BezierEditor.ScreenControlRoundTrip | beziercurve_editor.go:339-361 | for a curve rectangle of non-zero width and height, the screen-to-control and control-to-screen mappings undo each other, both ways |
| BezierEditor.Shrink | beziercurve_editor.go:320-332 | the end points are pinned to x = 0 and x = 1 with y clamped to [-1, 1], and the inner points are scaled towards their end point by 1/3 of their clamped offset |
| BezierEditor.Expand | beziercurve_editor.go:309-318 | the end points are carried over unchanged |
| BezierEditor.GetAfterSet | beziercurve_editor.go:309-337 | reading the data back after setting it gives the clamped data: shrinking then expanding loses nothing beyond the clamp |
| BezierEditor.PickFocus | beziercurve_editor.go:124-133 | -1 exactly when no control point is within 20 pixels of the cursor; otherwise the first point in priority order 1, 2, 0, 3 that is |
| BezierEditor.ClampPoints | beziercurve_editor.go:145-162 | end points pinned and clamped; inner points clamped in x and then moved by the same delta as their end point |
| BezierEditor.ClampPointsAtRest | beziercurve_editor.go:145-162 | when the end points did not move, the inner points stay within their x bands and the end points are kept |
| BezierEditor.UpdateStep | beziercurve_editor.go:120-162 | releasing the button drops the focus, holding it keeps the focus, and the end points always end pinned and within [-1, 1] |
| BezierEditor.DraggedPointFollowsCursor | beziercurve_editor.go:135-162 | a dragged inner point moves to the cursor's control position, clamped in x, plus its end point's delta |
| BezierEditor.Editor.constructor | beziercurve_editor.go:37-84 | a new editor holds the default curve's points with nothing focused |
| BezierEditor.Editor.GetBezierCurveData | beziercurve_editor.go:309-318 | the data is the expansion of the editor's points and is valid |
| BezierEditor.Editor.SetToBezierCurveData | beziercurve_editor.go:320-337 | the points become the shrunk data; reading them back yields the clamped data; rectangle and focus unchanged |
| BezierEditor.Editor.Update | beziercurve_editor.go:93-168 | the new points and focus are exactly the pure update step from the old ones |
| Itch.RowStartIsProduct | itch.go:402-405 | row y starts at y·(w+1) in the text buffer |
| Itch.RowStartGrows | itch.go:402-405 | a later row starts after the whole of an earlier one, newline included |
| Itch.NewlinePos | itch.go:404-406 | the newline of row y sits at (y+1)·(w+1) - 1, the offset the source writes |
| Itch.PosBound | itch.go:402-411 | every cell and newline offset lies inside the (w+1)·h buffer |
| Itch.PosInjective | itch.go:409-411 | distinct positions of the grid (newline column included) get distinct offsets, so no write clobbers another |
| Itch.DumpBoolBoard | itch.go:399-421 | the text holds trueChar or falseChar at each cell's offset and a newline at the end of every row |
| Itch.WriteColumn | itch.go:413-420 | the inner loop writes column x's cells and leaves every other offset as it was |
| Itch.WriteCell | itch.go:414-419 | one write: the cell's character at its offset, nothing else changes |
| Itch.DumpRows | itch.go:399-421 | each row of the text is the row's characters followed by a newline |
| Itch.NextTileType | itch.go:188-193 | the next tile type stays within [0, TileTypeSize) and is the successor when there is one |
| Itch.NextNumber | itch.go:201-206 | the next number stays within [0, 9) and is the successor when there is one |
| Itch.TileTypeCycle | itch.go:188-193 | middle clicks cycle through every tile type, returning to the start after exactly TileTypeSize clicks and not before |
| Itch.IterateTileType | itch.go:188-193 | k middle clicks advance the tile type by k modulo TileTypeSize |
| Itch.CellStep | itch.go:162-209 | releasing the button resets the mode; a press on a drawn tile hides, on a hidden one shows; show/hide set the draw flag; a hidden tile keeps its type and number; a newly shown tile is revealed with number 0; types and numbers stay in range |
| Itch.MockupBoard.UpdateAt | itch.go:162-209 | outside the board nothing changes; inside, the mode and the cell become the cell step of the old ones, every other cell unchanged |
| Itch.MockupBoard.PaintAt | itch.go:172-184 | the left-button part of the step on one cell, others unchanged |
| Itch.MockupBoard.CycleAt | itch.go:186-208 | the middle/right-button part of the step on one drawn cell, others unchanged |
| TileGen.RowIndex | tilegen.go:88-106 | the c-th fill of a row is tile (r, c) |
| TileGen.RowsIndex | tilegen.go:85-111 | the fill at r·cols + c is tile (r, c), in row-major order |
| TileGen.RowsLength | tilegen.go:85-111 | rows·cols fills are drawn |
| TileGen.Alternates | tilegen.go:89-94 | horizontally and vertically adjacent tiles get different colours |
| TileGen.DrawTile | tilegen.go:80-112 | the loop draws exactly the row-major checkerboard of tiles, nothing when either count is not positive |
| TileGen.DrawRow | tilegen.go:88-110 | one row draws its tiles left to right, and the toggle it leaves (flipped again for an even width) is the parity of the next row's start |
| TileGen.NextRowParity | tilegen.go:108-110 | flipping the toggle after an even width makes the next row start on the right colour |
| GoStrings.ToLower | util.go:113-114 | every ASCII capital becomes its small letter and every other character is kept, length unchanged (ASCII only: see Left out) |
| GoStrings.ToLowerIdempotent | util.go:113-114 | lower-casing twice is lower-casing once |
| GoStrings.TrimSpace | build.go:344 | the trimmed text neither starts nor ends with white space and is no longer than the input |
| GoStrings.TrimSpaceParts | build.go:344 | the trimmed text is a slice of the input with only white space cut off either side |
| GoStrings.TrimSpaceKeepsLead | build.go:344-354 | a line not starting with white space is trimmed to a prefix of itself followed only by white space |
| GoStrings.TrimSpaceUnchanged | sound_srcs_gen.go:46 | text already without surrounding white space is left as it is |
| GoStrings.Trim | sound_srcs_gen.go:59 | the result neither starts nor ends with a cut-set character and is no longer than the input |
| GoStrings.IndexOf | build.go:334 | the index of the first occurrence of the separator |
| GoStrings.Split | build.go:334 | at least one part, none containing the separator |
| GoStrings.JoinSplit | build.go:334 | joining the parts of a split with the separator gives the text back |
| GoStrings.SplitJoin | build.go:334 | splitting a join of separator-free parts gives the parts back |
| GoStrings.TerminatedIsJoin | build.go:298-319 | writing each line followed by a newline is joining the lines plus an empty last part |
| GoStrings.Word | build.go:354 | the first word is a white-space-free prefix ending at white space or the end |
| GoStrings.Fields | build.go:354 | the fields are non-empty and contain no white space |
| GoStrings.FieldsOfWord | build.go:354 | a leading word followed by white space is the first field |
| GoStrings.FieldsOfPair | build.go:354-356 | "name value" with two white-space-free words splits into exactly those two fields |
| GoStrings.NormalizeNewlines | build.go:332 | replacing CRLF by LF never lengthens the text |
| GoStrings.NormalizeNewlinesNoCR | build.go:332 | text without carriage returns is unchanged |
| GoStrings.ReplaceRune | build.go:826-829 | each occurrence of the one character is replaced by the other and nothing else changes |
| GoInt.Quot | tilegen.go:108 | Go's truncating division: magnitude |a|/|b|, sign of a·b |
| GoInt.Rem | common.go:66 | Go's remainder: smaller in magnitude than the divisor, with the sign of the dividend |
| GoInt.QuotRem | common.go:66 | the quotient and remainder recompose the dividend |
| GoInt.NonNegativeAgree | common.go:57-59 | on non-negative operands Go's / and % agree with Euclidean division |
| GoInt.RemTwoEven | tilegen.go:108 | a Go remainder by two is zero exactly when the number is even |
| GoInt.QuotRemNegate | common.go:66 | negating the dividend negates Go's quotient and remainder |
| GoConv.FormatInt | colortableindex_string.go:51 | decimal text: a leading '-' exactly for negative numbers, digits otherwise |
| GoConv.DigitsRoundTrip | colortableindex_string.go:51 | parsing the decimal digits of n gives n |
| GoConv.DigitsInjective | colortableindex_string.go:51 | different numbers have different digit strings |
| GoConv.FormatIntInjective | colortableindex_string.go:51 | different integers format differently |
| SoundSrcsGen.SplitName | sound_srcs_gen.go:48-56 | the line splits at its first white space into a white-space-free name and the rest, which starts with that white space; a line with no white space gives no name and keeps the whole line |
| SoundSrcsGen.ScanName | sound_srcs_gen.go:48-56 | the rune loop yields exactly that split |
| SoundSrcsGen.CleanPath | sound_srcs_gen.go:58-63 | the path neither starts nor ends with a quote and holds no backslash |
| SoundSrcsGen.ParseLine | sound_srcs_gen.go:45-70 | an entry is kept only with a non-empty, white-space-free name and a non-empty clean path; a trimmed line without white space (a bare name, or blank) is dropped |
| SoundSrcsGen.ParseLineNoNewline | sound_srcs_gen.go:44-63 | a path parsed from a line of the split holds no newline |
| SoundSrcsGen.ParseSourceLine | sound_srcs_gen.go:45-70 | one loop iteration gives exactly the parsed entry |
| SoundSrcsGen.ParseQuotedLine | sound_srcs_gen.go:45-70 | the line `name "path"` parses to that name and the path with backslashes made forward slashes |
| SoundSrcsGen.Kept | sound_srcs_gen.go:65-70 | only the parsed entries are kept, never more than the lines |
| SoundSrcsGen.Entries | sound_srcs_gen.go:44-71 | every collected entry is well formed, at most one per line |
| SoundSrcsGen.EntriesNoNewline | sound_srcs_gen.go:44-71 | no collected path holds a newline |
| SoundSrcsGen.EntriesOfLine | sound_srcs_gen.go:45-70 | one line contributes its parsed entry, or nothing |
| SoundSrcsGen.EntriesAppend | sound_srcs_gen.go:44-71 | the entries of two runs of lines are the entries of each, in order |
| SoundSrcsGen.EntriesSkipNameOnly | sound_srcs_gen.go:65 | a line with a name but no path adds nothing and leaves the order of the others alone |
| SoundSrcsGen.CollectEntries | sound_srcs_gen.go:42-71 | the loop collects exactly the entries of the lines, in order |
| SoundSrcsGen.AppendLine | sound_srcs_gen.go:45-70 | one iteration extends the collected entries by that line's |
| SoundSrcsGen.RenderIsJoin | sound_srcs_gen.go:14-27 | the rendered template is its lines joined by newlines |
| SoundSrcsGen.RenderSplit | sound_srcs_gen.go:14-27 | with well-formed entries, splitting the output at newlines gives back exactly the template's lines: one constant line and one slice line per entry |
| SoundSrcsGen.Generate | sound_srcs_gen.go:29-87 | the generated source is the template rendered over the entries of the CRLF-normalised input, and its lines are exactly the template's lines |
| Loader.LoadData | web_build/scripts/loader.ts:5-42 | the returned data is the chunks concatenated, and there is one progress report per chunk |
| Loader.ReportsSnoc | web_build/scripts/loader.ts:25-38 | a further chunk adds one report carrying the total read so far |
| Loader.PushAll | web_build/scripts/loader.ts:33-35 | the byte loop appends the chunk to the data |
| Loader.ConcatPrefix | web_build/scripts/loader.ts:20-41 | the data read after k chunks is a prefix of the final data |
| Loader.ReportsAccumulate | web_build/scripts/loader.ts:12-38 | each report's count grows by its chunk's length; every report carries the Content-Length size, or the known size with the missing flag set when the header does not parse |
| Loader.ReportsFirstLast | web_build/scripts/loader.ts:31-37 | the first report counts the first chunk and the last counts all the data |
| Loader.ReportsMonotone | web_build/scripts/loader.ts:31-37 | reported counts never decrease and never exceed the data length |
| Loader.IndexOfFrom | web_build/scripts/loader.ts:76 | -1, or an index at or after the start |
| Loader.IndexOfFromSpec | web_build/scripts/loader.ts:76 | -1 exactly when the character does not occur from the start on; otherwise its first occurrence |
| Loader.NewlinesAppend | web_build/scripts/loader.ts:98-101 | the count of newlines adds up over concatenation, so the running counter tracks the log |
| Loader.NewlinesNone | web_build/scripts/loader.ts:72-86 | no newlines exactly when no character is a newline |
| Loader.CountNewLine | web_build/scripts/loader.ts:72-86 | the indexOf loop counts exactly the newlines |
| Loader.CountStep | web_build/scripts/loader.ts:76-82 | each found newline adds one to the count of the prefix scanned; when none is found the whole text has been counted |
| Loader.NewlineStep | web_build/scripts/loader.ts:76-82 | scanning past the next newline adds exactly one |
| Loader.SkipIndex | web_build/scripts/loader.ts:105-112 | the cut index stays within the text |
| Loader.SkipIndexCount | web_build/scripts/loader.ts:105-112 | skipping n newlines cuts right after the n-th, when there are that many |
| Loader.DropLinesCount | web_build/scripts/loader.ts:104-117 | dropping n lines leaves a suffix with exactly n fewer newlines, cut right after a newline |
| Loader.SkipLines | web_build/scripts/loader.ts:104-116 | the for loop computes exactly that cut index |
| Loader.TrimLogKeeps | web_build/scripts/loader.ts:101-119 | the kept log is a suffix of everything written, holds min(newlines, 500) newlines, and starts right after a newline when anything was dropped |
| Loader.AppendLog | web_build/scripts/loader.ts:97-119 | the new log is the trimmed append, the counter equals its newline count and never exceeds 500 |
| Loader.CrashLog.constructor | web_build/scripts/loader.ts:88-94 | an empty log, nothing written or forwarded, no crash screen |
| Loader.CrashLog.WriteSync | web_build/scripts/loader.ts:96-123 | the write is forwarded unchanged, the text is recorded, and the log becomes the trimmed append |
| Loader.CrashLog.Exit | web_build/scripts/loader.ts:126-131 | a non-zero exit shows the crash screen with the log; exit code 0 changes nothing |
| Build.ParseArgs | build.go:100-148 | a help word prints usage and exits 1; no argument builds desktop; "release" alone builds a desktop release; a valid target alone builds it; "release target" builds that target as a release; anything else exits 1; a success always names a valid target |
| Build.SettingsConsistent | build.go:28-74 | the release settings cover exactly the default settings, which are exactly the listed names, each with a comment |
| Build.FillDefaultsMeaning | build.go:279-285 | after filling, the keys are the old keys plus the listed names, old values are kept, and each missing name gets its default |
| Build.FillMissing | build.go:280-284 | the loop over the names computes exactly that filling |
| Build.SetMissingSettingsToDefault | build.go:279-285 | every listed setting is present afterwards; a setting already present keeps its value and a missing one gets its default |
| Build.CopySettings | build.go:287-296 | the copy holds the settings with every missing listed setting defaulted |
| Build.EntriesLinesSnoc | build.go:306-315 | one more setting appends its three lines (comment, "name value", blank) |
| Build.SaveSettings | build.go:298-319 | the saved text is the header followed, for each listed setting in order, by its comment line, its "name true/false" line and a blank line |
| Build.WriteEntries | build.go:306-316 | the loop appends exactly the entries' lines, each newline-terminated |
| Build.WriteStep | build.go:307-315 | one iteration appends that setting's three lines |
| Build.HeaderText | build.go:300-304 | the header is the four comment lines the source writes, then two blank lines |
| Build.ParseLine | build.go:344-371 | a line yields a setting only when it is not blank, not a comment, has exactly two fields, names a known setting, and its value is "true" or "false" |
| Build.LoadSettings | build.go:321-378 | an invalid UTF-8 file fails with "not a valid utf8 file"; otherwise the result is the defaults updated by the file's lines, with missing settings defaulted |
| Build.ApplyLines | build.go:338-372 | the line loop applies exactly the parsed updates, in order |
| Build.ApplyUpdatesAppend | build.go:338-372 | applying two runs of lines is applying the first then the second |
| Build.ApplySkipped | build.go:346-372 | ignored lines change nothing |
| Build.KeepsUnsetName | build.go:338-372 | a setting no line mentions keeps its value |
| Build.LastLineWins | build.go:338-372 | when a setting appears on several lines, the last valid one decides its value |
| Build.CommentSkipped | build.go:350-352 | a line starting with // is ignored |
| Build.BlankSkipped | build.go:346-348 | an empty line is ignored |
| Build.SettingLineParses | build.go:354-369 | "name true" or "name false" for a known name sets that value |
| Build.SettingsWellFormed | build.go:47-55 | every listed setting name is non-empty, white-space-free, does not start with '/', and its comment holds no line break |
| Build.ParseEntries | build.go:306-315 | reading back the lines written for the settings gives one update per setting and skips the comment and blank lines |
| Build.EntryParses | build.go:307-315 | a written entry reads back as: skip, set the setting to its value, skip |
| Build.ApplyEntries | build.go:306-372 | applying the written entries sets each listed setting to its saved value and leaves the rest alone |
| Build.HeaderSkipped | build.go:300-304 | every header line is ignored when loading |
| Build.SplitTerminated | build.go:332-334 | splitting newline-terminated single lines gives the lines back, plus one empty last part |
| Build.SavedLines | build.go:298-334 | the saved file splits back into exactly the lines that were written |
| Build.SavedUpdates | build.go:298-372 | the saved file parses to the ignored header, one update per setting, and a final ignored empty line |
| Build.LoadSavedSettings | build.go:298-378 | loading a saved settings file gives back exactly the listed settings with the values that were saved |
| Build.Newest | build.go:771-783 | the newest time is at least every source time and is one of them |
| Build.Oldest | build.go:785-800 | the oldest time is at most every target time and is one of them |
| Build.NeedToBuild | build.go:755-803 | a build is needed when any target is missing; otherwise exactly when the newest source is newer than the oldest target |
| Build.NewestTime | build.go:771-783 | the source loop computes the newest time |
| Build.OldestTime | build.go:785-800 | the target loop computes the oldest time |
| Build.NeedToBuildMeansNewer | build.go:755-803 | with targets present, the newest-vs-oldest test holds exactly when some source is newer than some target |

## Left out

- GoStrings.ToLower: only ASCII capitals are lowered; Go's strings.ToLower lowers every cased rune (Ä, the Kelvin sign), which needs Unicode case tables not modelled here.
- Util.CheckFileExt: compares ASCII-lower-cased strings, so a non-ASCII extension that differs from the path only in case ("A.Ä" against ".ä") is not matched, where Go matches it.
- Util.CheckFileExtMeans: states the suffix test on ASCII lower-casing only, for the reason above.
- WebSound.CreateBuffer: the implementation-defined upper limit on the channel count (at least 32 in Web Audio) is not modelled; any positive channel count is accepted.
- Rendering, shaders and GPU calls are not modelled. This covers DrawBoard's vertex emission, the Draw* wrappers, the water effect and the colour picker; they are library calls with no logic to state.
- Floating-point rounding is not modelled. Coordinates, volumes and clock values are exact `real`s. This covers HSV/RGB conversion, the Newton solver for Bézier curves, easing, mouse-to-board mapping, UI layout arithmetic and the TPS-based delta.
- The editors driven by cursor input are not modelled: the HSV editor, the resource editor and the Bézier drawer UI. Of the Bézier editor, only its data transforms and its control-point rule are modelled.
- File, process and network I/O are not modelled. This covers reading and writing files, exec, zip, git, the clipboard, screenshots, profiling, `fetch` and itch.go's Save/LoadConfiguration. Their results are parameters: file text, UTF-8 validity, modification times, existence flags, the parsed `Content-Length`, the stream's chunks and the decoder's output.
- `TextDecoder` is left out. Each `writeSync` call is given both the raw bytes and their decoded text.
- gofmt (`format.Source`) is left out. The generator is modelled up to the unformatted template output.
- The exec/zip/git steps of the build tool and `AddExeIfWindows` are left out as process plumbing.
- The `Go` WebAssembly runtime, the DOM elements and the progress-bar styling are left out. The exit handler is modelled by what it shows.
- JSON marshalling is modelled as a map from key to value. A document that does not parse is a `None` input.
- Randomness is a parameter. `PlaceMines` takes an arbitrary permutation in place of `rand.Shuffle`. `QueueRemoveFlagAnimation` and `SetDebugBoardForDecoration` are left out because their behaviour is the random choice itself.
- CallbackAnimation closures are opaque. The animation queue records its Skip and AfterDone calls as a trace.
- The compiled JavaScript files (web_build/sound.js, sound/sound.js, web_build/loader.js) are left out. They are build outputs of the TypeScript sources modelled here, and web_build/sound.js is an older build.
- The oto-backed wrappers in sound/sound.go and sound/sound_js.go, and the decoders in sound/common.go, are left out. They call libraries that are not part of this model. The pool logic above them (sound.go) is modelled.
- The generated constants (sound_srcs.go), hotkeys.go and dev_dummy.go are left out, since they hold no logic.
- board.go's `InteractAt` is commented out in the source and is not modelled. game.go calls an `Array2D` API and `board.InteractAt`/`SaveTo`, which board.go does not define. The game's board is modelled with the `Board` class of board.go.
- color_table.go's enum lists 10 colour indices, while colortableindex_string.go was generated for 31. Each file is modelled against its own text: the colour table uses `String` for indices 0..9.
- ColorTableIndexString: the name literal is written as the concatenation of the 32 index names, not as a single 450-character string. `NameDataLength` and `StringIsName` tie the offsets to it.
- Go panics are modelled as preconditions. These are index out of range, division by zero, and slicing past the end. Examples are `CircularQueue.Dequeue` on an empty queue, `EndBlend`/`EndFilter` on an empty stack, `PlaceMines` with the excepted cell outside the board, and a zero capacity. Where the source checks a panic condition itself, it is a `Result` instead, as in `SpriteRect`.
- Board, Util: widths, heights and counts are `nat`. The source's `make` panics on a negative size.
- Graphics.GraphicsContext.CurrentBlend: its `ensures` says only that the result is on the stack. That it is the top of the stack, the value just pushed, is stated by `PushThenTopPop`. The same holds for `CurrentFilter`.
- Graphics.GraphicsContext.CurrentFilter: weaker in the same way as `CurrentBlend`.
- WebSound.Shim.NewPlayer: requires the buffer name to be registered. The source would build a player over `undefined` and fail only when it plays.
- Game: the easing-driven animation bodies, and the tile styles they set, are left out as floating-point rendering.

## Findings

| source | as written | input that shows it | evidently intended | confidence | as-written member | corrected member |
|---|---|---|---|---|---|---|
| debug_print.go:61-66 | `DebugPutsPersist` finds the key in the persistent list but writes `DebugMsgs[i]` | persistent `[fps: 60]`, frame messages `[mouse: 1,2]`, put `fps: 30`: the frame message becomes `mouse: 30` and `fps` keeps 60; with no frame messages it panics | update `PersistentDebugMsgs[i]` | high, not executed | DebugPrint.PutPersistAsWrittenWrongList | DebugPrint.DebugPrintManager.DebugPutsPersist |
| common.go:65-67 | `PeekLast` indexes `(End-1) % len(Data)` | capacity 2, two enqueues: the queue is full with End = 0, and the index is -1, which panics on a non-empty queue | `(End-1+len(Data)) % len(Data)` | high, not executed | Common.PeekLastAsWrittenOutOfRange | Common.PeekLastIndexIsLast |
| sound/sound.ts:81-88 | the buffer length is the first channel's `byteLength` | one channel of two samples at 44100 Hz gives an 8-frame buffer, four times the intended duration | the sample count, `length` | medium, not executed | WebSound.UndecodedLengthAsWrittenTooLong | WebSound.UndecodedBufferHoldsChannels |
| sound/internalplayer.ts:67-75 | `pause()` stops the source without removing its `ended` listener | play at 0, pause at 1, play at 1, then the first source's late `ended` event: the new source is playing, but the player reports Paused at the buffer's end and forgets that source | remove the listener on pause, as the end handler's guard evidently expects | medium, not executed | WebPlayer.LateEndedAfterPauseAsWritten | WebPlayer.LateEndedAfterPause |
