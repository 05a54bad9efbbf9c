# Flatland theater: the behaviour engine, in Dafny

Three characters stand on a line of `lineLength` cells. Each has a cell, a
body orientation (0, 90, 180 or 270 degrees; 90 faces increasing cells, 270
decreasing ones), a head orientation relative to the body (-90, 0 or 90), an
animation state and an animation progress in [0, 1], where 1 means settled
and ready for a new action. This project models three parts of that engine
and proves properties of them:

- `theater.dfy`, module `Theater`: the character record and its closed
  unions. The orientations and the progress are subset types, so every value
  of them is in range.
- `character_utils.dfy`, module `CharacterUtils`: the placement of the three
  characters at the start of a run, and the queries over the line. The
  queries are: who stands at a cell, whether a cell is occupied, who is
  adjacent, whether a character may step forward, and whether it may start
  an interaction. Placement rounds the quarter, half and three-quarter
  points of the line, clamps them onto it, and moves a spot forward while an
  earlier unadjusted spot holds it (`SettlePosition`, a `while` loop).
- `theater_scene.dfy`, module `Scene`: the class `TheaterScene`, which holds
  the characters and `lastActionTime`. `StartEffect` starts a run. `Frame` is
  the per-frame callback. Each frame raises every progress by 0.016, capped
  at 1. When `actionInterval` milliseconds have passed since
  `lastActionTime`, a resolution pass follows. The pass resets every settled
  character to `idle` with progress 0, writing into a copied array
  (`ResolvePass`), and then records the time.

The clock (`Date.now()`) is the `now` parameter of `StartEffect` and
`Frame`. The three `Math.random()` draws are the `random` parameter: three
reals in [0, 1). The simulation state is a parameter, as it is a property of
the component.

JavaScript's `Math.round(x)` is `floor(x + 0.5)`. `MathRound` models it on
reals, and `RoundedPoints` proves that it gives `(L+2)/4`, `(L+1)/2` and
`(3L+2)/4` on the three points.

The loop compares a spot against the unadjusted spots of the earlier
characters, not against their adjusted cells. `InitialCharactersWellPlaced`
proves that from four cells on no spot needs adjusting, so the initial cells
are the three rounded points: distinct, and on the line. The configuration
form only passes line lengths of at least five. On three cells the second
and third characters share cell 2 (`InitialPositionsCollideOnThreeCells`).

`Valid()` of the scene says that either no run has started, or three
characters stand on distinct cells of the line and have distinct ids. The
constructor, `StartEffect` and `Frame` keep it. `Frame` also keeps the id,
type, cell, orientations and colour of every character.

## Model

| member | source | states |
|---|---|---|
| `Theater.BodyOrientationIndex` | src/types/theater.ts:11 | every body orientation is one of exactly the four values 0, 90, 180, 270, at a unique index |
| `Theater.HeadOrientationIndex` | src/types/theater.ts:12 | every head orientation is one of exactly the three values -90, 0, 90, at a unique index |
| `Theater.ActionTypeIndex` | src/types/theater.ts:14-15 | the action union is closed: every action is one of exactly seven listed members, at a unique index |
| `Theater.AnimationStateIndex` | src/types/theater.ts:17-18 | the animation-state union is closed: every state is one of exactly six listed members, at a unique index |
| `CharacterUtils.MathRound` | src/utils/characterUtils.ts:9-11 | the result is the nearest integer to x, with halves rounded upwards (x - 0.5 < n <= x + 0.5) |
| `CharacterUtils.RoundedPoints` | src/utils/characterUtils.ts:8-12 | rounding L/4, L/2 and 3L/4 gives exactly (L+2)/4, (L+1)/2 and (3L+2)/4 in integer division |
| `CharacterUtils.SpacedPositions` | src/utils/characterUtils.ts:8-12 | the three unadjusted spots are exactly (L+2)/4, (L+1)/2 and (3L+2)/4 |
| `CharacterUtils.BumpIsFirstFree` | src/utils/characterUtils.ts:19-21 | the loop's result is the first cell from the start that no earlier spot holds, or the last cell if it gets there first; it never goes past the last cell and never below its start |
| `CharacterUtils.SettlePosition` | src/utils/characterUtils.ts:15-24 | the loop computes the clamp-and-bump of the spot; on a line of at least one cell the result is on the line; it is at least the clamped spot, every cell it skipped is an earlier spot, and it stops on an earlier spot only at the last cell |
| `CharacterUtils.OrientationFromRandom` | src/utils/characterUtils.ts:26-32 | each of the four orientations is drawn on exactly its own quarter of [0, 1): orientation 90k for 4r in [k, k+1) |
| `CharacterUtils.EveryOrientationDrawn` | src/utils/characterUtils.ts:26-32 | every one of the four orientations is drawn for some random number (90k at r = k/4) |
| `CharacterUtils.InitialCharacters` | src/utils/characterUtils.ts:28-37 | exactly three characters, of types young_woman, boy_glasses, boy_afro in that order, with ids character_0..character_2; each has head 0, state idle, progress 1 and the body orientation `OrientationFromRandom` draws from its own random number |
| `CharacterUtils.InitializeCharacters` | src/utils/characterUtils.ts:4-38 | the method, with its loops, returns exactly `InitialCharacters` of the line length and the draws |
| `CharacterUtils.InitialPositionsInBounds` | src/utils/characterUtils.ts:15-24 | on a line of at least one cell every initial cell lies in [0, lineLength-1] |
| `CharacterUtils.InitialCharactersWellPlaced` | src/utils/characterUtils.ts:8-24 | from four cells on, the initial cells are the three rounded points, pairwise distinct and on the line, and the ids are pairwise distinct |
| `CharacterUtils.InitialPositionsCollideOnThreeCells` | src/utils/characterUtils.ts:8-24 | on a line of three cells the second and third characters both start on cell 2, so distinctness needs the caller's bound |
| `CharacterUtils.CharacterAt` | src/utils/characterUtils.ts:40-42 | a character is found exactly when some character stands at the cell; the one found stands there and is the first such in the sequence |
| `CharacterUtils.IsPositionOccupied` | src/utils/characterUtils.ts:44-46 | true exactly when some character of the sequence stands at the cell |
| `CharacterUtils.OccupiedIffFound` | src/utils/characterUtils.ts:40-46 | a cell is occupied exactly when looking it up finds a character, and that character stands at the cell |
| `CharacterUtils.AdjacentCharacters` | src/utils/characterUtils.ts:48-55 | a character is in the result exactly when it is in the input, has a different id from the subject and stands at the subject's cell plus or minus one |
| `CharacterUtils.AdjacentCharactersAppend` | src/utils/characterUtils.ts:52-54 | filtering a concatenation is the concatenation of the filtered parts, so the original order is kept |
| `CharacterUtils.AdjacentCharactersSingle` | src/utils/characterUtils.ts:52-54 | a single character is kept exactly when it is adjacent to the subject |
| `CharacterUtils.CanMoveForward` | src/utils/characterUtils.ts:57-83 | false when the body faces 0 or 180 or the head is turned; otherwise true exactly when the cell ahead (position+1 facing 90, position-1 facing 270) is in [0, lineLength) and no character stands there |
| `CharacterUtils.CanMoveForwardBlocker` | src/utils/characterUtils.ts:57-83 | a character at 3 facing 90 with its head forward is blocked by a character at 4 and may move to 4 without it |
| `CharacterUtils.FacesAny` | src/utils/characterUtils.ts:94-107 | true exactly when the character faces some character of the list: it faces 90 and the other, to its right, faces 270, or it faces 270 and the other, to its left, faces 90 |
| `CharacterUtils.CanInitiateInteraction` | src/utils/characterUtils.ts:85-108 | false when the head is turned; otherwise true exactly when a character with another id stands at position+1 while self faces 90 and it faces 270, or at position-1 while self faces 270 and it faces 90 |
| `CharacterUtils.FacingNeighbourAmongAdjacent` | src/utils/characterUtils.ts:91-107 | some adjacent character faces the subject exactly when some other character of the line is its facing neighbour |
| `CharacterUtils.FacingNeighbourSymmetric` | src/utils/characterUtils.ts:96-106 | a is b's facing neighbour exactly when b is a's |
| `CharacterUtils.FacingPairBothInitiate` | src/utils/characterUtils.ts:85-108 | two head-forward characters with distinct ids that face each other from adjacent cells may both initiate an interaction |
| `CharacterUtils.InteractionExample` | src/utils/characterUtils.ts:85-108 | at cells 2 (facing 90) and 3 (facing 270) both may initiate; turning the second to 90 makes both refuse |
| `Scene.Advance` | src/components/TheaterScene.tsx:45-48 | progress never decreases, rises by at most 0.016, ends at 1 or exactly 0.016 higher, and no other field changes |
| `Scene.AdvanceProgress` | src/components/TheaterScene.tsx:44-49 | the line keeps its length; every character changes only its progress, which never decreases, rises by at most 0.016 and ends at 1 or exactly 0.016 higher |
| `Scene.AdvanceFramesProgress` | src/components/TheaterScene.tsx:44-49 | after n frames the progress is min(1, p + 0.016 n) and nothing else has changed |
| `Scene.SettledAgainAfter63Frames` | src/components/TheaterScene.tsx:47-58 | a character reset to 0 is unsettled after 62 frames and settled (eligible in a pass) after 63 |
| `Scene.Resolve` | src/components/TheaterScene.tsx:58-66 | a settled character becomes idle with progress 0; an unsettled one is returned unchanged; the id, type, cell, orientations and colour are kept either way |
| `Scene.ResolutionPass` | src/components/TheaterScene.tsx:53-70 | the count is kept, and every id, type, cell, orientation and colour; settled characters become idle with progress 0, unsettled ones are unchanged; afterwards no character is settled |
| `Scene.ResolvePass` | src/components/TheaterScene.tsx:54-69 | copying the line into an array and overwriting each settled entry in turn yields exactly `ResolutionPass` of the line |
| `Scene.SameLayoutKeepsWellPlaced` | src/components/TheaterScene.tsx:44-70 | a line with the same ids and cells as a well-placed line is well placed |
| `Scene.FrameKeepsLayout` | src/components/TheaterScene.tsx:44-70 | a frame, with or without a pass, keeps the count and every id, cell and orientation, hence distinct cells, distinct ids and bounds |
| `Scene.TheaterScene.constructor` | src/components/TheaterScene.tsx:24-25 | a new scene has no characters and lastActionTime 0 |
| `Scene.TheaterScene.StartEffect` | src/components/TheaterScene.tsx:28-35 | when the state is running, the characters become `InitialCharacters(lineLength, random)` and lastActionTime becomes now; otherwise nothing changes; the scene invariant is kept |
| `Scene.TheaterScene.Frame` | src/components/TheaterScene.tsx:38-74 | with the state not running or no characters, nothing changes; otherwise the characters are advanced, then, if now - lastActionTime >= actionInterval, passed through the resolution pass (which sees the advanced progress) and lastActionTime becomes now; the scene invariant and every id, cell and orientation are kept |

## Left out

- Moving, turning the body, turning the head and interacting. The source
  declares these actions and `InteractionResult` but never performs them;
  the resolution pass only resets settled characters to idle. The model has
  the types and nothing more.
- Floating point. Progress is an exact real, so 0.016 added 63 times is
  1.008 and not a rounded float. `actionInterval` is a real number of
  milliseconds. `lineLength` is an integer, as in the source: the form
  parses it with `parseInt` and clamps it to at least 5.
- `Date.now()` and `Math.random()`: they are parameters (`now`, `random`).
- React scheduling: the two state updates of a frame are applied one after
  the other. The frame's check for an empty line reads the current line
  rather than the closure's copy from the last render.
- The `console.log` of the start effect.
- The configuration form, the page's switching between configuration and a
  running scene, the animation-frame hook and all rendering (meshes,
  colours as pixels, angles in radians, x offsets). The form's clamps show
  up only as the `ValidConfig` precondition of the constructor: at least
  five cells and at least 100 ms.
- `CharacterUtils.InitialCharactersWellPlaced`: the loop, which compares
  against unadjusted spots, is proved only inside the range where no spot is
  adjusted (four cells and more). On shorter lines the spots are clamped to
  the last cell and may coincide, as `InitialPositionsCollideOnThreeCells`
  shows.
