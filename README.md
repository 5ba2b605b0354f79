# Battlesnake move decision, modelled in Dafny

This project models the per-turn move decision of a Battlesnake agent
(`move` in `main.go`). Each turn the agent gets a snapshot of the board and
answers with one of four moves: `up`, `down`, `left` or `right`. The safety map
holds one boolean per move. It starts all-true and goes through these steps:

1. **Backward check.** It clears the one move that points at the neck, `Body[1]`,
   as seen from `Body[0]`. The x axis is compared before the y axis.
2. **Boundary check.** It clears each move that would leave the board, judged
   from `You.Head`.
3. **Destinations.** It computes the one-step destination of every move that is
   still safe.
4. **Body check.** It runs once over the agent's own body and then once per
   snake in `Board.Snakes`. Each run overwrites the entry of every move that has
   a destination. One run says "safe" exactly when that destination is not in
   the body being checked.
5. **Selection.** If no move is safe, the answer is `down`. Otherwise each safe
   move is scored by the Manhattan distance from the *current head* to the
   nearest food, and a move with the lowest score is returned.

The modules follow these components:

- `Geometry` (`geometry.dfy`): coordinates, directions, the next coordinate and
  the Manhattan distance.
- `GameTypes` (`game_types.dfy`): minimal stand-ins for the snapshot.
- `Safety` (`safety.dfy`): the safety map and the filters, each as a function
  on map values with lemmas about it.
  - `boundryCheck` and `validateMoves` are also methods (`BoundaryCheck`,
    `ValidateMoves`). They update the shared map object `MoveTable` in place,
    as the source updates its Go map, and each is proved equal to its function.
  - `nextMoveCoordinates` is a method (`NextMoveCoordinates`) that builds a new
    map and is proved equal to `Destinations`.
  - The backward check is not a function in the source; it is written inline
    in `Move`, and an assertion there ties it to `BackwardFiltered`.
- `Food` (`food.dfy`): the list of food distances and its minimum.
- `MoveSelector` (`move_selector.dfy`): `FinalSafety`, the final map as a
  function of the snapshot; the `Move` method; and lemmas about the outcome.

Go iterates over maps in an unspecified order. Every loop over a map is modelled
by a nondeterministic choice (`:|`) of the next key still pending. So every
postcondition holds for every iteration order.

### What the code does where its comments say otherwise

The comments in `main.go` state the intent of each step. The model follows the
code, and these lemmas show where the two part.

- The comments at main.go:80 and main.go:86 ask the body check to prevent
  collisions with the agent itself and with other snakes. The code assigns each
  verdict (main.go:198) instead of only clearing it, and it reuses one
  destination map for every pass (main.go:83-91). So for a move that got a
  destination, the last body checked alone decides (`LastSnakeDecides`,
  `FinalSafetyCharacterized`).
  - The agent is normally one of `Board.Snakes`. If it is not the last snake, a
    move into its own body can be left safe (`SelfCollisionCanBeLeftSafe`).
  - If it is the last snake, every opponent's check is undone: a move onto an
    opponent's head can be left safe (`OpponentCollisionCanBeLeftSafe`).
  - Moves removed by the backward or boundary check get no destination, so they
    stay unsafe (`FinalSafety`).
- The comments at main.go:107 and main.go:121 ask for the move that goes
  toward food fastest. The code scores every safe move from the current head
  (main.go:115), so all safe moves get the same score (`FoodDistanceMap`). The
  selection therefore returns whichever safe move the iteration order reaches
  first. Scoring each move from its destination would separate them: away from
  the food, some move ends two steps closer than another
  (`DestinationDistancesDiffer`).

## Model

| member | source | states |
|---|---|---|
| `Geometry.CalculateNextCoordinate` | main.go:215-230 | a label other than the four leaves the coordinate unchanged; each of the four labels moves it to Manhattan distance exactly 1 |
| `Geometry.NextCoordinateIsNeighbour` | main.go:215-230 | each direction's label moves the coordinate by the fixed displacement of that direction |
| `Geometry.NeighbourChangesOneAxis` | main.go:215-230 | a step changes exactly one axis by exactly one: up is y+1, down y-1, left x-1, right x+1 |
| `Geometry.NeighboursDistinct` | main.go:215-230 | the four destinations from one coordinate are pairwise different |
| `Geometry.CalculateDistance` | main.go:166-168 | the distance is non-negative and is zero exactly when the two coordinates are equal |
| `Geometry.DistanceSymmetric` | main.go:166-168 | the distance is symmetric |
| `Geometry.AllDirectionsComplete` | main.go:51-56 | the four directions of the safety map are all the moves there are |
| `Geometry.DestinationDistancesDiffer` | main.go:112-118 | from a position other than the target, one move's destination is two steps closer to the target than another's, which the score taken from the head does not see |
| `Safety.BackwardDirection` | main.go:62-73 | no move is forbidden exactly when the neck equals the head; when the x coordinates differ, the forbidden move is horizontal; the forbidden move brings the head one step closer to the neck |
| `Safety.BackwardFiltered` | main.go:62-73 | the result equals the input map except that the one forbidden move, if there is one, is unsafe |
| `Safety.BackwardBlocksNeck` | main.go:59-73 | when the neck is one step from the head, the move onto the neck is the one forbidden |
| `Safety.BackwardClearsAtMostOne` | main.go:62-73 | at most one safe entry becomes unsafe |
| `Safety.Blocked` | main.go:172-183 | the four edge conditions, judged from the current position; from a position on the board, a move is blocked exactly when its destination is off the board |
| `Safety.BoundaryFiltered` | main.go:171-186 | a move stays safe exactly when it was safe and is not blocked: right at x = width-1, left at x = 0, down at y = 0, up at y = height-1, all judged from the current position; the entries it adds are false |
| `Safety.BoundaryOnlyNarrows` | main.go:171-186 | the check writes only false; every entry for a move that is not blocked keeps its value |
| `Safety.BoundaryIdempotent` | main.go:171-186 | applying the check twice gives the same map as applying it once |
| `Safety.BoundaryKeepsOnBoard` | main.go:171-186 | from a position on the board, a move stays safe exactly when it was safe and its destination is on the board |
| `Safety.Destinations` | main.go:203-213 | destinations are defined exactly for the moves marked safe, and each is the one-step neighbour in that move's direction |
| `Safety.Validated` | main.go:189-200 | every move with a destination becomes safe exactly when its destination is not in the hazard list, whatever its earlier value; every other entry is unchanged |
| `Safety.ValidatedOverwrites` | main.go:189-200 | a later body check on the same destinations replaces the result of an earlier one |
| `Safety.ValidatedAll` | main.go:84-91 | one body check per snake, in list order; the keys grow only by moves that have a destination, and the entries of moves without a destination are unchanged |
| `Safety.LastSnakeDecides` | main.go:83-91 | after body checks for a non-empty list of snakes, the map is the one that the last snake's check alone gives |
| `Safety.MoveTable.constructor` | main.go:51-56 | the map starts with all four moves safe |
| `Safety.BoundaryStepsFilter` | main.go:172-183 | the four conditional writes, applied one after another, give exactly the boundary-filtered map |
| `Safety.BoundaryCheck` | main.go:171-186 | changes the shared map to the boundary-filtered map and returns the same map object |
| `Safety.NextMoveCoordinates` | main.go:203-213 | whatever the visiting order, the result is the destination map of the current safety map |
| `Safety.ValidateMoves` | main.go:189-200 | whatever the visiting order, the shared map becomes the one-pass body check of its old value |
| `Food.NearestFoodDistance` | main.go:142-164 | 0 when there is no food; otherwise the distance to some food item, and no greater than the distance to any food item |
| `Food.DistanceFromFood` | main.go:157-164 | one entry per food item, in order, each the distance from the given position to that item |
| `Food.MinDistance` | main.go:141-155 | 0 on an empty list; otherwise an element of the list that is no greater than any element |
| `Food.MinOfDistancesIsNearest` | main.go:115 | the minimum of the distance list is the nearest-food distance |
| `MoveSelector.FinalSafety` | main.go:51-91 | the safety map after all filters of one turn; it has an entry for every move, and a move removed by the backward or boundary check is never safe again |
| `MoveSelector.FinalSafetyCharacterized` | main.go:58-91 | a move is safe at the end exactly when the backward check did not forbid it, it is not blocked at the edge, and its destination is not in the last body checked (the last snake's, or the agent's own when there are no snakes) |
| `MoveSelector.EdgeMovesNeverSafe` | main.go:76-79 | a move blocked by the boundary check is never safe at the end |
| `MoveSelector.NeckMoveNeverSafe` | main.go:59-73 | when `Head` equals `Body[0]`, the move onto the neck is never safe at the end |
| `MoveSelector.OneCellBoardHasNoSafeMove` | main.go:76-79 | on a 1x1 board with the head at (0,0), no move is safe |
| `MoveSelector.SelfCollisionCanBeLeftSafe` | main.go:84-91 | a concrete board where the agent is listed before an opponent and the move into its own body is left safe |
| `MoveSelector.OpponentCollisionCanBeLeftSafe` | main.go:84-91 | a concrete board where the agent is listed last and the move onto an opponent's head is left safe |
| `MoveSelector.RightEdgeScenario` | main.go:59-79 | on an 11x11 board, head (10,5) and neck (9,5): right and left are both unsafe |
| `MoveSelector.CollectSafeMoves` | main.go:94-100 | the list holds exactly the safe moves, each once, in any order |
| `MoveSelector.FoodDistanceMap` | main.go:112-118 | the keys are exactly the safe moves, and every score equals the head's nearest-food distance, so all safe moves score the same |
| `MoveSelector.SelectNearest` | main.go:122-135 | on an empty map the earlier choice stands; otherwise the result is a key whose score is no greater than any other key's |
| `MoveSelector.Move` | main.go:49-139 | the answer is safe in the final map, or it is down and no move is safe |

## Left out

- `info`, `start`, `end` and `main` (main.go:24-44, 232-234): bot metadata, the HTTP server and lifecycle logging. They contain no decision logic.
- All logging calls: they are output side effects only.
- `rand.Intn` (main.go:109): the random index becomes the parameter `pick` of `Move`. The scoring loop always overwrites the choice made with it.
- Floating point in `calculateDistance`: the distance is the exact integer sum of absolute differences.
- Coordinates, board sizes and distances are unbounded integers. The model does not capture Go's 64-bit `int` wrap-around, for example in `present.Y += 1` at the largest value.
- The JSON snapshot and its struct definitions are not part of this model. `GameTypes` keeps only the fields the decision reads, and the turn number is dropped because it is only logged.
- Go's concrete map iteration order: modelled as an unspecified choice, as described above.
- `Move` requires a body of at least two segments, because the source indexes `Body[1]` and would fault on a shorter body.
- Move: its contract states only which direction can come out (a safe one, or down when none is safe). That the answer is a lowest-scoring key is stated by `SelectNearest`, and that all scores are equal is stated by `FoodDistanceMap`.
