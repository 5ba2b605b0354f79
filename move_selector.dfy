/**
 The per-turn move decision (main.go, move): the filters applied in the
 source's order, the collection of safe moves, the food-distance scores and
 the selection of the lowest score, with "down" when nothing is safe.
 */
module MoveSelector {
  import opened Geometry
  import opened GameTypes
  import opened Safety
  import opened Food

  /**
   The safety map as it stands after every filter of one turn. It has an entry
   for every move, and a move the backward or boundary check removed never
   comes back.
   */
  function FinalSafety(state: GameState): (r: SafetyMap)
    requires |state.You.Body| >= 2
    ensures r.Keys == AllDirections
    ensures forall d :: IsSafe(r, d) ==>
      && BackwardDirection(state.You.Body[0], state.You.Body[1]) != Some(d)
      && !Blocked(state.You.Head, d, state.Board.Height, state.Board.Width)
  {
    var afterBackward := BackwardFiltered(state.You.Body[0], state.You.Body[1], AllSafe);
    var afterBoundary :=
      BoundaryFiltered(state.You.Head, afterBackward, state.Board.Height, state.Board.Width);
    var coordinateMap := Destinations(state.You.Head, afterBoundary);
    var selfChecked := Validated(coordinateMap, afterBoundary, state.You.Body);
    var r := ValidatedAll(coordinateMap, selfChecked, state.Board.Snakes);
    assert forall d :: IsSafe(r, d) ==> IsSafe(afterBoundary, d);
    AllDirectionsComplete();
    r
  }

  /** The one body whose check decides the moves that reached the body check. */
  function LastHazard(state: GameState): seq<Coord>
  {
    var snakes := state.Board.Snakes;
    if snakes == [] then state.You.Body else snakes[|snakes| - 1].Body
  }

  /**
   A move is safe at the end of the turn exactly when the backward check did
   not forbid it, it does not leave the board, and its destination is not in
   the LAST body checked: the agent's own body check is overwritten by every
   later snake's.
   */
  lemma {:induction false} FinalSafetyCharacterized(state: GameState, d: Direction)
    requires |state.You.Body| >= 2
    ensures IsSafe(FinalSafety(state), d) <==>
      && BackwardDirection(state.You.Body[0], state.You.Body[1]) != Some(d)
      && !Blocked(state.You.Head, d, state.Board.Height, state.Board.Width)
      && Neighbour(state.You.Head, d) !in LastHazard(state)
  {
    var afterBackward := BackwardFiltered(state.You.Body[0], state.You.Body[1], AllSafe);
    var afterBoundary :=
      BoundaryFiltered(state.You.Head, afterBackward, state.Board.Height, state.Board.Width);
    var coordinateMap := Destinations(state.You.Head, afterBoundary);
    var selfChecked := Validated(coordinateMap, afterBoundary, state.You.Body);
    var snakes := state.Board.Snakes;
    if snakes == [] {
      assert FinalSafety(state) == selfChecked;
    } else {
      LastSnakeDecides(coordinateMap, selfChecked, snakes);
      ValidatedOverwrites(coordinateMap, afterBoundary, state.You.Body, snakes[|snakes| - 1].Body);
      assert FinalSafety(state) == Validated(coordinateMap, afterBoundary, LastHazard(state));
    }
    assert d in AllSafe;
  }

  /** A move off the board from the current head is never left safe. */
  lemma EdgeMovesNeverSafe(state: GameState, d: Direction)
    requires |state.You.Body| >= 2
    requires Blocked(state.You.Head, d, state.Board.Height, state.Board.Width)
    ensures !IsSafe(FinalSafety(state), d)
  {
    FinalSafetyCharacterized(state, d);
  }

  /** The move onto the neck is never left safe when the head is the first body segment. */
  lemma NeckMoveNeverSafe(state: GameState, d: Direction)
    requires |state.You.Body| >= 2
    requires state.You.Head == state.You.Body[0]
    requires Neighbour(state.You.Head, d) == state.You.Body[1]
    ensures !IsSafe(FinalSafety(state), d)
  {
    BackwardBlocksNeck(state.You.Body[0], state.You.Body[1], d);
    FinalSafetyCharacterized(state, d);
  }

  /** On a one-cell board every move leaves the board, so none is safe. */
  lemma OneCellBoardHasNoSafeMove(state: GameState, d: Direction)
    requires |state.You.Body| >= 2
    requires state.Board.Width == 1 && state.Board.Height == 1
    requires state.You.Head == Coord(0, 0)
    ensures !IsSafe(FinalSafety(state), d)
  {
    EdgeMovesNeverSafe(state, d);
  }

  /**
   With the agent first in the board's snake list and an opponent after it,
   a move into the agent's own body is left safe.
   */
  lemma SelfCollisionCanBeLeftSafe()
    ensures var you := Battlesnake(Coord(5, 5), [Coord(5, 5), Coord(5, 6), Coord(6, 6), Coord(6, 5), Coord(6, 4)]);
      var opponent := Battlesnake(Coord(0, 0), [Coord(0, 0), Coord(0, 1)]);
      var state := GameState(Board(11, 11, [], [you, opponent]), you);
      Neighbour(you.Head, Right) in you.Body && IsSafe(FinalSafety(state), Right)
  {
    var you := Battlesnake(Coord(5, 5), [Coord(5, 5), Coord(5, 6), Coord(6, 6), Coord(6, 5), Coord(6, 4)]);
    var opponent := Battlesnake(Coord(0, 0), [Coord(0, 0), Coord(0, 1)]);
    var state := GameState(Board(11, 11, [], [you, opponent]), you);
    assert Neighbour(you.Head, Right) == Coord(6, 5) == you.Body[3];
    assert BackwardDirection(you.Body[0], you.Body[1]) == Some(Up);
    assert LastHazard(state) == [Coord(0, 0), Coord(0, 1)];
    assert Coord(6, 5) !in LastHazard(state);
    FinalSafetyCharacterized(state, Right);
  }

  /**
   With the agent last in the board's snake list, a move onto an opponent's
   head is left safe.
   */
  lemma OpponentCollisionCanBeLeftSafe()
    ensures var you := Battlesnake(Coord(5, 5), [Coord(5, 5), Coord(5, 4)]);
      var opponent := Battlesnake(Coord(6, 5), [Coord(6, 5), Coord(7, 5)]);
      var state := GameState(Board(11, 11, [], [opponent, you]), you);
      Neighbour(you.Head, Right) == opponent.Head && IsSafe(FinalSafety(state), Right)
  {
    var you := Battlesnake(Coord(5, 5), [Coord(5, 5), Coord(5, 4)]);
    var opponent := Battlesnake(Coord(6, 5), [Coord(6, 5), Coord(7, 5)]);
    var state := GameState(Board(11, 11, [], [opponent, you]), you);
    assert Neighbour(you.Head, Right) == Coord(6, 5);
    assert BackwardDirection(you.Body[0], you.Body[1]) == Some(Down);
    assert LastHazard(state) == [Coord(5, 5), Coord(5, 4)];
    assert Coord(6, 5) !in LastHazard(state);
    FinalSafetyCharacterized(state, Right);
  }

  /** Head at the right edge with the neck to its left: only up and down can stay safe. */
  lemma RightEdgeScenario(state: GameState)
    requires state.Board.Width == 11 && state.Board.Height == 11
    requires |state.You.Body| >= 2
    requires state.You.Head == state.You.Body[0] == Coord(10, 5)
    requires state.You.Body[1] == Coord(9, 5)
    ensures !IsSafe(FinalSafety(state), Right) && !IsSafe(FinalSafety(state), Left)
  {
    FinalSafetyCharacterized(state, Right);
    FinalSafetyCharacterized(state, Left);
  }

  /** The loop that lists the safe moves, visiting the map in an unspecified order. */
  method CollectSafeMoves(isMoveSafe: SafetyMap) returns (safeMoves: seq<Direction>)
    ensures forall d :: d in safeMoves <==> IsSafe(isMoveSafe, d)
    ensures forall i, j :: 0 <= i < j < |safeMoves| ==> safeMoves[i] != safeMoves[j]
  {
    safeMoves := [];
    var pending := isMoveSafe.Keys;
    while pending != {}
      invariant pending <= isMoveSafe.Keys
      invariant forall d :: d in safeMoves <==> IsSafe(isMoveSafe, d) && d !in pending
      invariant forall i, j :: 0 <= i < j < |safeMoves| ==> safeMoves[i] != safeMoves[j]
      decreases pending
    {
      var move :| move in pending;
      if isMoveSafe[move] {
        safeMoves := safeMoves + [move];
      }
      pending := pending - {move};
    }
  }

  /**
   The loop that scores each safe move. The score is taken from the current
   head, not from the move's destination, so every safe move gets the same one.
   */
  method FoodDistanceMap(isMoveSafe: SafetyMap, head: Coord, food: seq<Coord>)
    returns (foodDistanceMap: map<Direction, int>)
    ensures forall d :: d in foodDistanceMap <==> IsSafe(isMoveSafe, d)
    ensures forall d :: d in foodDistanceMap ==> foodDistanceMap[d] == NearestFoodDistance(head, food)
  {
    foodDistanceMap := map[];
    var pending := isMoveSafe.Keys;
    while pending != {}
      invariant pending <= isMoveSafe.Keys
      invariant forall d :: d in foodDistanceMap <==> IsSafe(isMoveSafe, d) && d !in pending
      invariant forall d :: d in foodDistanceMap ==> foodDistanceMap[d] == NearestFoodDistance(head, food)
      decreases pending
    {
      var move :| move in pending;
      if isMoveSafe[move] {
        var distances := DistanceFromFood(head, food);
        var nearest := MinDistance(distances);
        MinOfDistancesIsNearest(head, food, distances, nearest);
        foodDistanceMap := foodDistanceMap[move := nearest];
      }
      pending := pending - {move};
    }
  }

  /**
   The loop that keeps the lowest score, visiting the map in an unspecified
   order; on an empty map the earlier choice stands.
   */
  method SelectNearest(foodDistanceMap: map<Direction, int>, initial: Direction) returns (nextMove: Direction)
    ensures foodDistanceMap == map[] ==> nextMove == initial
    ensures foodDistanceMap != map[] ==> nextMove in foodDistanceMap
    ensures nextMove in foodDistanceMap ==>
      forall d :: d in foodDistanceMap ==> foodDistanceMap[nextMove] <= foodDistanceMap[d]
  {
    nextMove := initial;
    var first := true;
    var min := 0;
    var pending := foodDistanceMap.Keys;
    while pending != {}
      invariant pending <= foodDistanceMap.Keys
      invariant first <==> pending == foodDistanceMap.Keys
      invariant first ==> nextMove == initial
      invariant !first ==> nextMove in foodDistanceMap && min == foodDistanceMap[nextMove]
      invariant forall d :: d in foodDistanceMap && d !in pending ==> min <= foodDistanceMap[d]
      decreases pending
    {
      var move :| move in pending;
      var distance := foodDistanceMap[move];
      if first {
        nextMove := move;
        min := distance;
        first := false;
      } else {
        if distance < min {
          nextMove := move;
          min := distance;
        }
      }
      pending := pending - {move};
    }
    assert foodDistanceMap != map[] ==> !first by {
      if foodDistanceMap != map[] {
        var k :| k in foodDistanceMap;
        assert k in foodDistanceMap.Keys;
      }
    }
  }

  /**
   move: the chosen direction is safe in the final map, or it is "down" and
   no direction is safe. `pick` stands for the random index the source draws
   among the safe moves before the food scores overwrite it.
   */
  method Move(state: GameState, pick: nat) returns (nextMove: Direction)
    requires |state.You.Body| >= 2
    ensures IsSafe(FinalSafety(state), nextMove)
        || (nextMove == Down && forall d :: !IsSafe(FinalSafety(state), d))
  {
    var isMoveSafe := new MoveTable();

    var myHead := state.You.Body[0];
    var myNeck := state.You.Body[1];
    if myNeck.X < myHead.X {
      isMoveSafe.safe := isMoveSafe.safe[Left := false];
    } else if myNeck.X > myHead.X {
      isMoveSafe.safe := isMoveSafe.safe[Right := false];
    } else if myNeck.Y < myHead.Y {
      isMoveSafe.safe := isMoveSafe.safe[Down := false];
    } else if myNeck.Y > myHead.Y {
      isMoveSafe.safe := isMoveSafe.safe[Up := false];
    }
    assert isMoveSafe.safe == BackwardFiltered(myHead, myNeck, AllSafe);

    var boardWidth := state.Board.Width;
    var boardHeight := state.Board.Height;
    isMoveSafe := BoundaryCheck(state.You.Head, isMoveSafe, boardHeight, boardWidth);

    var coordinateMap := NextMoveCoordinates(state.You.Head, isMoveSafe);
    ValidateMoves(coordinateMap, isMoveSafe, state.You.Body);
    ghost var selfChecked := isMoveSafe.safe;

    var snakes := state.Board.Snakes;
    for i := 0 to |snakes|
      invariant isMoveSafe.safe == ValidatedAll(coordinateMap, selfChecked, snakes[..i])
    {
      ValidateMoves(coordinateMap, isMoveSafe, snakes[i].Body);
      assert snakes[..i + 1][..i] == snakes[..i];
    }
    assert snakes[..|snakes|] == snakes;
    assert isMoveSafe.safe == FinalSafety(state);

    var safeMoves := CollectSafeMoves(isMoveSafe.safe);
    if |safeMoves| == 0 {
      return Down;
    }

    nextMove := safeMoves[pick % |safeMoves|];

    var foodDistanceMap := FoodDistanceMap(isMoveSafe.safe, state.You.Head, state.Board.Food);
    assert safeMoves[0] in foodDistanceMap;
    nextMove := SelectNearest(foodDistanceMap, nextMove);
  }
}
