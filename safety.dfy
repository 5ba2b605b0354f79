/**
 The per-turn safety map over the four moves and the filters that update it
 (main.go: the backward check inside move, boundryCheck, nextMoveCoordinates
 and validateMoves), as functions on map values whose properties the lemmas
 state. boundryCheck and validateMoves are also methods that update the shared
 map in place, as the source does; nextMoveCoordinates is a method that builds
 a new map. Each method is proved equal to its function. The backward check
 has no function of its own in the source and is written inline in Move.
 */
module Safety {
  import opened Geometry
  import opened GameTypes

  datatype Option<T> = None | Some(value: T)

  type SafetyMap = map<Direction, bool>

  /** A lookup with the map's zero value: a missing key reads as unsafe. */
  predicate IsSafe(m: SafetyMap, d: Direction)
  {
    d in m && m[d]
  }

  const AllSafe: SafetyMap := map[Up := true, Down := true, Left := true, Right := true]

  /** The safety map as the mutable, shared map the filters write to. */
  class MoveTable {
    var safe: SafetyMap

    constructor ()
      ensures safe == AllSafe
    {
      safe := AllSafe;
    }
  }

  // ----- Backward filter -----

  /**
   The one move the backward check forbids: x is compared before y, and the
   move is the one whose axis first differs, toward the neck.
   */
  function BackwardDirection(head: Coord, neck: Coord): (r: Option<Direction>)
    ensures r == None <==> neck == head
    ensures r.Some? && neck.X != head.X ==> r.value.DY() == 0
    ensures r.Some? ==>
      CalculateDistance(Neighbour(head, r.value), neck) + 1 == CalculateDistance(head, neck)
  {
    if neck.X < head.X then Some(Left)
    else if neck.X > head.X then Some(Right)
    else if neck.Y < head.Y then Some(Down)
    else if neck.Y > head.Y then Some(Up)
    else None
  }

  function BackwardFiltered(head: Coord, neck: Coord, m: SafetyMap): (r: SafetyMap)
    ensures forall d :: IsSafe(r, d) == (IsSafe(m, d) && BackwardDirection(head, neck) != Some(d))
    ensures m.Keys <= r.Keys
  {
    match BackwardDirection(head, neck)
    case None => m
    case Some(d) => m[d := false]
  }

  /** When the neck is next to the head, the forbidden move is exactly the one onto the neck. */
  lemma BackwardBlocksNeck(head: Coord, neck: Coord, d: Direction)
    requires Neighbour(head, d) == neck
    ensures BackwardDirection(head, neck) == Some(d)
  {
  }

  /** The backward filter clears at most one entry. */
  lemma BackwardClearsAtMostOne(head: Coord, neck: Coord, m: SafetyMap, d: Direction, e: Direction)
    requires IsSafe(m, d) && !IsSafe(BackwardFiltered(head, neck, m), d)
    requires IsSafe(m, e) && !IsSafe(BackwardFiltered(head, neck, m), e)
    ensures d == e
  {
  }

  // ----- Boundary filter -----

  /** The moves the boundary check forbids, judged from the current position. */
  predicate Blocked(present: Coord, d: Direction, height: int, width: int)
    ensures OnBoard(present, height, width) ==>
      (Blocked(present, d, height, width) <==> !OnBoard(Neighbour(present, d), height, width))
  {
    match d
    case Right => present.X == width - 1
    case Left => present.X == 0
    case Down => present.Y == 0
    case Up => present.Y == height - 1
  }

  predicate OnBoard(c: Coord, height: int, width: int)
  {
    0 <= c.X < width && 0 <= c.Y < height
  }

  /** boundryCheck on map values: every blocked move is written false, every other entry is kept. */
  function BoundaryFiltered(present: Coord, m: SafetyMap, height: int, width: int): (r: SafetyMap)
    ensures forall d :: IsSafe(r, d) == (IsSafe(m, d) && !Blocked(present, d, height, width))
    ensures forall d :: d in r && d !in m ==> !r[d]
    ensures m.Keys <= r.Keys
  {
    m + map d | d in AllDirections && Blocked(present, d, height, width) :: false
  }

  /** The boundary filter only writes false: every entry it leaves true was true before. */
  lemma BoundaryOnlyNarrows(present: Coord, m: SafetyMap, height: int, width: int)
    ensures var r := BoundaryFiltered(present, m, height, width);
      forall d :: d in r ==> (r[d] ==> d in m && m[d])
    ensures var r := BoundaryFiltered(present, m, height, width);
      forall d :: d in m && !Blocked(present, d, height, width) ==> r[d] == m[d]
  {
  }

  lemma BoundaryIdempotent(present: Coord, m: SafetyMap, height: int, width: int)
    ensures var once := BoundaryFiltered(present, m, height, width);
      BoundaryFiltered(present, once, height, width) == once
  {
  }

  /**
   From a position on the board, the boundary filter keeps a move
   exactly when its destination is still on the board.
   */
  lemma BoundaryKeepsOnBoard(present: Coord, m: SafetyMap, height: int, width: int, d: Direction)
    requires OnBoard(present, height, width)
    ensures IsSafe(BoundaryFiltered(present, m, height, width), d)
        <==> IsSafe(m, d) && OnBoard(Neighbour(present, d), height, width)
  {
  }

  // ----- Destinations -----

  /** One-step destinations, only for the moves still safe. */
  function Destinations(present: Coord, m: SafetyMap): (coordinateMap: map<Direction, Coord>)
    ensures forall d :: d in coordinateMap <==> IsSafe(m, d)
    ensures forall d :: d in coordinateMap ==> coordinateMap[d] == Neighbour(present, d)
  {
    map d | d in m && m[d] :: CalculateNextCoordinate(present, d.Label())
  }

  // ----- Body check -----

  /**
   One pass of the body check: every move with a destination is overwritten
   with "destination not in hazard", whatever it was before; the others keep
   their entry.
   */
  function Validated(coordinateMap: map<Direction, Coord>, m: SafetyMap, hazard: seq<Coord>): (r: SafetyMap)
    ensures forall d :: d in coordinateMap ==> IsSafe(r, d) == (coordinateMap[d] !in hazard)
    ensures forall d :: d !in coordinateMap ==> (d in r <==> d in m) && (d in m ==> r[d] == m[d])
    ensures r.Keys == m.Keys + coordinateMap.Keys
  {
    m + map d | d in coordinateMap :: coordinateMap[d] !in hazard
  }

  /** A later pass erases an earlier one. */
  lemma ValidatedOverwrites(coordinateMap: map<Direction, Coord>, m: SafetyMap, earlier: seq<Coord>, later: seq<Coord>)
    ensures Validated(coordinateMap, Validated(coordinateMap, m, earlier), later)
         == Validated(coordinateMap, m, later)
  {
  }

  /** One pass of the body check per snake, in the order of `snakes`. */
  function ValidatedAll(coordinateMap: map<Direction, Coord>, m: SafetyMap, snakes: seq<Battlesnake>): (r: SafetyMap)
    ensures m.Keys <= r.Keys <= m.Keys + coordinateMap.Keys
    ensures forall d :: d !in coordinateMap ==> IsSafe(r, d) == IsSafe(m, d)
    decreases |snakes|
  {
    if snakes == [] then m
    else Validated(coordinateMap, ValidatedAll(coordinateMap, m, snakes[..|snakes| - 1]), snakes[|snakes| - 1].Body)
  }

  /** After several passes, only the last snake's body has decided the moves with a destination. */
  lemma {:induction false} LastSnakeDecides(coordinateMap: map<Direction, Coord>, m: SafetyMap, snakes: seq<Battlesnake>)
    requires snakes != []
    ensures ValidatedAll(coordinateMap, m, snakes) == Validated(coordinateMap, m, snakes[|snakes| - 1].Body)
  {
    var n := |snakes|;
    var front := snakes[..n - 1];
    if n == 1 {
      assert front == [];
    } else {
      LastSnakeDecides(coordinateMap, m, front);
      assert front[|front| - 1] == snakes[n - 2];
      ValidatedOverwrites(coordinateMap, m, snakes[n - 2].Body, snakes[n - 1].Body);
    }
  }

  // ----- The in-place operations -----

  /** The four conditional writes of boundryCheck, one after another, give BoundaryFiltered. */
  lemma BoundaryStepsFilter(present: Coord, m0: SafetyMap, m1: SafetyMap, m2: SafetyMap, m3: SafetyMap, m4: SafetyMap, height: int, width: int)
    requires m1 == if present.X == width - 1 then m0[Right := false] else m0
    requires m2 == if present.X == 0 then m1[Left := false] else m1
    requires m3 == if present.Y == 0 then m2[Down := false] else m2
    requires m4 == if present.Y == height - 1 then m3[Up := false] else m3
    ensures m4 == BoundaryFiltered(present, m0, height, width)
  {
    var expected := BoundaryFiltered(present, m0, height, width);
    forall d
      ensures d in m4 <==> d in expected
      ensures d in m4 ==> m4[d] == expected[d]
    {
      BoundaryStepAt(present, m0, m1, m2, m3, m4, height, width, d);
      BoundaryFilteredAt(present, m0, height, width, d);
    }
    assert m4.Keys == expected.Keys;
  }

  /** What the four writes leave for one direction. */
  lemma BoundaryStepAt(present: Coord, m0: SafetyMap, m1: SafetyMap, m2: SafetyMap, m3: SafetyMap, m4: SafetyMap, height: int, width: int, d: Direction)
    requires m1 == if present.X == width - 1 then m0[Right := false] else m0
    requires m2 == if present.X == 0 then m1[Left := false] else m1
    requires m3 == if present.Y == 0 then m2[Down := false] else m2
    requires m4 == if present.Y == height - 1 then m3[Up := false] else m3
    ensures d in m4 <==> d in m0 || Blocked(present, d, height, width)
    ensures d in m4 ==> m4[d] == if Blocked(present, d, height, width) then false else m0[d]
  {
    match d
    case Right =>
      assert (d in m4 <==> d in m1) && (d in m4 ==> m4[d] == m1[d]);
    case Left =>
      assert (d in m4 <==> d in m2) && (d in m4 ==> m4[d] == m2[d]);
    case Down =>
      assert (d in m4 <==> d in m3) && (d in m4 ==> m4[d] == m3[d]);
    case Up =>
  }

  /** BoundaryFiltered for one direction. */
  lemma BoundaryFilteredAt(present: Coord, m: SafetyMap, height: int, width: int, d: Direction)
    ensures var r := BoundaryFiltered(present, m, height, width);
      && (d in r <==> d in m || Blocked(present, d, height, width))
      && (d in r ==> r[d] == if Blocked(present, d, height, width) then false else m[d])
  {
    AllDirectionsComplete();
  }

  /** boundryCheck: narrows the shared map and hands the same map back. */
  method BoundaryCheck(present: Coord, moves: MoveTable, height: int, width: int) returns (result: MoveTable)
    modifies moves
    ensures result == moves
    ensures moves.safe == BoundaryFiltered(present, old(moves.safe), height, width)
  {
    ghost var m0 := moves.safe;
    if present.X == width - 1 {
      moves.safe := moves.safe[Right := false];
    }
    ghost var m1 := moves.safe;
    if present.X == 0 {
      moves.safe := moves.safe[Left := false];
    }
    ghost var m2 := moves.safe;
    if present.Y == 0 {
      moves.safe := moves.safe[Down := false];
    }
    ghost var m3 := moves.safe;
    if present.Y == height - 1 {
      moves.safe := moves.safe[Up := false];
    }
    BoundaryStepsFilter(present, m0, m1, m2, m3, moves.safe, height, width);
    result := moves;
  }

  /** nextMoveCoordinates: visits the map's entries in an unspecified order. */
  method NextMoveCoordinates(present: Coord, moves: MoveTable) returns (coordinateMap: map<Direction, Coord>)
    ensures coordinateMap == Destinations(present, moves.safe)
  {
    coordinateMap := map[];
    var pending := moves.safe.Keys;
    while pending != {}
      invariant pending <= moves.safe.Keys
      invariant forall d :: d in coordinateMap <==> IsSafe(moves.safe, d) && d !in pending
      invariant forall d :: d in coordinateMap ==> coordinateMap[d] == Neighbour(present, d)
      decreases pending
    {
      var move :| move in pending;
      if moves.safe[move] {
        NextCoordinateIsNeighbour(present, move);
        coordinateMap := coordinateMap[move := CalculateNextCoordinate(present, move.Label())];
      }
      pending := pending - {move};
    }
  }

  /**
   validateMoves: for each destination, scans the hazard list until a hit,
   then writes the verdict into the shared map.
   */
  method ValidateMoves(coordinateMap: map<Direction, Coord>, moves: MoveTable, hazard: seq<Coord>)
    modifies moves
    ensures moves.safe == Validated(coordinateMap, old(moves.safe), hazard)
  {
    ghost var start := moves.safe;
    var pending := coordinateMap.Keys;
    while pending != {}
      invariant pending <= coordinateMap.Keys
      invariant moves.safe.Keys == start.Keys + (coordinateMap.Keys - pending)
      invariant forall d :: d in coordinateMap && d !in pending ==> moves.safe[d] == (coordinateMap[d] !in hazard)
      invariant forall d :: d in start && (d !in coordinateMap || d in pending) ==> moves.safe[d] == start[d]
      decreases pending
    {
      var move :| move in pending;
      var position := coordinateMap[move];
      var valid := true;
      var i := 0;
      while i < |hazard|
        invariant 0 <= i <= |hazard|
        invariant valid && position !in hazard[..i]
      {
        if hazard[i] == position {
          valid := false;
          break;
        }
        i := i + 1;
      }
      assert valid ==> hazard[..i] == hazard;
      moves.safe := moves.safe[move := valid];
      pending := pending - {move};
    }
    ghost var expected := Validated(coordinateMap, start, hazard);
    assert moves.safe.Keys == expected.Keys;
    forall d | d in expected
      ensures moves.safe[d] == expected[d]
    {
      if d in coordinateMap {
        assert IsSafe(expected, d) == (coordinateMap[d] !in hazard);
      }
    }
  }
}
