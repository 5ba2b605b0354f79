/**
 Grid geometry of the snake board: coordinates, the four move directions,
 the one-step destination of a move and the Manhattan distance
 (main.go, calculateNextCoordinate and calculateDistance).
 x grows rightward and y grows upward.
 */
module Geometry {

  datatype Coord = Coord(X: int, Y: int)

  /** The four moves the game protocol accepts. */
  datatype Direction = Up | Down | Left | Right {

    /** The label the game protocol uses for this move. */
    function Label(): string
    {
      match this
      case Up => "up"
      case Down => "down"
      case Left => "left"
      case Right => "right"
    }

    /** Horizontal displacement of one step in this direction. */
    function DX(): int
    {
      match this
      case Left => -1
      case Right => 1
      case _ => 0
    }

    /** Vertical displacement of one step in this direction. */
    function DY(): int
    {
      match this
      case Down => -1
      case Up => 1
      case _ => 0
    }
  }

  const AllDirections: set<Direction> := {Up, Down, Left, Right}

  /** The four labels of the protocol are all the moves there are. */
  lemma AllDirectionsComplete()
    ensures forall d: Direction :: d in AllDirections
  {
    forall d: Direction
      ensures d in AllDirections
    {
      match d
      case Up =>
      case Down =>
      case Left =>
      case Right =>
    }
  }

  /** True of exactly the four labels of the protocol. */
  predicate IsLabel(move: string)
  {
    move == "up" || move == "down" || move == "left" || move == "right"
  }

  /** The coordinate one step from `p` in direction `d`, by the fixed displacement table. */
  function Neighbour(p: Coord, d: Direction): Coord
  {
    Coord(p.X + d.DX(), p.Y + d.DY())
  }

  function Abs(n: int): nat
  {
    if n < 0 then -n else n
  }

  /**
   The coordinate reached by moving from `present` by the move labelled `move`;
   a label that is none of the four leaves the coordinate as it is.
   */
  function CalculateNextCoordinate(present: Coord, move: string): (next: Coord)
    ensures !IsLabel(move) ==> next == present
    ensures IsLabel(move) ==> CalculateDistance(present, next) == 1
  {
    if move == "up" then present.(Y := present.Y + 1)
    else if move == "down" then present.(Y := present.Y - 1)
    else if move == "left" then present.(X := present.X - 1)
    else if move == "right" then present.(X := present.X + 1)
    else present
  }

  /**
   Manhattan distance on unbounded integers. The source computes it through
   64-bit floating point, which agrees with this while coordinate differences
   stay below 2^53.
   */
  function CalculateDistance(here: Coord, there: Coord): (r: nat)
    ensures r == 0 <==> here == there
  {
    Abs(here.X - there.X) + Abs(here.Y - there.Y)
  }

  /** Every direction's label moves by that direction's displacement. */
  lemma NextCoordinateIsNeighbour(present: Coord, d: Direction)
    ensures IsLabel(d.Label())
    ensures CalculateNextCoordinate(present, d.Label()) == Neighbour(present, d)
  {
  }

  /** A step changes exactly one axis, and that axis by exactly one. */
  lemma NeighbourChangesOneAxis(p: Coord, d: Direction)
    ensures var n := Neighbour(p, d);
      (n.X == p.X && Abs(n.Y - p.Y) == 1) || (n.Y == p.Y && Abs(n.X - p.X) == 1)
    ensures d == Up ==> Neighbour(p, d) == Coord(p.X, p.Y + 1)
    ensures d == Down ==> Neighbour(p, d) == Coord(p.X, p.Y - 1)
    ensures d == Left ==> Neighbour(p, d) == Coord(p.X - 1, p.Y)
    ensures d == Right ==> Neighbour(p, d) == Coord(p.X + 1, p.Y)
  {
  }

  /** The four neighbours of a coordinate are pairwise distinct. */
  lemma NeighboursDistinct(p: Coord, d: Direction, e: Direction)
    requires d != e
    ensures Neighbour(p, d) != Neighbour(p, e)
  {
  }

  lemma DistanceSymmetric(a: Coord, b: Coord)
    ensures CalculateDistance(a, b) == CalculateDistance(b, a)
  {
  }

  /**
   Away from the target, the four destinations are not all equally far from
   it: one move gets two closer than another.
   */
  lemma DestinationDistancesDiffer(p: Coord, target: Coord)
    requires p != target
    ensures exists closer: Direction, farther: Direction ::
      CalculateDistance(Neighbour(p, closer), target) + 2 == CalculateDistance(Neighbour(p, farther), target)
  {
    var pair :=
      if target.X > p.X then (Right, Left)
      else if target.X < p.X then (Left, Right)
      else if target.Y > p.Y then (Up, Down)
      else (Down, Up);
    var closer, farther := pair.0, pair.1;
    assert CalculateDistance(Neighbour(p, closer), target) + 2 == CalculateDistance(Neighbour(p, farther), target);
  }
}
