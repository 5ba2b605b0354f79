/**
 Minimal stand-ins for the board snapshot the game server decodes each turn.
 Only the fields the move decision reads are kept.
 */
module GameTypes {
  import opened Geometry

  /** A snake: its head and its body segments, head first. */
  datatype Battlesnake = Battlesnake(Head: Coord, Body: seq<Coord>)

  datatype Board = Board(Width: int, Height: int, Food: seq<Coord>, Snakes: seq<Battlesnake>)

  /** One turn's snapshot: the board and the agent's own snake. */
  datatype GameState = GameState(Board: Board, You: Battlesnake)
}
