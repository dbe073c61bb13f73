/** The cards the player plays. Card.cs is not part of this model: a card is
    taken to be an immutable value with a kind and the distance its
    GetDistance() reports. */
module Cards {

  /** The card kinds PlayResult dispatches on. */
  datatype CardName = TurnLeft | TurnRight | Jump | Move

  datatype Card = Card(name: CardName, distance: int)

  predicate IsTurn(c: Card) {
    c.name == TurnLeft || c.name == TurnRight
  }
}

/** The collaborators the brain queries: the tile manager's board and the
    player controller's view of the player. TileManager and PlayerController
    are not part of this model; their answers are given as values. */
module Board {

  /** A world position. Unity's float vectors are modelled by integer triples. */
  datatype Vec3 = Vec3(x: int, y: int, z: int)

  /** An opaque handle on a board tile. */
  datatype Tile = Tile(id: int)

  /** The board queries the brain makes:
      TileManager.GetTileAtLocation(origin, direction, distance),
      Tile.GetElevation() and Tile.GetPlayerSnapPosition(). */
  datatype TileManager = TileManager(
    tileAt: (Tile, int, int) -> Tile,
    elevation: Tile -> int,
    snap: Tile -> Vec3)

  /** What the player controller reports: the tile the player stands on and
      the direction it faces. */
  datatype PlayerView = PlayerView(tile: Tile, facing: int)

  /** The same position one unit lower. */
  function Lowered(v: Vec3): Vec3
  {
    Vec3(v.x, v.y - 1, v.z)
  }
}
