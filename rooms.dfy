/** Rooms placed by the dungeon generator. */
module Rooms {
  import opened Options
  import opened Geom
  import opened Const
  import opened Catalog

  /** Room ids are uuid4 hex strings: never empty, so a tagged cell is always truthy. */
  type RoomId = s: string | |s| > 0 witness "0"

  class Room {
    const roomId: RoomId
    const roomType: RoomType
    const rect: Rect
    /** Unset until the difficulty pass; then the index of the room's quadrant. */
    var difficulty: Option<int>

    /**
     * A room in the leaf rectangle `leafRect`. A BOX_FULL room fills it; a
     * BOX_RANDOM room takes `randomRect`, the random sub-rectangle drawn for it.
     */
    constructor (roomId: RoomId, roomType: RoomType, leafRect: Rect, randomRect: Rect)
      ensures this.roomId == roomId && this.roomType == roomType
      ensures rect == (if roomType.shape == BoxRandom then randomRect else leafRect)
      ensures difficulty == None
    {
      this.roomId := roomId;
      this.roomType := roomType;
      this.rect := if roomType.shape == BoxRandom then randomRect else leafRect;
      difficulty := None;
    }
  }
}
