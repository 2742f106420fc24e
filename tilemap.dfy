/**
 * The level's grid of cells, with the generator's bookkeeping: rooms by id,
 * the cells tagged with each room, the cells already used by spawn points and
 * the points of interest handed to the level.
 */
module TileMaps {
  import opened Options
  import opened Geom
  import opened Const
  import opened Catalog
  import opened Rooms

  datatype Cell = Cell(terrain: Terrain, feature: Option<Feature>, roomId: Option<RoomId>, annotations: set<string>)

  /** A fresh cell: empty terrain, no feature, no room. */
  function NewCell(): (c: Cell)
    ensures c.terrain == Empty && c.roomId == None && c.feature == None
  {
    Cell(Empty, None, None, {})
  }

  datatype MonsterData = MonsterData(monsterType: MonsterType, position: Pos, difficulty: Option<int>)
  datatype ItemData = ItemData(itemType: ItemType, position: Pos)

  datatype PointsOfInterest = PointsOfInterest(
    stairsUp: Option<Pos>,
    stairsDown: Option<Pos>,
    monsters: seq<MonsterData>,
    items: seq<ItemData>)

  predicate NoDup<T(==)>(s: seq<T>) {
    forall i, j | 0 <= i < j < |s| :: s[i] != s[j]
  }

  class TileMap {
    const cells: array2<Cell>
    var roomsById: map<RoomId, Room>
    var cellsByRoomId: map<RoomId, seq<Pos>>
    var occupiedCells: set<Pos>
    var pointsOfInterest: PointsOfInterest

    constructor (width: nat, height: nat)
      ensures fresh(cells) && cells.Length0 == width && cells.Length1 == height
      ensures forall x, y | 0 <= x < width && 0 <= y < height :: cells[x, y] == NewCell()
      ensures roomsById == map[] && cellsByRoomId == map[] && occupiedCells == {}
      ensures pointsOfInterest == PointsOfInterest(None, None, [], [])
    {
      cells := new Cell[width, height]((x, y) => NewCell());
      roomsById := map[];
      cellsByRoomId := map[];
      occupiedCells := {};
      pointsOfInterest := PointsOfInterest(None, None, [], []);
    }

    predicate InBounds(p: Pos) {
      0 <= p.x < cells.Length0 && 0 <= p.y < cells.Length1
    }

    function At(p: Pos): Cell
      reads cells
      requires InBounds(p)
    {
      cells[p.x, p.y]
    }

    /** Whether `p` is in bounds and its terrain lets light through. */
    predicate Lightable(p: Pos, table: TerrainTable)
      reads cells
    {
      InBounds(p) && At(p).terrain in table.lightable
    }

    /** Every point of `line` is lightable. */
    predicate LineLit(line: seq<Pos>, table: TerrainTable)
      reads cells
      ensures LineLit(line, table) <==> forall q | q in line :: Lightable(q, table)
    {
      line == [] || (Lightable(line[0], table) && LineLit(line[1..], table))
    }

    /** The lightable points of the map. */
    function LightablePoints(table: TerrainTable): (r: set<Pos>)
      reads cells
      ensures forall p :: p in r <==> Lightable(p, table)
    {
      set x: int, y: int | 0 <= x < cells.Length0 && 0 <= y < cells.Length1 && cells[x, y].terrain in table.lightable :: Pos(x, y)
    }

    /** The cells listed under each room id. */
    function CellsOf(id: RoomId): seq<Pos>
      reads this`cellsByRoomId
    {
      if id in cellsByRoomId then cellsByRoomId[id] else []
    }

    /**
     * The one-shot tagging invariant: every listed cell is in bounds, carries
     * the id it is listed under and is listed once; every tagged cell is listed.
     */
    ghost predicate RoomsTagged()
      reads this`cellsByRoomId, cells
    {
      && (forall id, i | id in cellsByRoomId && 0 <= i < |cellsByRoomId[id]| ::
            InBounds(cellsByRoomId[id][i]) && At(cellsByRoomId[id][i]).roomId == Some(id))
      && (forall id | id in cellsByRoomId :: NoDup(cellsByRoomId[id]))
      && (forall x, y | 0 <= x < cells.Length0 && 0 <= y < cells.Length1 && RoomIdAt(x, y).Some? ::
            Pos(x, y) in CellsOf(RoomIdAt(x, y).value))
    }

    /** The room tag of the cell at (x, y). */
    function RoomIdAt(x: int, y: int): Option<RoomId>
      reads cells
      requires 0 <= x < cells.Length0 && 0 <= y < cells.Length1
    {
      cells[x, y].roomId
    }

    /** Each room is stored under its own id. */
    predicate RoomsKeyed()
      reads this`roomsById
    {
      forall id | id in roomsById :: roomsById[id].roomId == id
    }

    /**
     * Tags the cell at `p` with `roomId`. A cell that already has a room fails
     * the assertion: `ok` is false and nothing changes.
     */
    method AssignRoom(p: Pos, roomId: RoomId) returns (ok: bool)
      requires InBounds(p)
      modifies this`cellsByRoomId, cells
      ensures ok <==> old(At(p)).roomId.None?
      ensures ok ==> At(p) == old(At(p)).(roomId := Some(roomId))
      ensures ok ==> cellsByRoomId == old(cellsByRoomId)[roomId := old(CellsOf(roomId)) + [p]]
      ensures forall x, y | 0 <= x < cells.Length0 && 0 <= y < cells.Length1 && Pos(x, y) != p ::
        cells[x, y] == old(cells[x, y])
      ensures !ok ==> At(p) == old(At(p)) && cellsByRoomId == old(cellsByRoomId)
      ensures old(RoomsTagged()) ==> RoomsTagged()
    {
      var c := cells[p.x, p.y];
      if c.roomId.Some? {
        return false;
      }
      ghost var before := cellsByRoomId;
      cells[p.x, p.y] := c.(roomId := Some(roomId));
      cellsByRoomId := cellsByRoomId[roomId := CellsOf(roomId) + [p]];
      ok := true;
      if old(RoomsTagged()) {
        forall id, i | id in cellsByRoomId && 0 <= i < |cellsByRoomId[id]|
          ensures InBounds(cellsByRoomId[id][i]) && At(cellsByRoomId[id][i]).roomId == Some(id)
        {
          if id != roomId || i < |cellsByRoomId[id]| - 1 {
            var q := cellsByRoomId[id][i];
            assert q == before[id][i];
            assert q != p;
          }
        }
        forall id | id in cellsByRoomId
          ensures NoDup(cellsByRoomId[id])
        {
          if id == roomId && roomId in before {
            assert p !in before[roomId];
          }
        }
      }
    }

    /** Sets the terrain of the cell at `p`; nothing else changes. */
    method SetTerrain(p: Pos, t: Terrain)
      requires InBounds(p)
      modifies cells
      ensures At(p) == old(At(p)).(terrain := t)
      ensures forall x, y | 0 <= x < cells.Length0 && 0 <= y < cells.Length1 && Pos(x, y) != p ::
        cells[x, y] == old(cells[x, y])
    {
      cells[p.x, p.y] := cells[p.x, p.y].(terrain := t);
    }

    /** Adds an annotation to the cell at `p`; nothing else changes. */
    method Annotate(p: Pos, a: string)
      requires InBounds(p)
      modifies cells
      ensures At(p) == old(At(p)).(annotations := old(At(p)).annotations + {a})
      ensures forall x, y | 0 <= x < cells.Length0 && 0 <= y < cells.Length1 && Pos(x, y) != p ::
        cells[x, y] == old(cells[x, y])
    {
      cells[p.x, p.y] := cells[p.x, p.y].(annotations := cells[p.x, p.y].annotations + {a});
    }

    /** No cell is listed under two rooms, and none twice under one. */
    lemma TaggedAtMostOnce(a: RoomId, b: RoomId, i: nat, j: nat)
      requires RoomsTagged()
      requires a in cellsByRoomId && b in cellsByRoomId
      requires i < |cellsByRoomId[a]| && j < |cellsByRoomId[b]|
      requires cellsByRoomId[a][i] == cellsByRoomId[b][j]
      ensures a == b && i == j
    {
    }

    /**
     * The room a cell belongs to: None for an untagged cell, otherwise the room
     * stored under the cell's tag.
     */
    function GetRoom(p: Pos): (r: Option<Room>)
      reads this`roomsById, cells
      requires InBounds(p)
      requires At(p).roomId.Some? ==> At(p).roomId.value in roomsById
      requires RoomsKeyed()
      ensures r.None? <==> At(p).roomId.None?
      ensures r.Some? ==> Some(r.value.roomId) == At(p).roomId
    {
      match At(p).roomId
      case None => None
      case Some(id) => Some(roomsById[id])
    }
  }
}
