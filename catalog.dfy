/**
 * Records of the content catalog (monster, item, room and terrain tables, the
 * names and verbs used in messages). The game loads them from data files; here
 * they are plain values handed to the operations that read them.
 */
module Catalog {
  import opened Options
  import opened Const

  datatype MonsterType = MonsterType(
    id: string,
    hpMax: int,
    strength: int,
    items: seq<string>,      // ids of the starting items, in inventory order
    behaviors: seq<string>,  // ids of the behaviours, in priority order
    difficulty: Option<int>, // None matches every difficulty
    chance: nat)
  {
    predicate IsPlayer() { id == "PLAYER" }
  }

  datatype ItemType = ItemType(id: string, chanceByDifficulty: seq<nat>)

  datatype RoomType = RoomType(
    id: string,
    shape: RoomShape,
    difficulty: Option<int>,         // None matches every difficulty
    chance: nat,
    monsters: Option<seq<string>>,   // None allows every monster type
    monsterDensity: int,
    itemDensity: int)

  /** The walkable and lightable columns of the terrain table. */
  datatype TerrainTable = TerrainTable(walkable: set<Terrain>, lightable: set<Terrain>)

  /** A row of the entity-name table. */
  datatype EntityName = EntityName(id: string, name: string, isSecondPerson: bool)

  /** A row of the verb table. */
  datatype Verb = Verb(present2p: string, present3p: string)
}
