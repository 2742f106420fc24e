/** The enumerations the rules are written against. */
module Const {

  datatype Terrain = Empty | Floor | Wall | DoorClosed | DoorOpen | Corridor

  datatype Feature = StairsUp | StairsDown

  datatype MonsterMode = Default | Stunned | Sleeping | Chasing | Fleeing

  datatype RoomShape = BoxRandom | BoxFull

  /** The fixed set of event names a level registers with its dispatcher. */
  datatype EventName =
    | EntityMoved | EntityBumped | EntityAttacking | EntityAttacked | EntityTookDamage
    | EntityDied | EntityPickedUpItem | EntityDroppedItem | DoorOpened
    | PlayerTookAction | ScoreIncreased

  /** The string value of each event-name enum member. */
  function Value(n: EventName): string {
    match n
    case EntityMoved => "entity_moved"
    case EntityBumped => "entity_bumped"
    case EntityAttacking => "entity_attacking"
    case EntityAttacked => "entity_attacked"
    case EntityTookDamage => "entity_took_damage"
    case EntityDied => "entity_died"
    case EntityPickedUpItem => "entity_picked_up_item"
    case EntityDroppedItem => "entity_dropped_item"
    case DoorOpened => "door_open"
    case PlayerTookAction => "player_took_action"
    case ScoreIncreased => "score_increased"
  }

  /** Every event name, in declaration order. */
  const AllEventNames: seq<EventName> := [
    EntityMoved, EntityBumped, EntityAttacking, EntityAttacked, EntityTookDamage,
    EntityDied, EntityPickedUpItem, EntityDroppedItem, DoorOpened,
    PlayerTookAction, ScoreIncreased]

  lemma AllEventNamesComplete(n: EventName)
    ensures n in AllEventNames
  {
  }

  /** Distinct members have distinct values, so the value is a faithful key. */
  lemma ValueInjective(a: EventName, b: EventName)
    requires Value(a) == Value(b)
    ensures a == b
  {
  }
}
