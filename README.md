# Rogue Basement rule engine in Dafny

Rogue Basement is a small turn-based roguelike. This project models its rule
engine:

- The **level state** owns the tile map, the entities and the event queue.
  It keeps a position→entity index and a position→item-list index. Its
  invariant is that the entity index and each entity's `position` field
  agree, so no two entities share a cell.
- **Events** are only queued when fired. `consume_events` drains the queue
  first in, first out, including events that handlers enqueue while the
  drain runs. A flag refuses a drain started inside a drain.
- The **dispatcher** maps event names to ordered lists of
  (subscriber, entity filter) pairs.
- **Actions** are move, attack, open door, close door, pick up and throw.
  Each changes the level in place and enqueues a fixed sequence of events.
- **Behaviours** are the monster AI: sleep, stun, random walk, picking up
  rocks, beelining, range keeping, rock throwing and flying rocks. A
  composite behaviour asks its sub-behaviours in order until one answers
  truthily.
- The **dungeon generator helpers** cover these pieces:
  - weighted choice and difficulty lookup;
  - room choice and the nearest room;
  - engraving rooms, with walls, floors and one-shot room tags;
  - corridor paths and their retry bound;
  - spawn placement for monsters and items;
  - the BSP split helper.
- The **game state** holds the levels and the active level id.
- The **older game state file** has its own level state, which keeps an
  entity list.
- The **message log** collapses runs of repeated messages.
- The **sentence builder** writes sentences such as "The rat bites you."

Modules follow the source files:

| module | file | source |
|---|---|---|
| `Options` | options.dfy | — |
| `Geom` | geom.dfy | — |
| `Const` | const.dfy | — |
| `Catalog` | catalog.dfy | — |
| `Dispatcher` | dispatcher.dfy | ld38/dispatcher.py |
| `Rooms` | rooms.dfy | the `Room` class of ld38/level_generator.py |
| `TileMaps` | tilemap.dfy | ld38/tilemap.py |
| `Entities` | entity.dfy | ld38/entity.py, plus the behaviour objects' subscription code from ld38/behavior.py |
| `Level` | level_state.dfy | ld38/level_state.py and ld38/game_state.py, in one module because a level keeps a back-reference to its game for the score |
| `Actions` | actions.dfy | ld38/actions.py |
| `Behaviors` | behavior.dfy | the handlers of ld38/behavior.py |
| `Generator` | level_generator.dfy | ld38/level_generator.py |
| `Legacy` | gamestate.dfy | ld38/gamestate.py |
| `Logger` | logger.dfy | ld38/logger.py |
| `Sentences` | sentences.dfy | ld38/sentences.py |

Several things become values instead of code:

- Field of view, the Bresenham line and randomness are parameters. A random
  choice is an index or a draw; a random point is a list of candidate points.
  The neighbour lists and the nearest and farthest point are small functions
  with an assumed order and tie-break (see "Left out").
- Content tables are values. These are the monster, item, room and terrain
  types and the name table.
- A dictionary that the source mutates is a `map` field. A list it mutates is
  a `seq` field. The cell grid is a two-dimensional `array`.
- An assertion failure or an exception raised before anything changes
  becomes a `false`, `null` or `None` result with the state unchanged.

Notes on the source:

- `test_line_of_sight` in ld38/level_state.py cuts off at Manhattan distance
  30. The distance 20 belongs to the older ld38/gamestate.py, and both are
  modelled.
- `drop_item` never sets an item's `position`, so the item index cannot be
  tied to item positions. The model keeps positions only in the index.
- `consume_events` asserts against re-entry instead of merely skipping.

## Model

| member | source | states |
|---|---|---|
| Const.AllEventNamesComplete | ld38/level_state.py:53-54 | the list of event names that the level registers contains every event name |
| Const.ValueInjective | ld38/dispatcher.py:9-10 | two event names with the same string value are the same name, so normalising to `.value` merges no distinct events |
| Dispatcher.MemberIsItsValue | ld38/dispatcher.py:9-10 | an enum member and its string value are the same dispatcher key |
| Dispatcher.RecipientsMember | ld38/dispatcher.py:27-30 | a subscriber hears an event iff it has a subscription whose filter is None, or the event has no entity, or the filter is the event's entity |
| Dispatcher.BroadcastReachesAll | ld38/dispatcher.py:27-30 | an event about no entity reaches every subscription, in subscription order |
| Dispatcher.RecipientsAppend | ld38/dispatcher.py:27-30 | delivery over two concatenated subscription lists is the delivery of the first followed by that of the second |
| Dispatcher.RemoveFirst | ld38/dispatcher.py:18-21 | list removal drops exactly one occurrence of the element: one shorter, same multiset minus that element |
| Dispatcher.RemoveFirstOfAppended | ld38/dispatcher.py:13-21 | appending a pair to a list that lacked it and then removing it gives the list back |
| Dispatcher.SubscribeAll | ld38/behavior.py:56-61 | subscribing to a list of registered names keeps the set of registered names |
| Dispatcher.SubscribeAllAt | ld38/behavior.py:56-61 | after subscribing, each name's list is the old list followed by one copy of the pair per occurrence of the name |
| Dispatcher.UnsubscribeAll | ld38/behavior.py:63-65 | a successful unsubscription keeps the set of registered names |
| Dispatcher.SubscribeThenUnsubscribe | ld38/behavior.py:56-65 | subscribing a fresh pair to a list of names and then unsubscribing it restores every list exactly |
| Dispatcher.EventDispatcher.constructor | ld38/dispatcher.py:5-6 | a new dispatcher has no event names registered |
| Dispatcher.EventDispatcher.RegisterEventType | ld38/dispatcher.py:8-11 | the name, normalised, maps to an empty list, wiping earlier subscribers; other names are untouched |
| Dispatcher.EventDispatcher.AddSubscriber | ld38/dispatcher.py:13-16 | it succeeds iff the name is registered, and then appends the pair at the end of that name's list; an unregistered name (KeyError) changes nothing |
| Dispatcher.EventDispatcher.RemoveSubscriber | ld38/dispatcher.py:18-21 | it succeeds iff the name is registered and holds the pair, and then removes its first occurrence; otherwise nothing changes |
| Dispatcher.EventDispatcher.Fire | ld38/dispatcher.py:23-30 | it fails iff the name is unregistered; otherwise the subscribers reached are exactly the filtered ones, in subscription order |
| Rooms.Room.constructor | ld38/level_generator.py:61-72 | a new room keeps its id and type, has no difficulty, and takes the random sub-rectangle for a random box or the whole leaf for a full box |
| TileMaps.NewCell | ld38/tilemap.py:23-26 | a new cell has empty terrain, no room id and no feature |
| TileMaps.TileMap.constructor | ld38/tilemap.py:36-40 | a new map has only new cells, no rooms, no room cell lists, no occupied cells and no points of interest |
| TileMaps.TileMap.AssignRoom | ld38/tilemap.py:42-46 | it succeeds iff the cell had no room id; it then tags the cell, appends the point to that room's cell list and changes no other cell; room tags stay one-shot and consistent with the lists |
| TileMaps.TileMap.TaggedAtMostOnce | ld38/tilemap.py:42-46 | while tags are consistent, a point occurs in the room cell lists at most once, under a single room id |
| TileMaps.TileMap.GetRoom | ld38/tilemap.py:48-52 | None iff the cell has no room id, otherwise the registered room with the cell's id; an out-of-bounds point is excluded by the requires |
| TileMaps.TileMap.LineLit | ld38/level_state.py:220-222 | a traced line is clear iff every point on it is in bounds with lightable terrain |
| TileMaps.TileMap.LightablePoints | ld38/level_state.py:264-269 | the set given to the field of view holds exactly the in-bounds lightable points |
| Entities.NewItem | ld38/entity.py:66-69 | a new item has the given type and no position |
| Entities.KindEvents | ld38/behavior.py:102-121 | every behaviour class listens to `player_took_action`; only the stunnable one also listens to `entity_attacked`; no name is listed twice |
| Entities.UnionEventNames | ld38/behavior.py:79-81 | the composite's names are duplicate-free and are exactly the union of its sub-behaviours' names |
| Entities.AddNames | ld38/behavior.py:81 | a set union step: no duplicates, and a name is in the result iff it is in either input |
| Entities.Keys | ld38/dispatcher.py:9-10 | the names a behaviour subscribes under, each normalised to its string value, in order |
| Entities.Behavior.constructor | ld38/behavior.py:43-46 | a single behaviour listens to its class's names; a composite listens to the union of its sub-behaviours' names, without duplicates |
| Entities.Behavior.AddToEventDispatcher | ld38/behavior.py:56-61 | the new table is the old one with (behaviour, no filter) appended under each of its names |
| Entities.Behavior.RemoveFromEventDispatcher | ld38/behavior.py:63-65 | it succeeds iff every removal finds its pair; then the table is the old one with those pairs removed; registered names are unchanged |
| Entities.Behavior.AddThenRemove | ld38/behavior.py:56-65 | adding and then removing a behaviour that was not subscribed leaves the dispatcher table as it was |
| Entities.Entity.constructor | ld38/entity.py:6-46 | hp max and strength come from the type and hp is full; no position, behaviours or inventory; default mode and empty behaviour state |
| Entities.Entity.AddBehavior | ld38/entity.py:54-57 | the behaviour is appended at the end of the list |
| Entities.Entity.IsPlayer | ld38/entity.py:49-52 | an entity is the player iff its type's id is "PLAYER" |
| Level.DrainIsFifo | ld38/level_state.py:165-181 | the events popped are the queue as it was, then each handler batch in the order it was enqueued: strictly first in, first out |
| Level.DrainPopsQueueFirst | ld38/level_state.py:171-172 | everything already queued is popped before any event a handler adds |
| Level.SubscribeBehaviors | ld38/level_state.py:127-128 | subscribing an entity's behaviours keeps the registered names |
| Level.UnsubscribeBehaviors | ld38/level_state.py:135-136 | unsubscribing an entity's behaviours keeps the registered names when it succeeds |
| Level.SubscribeEach | ld38/level_state.py:127-128 | the loop leaves the table equal to subscribing each behaviour in order |
| Level.UnsubscribeEach | ld38/level_state.py:135-136 | the loop succeeds iff the specification does, and then leaves the table it defines; names stay registered |
| Level.ShapeFor | ld38/level_state.py:112-117 | one behaviour id gives a single behaviour of that class; otherwise a composite of the listed classes in order |
| Level.Put | ld38/level_state.py:144-146 | dropping appends the item to the end of its cell's list; every other cell's list is unchanged |
| Level.PlaceAllCells | ld38/level_state.py:64-65 | after dropping the generator's items, each cell holds its old items followed by the items listed for it, in list order |
| Level.DropSeqCells | ld38/actions.py:134-135 | dropping a list of items at one cell appends them there in order and changes no other cell |
| Level.SightCutoff | ld38/level_state.py:210-216 | a longer cutoff sees whatever a shorter one sees, and nothing farther than the cutoff is seen |
| Level.RegisterAll | ld38/level_state.py:53-54 | afterwards every event name is registered |
| Level.LevelState.constructor | ld38/level_state.py:36-75 | it builds a consistent level: the player on the up stairs, each listed monster of its type on its cell, each cell's items as listed, an empty queue, no drain running, and the first view remembered |
| Level.LevelState.Populate | ld38/level_state.py:56-75 | the spawning half of set-up reaches the same state and enqueues nothing |
| Level.LevelState.SpawnPlayer | ld38/level_state.py:57-60 | the player is created on the up stairs and is the only indexed entity |
| Level.LevelState.DropAll | ld38/level_state.py:64-65 | the item index becomes the listed items placed in order, unannounced |
| Level.LevelState.CreateAll | ld38/level_state.py:68-69 | the index gains exactly the listed cells, each holding a monster of the listed type, and the level stays consistent |
| Level.LevelState.CreateMonster | ld38/level_state.py:68-69 | one monster is created on its free cell; only that cell is added and every earlier index entry is kept |
| Level.LevelState.CreateEntity | ld38/level_state.py:91-122 | it fails, changing nothing, iff it would be a second player, the cell is occupied or a catalog id is unknown; otherwise a fresh entity has full hp, the type's starting items in order and one behaviour of the right shape, is subscribed, and is indexed at its cell |
| Level.LevelState.StartingInventory | ld38/level_state.py:106-107 | the inventory is one new item per id the type lists, in order, and it fails iff some id is missing from the item catalog |
| Level.LevelState.BehaviorsRegistered | ld38/level_state.py:112-117 | it reports whether every behaviour id the type lists has a registered class |
| Level.LevelState.NoSharedCells | ld38/level_state.py:97-98 | in a consistent level two entities on the same cell are the same entity |
| Level.LevelState.GetEntityAt | ld38/level_state.py:225-229 | an entity is found iff some entity of the level stands there, and the one found stands there |
| Level.LevelState.GetItemsAt | ld38/level_state.py:231-235 | the list stored for the cell, or an empty list (the KeyError) for a cell where nothing was ever dropped |
| Level.LevelState.GetIsTerrainPassable | ld38/level_state.py:237-241 | false out of bounds (the CellOutOfBoundsError); otherwise exactly whether the cell's terrain is walkable |
| Level.LevelState.GetCanSee | ld38/level_state.py:264-269 | false out of bounds; otherwise exactly whether the cell's terrain is lightable |
| Level.LevelState.GetCanOpenDoor | ld38/level_state.py:271-275 | exactly the player (type id "PLAYER") may open doors |
| Level.LevelState.TestLineOfSight | ld38/level_state.py:210-223 | sight needs both entities alive and at most 30 apart, and then holds iff every point of the traced line is lit |
| Level.LevelState.GetCanMove | ld38/level_state.py:243-262 | an occupied cell refuses unless its occupant is the player and the player is allowed; outside the map refuses; otherwise the terrain's walkable flag decides |
| Level.LevelState.MovableAmong | ld38/level_state.py:277-281 | it keeps exactly the candidates that may be moved onto with the player allowed |
| Level.LevelState.GetPassableNeighbors | ld38/level_state.py:277-281 | the result is the set of the eight neighbours that may be moved onto with the player allowed; the argument that should control this is ignored, as in the source |
| Level.LevelState.LineOfSightRules | ld38/level_state.py:210-223 | no sight if either entity is off the map or they are more than 30 apart; otherwise sight iff the traced line is clear |
| Level.LevelState.Fire | ld38/level_state.py:160-161 | the event is appended to the back of the queue and nothing else changes |
| Level.LevelState.ConsumeEvents | ld38/level_state.py:165-181 | a drain already running makes it fail and change nothing; otherwise it pops the FIFO drain of the queue and handler batches, delivers each event to exactly its filtered subscribers, and ends with an empty queue and the flag cleared |
| Level.LevelState.FirePlayerTookActionIfAlive | ld38/level_state.py:189-193 | nothing is queued for a dead player; otherwise one `player_took_action` is queued, about the given position or else the player's |
| Level.LevelState.UpdateLosCache | ld38/level_state.py:86-88 | the view is recomputed from the player's cell and added to the memory |
| Level.LevelState.DropItem | ld38/level_state.py:144-149 | it always succeeds; the item is appended to its cell's list, and `entity_dropped_item` is queued only when an entity is given |
| Level.LevelState.AddEntity | ld38/level_state.py:124-131 | the level stays consistent; the entity's behaviours are subscribed in order and it is indexed at its cell if it has one |
| Level.LevelState.RemoveEntity | ld38/level_state.py:133-140 | the level stays consistent; it succeeds iff every unsubscription finds its pair; then only the entity's index entry goes and its position is cleared; on failure neither changes |
| Level.GameState.constructor | ld38/game_state.py:22-26 | score 0, exactly one level, and the active id is that level's uuid |
| Level.GameState.Level | ld38/game_state.py:28-30 | the active level is the one stored under the active id |
| Level.GameState.AddLevel | ld38/game_state.py:32-35 | a fresh level is stored under its uuid, other entries are kept, and it is returned |
| Actions.AttackEvents | ld38/actions.py:123-128 | attacking queues `entity_attacking`, `entity_attacked` and `entity_took_damage` in that order, and `entity_died` as well when the target dies |
| Actions.ActionAttack | ld38/actions.py:121-135 | the target loses exactly the attacker's strength and the attack events are queued; while it lives its place, the index, the floor items and the handlers are unchanged; when it dies and is removed its behaviours are unsubscribed, it stands nowhere, its cell leaves the index and its inventory lies on that cell in order, without drop events; the level stays consistent |
| Actions.Strike | ld38/actions.py:123-126 | the three attack events are queued and hp drops by the attacker's strength |
| Actions.Die | ld38/actions.py:127-135 | a dying target queues `entity_died`, is removed, and its items land on its former cell |
| Actions.DropInventory | ld38/actions.py:134-135 | each carried item is appended to the cell in order and no event is queued |
| Actions.ActionOpenDoor | ld38/actions.py:173-177 | the cell becomes an open door, no other cell changes, and `door_open` is queued |
| Actions.ActionClose | ld38/actions.py:17-33 | it succeeds iff the point is in bounds and the door is open; then the door closes, only the player spends a turn, and the view is refreshed; otherwise nothing changes |
| Actions.ActionMove | ld38/actions.py:78-118 | an occupied target is attacked, with the full outcome of an attack; a free walkable cell is entered with index and position kept in step, `entity_moved` queued and the floor items and handlers untouched; the player alone opens a closed door; otherwise the player alone queues `entity_bumped`; no other cell of the map changes; only the player spends a turn and refreshes the view; the level stays consistent |
| Actions.MoveAttack | ld38/actions.py:86-97 | moving onto an occupant attacks it, with the full outcome of an attack (hit points, death and removal, or nothing else moved), and only a player mover then spends a turn and refreshes the view |
| Actions.MoveStep | ld38/actions.py:99-108 | the old index entry goes, the mover stands and is indexed at the target, and exactly one `entity_moved` precedes the turn signal |
| Actions.MoveOpen | ld38/actions.py:109-115 | the door opens, `door_open` is queued, and the player spends a turn |
| Actions.Relocate | ld38/actions.py:100-102 | moving an entity to a free cell keeps the index consistent: its old entry goes and the new one points at it |
| Actions.EndTurn | ld38/actions.py:104-107 | a player mover queues `player_took_action` if alive and refreshes the view; others change neither |
| Actions.Sift | ld38/actions.py:147-153 | it keeps exactly the items that are, or are not, gold |
| Actions.SiftPartitions | ld38/actions.py:147-153 | the gold and non-gold items together are exactly the items on the cell: nothing is lost or duplicated |
| Actions.Unplaced | ld38/actions.py:163-165 | the picked-up items keep their types and lose their positions |
| Actions.PickupEvents | ld38/actions.py:164-166 | one `entity_picked_up_item` is queued per item taken, in order |
| Actions.ActionPickupItem | ld38/actions.py:141-170 | nothing underfoot gives false with nothing queued or changed; otherwise the entity stays put, the non-gold items join the inventory in cell order without positions, each with `entity_picked_up_item`; the player clears the cell, scores the gold with one `score_increased` and spends a turn; others leave only the gold |
| Actions.TakeItems | ld38/actions.py:147-161 | the inventory gains the non-gold items, and the cell is emptied for the player or left with only its gold |
| Actions.FirePickups | ld38/actions.py:164-166 | exactly the pickup events are queued, in item order |
| Actions.SkipFrom | ld38/actions.py:48-52 | only the leading copies of the thrower's cell are dropped from the line |
| Actions.Lift | ld38/actions.py:65 | every stored path step is a present cell |
| Actions.FlightPath | ld38/actions.py:48-52 | the loop leaves the line from the thrower with its own leading cells skipped |
| Actions.ActionThrow | ld38/actions.py:36-76 | it succeeds iff the first cell beyond the thrower may be moved onto; then the item leaves the inventory and a fresh in-flight entity of the item's type stands there, indexed, with the type's hit points, default mode and starting items followed by the thrown item, the thrower's strength, the rest of the line as its path, and its behaviour subscribed after the existing handlers; a player thrower spends a turn; a failed throw changes nothing |
| Actions.TryThrow | ld38/actions.py:54-76 | the throw happens iff the path's first cell may be moved onto (which already rules out an entity standing there); a refused throw changes nothing, an accepted one creates the flying entity in full as above |
| Actions.ThrowAlong | ld38/actions.py:61-76 | the throw proper: the item leaves the inventory, the flying entity is created, indexed and subscribed in full, and a player thrower spends a turn |
| Actions.Launch | ld38/actions.py:62-71 | the flying entity is created on the first path cell: its type's hit points, default mode and single subscribed behaviour, its starting items followed by the thrown item, the thrower's strength and the rest of the path led by a placeholder |
| Behaviors.Closest | ld38/behavior.py:197 | a candidate at least as near to the player as every other, the first one on ties |
| Behaviors.Farthest | ld38/behavior.py:227 | a candidate at least as far from the player as every other, the first one on ties |
| Behaviors.FirstRock | ld38/behavior.py:271-273 | the first rock of a list, and none iff the list holds no rock |
| Behaviors.StepTo | ld38/actions.py:78-118 | a monster moving onto a passable neighbour: the move attacks the player standing there, with the full outcome of an attack, or steps onto the free cell, with the index, the position and `entity_moved` following and the floor items and handlers untouched; the map is unchanged and the level stays consistent |
| Behaviors.StepAs | ld38/behavior.py:225-232 | the entity takes the behaviour's mode (fleeing or chasing, default for a walk) and then moves onto the passable neighbour with the outcome StepTo states |
| Behaviors.SleepOnTurn | ld38/behavior.py:109-111 | the entity wakes into the default mode and claims the turn |
| Behaviors.StunOnAttacked | ld38/behavior.py:127-131 | an attack on another entity changes nothing; on its own entity it sets the cooldown to 2 and the mode to stunned; the answer is never truthy |
| Behaviors.StunOnTurn | ld38/behavior.py:134-140 | it claims the turn iff the cooldown is set and nonzero, and then the cooldown drops by one; otherwise nothing changes |
| Behaviors.RandomWalkOnTurn | ld38/behavior.py:145-155 | beyond distance 40 the entity sleeps and claims the turn without moving; otherwise it takes the default mode and, iff it has a passable neighbour, moves onto the neighbour the pick selects: the move attacks the player standing there or steps onto the free cell, with the index, the position and `entity_moved` following |
| Behaviors.FirstRockCell | ld38/behavior.py:171-175 | the first candidate cell holding a rock, and none iff no candidate holds one |
| Behaviors.FindRockCell | ld38/behavior.py:171-175 | the nested search loop finds that first rock cell |
| Behaviors.PickUpRocksOnTurn | ld38/behavior.py:160-176 | a walled-in entity claims nothing and changes nothing; otherwise it takes the default mode, and a rock underfoot is picked up with everything a pick-up does, or else it moves onto the first neighbour with a rock, as StepTo states; with no rock in reach nothing else changes |
| Behaviors.SeekRock | ld38/behavior.py:166-176 | a rock underfoot is picked up, with everything a pick-up does (inventory, cell, score and events); otherwise it moves onto the first neighbour with a rock, as StepTo states; it claims the turn iff either happens, and otherwise nothing changes |
| Behaviors.StepToRock | ld38/behavior.py:171-176 | the entity moves onto the first candidate cell holding a rock, as StepTo states, and with no such cell nothing changes |
| Behaviors.BeelineOnTurn | ld38/behavior.py:187-199 | it acts iff the player is in sight and a neighbour is passable; then it chases and moves onto the neighbour closest to the player: the move attacks the player standing there or steps onto the free cell, with the index, the position and `entity_moved` following; otherwise nothing changes |
| Behaviors.RangeOnTurn | ld38/behavior.py:204-244 | in sight and with somewhere to step, nearer than range−1 flees onto the farthest neighbour and farther than range chases onto the closest: the move attacks the player standing there or steps onto the free cell, with the index, the position and `entity_moved` following; otherwise nothing changes; ranges 5 and 7 are the two parameters used |
| Behaviors.ThrowRockOnTurn | ld38/behavior.py:262-280 | out of sight nothing changes; in sight the cooldown (1 when unset) drops by one, and at 0 or below with a rock in hand it resets to 6 and the first rock is thrown; the answer is never truthy |
| Behaviors.Hurl | ld38/behavior.py:279-280 | a throw at the player's cell removes that rock from the inventory, and a failed throw changes nothing |
| Behaviors.Land | ld38/behavior.py:298-299 | an empty inventory raises before any change; otherwise the first item is dropped last on the cell with `entity_dropped_item`, and the object leaves the level: its behaviours are unsubscribed, it stands nowhere and its cell leaves the index |
| Behaviors.PathUntilHitOnTurn | ld38/behavior.py:288-316 | no recorded speed raises and speed below 1 claims nothing, both without change; at the end of the path the object lands where it is; otherwise the path loses its first step: a placeholder only waits, an entity there is hit and the object lands on its cell, passable terrain is entered with the index and `entity_moved` following, and anything else lands the object where it is; each claims the turn unless the landing raises |
| Behaviors.Advance | ld38/behavior.py:307-316 | an entity on the next cell is attacked, with its death and drops, and the object lands on that cell; passable terrain is entered with the index and `entity_moved` following and nothing else changed; anything else lands the object where it is; each claims the turn unless the landing raises, and the answer is never falsy |
| Behaviors.Hit | ld38/behavior.py:306-309 | the entity on the next cell is attacked: it loses the object's strength and, when it dies and is removed, its inventory lies on that cell; then the object's first item is dropped after it, announced, and the object leaves the level; with nothing carried the landing raises and nothing further changes |
| Behaviors.Handle | ld38/behavior.py:31-36 | the handler of the registered class runs; an attack notice is never answered truthily, and a falsy turn answer leaves entity and player on the level |
| Behaviors.Answering | ld38/behavior.py:88-91 | the sub-behaviours asked for an event are exactly those, in order, that define its handler |
| Behaviors.AnsweringPrefix | ld38/behavior.py:88-91 | the handlers collected from a prefix of the list are among those collected from the whole list |
| Behaviors.CompositeHandle | ld38/behavior.py:86-98 | only handlers that exist are asked, in order; every reply but the last is falsy, and the answer is false iff all are falsy, else the first truthy one |
| Behaviors.AskInOrder | ld38/behavior.py:93-97 | the loop stops at the first truthy reply and returns it, or returns false after asking all |
| Behaviors.Respond | ld38/behavior.py:76-98 | a behaviour answers through its single class or its composite, and a falsy answer to the player's turn leaves its entity on the level |
| Generator.WeightedChoice | ld38/level_generator.py:29-40 | the loop fails iff no choice reaches the draw; otherwise it returns the first nonzero-weight choice whose running total reaches the draw, which is the reference choice function `Choice` |
| Generator.WeightedChoiceSucceeds | ld38/level_generator.py:31-40 | for a draw in [0, total], some choice is reached iff the total weight is positive |
| Generator.ChoiceIsFirstReached | ld38/level_generator.py:29-40 | the reference choice takes something iff some choice is reached by the draw, and then it is the first reached one |
| Generator.KeyOf | ld38/level_generator.py:50-52 | the key of the first map entry whose value is the node, or none |
| Generator.GetDifficulty | ld38/level_generator.py:43-53 | the key for the first ancestor that appears as a map value, and failure (ValueError) iff none does |
| Generator.DifficultyAgrees | ld38/level_generator.py:43-53 | any result with those two properties is the specified first-match difficulty |
| Generator.RoomTypeOptions | ld38/level_generator.py:83-85 | exactly the room types with no difficulty or the leaf's difficulty |
| Generator.Weighted | ld38/level_generator.py:89 | each option is paired with its own chance, in order |
| Generator.GenerateRoom | ld38/level_generator.py:75-90 | a room is made iff the leaf's difficulty is found and the draw chooses among the fitting types; its type is exactly the type the weighted draw chooses, and its rectangle is the one its shape calls for |
| Generator.RoomChoiceFits | ld38/level_generator.py:75-90 | a room type is chosen iff the difficulty is found and the draw chooses among the fitting types, and a chosen type is a catalog entry with a positive chance fitting that difficulty |
| Generator.GetRoomNearest | ld38/level_generator.py:93-107 | the room whose centre is nearest the target, both given in doubled coordinates so that half-cell centres and targets (a room's centre, or a map side halved by true division) are exact; the earliest one on ties; it requires a non-empty list |
| Generator.DistanceTo | ld38/level_generator.py:100-103 | twice the distance from the room's centre, origin plus half the size, to a target given in doubled coordinates: twice the plain Manhattan distance when both sides and the target are whole, and zero exactly when the target is the centre |
| Generator.HalfCellCentreCounts | ld38/level_generator.py:100-106 | a 5x5 room centred on (2.5, 2.5) is nearer to (10, 10) than a 2x2 room centred on (26, 10), where rounding the centre down would tie them; a target at (2.5, 1) ties rooms centred on (2, 1) and (3, 1), where rounding it up would favour the second |
| Generator.DistanceSymmetric | ld38/level_generator.py:234-239 | the distance between two rooms' centres is the same from either side, as when a quadrant's room is matched with the room nearest its centre |
| Generator.BspRandrange | ld38/level_generator.py:384-398 | at levels 0 and 1 it is the floor of the midpoint; deeper it is the draw from [a, b) |
| Generator.EvenSplit | ld38/level_generator.py:393-395 | the first two levels split a span into halves that differ by at most one |
| Generator.Stamp | ld38/level_generator.py:121-143 | each cell of the rectangle is rewritten by the given rule and no other cell changes |
| Generator.EdgeMarks | ld38/level_generator.py:130-141 | a border cell gets `horz` iff it is on the top or bottom edge, and `vert` iff it is on the left or right edge |
| Generator.InteriorIsInset | ld38/level_generator.py:142-143 | a rectangle's non-border points are exactly its inset-by-one points, which become floor |
| Generator.TagRect | ld38/level_generator.py:146-147 | it succeeds iff no point of the rectangle was tagged, then tags them all with the room; other rooms' lists are unchanged and tags stay consistent |
| Generator.EngraveRoom | ld38/level_generator.py:121-147 | the room is registered and engraved with walls and annotations on the border and floor inside; tagging succeeds iff its rectangle was untagged |
| Generator.RegisterKeyed | ld38/level_generator.py:122 | registering rooms keeps every room under its own id and keeps all earlier ids |
| Generator.EngravedOutside | ld38/level_generator.py:121-147 | a cell outside every room is unchanged by engraving |
| Generator.EngravedInside | ld38/level_generator.py:121-147 | a cell inside one of several disjoint rooms is engraved by that room alone |
| Generator.EngravedTagged | ld38/level_generator.py:146-147 | a cell inside any engraved room ends up tagged |
| Generator.EngraveRooms | ld38/level_generator.py:110-147 | it succeeds iff the rooms are pairwise disjoint and were untagged, so overlapping rooms fail the one-shot tagging; then all rooms are registered and the map is the engraving of them all |
| Generator.EngraveNext | ld38/level_generator.py:110-147 | one step of the room loop: room n is engraved over the earlier rooms' engraving, and succeeds iff it overlaps none of them and its cells were untagged |
| Generator.GenerateRandomPath | ld38/level_generator.py:150-173 | doors are exactly the wall cells of the path and corridors exactly its empty cells; both lie on the path and are disjoint |
| Generator.EngraveCorridorBetweenRooms | ld38/level_generator.py:176-203 | between 1 and 11 attempts; every rejected attempt had more than 4 doors and the kept one has at most 4 unless all 11 were used; the kept doors close and its corridors become annotated corridor cells, and no other cell changes |
| Generator.SetDifficulty | ld38/level_generator.py:280-281 | every room of the quadrant gets the difficulty |
| Generator.EngraveDifficulty | ld38/level_generator.py:274-281 | each room gets the index of the last listed quadrant holding it |
| Generator.FindSpawnPoint | ld38/level_generator.py:284-294 | a spawn point is found iff one of the first 10 draws is unoccupied and featureless, and it is the first such draw (the reference search `SpawnPoint`); the eleventh draw is tested but its result disregarded: the spawn is then skipped |
| Generator.Occupy | ld38/level_generator.py:332-340 | the search of `FindSpawnPoint`, then the found point is added to the occupied cells; when none is found the cells are unchanged |
| Generator.Lookup | ld38/level_generator.py:313 | the monster type with the id, and none iff the table lacks it |
| Generator.LookupAll | ld38/level_generator.py:311-313 | a room's monster list resolves iff every id resolves, element by element |
| Generator.AllowedMonsters | ld38/level_generator.py:316-318 | exactly the possible monsters with no difficulty or the room's difficulty |
| Generator.SpawnMonster | ld38/level_generator.py:328-342 | the draw must choose; then a monster is placed iff a free point is found, of exactly the type the weighted draw chooses, on the first free draw, and that point becomes occupied |
| Generator.MonsterRunPlaced | ld38/level_generator.py:328-342 | every monster of a room's run is allowed, at the room's difficulty, inside the room and on a cell free before the room began; the run has at most one monster per spawn and no two on one cell |
| Generator.MonsterRunFillsFreeDraws | ld38/level_generator.py:328-342 | nothing is skipped when there is room: when every draw chooses and each spawn's first draw is free and unshared, every spawn places its monster, in order, on its first draw, of the type its draw chooses |
| Generator.SpawnMonsters | ld38/level_generator.py:328-342 | a room's spawns succeed iff every draw chooses; the monsters placed are exactly those of the reference run `MonsterRun` (one per spawn that finds a free point, in spawn order), on distinct cells that are exactly the newly occupied ones |
| Generator.PlaceRoomMonsters | ld38/level_generator.py:306-342 | it succeeds iff the room's monster ids resolve and every draw chooses among the allowed types; it places exactly the room's reference run, each monster allowed in the room, inside its inset rectangle, on a free cell |
| Generator.RoomMonstersPlaced | ld38/level_generator.py:306-342 | a room's reference run puts each monster in that room, on a cell free before the room began, and no two on one cell |
| Generator.LevelCellsAre | ld38/level_generator.py:304-342 | the cells occupied after the first n rooms are the original ones plus exactly the cells of the monsters placed in them |
| Generator.LevelMonstersPlaced | ld38/level_generator.py:304-342 | the monsters of the first n rooms each lie in the room they came from, and no two share a cell |
| Generator.PlaceAllMonsters | ld38/level_generator.py:304-342 | it succeeds iff every room's spawns can be chosen; the monsters placed are exactly the rooms' runs in room order (`LevelMonsters`), each room seeing the cells taken before it, and the occupied cells are exactly those it threads through |
| Generator.PlaceMonsters | ld38/level_generator.py:298-343 | it succeeds iff every room can be chosen; then the points of interest get exactly `LevelMonsters`, every monster is in the room it came from and on its own cell, exactly their cells are newly occupied, and nothing else in the points of interest changes |
| Generator.PyIndex | ld38/level_generator.py:365 | Python list indexing: defined iff the index is in [−n, n), with negative indices counting from the end |
| Generator.ItemWeights | ld38/level_generator.py:364-366 | each item type is weighted by its chance at the room's difficulty, failing iff some lookup fails |
| Generator.ItemOffered | ld38/level_generator.py:364-366 | an item can be drawn iff its chance at that difficulty is positive |
| Generator.SpawnItem | ld38/level_generator.py:362-381 | the weighted draw is made first and must choose, even for the gold spawn; then an item is placed iff a free point is found, the gold for the gold spawn and otherwise exactly the type drawn, on the first free draw |
| Generator.SpawnItems | ld38/level_generator.py:362-381 | it succeeds iff every draw chooses; the items placed are exactly the reference run `ItemRun` with the first spawn as the gold spawn; the first item is the gold exactly when the first spawn found a point; all stand on distinct cells, which are exactly the newly occupied ones |
| Generator.SpawnChosenItems | ld38/level_generator.py:362-381 | for the spawns after the gold: it succeeds iff every draw chooses, and it places exactly the reference run of drawn items, on distinct free cells that are exactly the newly occupied ones |
| Generator.ItemRunPlaced | ld38/level_generator.py:362-381 | every item of a room's run is the gold for the gold spawn and otherwise a type with positive chance, inside the room and on a cell free before the room began; at most one per spawn, no two on one cell |
| Generator.ItemRunFillsFreeDraws | ld38/level_generator.py:362-381 | nothing is skipped when there is room: when every draw chooses and each spawn's first draw is free and unshared, every spawn places its item, in order, on its first draw, the gold first and otherwise the type drawn |
| Generator.PlaceRoomItems | ld38/level_generator.py:357-381 | it succeeds iff the room has no spawns or every chance can be read at its difficulty and every draw chooses; it places exactly the room's reference run, inside its inset rectangle, with at most one gold, first |
| Generator.RoomItemsPlaced | ld38/level_generator.py:357-381 | a room's reference run puts each item in that room, the gold only first, on cells free before the room began and no two on one cell |
| Generator.LevelItemCellsAre | ld38/level_generator.py:355-381 | the cells occupied after the first n rooms are the original ones plus exactly the cells of the items placed in them |
| Generator.LevelItemsPlaced | ld38/level_generator.py:355-381 | the items of the first n rooms each lie in the room they came from, with the gold first in its room, and no two share a cell |
| Generator.PlaceAllItems | ld38/level_generator.py:355-381 | it succeeds iff every room's items can be chosen; the items placed are exactly the rooms' runs in room order (`LevelItems`), and the occupied cells are exactly those it threads through |
| Generator.PlaceItems | ld38/level_generator.py:347-381 | it succeeds iff every room can be chosen; then the points of interest get exactly `LevelItems`, every item is in the room it came from with the gold first, exactly their cells are newly occupied, and nothing else in the points of interest changes |
| Legacy.GetNeighbors | ld38/gamestate.py:46-47 | the lookup succeeds iff every neighbour id is registered, and then gives the rooms in id order |
| Legacy.LevelState.constructor | ld38/gamestate.py:56-70 | score 0, no entities, empty queue and indexes, no player, every event name registered |
| Legacy.LevelState.AddEntity | ld38/gamestate.py:113-118 | the entity is appended to the list, its behaviours subscribed and its cell indexed; list, index and positions stay consistent |
| Legacy.LevelState.RemoveEntity | ld38/gamestate.py:120-126 | an unlisted entity fails with nothing changed; otherwise its first list occurrence goes, and when every unsubscription succeeds its index entry goes and its position is cleared, keeping the level consistent |
| Legacy.LevelState.Unindex | ld38/gamestate.py:124-126 | only the entity's own index entry is removed and its position cleared, keeping the index consistent with the shorter list |
| Legacy.RemoveFirstShrinks | ld38/gamestate.py:121 | removing one occurrence keeps every other listed element and adds none |
| Legacy.LevelState.DropItem | ld38/gamestate.py:128-133 | as in the newer level: appended to the cell, announced only with an entity, always true |
| Legacy.LevelState.Fire | ld38/gamestate.py:137-138 | the event is appended to the back of the queue |
| Legacy.LevelState.ConsumeEvents | ld38/gamestate.py:140-146 | the same re-entrancy refusal, FIFO drain, filtered delivery and final empty queue as the newer level |
| Legacy.LevelState.SightNarrower | ld38/gamestate.py:156-166 | the older cutoff of 20 sees nothing beyond 20 and agrees with the newer rule of 30 within 20 |
| Legacy.LevelState.TestLineOfSight | ld38/gamestate.py:156-167 | sight needs both entities alive and at most 20 apart, and then holds iff every point of the traced line is lit |
| Legacy.LevelState.FirePlayerTookActionIfAlive | ld38/gamestate.py:218-221 | nothing for a dead player; otherwise `player_took_action` about the given position |
| Legacy.GameState.constructor | ld38/gamestate.py:224-229 | turn 0, exactly one level, the active id is its uuid, and that level starts with score 0 |
| Legacy.GameState.ActiveLevelState | ld38/gamestate.py:231-233 | the level stored under the active id |
| Legacy.GameState.AddLevel | ld38/gamestate.py:235-238 | a fresh level with score 0 is stored under its uuid, keeping the others |
| Logger.RunsExpand | ld38/logger.py:25-44 | no message is lost, added or reordered: the runs spell out the logged messages exactly |
| Logger.RunsMaximal | ld38/logger.py:28-38 | no run is empty and neighbouring runs hold different messages |
| Logger.RunsUnique | ld38/logger.py:28-38 | the grouping is the only maximal one that spells out the log, so equal messages merge exactly when adjacent |
| Logger.NatToString | ld38/logger.py:34 | a repeat count prints as decimal digits that denote exactly the count (`DigitsValue`), with no leading zero except for 0 itself, as `str` writes it |
| Logger.Parts | ld38/logger.py:32-43 | one part per run, in order: the message alone for a single copy, otherwise the message with " (xN)" |
| Logger.LabelRepeated | ld38/logger.py:29-34 | three equal messages show as "rock (x3)" |
| Logger.LabelInterrupted | ld38/logger.py:29-38 | "a", "b", "a" show as "a b a": equal messages that are not adjacent are not merged |
| Logger.Logger.constructor | ld38/logger.py:8-11 | the label starts with the given text and nothing is pending |
| Logger.Logger.Log | ld38/logger.py:18-21 | the text is appended to the pending messages |
| Logger.RenderLabel | ld38/logger.py:25-44 | the single pass over a non-empty message list, counting runs of equal neighbours, produces exactly the label text `Label` defines (the runs, shown with their counts, joined by spaces) |
| Logger.Logger.UpdateLog | ld38/logger.py:23-45 | nothing pending keeps the label; otherwise the label becomes the runs of the pending messages joined by spaces, and nothing stays pending |
| Logger.Logger.Clear | ld38/logger.py:13-16 | a single blank is logged and flushed, so the label is the grouping of the pending messages plus that blank |
| Sentences.GetSafeNameAsWritten | ld38/sentences.py:4-8 | the lookup as written returns the table's row iff the id is present |
| Sentences.UnknownIdRaises | ld38/sentences.py:8 | an id missing from the table makes the written lookup raise |
| Sentences.GetSafeName | ld38/sentences.py:4-8 | a missing id gives a third-person placeholder named "UNNAMED " plus the id |
| Sentences.SafeNameAgrees | ld38/sentences.py:4-8 | where the written lookup succeeds the corrected one returns the same row, and elsewhere it returns the placeholder |
| Sentences.NameWithArticle | ld38/sentences.py:11-15 | the bare name for the second person, else the article, a space and the name; it always ends with the name |
| Sentences.UpperChar | ld38/sentences.py:31 | a lower-case ASCII letter becomes its capital; any other character is kept |
| Sentences.SimpleDeclarativeSentence | ld38/sentences.py:18-31 | the built sentence with only its first character upper-cased |
| Sentences.SentenceParts | ld38/sentences.py:19-30 | the sentence is subject phrase, space, verb form agreeing with the subject, object phrase only for a truthy object, then a final full stop |
| Sentences.ThirdPersonStartsWithThe | ld38/sentences.py:21-31 | a third-person subject makes the sentence start with "The " |

## Left out

- The UI and terminal layer is not part of this model: scenes, views and drawing. Neither is the audio. Both are presentation code outside the rule engine.
- The geometry and field-of-view library is reduced to parameters. This covers Bresenham lines, L-shaped paths, random rectangles and points, the BSP tree, and shadowcasting field of view. Their own correctness is not modelled.
- Geom.Orthogonal, Geom.Diagonal: the neighbour lists of the geometry library are not part of this model, so their order is assumed: left, right, up, down, then the four diagonals. Which neighbour RandomWalkOnTurn's pick selects depends on this order.
- Behaviors.Closest, Behaviors.Farthest: the library's nearest and farthest point are not part of this model, so their tie-break is assumed: the earliest candidate wins. BeelineOnTurn and RangeOnTurn inherit this on ties.
- Geom.Rect.Inset: a side shorter than two cells becomes 0, so such a room has no interior. The geometry library would give a negative size there; it is not part of this model.
- Randomness and ids are inputs. A random choice is an index, a uniform draw is a real in [0, total], random points are candidate lists, and uuids are parameters.
- Spawn counts are inputs. The source computes `max(1, round(area * density / 100))` in floating point; for items there is one extra spawn, the gold.
- The item data loader is not modelled. The gold item type is passed in, and all content tables are values.
- `print` calls are not modelled, nor is `Logger.log`'s echo to the console.
- generate_dungeon and generate_and_engrave_corridors are not modelled. They are orchestration over the BSP tree (`get_node_at_path`, sibling pairs and quadrant corridors), and so is the placement of the stairs. Their steps are modelled one by one.
- engrave_bsp_divisions is a debugging aid that is commented out in the source. Whole-dungeon connectivity is not claimed.
- Failures part-way through a loop leave partial state, as in the source, and the model does not describe that state. A failing removal in remove_entity leaves the earlier behaviours unsubscribed; the handler table is then unspecified, though the index and position are unchanged. A failing `assign_room` in engrave_room comes after the room is registered and stamped; engrave_rooms then stops. The contracts state the new state only on success, plus the invariants every path keeps.
- A failing removal is not propagated. In the source, remove_entity raises ValueError when one of the entity's behaviours is not subscribed, and the exception ends every caller up to the event loop. In the model RemoveEntity returns false and its callers carry on. The level's consistency invariant does not tie each placed entity's behaviours to the handler table, so the model cannot show that the removal always succeeds. The members below state what they do on that path, which the source never reaches.
- Actions.Die: after a failed removal the model returns normally, with `entity_died` queued and the entity still placed; the source raises there.
- Actions.ActionAttack: after a failed removal of a dead target the model returns normally, with the attack events queued and the target still placed; the source raises there.
- Actions.MoveAttack: after a failed removal of a dead target the model still ends the turn, with the turn signal and the view refresh; the source raises before them.
- Actions.ActionMove: its attack branch inherits MoveAttack's continuation after a failed removal.
- Behaviors.Land: after a failed removal the model answers success, with the item already dropped and the object still placed; the source raises there.
- Behaviors.Hit: after a failed removal of the target, the model still lands the object; the source raises before the landing.
- Behaviors.Advance: after a failed removal, of the target or of the object, the model answers truthy; the source raises.
- Behaviors.PathUntilHitOnTurn: after a failed removal, of the target or of the object, the model answers truthy; the source raises.
- Generator.PlaceMonsters: when a draw fails part-way, the cells occupied so far stay occupied, and the contract does not describe that state.
- Generator.PlaceItems: the source stores the item list in the points of interest before its loop, so a failed draw part-way leaves the partial list there. The contract does not describe the state after a failure.
- Level.LevelState.constructor: requires that the generator's spawns succeed. The player and item ids must be known and the monster cells distinct and free. The source would fail an assertion or raise part-way through set-up.
- Level.LevelState.RemoveEntity: requires the entity to belong to the level. The newer source does not check this and would proceed.
- Legacy.LevelState.constructor: does not create the player, items and monsters. The older file's set-up repeats Level.LevelState.Populate step for step.
- The older file's TileMap (ld38/gamestate.py:40-53) is not modelled separately: its `assign_room` and `get_room` are the same as in ld38/tilemap.py.
- The older file's `create_entity` and its queries are not modelled separately. These are `get_entity_at`, `get_can_move` and the rest, and they are the same as in ld38/level_state.py.
- Legacy.GetNeighbors: takes the neighbour ids as a parameter. Generated rooms never get `neighbor_ids`, so the source's `get_neighbors` raises an attribute error on every generated room.
- The clubsandwich dispatcher used by the newer level has `stop_propagation`, which `action_attack` calls when the player dies. ld38/dispatcher.py has none, so that call is not modelled.
- Level.LevelState, Legacy.LevelState: both level states use the clubsandwich `EventDispatcher` (ld38/level_state.py:13, ld38/gamestate.py:4) and call `fire(name, entity, data)`, an argument order unlike `fire(name, data, entity)` in ld38/dispatcher.py. That library is not part of this model; it is assumed to behave as ld38/dispatcher.py does: the entity acts as the subscription filter, Enum members are normalised to their string values, and handlers are called in subscription order.
- `get_can_player_see` and `get_can_player_remember` are not modelled. They are set-membership tests on the cached view and memory.
- Event handlers' side effects during a drain are a parameter: the events each popped event's handlers enqueue. Dispatch by `getattr` is modelled as the list of subscribers reached.
- Level.LevelState.ConsumeEvents: the handler table is fixed for the whole drain. In the source a handler can change it mid-drain: create_entity in action_throw subscribes the new object, and remove_entity unsubscribes. Later deliveries, including the rest of the current event's list, see those changes; the model does not.
- Legacy.LevelState.ConsumeEvents: the handler table is fixed for the whole drain, as in the newer level. Subscriptions and removals made by handlers during the drain are not reflected.
- Behaviors.PathUntilHitOnTurn: stops at the first removal. The source then calls itself again with one fewer iteration left. For speeds 1 and 2 that call returns False at once and changes nothing, so the stop is exact; speeds 1 (monsters) and 2 (the player) are used. From speed 3 the call re-enters the body on the removed entity, and emptying its inventory again would raise; the model does not follow that case.
- Behaviors.ThrowRockOnTurn: states the cooldown and the inventory, not the flying entity. Actions.ActionThrow states the flying entity.
- Behaviors.Hurl: states the cooldown and the inventory, not the flying entity. Actions.ActionThrow states the flying entity.
- Behaviors.Handle: states the answer and that the level stays consistent. Each behaviour class's effects are stated by its own handler method.
- Behaviors.Respond: states the answer and that the level stays consistent. Each behaviour class's effects are stated by its own handler method.
- Behaviors.CompositeHandle: states the answer and that the level stays consistent. Each behaviour class's effects are stated by its own handler method.
- Actions.ActionThrow: requires the `<item>_IN_FLIGHT` monster type to be in the catalog. The source removes the item from the inventory before looking that type up, so a missing type raises KeyError after the item is gone; the model does not cover that half-done failure.
- Sentences.UpperChar: upper-cases ASCII letters only. Python's `str.upper` maps every Unicode letter, and can even lengthen the string ('ß' becomes "SS").
- Sentences.SimpleDeclarativeSentence: uses the corrected name lookup and the ASCII-only capitalisation. For an id missing from the name table it builds a sentence about "UNNAMED <id>", where the source raises NameError (see Findings).
- Item identity is not modelled. Items are values (type and position), so "the same item object" is equality of values.

## Findings

| source | as written | input that shows it | evidently intended | confidence | as-written member | corrected member |
|---|---|---|---|---|---|---|
| ld38/sentences.py:8 | the fallback for a missing id refers to `mt.id`, but no `mt` is defined, so the lookup raises NameError instead of returning a placeholder | an id such as `RAT` that is not in the name table | a third-person placeholder row with the id and the name "UNNAMED " plus the id | high (not executed) | Sentences.GetSafeNameAsWritten, Sentences.UnknownIdRaises | Sentences.GetSafeName, Sentences.SafeNameAgrees |
