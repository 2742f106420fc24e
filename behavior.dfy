/**
 * The monsters' behaviours: each reacts to level events by changing its
 * entity's mode and state and by taking actions. A handler's answer decides
 * whether a composite behaviour tries its next sub-behaviour.
 */
module Behaviors {
  import opened Options
  import opened Geom
  import opened Const
  import opened Catalog
  import opened Dispatcher
  import opened TileMaps
  import opened Entities
  import opened Level
  import opened Actions

  /** What a handler gives back: a value of some truthiness, or an exception escaping it. */
  datatype Reply = Reply(truthy: bool) | Raised

  /** The point of `ps` nearest to `p` by Manhattan distance; the earliest one on ties. */
  function Closest(p: Pos, ps: seq<Pos>): (r: Pos)
    requires ps != []
    ensures r in ps
    ensures forall q | q in ps :: Manhattan(p, r) <= Manhattan(p, q)
    ensures Manhattan(p, ps[0]) == Manhattan(p, r) ==> r == ps[0]
  {
    if |ps| == 1 then ps[0]
    else
      var rest := Closest(p, ps[1..]);
      if Manhattan(p, rest) < Manhattan(p, ps[0]) then rest else ps[0]
  }

  /** The point of `ps` farthest from `p` by Manhattan distance; the earliest one on ties. */
  function Farthest(p: Pos, ps: seq<Pos>): (r: Pos)
    requires ps != []
    ensures r in ps
    ensures forall q | q in ps :: Manhattan(p, q) <= Manhattan(p, r)
    ensures Manhattan(p, ps[0]) == Manhattan(p, r) ==> r == ps[0]
  {
    if |ps| == 1 then ps[0]
    else
      var rest := Farthest(p, ps[1..]);
      if Manhattan(p, rest) > Manhattan(p, ps[0]) then rest else ps[0]
  }

  /** A lookup with a default in the behaviour state bucket. */
  function OrDefault(v: Option<int>, d: int): int {
    if v.Some? then v.value else d
  }

  predicate IsRock(it: Item) {
    it.itemType.id == "ROCK"
  }

  /** The first rock among `items`, if any. */
  function FirstRock(items: seq<Item>): (r: Option<Item>)
    ensures r.Some? ==> r.value in items && IsRock(r.value)
    ensures r.None? <==> forall it | it in items :: !IsRock(it)
    ensures r.Some? && IsRock(items[0]) ==> r.value == items[0]
  {
    if items == [] then None
    else if IsRock(items[0]) then Some(items[0])
    else FirstRock(items[1..])
  }

  /** The entity and the player are both on the level, which is consistent. */
  ghost predicate Alive(ls: LevelState, e: Entity)
    reads ls`entityByPosition, ls`player, ls`Entities, ls.Entities`position, ls.dispatcher`handlers, e`position
  {
    && ls.Valid() && ls.player != null && ls.player.position.Some?
    && e in ls.Entities && e.position.Some?
  }

  /** The monster table can make flying rocks. */
  predicate ThrowReady(ls: LevelState) {
    && "ROCK_IN_FLIGHT" in ls.monsterCatalog
    && KnownType(ls.monsterCatalog["ROCK_IN_FLIGHT"], ls.itemCatalog)
    && !ls.monsterCatalog["ROCK_IN_FLIGHT"].IsPlayer()
  }

  /**
   * What a monster's move onto `t`, one of its passable neighbours, did: the
   * player standing there was attacked, with everything an attack brings,
   * or the entity stepped onto the free cell and the index followed it,
   * the floor items and the handlers untouched; either way the move's
   * events were queued and the terrain is as it was.
   */
  twostate predicate MovedOnto(ls: LevelState, e: Entity, t: Pos)
    reads ls, e`position, e`strength, ls.player, ls.dispatcher, ls.tilemap.cells
  {
    && old(e.position).Some? && ls.player != null && old(ls.player) == ls.player
    && unchanged(ls.tilemap.cells)
    && (old(t in ls.entityByPosition) ==>
          && old(ls.entityByPosition[t]) == ls.player
          && Attacked(ls, e, ls.player)
          && ls.eventQueue == old(ls.eventQueue) + AttackEvents(e, ls.player, ls.player.hp <= 0)
                              + TurnSignal(e, ls.player.position.Some?, t))
    && (old(t !in ls.entityByPosition) ==>
          && e.position == Some(t)
          && ls.entityByPosition == (old(ls.entityByPosition) - {old(e.position).value})[t := e]
          && ls.itemsByPosition == old(ls.itemsByPosition)
          && ls.dispatcher.handlers == old(ls.dispatcher.handlers)
          && ls.eventQueue == old(ls.eventQueue) + [Event(EntityMoved, Some(e), AboutEntity(e))]
                              + TurnSignal(e, ls.player.position.Some?, t))
  }

  /** Moves `e` onto one of its passable neighbours: an attack on the player there, or a step. */
  method StepTo(ls: LevelState, e: Entity, t: Pos)
    requires Alive(ls, e) && t in ls.GetPassableNeighbors(e)
    modifies ls`eventQueue, ls`entityByPosition, ls`itemsByPosition, ls`losCache, ls`levelMemory,
      ls.dispatcher, ls.tilemap.cells, ls.Entities`hp, ls.Entities`position
    ensures ls.Valid()
    ensures MovedOnto(ls, e, t)
  {
    assert ls.GetCanMove(t, true);
    var _ := ActionMove(ls, e, t);
  }

  /** Takes the mode `m`, then moves onto the passable neighbour `t` as StepTo does. */
  method StepAs(ls: LevelState, e: Entity, m: MonsterMode, t: Pos)
    requires Alive(ls, e) && t in ls.GetPassableNeighbors(e)
    modifies ls`eventQueue, ls`entityByPosition, ls`itemsByPosition, ls`losCache, ls`levelMemory,
      ls.dispatcher, ls.tilemap.cells, ls.Entities`hp, ls.Entities`position, e`mode
    ensures ls.Valid()
    ensures e.mode == m
    ensures MovedOnto(ls, e, t)
  {
    e.mode := m;
    StepTo(ls, e, t);
  }

  /** Sleep: every turn the entity is woken into the default mode, and the turn is claimed. */
  method SleepOnTurn(e: Entity) returns (r: bool)
    modifies e`mode
    ensures r && e.mode == Default
  {
    e.mode := Default;
    r := true;
  }

  /**
   * Stunnable, attacked: only an attack on its own entity counts; it stuns
   * the entity for two turns. The answer is never truthy.
   */
  method StunOnAttacked(e: Entity, ev: Event) returns (r: bool)
    modifies e`mode, e`behaviorState
    ensures !r
    ensures ev.entity != Some(e) ==> e.mode == old(e.mode) && e.behaviorState == old(e.behaviorState)
    ensures ev.entity == Some(e) ==>
      e.mode == Stunned && e.behaviorState == old(e.behaviorState).(stunCooldown := Some(2))
  {
    if ev.entity != Some(e) {
      return false;
    }
    e.behaviorState := e.behaviorState.(stunCooldown := Some(2));
    e.mode := Stunned;
    r := false;
  }

  /**
   * Stunnable, player's turn: a running cooldown ticks down and claims the
   * turn, so the sub-behaviours after it do not act; a zero or absent one
   * claims nothing and changes nothing.
   */
  method StunOnTurn(e: Entity) returns (r: bool)
    modifies e`behaviorState
    ensures r <==> OrDefault(old(e.behaviorState.stunCooldown), 0) != 0
    ensures r ==> e.behaviorState == old(e.behaviorState).(stunCooldown := Some(old(e.behaviorState.stunCooldown).value - 1))
    ensures !r ==> e.behaviorState == old(e.behaviorState)
  {
    var cooldown := OrDefault(e.behaviorState.stunCooldown, 0);
    if cooldown != 0 {
      e.behaviorState := e.behaviorState.(stunCooldown := Some(cooldown - 1));
      return true;
    }
    r := false;
  }

  /**
   * Random walk: far from the player (Manhattan distance over 40) the entity
   * falls asleep and claims the turn without moving. Otherwise it takes the
   * default mode and moves to the passable neighbour that `pick` selects
   * (the random choice), claiming the turn, or claims nothing when it is
   * walled in.
   */
  method RandomWalkOnTurn(ls: LevelState, e: Entity, pick: nat) returns (r: bool, moved: Option<Pos>)
    requires Alive(ls, e)
    modifies ls`eventQueue, ls`entityByPosition, ls`itemsByPosition, ls`losCache, ls`levelMemory,
      ls.dispatcher, ls.tilemap.cells, ls.Entities`hp, ls.Entities`position, e`mode
    ensures ls.Valid()
    ensures Manhattan(old(e.position).value, old(ls.player.position).value) > 40 ==>
      r && moved.None? && e.mode == Sleeping
    ensures Manhattan(old(e.position).value, old(ls.player.position).value) <= 40 ==>
      var ps := old(ls.GetPassableNeighbors(e));
      && e.mode == Default
      && (r <==> ps != [])
      && (r ==> moved == Some(ps[pick % |ps|]))
    ensures !r ==> moved.None?
    ensures moved.Some? ==> MovedOnto(ls, e, moved.value)
    ensures moved.None? ==>
      && ls.eventQueue == old(ls.eventQueue) && ls.entityByPosition == old(ls.entityByPosition)
      && e.position == old(e.position) && ls.player.position == old(ls.player.position)
  {
    moved := None;
    if Manhattan(e.position.value, ls.player.position.value) > 40 {
      e.mode := Sleeping;
      return true, None;
    }
    var possibilities := ls.GetPassableNeighbors(e);
    if possibilities == [] {
      e.mode := Default;
      return false, None;
    }
    var target := possibilities[pick % |possibilities|];
    StepAs(ls, e, Default, target);
    r, moved := true, Some(target);
  }

  /** The first of `ps` with a rock lying on it. */
  function FirstRockCell(ls: LevelState, ps: seq<Pos>): (r: Option<Pos>)
    reads ls`itemsByPosition
    ensures r.Some? ==> r.value in ps && FirstRock(ls.GetItemsAt(r.value)).Some?
    ensures r.None? <==> forall p | p in ps :: FirstRock(ls.GetItemsAt(p)).None?
  {
    if ps == [] then None
    else if FirstRock(ls.GetItemsAt(ps[0])).Some? then Some(ps[0])
    else FirstRockCell(ls, ps[1..])
  }

  /** Scans the cells in order for one with a rock on it. */
  method FindRockCell(ls: LevelState, ps: seq<Pos>) returns (found: Option<Pos>)
    ensures found == FirstRockCell(ls, ps)
  {
    var i := 0;
    while i < |ps|
      invariant 0 <= i <= |ps|
      invariant FirstRockCell(ls, ps[i..]) == FirstRockCell(ls, ps)
    {
      if FirstRock(ls.GetItemsAt(ps[i])).Some? {
        assert ps[i..][0] == ps[i];
        return Some(ps[i]);
      }
      assert ps[i..][1..] == ps[i + 1..];
      i := i + 1;
    }
    found := None;
  }

  /**
   * Pick up rocks: a walled-in entity claims nothing and changes nothing.
   * Otherwise it takes the default mode; a rock underfoot is picked up (with
   * everything else there, as any pick-up does); else it moves to the first
   * neighbour holding a rock; either claims the turn. With no rock in reach it claims nothing.
   */
  method PickUpRocksOnTurn(ls: LevelState, e: Entity) returns (r: bool, moved: Option<Pos>)
    requires Alive(ls, e)
    modifies ls`eventQueue, ls`entityByPosition, ls`itemsByPosition, ls`losCache, ls`levelMemory,
      ls.dispatcher, ls.tilemap.cells, ls.Entities`hp, ls.Entities`position, e`mode, e`inventory, ls.game`score
    ensures ls.Valid()
    ensures var ps := old(ls.GetPassableNeighbors(e));
      var underfoot := old(ls.GetItemsAt(e.position.value));
      && (r <==> ps != [] && (FirstRock(underfoot).Some? || old(FirstRockCell(ls, ps)).Some?))
      && (ps != [] ==> e.mode == Default)
      && (ps != [] && FirstRock(underfoot).Some? ==>
            moved.None? && PickedUp(ls, e))
      && (ps != [] && FirstRock(underfoot).None? ==> moved == old(FirstRockCell(ls, ps)))
    ensures moved.Some? ==> MovedOnto(ls, e, moved.value)
    ensures !r ==>
      && ls.eventQueue == old(ls.eventQueue) && ls.entityByPosition == old(ls.entityByPosition)
      && e.position == old(e.position) && e.inventory == old(e.inventory)
      && ls.player.position == old(ls.player.position)
    ensures old(ls.GetPassableNeighbors(e)) == [] ==> e.mode == old(e.mode)
  {
    moved := None;
    var possibilities := ls.GetPassableNeighbors(e);
    if possibilities == [] {
      return false, None;
    }
    r, moved := SeekRock(ls, e, possibilities);
  }

  /**
   * The entity takes the default mode; then a rock underfoot is picked up,
   * or else the entity steps to the first of `ps` holding one.
   */
  method SeekRock(ls: LevelState, e: Entity, ps: seq<Pos>) returns (r: bool, moved: Option<Pos>)
    requires Alive(ls, e) && forall p | p in ps :: p in ls.GetPassableNeighbors(e)
    modifies ls`eventQueue, ls`entityByPosition, ls`itemsByPosition, ls`losCache, ls`levelMemory,
      ls.dispatcher, ls.tilemap.cells, ls.Entities`hp, ls.Entities`position, e`inventory, ls.game`score, e`mode
    ensures ls.Valid()
    ensures e.mode == Default
    ensures var underfoot := old(ls.GetItemsAt(e.position.value));
      && (r <==> FirstRock(underfoot).Some? || old(FirstRockCell(ls, ps)).Some?)
      && (FirstRock(underfoot).Some? ==>
            moved.None? && PickedUp(ls, e))
      && (FirstRock(underfoot).None? ==> moved == old(FirstRockCell(ls, ps)))
    ensures moved.Some? ==> MovedOnto(ls, e, moved.value)
    ensures !r ==>
      && ls.eventQueue == old(ls.eventQueue) && ls.entityByPosition == old(ls.entityByPosition)
      && e.position == old(e.position) && e.inventory == old(e.inventory)
  {
    if FirstRock(ls.GetItemsAt(e.position.value)).Some? {
      e.mode := Default;
      var _ := ActionPickupItem(ls, e);
      r, moved := true, None;
    } else {
      moved := StepToRock(ls, e, ps);
      r := moved.Some?;
    }
  }

  /** Takes the default mode and steps to the first of `ps` holding a rock, if any does. */
  method StepToRock(ls: LevelState, e: Entity, ps: seq<Pos>) returns (moved: Option<Pos>)
    requires Alive(ls, e) && forall p | p in ps :: p in ls.GetPassableNeighbors(e)
    modifies ls`eventQueue, ls`entityByPosition, ls`itemsByPosition, ls`losCache, ls`levelMemory,
      ls.dispatcher, ls.tilemap.cells, ls.Entities`hp, ls.Entities`position, e`mode
    ensures ls.Valid()
    ensures e.mode == Default
    ensures moved == old(FirstRockCell(ls, ps))
    ensures moved.Some? ==> MovedOnto(ls, e, moved.value)
    ensures moved.None? ==>
      ls.eventQueue == old(ls.eventQueue) && ls.entityByPosition == old(ls.entityByPosition) && e.position == old(e.position)
  {
    moved := FindRockCell(ls, ps);
    if moved.Some? {
      StepAs(ls, e, Default, moved.value);
    } else {
      e.mode := Default;
    }
  }

  /**
   * Beeline: with the player in sight and somewhere to step, the entity
   * chases, stepping to the neighbour nearest the player, and claims the
   * turn; otherwise nothing changes.
   */
  method BeelineOnTurn(ls: LevelState, e: Entity) returns (r: bool, moved: Option<Pos>)
    requires Alive(ls, e)
    modifies ls`eventQueue, ls`entityByPosition, ls`itemsByPosition, ls`losCache, ls`levelMemory,
      ls.dispatcher, ls.tilemap.cells, ls.Entities`hp, ls.Entities`position, e`mode
    ensures ls.Valid()
    ensures r <==> old(ls.TestLineOfSight(e, ls.player)) && old(ls.GetPassableNeighbors(e)) != []
    ensures r ==>
      && e.mode == Chasing
      && moved == Some(Closest(old(ls.player.position).value, old(ls.GetPassableNeighbors(e))))
      && MovedOnto(ls, e, moved.value)
    ensures !r ==>
      && moved.None? && e.mode == old(e.mode)
      && ls.eventQueue == old(ls.eventQueue) && ls.entityByPosition == old(ls.entityByPosition)
      && e.position == old(e.position) && ls.player.position == old(ls.player.position)
  {
    if !ls.TestLineOfSight(e, ls.player) {
      return false, None;
    }
    var candidates := ls.GetPassableNeighbors(e);
    if candidates == [] {
      return false, None;
    }
    var point := Closest(ls.player.position.value, candidates);
    StepAs(ls, e, Chasing, point);
    r, moved := true, Some(point);
  }

  /**
   * Range keeping at `best`: with the player in sight and somewhere to step,
   * an entity nearer than `best - 1` flees to the neighbour farthest from the
   * player, one farther than `best` chases to the nearest, and either claims
   * the turn. In between, or blind, or walled in, nothing changes.
   */
  method RangeOnTurn(ls: LevelState, e: Entity, best: int) returns (r: bool, moved: Option<Pos>)
    requires Alive(ls, e)
    modifies ls`eventQueue, ls`entityByPosition, ls`itemsByPosition, ls`losCache, ls`levelMemory,
      ls.dispatcher, ls.tilemap.cells, ls.Entities`hp, ls.Entities`position, e`mode
    ensures ls.Valid()
    ensures var d := Manhattan(old(e.position).value, old(ls.player.position).value);
      var ps := old(ls.GetPassableNeighbors(e));
      && (r <==> old(ls.TestLineOfSight(e, ls.player)) && ps != [] && (d < best - 1 || d > best))
      && (r && d < best - 1 ==> e.mode == Fleeing && moved == Some(Farthest(old(ls.player.position).value, ps)))
      && (r && d >= best - 1 ==> e.mode == Chasing && moved == Some(Closest(old(ls.player.position).value, ps)))
    ensures r ==> moved.Some? && MovedOnto(ls, e, moved.value)
    ensures !r ==>
      && moved.None? && e.mode == old(e.mode)
      && ls.eventQueue == old(ls.eventQueue) && ls.entityByPosition == old(ls.entityByPosition)
      && e.position == old(e.position) && ls.player.position == old(ls.player.position)
  {
    if !ls.TestLineOfSight(e, ls.player) {
      return false, None;
    }
    var candidates := ls.GetPassableNeighbors(e);
    if candidates == [] {
      return false, None;
    }
    var dist := Manhattan(e.position.value, ls.player.position.value);
    if dist < best - 1 {
      var point := Farthest(ls.player.position.value, candidates);
      StepAs(ls, e, Fleeing, point);
      r, moved := true, Some(point);
    } else if dist > best {
      var point := Closest(ls.player.position.value, candidates);
      StepAs(ls, e, Chasing, point);
      r, moved := true, Some(point);
    } else {
      r, moved := false, None;
    }
  }

  /**
   * Throw rocks: on each turn with the player in sight the throw cooldown
   * (1 when unset) drops by one; at zero or below, with a rock in the
   * inventory, the cooldown restarts at 6 and the first rock is thrown at
   * the player. The answer is never truthy.
   */
  method ThrowRockOnTurn(ls: LevelState, e: Entity, rockSpeed: int) returns (r: bool, thrown: bool)
    requires Alive(ls, e) && ThrowReady(ls)
    modifies e`behaviorState, e`inventory, ls`entityByPosition, ls`Entities, ls.dispatcher, ls`eventQueue
    ensures ls.Valid() && old(ls.Entities) <= ls.Entities
    ensures forall x | x in ls.Entities :: x in old(ls.Entities) || fresh(x)
    ensures !r
    ensures !old(ls.TestLineOfSight(e, ls.player)) ==>
      && !thrown && e.behaviorState == old(e.behaviorState) && e.inventory == old(e.inventory)
      && ls.eventQueue == old(ls.eventQueue) && ls.entityByPosition == old(ls.entityByPosition)
    ensures old(ls.TestLineOfSight(e, ls.player)) ==>
      var c := OrDefault(old(e.behaviorState.throwRockCooldown), 1) - 1;
      var rock := FirstRock(old(e.inventory));
      && (c > 0 || rock.None? ==>
            && !thrown && e.behaviorState == old(e.behaviorState).(throwRockCooldown := Some(c))
            && e.inventory == old(e.inventory)
            && ls.eventQueue == old(ls.eventQueue) && ls.entityByPosition == old(ls.entityByPosition))
      && (c <= 0 && rock.Some? ==>
            && e.behaviorState == old(e.behaviorState).(throwRockCooldown := Some(6))
            && (thrown ==> e.inventory == RemoveFirst(old(e.inventory), rock.value))
            && (!thrown ==> e.inventory == old(e.inventory)))
  {
    if !ls.TestLineOfSight(e, ls.player) {
      return false, false;
    }
    var cooldown := OrDefault(e.behaviorState.throwRockCooldown, 1) - 1;
    e.behaviorState := e.behaviorState.(throwRockCooldown := Some(cooldown));
    thrown := false;
    if cooldown <= 0 {
      var item := FirstRock(e.inventory);
      if item.None? {
        return false, false;
      }
      e.behaviorState := e.behaviorState.(throwRockCooldown := Some(6));
      ls.LineOfSightRules(e, ls.player);
      thrown := Hurl(ls, e, item.value, rockSpeed);
    }
    r := false;
  }

  /** Throws the rock `item` at the player's cell. */
  method Hurl(ls: LevelState, e: Entity, item: Item, rockSpeed: int) returns (thrown: bool)
    requires Alive(ls, e) && ThrowReady(ls) && item in e.inventory && IsRock(item)
    modifies e`inventory, ls`entityByPosition, ls`Entities, ls.dispatcher, ls`eventQueue
    ensures ls.Valid() && old(ls.Entities) <= ls.Entities
    ensures forall x | x in ls.Entities :: x in old(ls.Entities) || fresh(x)
    ensures thrown ==> e.inventory == RemoveFirst(old(e.inventory), item)
    ensures !thrown ==>
      && e.inventory == old(e.inventory)
      && ls.eventQueue == old(ls.eventQueue) && ls.entityByPosition == old(ls.entityByPosition)
  {
    assert FlightId(item) == "ROCK_IN_FLIGHT";
    thrown := ActionThrow(ls, e, item, ls.player.position.value, rockSpeed);
  }

  /**
   * What a flying object's landing at `p` did: its first carried item lies
   * last on `p`, announced, and the object left the level: its behaviours
   * are unsubscribed, it stands nowhere and its cell left the index. When
   * one of its behaviours is not subscribed, the removal stops before the
   * index and the position are touched.
   */
  twostate predicate Landed(ls: LevelState, e: Entity, p: Pos)
    reads ls`itemsByPosition, ls`eventQueue, ls`entityByPosition, ls.dispatcher`handlers,
      e`inventory, e`position, e`behaviors
  {
    && old(e.inventory) != []
    && e.inventory == old(e.inventory)[1..]
    && ls.itemsByPosition == Put(old(ls.itemsByPosition), p, old(e.inventory)[0])
    && ls.eventQueue == old(ls.eventQueue) + [Event(EntityDroppedItem, Some(e), AboutItem(old(e.inventory)[0]))]
    && (UnsubscribeBehaviors(old(ls.dispatcher.handlers), e.behaviors).Some? ==>
          && ls.dispatcher.handlers == UnsubscribeBehaviors(old(ls.dispatcher.handlers), e.behaviors).value
          && e.position == None
          && ls.entityByPosition == if old(e.position).Some? then old(ls.entityByPosition) - {old(e.position).value}
                                    else old(ls.entityByPosition))
    && (UnsubscribeBehaviors(old(ls.dispatcher.handlers), e.behaviors).None? ==>
          e.position == old(e.position) && ls.entityByPosition == old(ls.entityByPosition))
  }

  /**
   * A flying object's landing: its first carried item is dropped, announced,
   * where given, and it leaves the level. An empty inventory raises before
   * anything changes.
   */
  method Land(ls: LevelState, e: Entity, p: Pos) returns (ok: bool)
    requires ls.Valid() && e in ls.Entities
    modifies e`inventory, ls`itemsByPosition, ls`eventQueue, ls`entityByPosition, e`position, ls.dispatcher
    ensures ls.Valid()
    ensures ok <==> old(e.inventory) != []
    ensures !ok ==>
      && e.inventory == old(e.inventory) && ls.itemsByPosition == old(ls.itemsByPosition)
      && ls.eventQueue == old(ls.eventQueue) && ls.entityByPosition == old(ls.entityByPosition)
      && e.position == old(e.position) && ls.dispatcher.handlers == old(ls.dispatcher.handlers)
    ensures ok ==> Landed(ls, e, p)
  {
    if e.inventory == [] {
      return false;
    }
    var item := e.inventory[0];
    e.inventory := e.inventory[1..];
    var _ := ls.DropItem(item, p, Some(e));
    var _ := ls.RemoveEntity(e);
    ok := true;
  }

  /**
   * Follow a path until something is hit, for a flying object. With no speed
   * recorded this raises; with speed below 1 it claims nothing. At the end
   * of the path the object lands where it is. Otherwise the next step is
   * taken off the path: a placeholder only waits; an entity there is
   * attacked and the object lands on its cell; passable terrain is moved
   * onto; anything else stops the object where it is. Each of these claims
   * the turn, unless the landing raises.
   */
  method PathUntilHitOnTurn(ls: LevelState, e: Entity) returns (r: Reply)
    requires Alive(ls, e)
    modifies ls`eventQueue, ls`entityByPosition, ls`itemsByPosition, ls`losCache, ls`levelMemory,
      ls.dispatcher, ls.tilemap.cells, ls.Entities`hp, ls.Entities`position, e`behaviorState, e`inventory
    ensures ls.Valid()
    ensures old(e.behaviorState.speed).None? ==> r == Raised
    ensures old(e.behaviorState.speed).Some? && old(e.behaviorState.speed).value < 1 ==> r == Reply(false)
    ensures r == Reply(false) || old(e.behaviorState.speed).None? ==>
      && e.behaviorState == old(e.behaviorState) && e.inventory == old(e.inventory)
      && ls.eventQueue == old(ls.eventQueue) && ls.entityByPosition == old(ls.entityByPosition)
      && e.position == old(e.position) && ls.player.position == old(ls.player.position)
    ensures old(e.behaviorState.speed).Some? && old(e.behaviorState.speed).value >= 1 ==>
      var path := old(e.behaviorState.path);
      && (path.None? || path.value == [] ==>
            && e.behaviorState == old(e.behaviorState)
            && r == (if old(e.inventory) == [] then Raised else Reply(true))
            && (old(e.inventory) != [] ==> Landed(ls, e, old(e.position).value))
            && (old(e.inventory) == [] ==> Unmoved(ls, e)))
      && (path.Some? && path.value != [] ==> e.behaviorState == old(e.behaviorState).(path := Some(path.value[1..])))
      && (path.Some? && path.value != [] && path.value[0].None? ==>
            r == Reply(true) && Unmoved(ls, e))
      && (path.Some? && path.value != [] && path.value[0].Some? && path.value[0].value in old(ls.entityByPosition) ==>
            && HitAndLanded(ls, e, old(ls.entityByPosition[path.value[0].value]), path.value[0].value)
            && r == (if old(e.inventory) == [] then Raised else Reply(true)))
      && (path.Some? && path.value != [] && path.value[0].Some? && path.value[0].value !in old(ls.entityByPosition)
          && old(ls.GetIsTerrainPassable(path.value[0].value)) ==>
            r == Reply(true) && FlewTo(ls, e, path.value[0].value))
      && (path.Some? && path.value != [] && path.value[0].Some? && path.value[0].value !in old(ls.entityByPosition)
          && !old(ls.GetIsTerrainPassable(path.value[0].value)) ==>
            && r == (if old(e.inventory) == [] then Raised else Reply(true))
            && (old(e.inventory) != [] ==> Landed(ls, e, old(e.position).value))
            && (old(e.inventory) == [] ==> Unmoved(ls, e)))
  {
    if e.behaviorState.speed.None? {
      return Raised;
    }
    var iterationsLeft := e.behaviorState.speed.value - 1;
    if iterationsLeft < 0 {
      return Reply(false);
    }
    var p := e.position.value;
    var path := e.behaviorState.path;
    if path.None? || path.value == [] {
      var ok := Land(ls, e, p);
      return if ok then Reply(true) else Raised;
    }
    var next := path.value[0];
    e.behaviorState := e.behaviorState.(path := Some(path.value[1..]));
    if next.None? {
      return Reply(true);
    }
    r := Advance(ls, e, next.value);
  }

  /**
   * What a flying object's step onto the free, passable cell `next` did: it
   * stands there, the index followed it, the step was announced, and the
   * floor items, the handlers and what it carries are as they were.
   */
  twostate predicate FlewTo(ls: LevelState, e: Entity, next: Pos)
    reads ls`eventQueue, ls`entityByPosition, ls`itemsByPosition, ls`player, ls.dispatcher`handlers,
      e`inventory, e`position
    reads if ls.player != null then {ls.player} else {}
  {
    && old(e.position).Some? && ls.player != null
    && e.position == Some(next) && e.inventory == old(e.inventory)
    && ls.entityByPosition == (old(ls.entityByPosition) - {old(e.position).value})[next := e]
    && ls.itemsByPosition == old(ls.itemsByPosition)
    && ls.dispatcher.handlers == old(ls.dispatcher.handlers)
    && ls.eventQueue == old(ls.eventQueue) + [Event(EntityMoved, Some(e), AboutEntity(e))]
                        + TurnSignal(e, ls.player.position.Some?, next)
  }

  /** Nothing a flight step touches has changed. */
  twostate predicate Unmoved(ls: LevelState, e: Entity)
    reads ls`eventQueue, ls`entityByPosition, ls`itemsByPosition, ls.dispatcher`handlers, e`inventory, e`position
  {
    && e.position == old(e.position) && e.inventory == old(e.inventory)
    && ls.entityByPosition == old(ls.entityByPosition) && ls.itemsByPosition == old(ls.itemsByPosition)
    && ls.eventQueue == old(ls.eventQueue) && ls.dispatcher.handlers == old(ls.dispatcher.handlers)
  }

  /**
   * What a flying object's hit on `t`, standing at `next`, did: the attack
   * with its events and, when `t` died and was removed, its inventory
   * dropped on `next`; then the object's landing on `next` (when it carries
   * something: otherwise the landing raises and nothing further changes).
   * The handlers are stated where the attack leaves them known: whenever
   * `t` lives, or its removal succeeded.
   */
  twostate predicate HitAndLanded(ls: LevelState, e: Entity, t: Entity, next: Pos)
    reads ls`eventQueue, ls`entityByPosition, ls`itemsByPosition, ls.dispatcher`handlers,
      e`inventory, e`position, e`behaviors, e`strength, t`hp, t`position, t`behaviors, t`inventory
  {
    var ut := UnsubscribeBehaviors(old(ls.dispatcher.handlers), t.behaviors);
    var gone := t.hp <= 0 && ut.Some?;
    var handlers := if gone then ut.value else old(ls.dispatcher.handlers);
    var index := if gone then old(ls.entityByPosition) - {next} else old(ls.entityByPosition);
    var items := if gone then DropSeq(old(ls.itemsByPosition), next, old(t.inventory)) else old(ls.itemsByPosition);
    var pos := if gone && t == e then None else old(e.position);
    && t.hp == old(t.hp) - old(e.strength)
    && (gone ==> t.position == None)
    && ls.eventQueue == old(ls.eventQueue) + AttackEvents(e, t, t.hp <= 0)
         + (if old(e.inventory) != [] then [Event(EntityDroppedItem, Some(e), AboutItem(old(e.inventory)[0]))] else [])
    && (old(e.inventory) == [] ==>
          && e.inventory == old(e.inventory) && e.position == pos
          && ls.entityByPosition == index && ls.itemsByPosition == items
          && (t.hp > 0 || gone ==> ls.dispatcher.handlers == handlers))
    && (old(e.inventory) != [] ==>
          && e.inventory == old(e.inventory)[1..]
          && ls.itemsByPosition == Put(items, next, old(e.inventory)[0])
          && (t.hp > 0 || gone ==>
                && (UnsubscribeBehaviors(handlers, e.behaviors).Some? ==>
                      && ls.dispatcher.handlers == UnsubscribeBehaviors(handlers, e.behaviors).value
                      && e.position == None
                      && ls.entityByPosition == if pos.Some? then index - {pos.value} else index)
                && (UnsubscribeBehaviors(handlers, e.behaviors).None? ==>
                      e.position == pos && ls.entityByPosition == index)))
  }

  /**
   * One step of a flight onto `next`: an entity there is attacked and the
   * object lands on its cell; passable terrain is entered; anything else
   * stops the object where it is.
   */
  method Advance(ls: LevelState, e: Entity, next: Pos) returns (r: Reply)
    requires Alive(ls, e)
    modifies ls`eventQueue, ls`entityByPosition, ls`itemsByPosition, ls`losCache, ls`levelMemory,
      ls.dispatcher, ls.tilemap.cells, ls.Entities`hp, ls.Entities`position, e`inventory
    ensures ls.Valid()
    ensures r != Reply(false)
    ensures next in old(ls.entityByPosition) ==>
      && HitAndLanded(ls, e, old(ls.entityByPosition[next]), next)
      && r == (if old(e.inventory) == [] then Raised else Reply(true))
    ensures next !in old(ls.entityByPosition) && old(ls.GetIsTerrainPassable(next)) ==>
      && r == Reply(true) && FlewTo(ls, e, next)
    ensures next !in old(ls.entityByPosition) && !old(ls.GetIsTerrainPassable(next)) ==>
      && r == (if old(e.inventory) == [] then Raised else Reply(true))
      && (old(e.inventory) != [] ==> Landed(ls, e, old(e.position).value))
      && (old(e.inventory) == [] ==> Unmoved(ls, e))
  {
    if next in ls.entityByPosition {
      r := Hit(ls, e, next);
    } else if ls.GetIsTerrainPassable(next) {
      var _ := ActionMove(ls, e, next);
      r := Reply(true);
    } else {
      var ok := Land(ls, e, e.position.value);
      r := if ok then Reply(true) else Raised;
    }
  }

  /** The object attacks the entity at `next` and lands on that cell. */
  method Hit(ls: LevelState, e: Entity, next: Pos) returns (r: Reply)
    requires ls.Valid() && e in ls.Entities && next in ls.entityByPosition
    modifies ls`eventQueue, ls`entityByPosition, ls`itemsByPosition, ls.dispatcher, ls.Entities`hp, ls.Entities`position,
      e`inventory, e`position
    ensures ls.Valid()
    ensures HitAndLanded(ls, e, old(ls.entityByPosition[next]), next)
    ensures r == if old(e.inventory) == [] then Raised else Reply(true)
  {
    var target := ls.entityByPosition[next];
    ActionAttack(ls, e, target);
    var ok := Land(ls, e, next);
    r := if ok then Reply(true) else Raised;
  }

  /** Whether a behaviour class has a handler for the event name. */
  predicate Defines(k: Kind, n: EventName) {
    n in KindEvents(k)
  }

  /**
   * Calls the handler of behaviour class `k` for the event, on entity `e`.
   * `pick` stands for the random choice a random walk makes. A falsy answer
   * leaves the entity and the player on the level.
   */
  method Handle(ls: LevelState, e: Entity, k: Kind, ev: Event, pick: nat) returns (r: Reply)
    requires Defines(k, ev.name)
    requires ev.name == PlayerTookAction ==> Alive(ls, e)
    requires k.ThrowRockSlow? ==> ThrowReady(ls)
    modifies ls`eventQueue, ls`entityByPosition, ls`itemsByPosition, ls`losCache, ls`levelMemory, ls`Entities,
      ls.dispatcher, ls.tilemap.cells, ls.game`score, ls.Entities`hp, ls.Entities`position,
      e`mode, e`behaviorState, e`inventory
    ensures ev.name == PlayerTookAction ==> ls.Valid() && old(ls.Entities) <= ls.Entities
    ensures forall x | x in ls.Entities :: x in old(ls.Entities) || fresh(x)
    ensures ev.name == EntityAttacked ==> r == Reply(false)
    ensures r == Reply(false) && ev.name == PlayerTookAction ==> Alive(ls, e)
  {
    match k
    case Sleep =>
      var b := SleepOnTurn(e);
      r := Reply(b);
    case Stunnable =>
      if ev.name == EntityAttacked {
        var b := StunOnAttacked(e, ev);
        r := Reply(b);
      } else {
        var b := StunOnTurn(e);
        r := Reply(b);
      }
    case ThrowRockSlow(_) =>
      r := Fly(ls, e, k);
    case PathUntilHit =>
      r := Fly(ls, e, k);
    case _ =>
      r := Walk(ls, e, k, pick);
  }

  /** The player's-turn handlers of the classes that throw or fly. */
  method Fly(ls: LevelState, e: Entity, k: Kind) returns (r: Reply)
    requires k.ThrowRockSlow? || k.PathUntilHit?
    requires Alive(ls, e) && (k.ThrowRockSlow? ==> ThrowReady(ls))
    modifies ls`eventQueue, ls`entityByPosition, ls`itemsByPosition, ls`losCache, ls`levelMemory, ls`Entities,
      ls.dispatcher, ls.tilemap.cells, ls.Entities`hp, ls.Entities`position, e`behaviorState, e`inventory
    ensures ls.Valid() && old(ls.Entities) <= ls.Entities
    ensures forall x | x in ls.Entities :: x in old(ls.Entities) || fresh(x)
    ensures r == Reply(false) ==> Alive(ls, e)
  {
    if k.ThrowRockSlow? {
      var b, _ := ThrowRockOnTurn(ls, e, k.rockSpeed);
      r := Reply(b);
    } else {
      r := PathUntilHitOnTurn(ls, e);
    }
  }

  /** The player's-turn handlers of the classes that move their entity over the map. */
  method Walk(ls: LevelState, e: Entity, k: Kind, pick: nat) returns (r: Reply)
    requires k.RandomWalk? || k.PickUpRocks? || k.BeelineVisible? || k.RangeVisible?
    requires Alive(ls, e)
    modifies ls`eventQueue, ls`entityByPosition, ls`itemsByPosition, ls`losCache, ls`levelMemory,
      ls.dispatcher, ls.tilemap.cells, ls.game`score, ls.Entities`hp, ls.Entities`position,
      e`mode, e`inventory
    ensures ls.Valid()
    ensures r.Reply?
    ensures r == Reply(false) ==> Alive(ls, e)
  {
    match k
    case RandomWalk =>
      var b, _ := RandomWalkOnTurn(ls, e, pick);
      r := Reply(b);
    case PickUpRocks =>
      var b, _ := PickUpRocksOnTurn(ls, e);
      r := Reply(b);
    case BeelineVisible =>
      var b, _ := BeelineOnTurn(ls, e);
      r := Reply(b);
    case RangeVisible(best) =>
      var b, _ := RangeOnTurn(ls, e, best);
      r := Reply(b);
  }

  /** The sub-behaviours among the first `i` that have a handler for `n`, in order. */
  function Answering(subs: seq<Kind>, n: EventName, i: nat): (r: seq<Kind>)
    requires i <= |subs|
    ensures |r| <= i
    ensures forall k :: k in r <==> k in subs[..i] && Defines(k, n)
  {
    if i == 0 then []
    else
      assert subs[..i] == subs[..i - 1] + [subs[i - 1]];
      Answering(subs, n, i - 1) + (if Defines(subs[i - 1], n) then [subs[i - 1]] else [])
  }

  /** The handlers among the first `i` sub-behaviours lead those among all of them. */
  lemma {:induction false} AnsweringPrefix(subs: seq<Kind>, n: EventName, i: nat)
    requires i <= |subs|
    ensures Answering(subs, n, i) <= Answering(subs, n, |subs|)
    decreases |subs| - i
  {
    if i < |subs| {
      AnsweringPrefix(subs, n, i + 1);
    }
  }

  /**
   * A composite's handler: the sub-behaviours with a handler for the event
   * are called in order until one answers truthily (or raises), which ends
   * the call with that answer; if none does, the answer is falsy.
   */
  method CompositeHandle(ls: LevelState, e: Entity, subs: seq<Kind>, ev: Event, pick: nat)
    returns (r: Reply, invoked: seq<Kind>, replies: seq<Reply>)
    requires ev.name == PlayerTookAction ==> Alive(ls, e)
    requires forall i | 0 <= i < |subs| :: subs[i].ThrowRockSlow? ==> ThrowReady(ls)
    modifies ls`eventQueue, ls`entityByPosition, ls`itemsByPosition, ls`losCache, ls`levelMemory, ls`Entities,
      ls.dispatcher, ls.tilemap.cells, ls.game`score, ls.Entities`hp, ls.Entities`position,
      e`mode, e`behaviorState, e`inventory
    ensures invoked <= Answering(subs, ev.name, |subs|) && |replies| == |invoked|
    ensures forall i | 0 <= i < |replies| - 1 :: replies[i] == Reply(false)
    ensures r == Reply(false) <==>
      invoked == Answering(subs, ev.name, |subs|) && forall i | 0 <= i < |replies| :: replies[i] == Reply(false)
    ensures r != Reply(false) ==> replies != [] && r == replies[|replies| - 1]
    ensures r == Reply(false) && ev.name == PlayerTookAction ==> Alive(ls, e)
  {
    var methods := Answering(subs, ev.name, |subs|);
    assert subs[..|subs|] == subs;
    r, replies := AskInOrder(ls, e, methods, ev, pick);
    invoked := methods[..|replies|];
    assert r == Reply(false) ==> invoked == methods;
  }

  /** Calls the handlers in order, stopping at the first truthy answer. */
  method AskInOrder(ls: LevelState, e: Entity, methods: seq<Kind>, ev: Event, pick: nat)
    returns (r: Reply, replies: seq<Reply>)
    requires ev.name == PlayerTookAction ==> Alive(ls, e)
    requires forall i | 0 <= i < |methods| :: Defines(methods[i], ev.name)
    requires forall i | 0 <= i < |methods| :: methods[i].ThrowRockSlow? ==> ThrowReady(ls)
    modifies ls`eventQueue, ls`entityByPosition, ls`itemsByPosition, ls`losCache, ls`levelMemory, ls`Entities,
      ls.dispatcher, ls.tilemap.cells, ls.game`score, ls.Entities`hp, ls.Entities`position,
      e`mode, e`behaviorState, e`inventory
    ensures |replies| <= |methods|
    ensures forall i | 0 <= i < |replies| - 1 :: replies[i] == Reply(false)
    ensures r == Reply(false) <==> |replies| == |methods| && forall i | 0 <= i < |replies| :: replies[i] == Reply(false)
    ensures r != Reply(false) ==> replies != [] && r == replies[|replies| - 1]
    ensures r == Reply(false) && ev.name == PlayerTookAction ==> Alive(ls, e)
  {
    replies, r := [], Reply(false);
    var j := 0;
    while j < |methods|
      invariant 0 <= j <= |methods| && |replies| == j
      invariant forall i | 0 <= i < j :: replies[i] == Reply(false)
      invariant ev.name == PlayerTookAction ==> Alive(ls, e)
      invariant forall x | x in ls.Entities :: x in old(ls.Entities) || fresh(x)
    {
      var reply := Handle(ls, e, methods[j], ev, pick);
      replies := replies + [reply];
      if reply != Reply(false) {
        assert replies[j] == reply;
        return reply, replies;
      }
      j := j + 1;
    }
  }

  /** Whether a behaviour throws rocks, on its own or as one of a composite's parts. */
  predicate ThrowsRocks(shape: Shape) {
    match shape
    case Single(k) => k.ThrowRockSlow?
    case Composite(subs) => exists i | 0 <= i < |subs| :: subs[i].ThrowRockSlow?
  }

  /**
   * Delivers an event the behaviour subscribed to: a single class's handler
   * for the name, or the composite handler installed for it. A falsy answer
   * leaves the owner and the player on the level.
   */
  method Respond(ls: LevelState, b: Behavior, ev: Event, pick: nat) returns (r: Reply)
    requires b.NamesFit() && ev.name in b.eventNames
    requires ev.name == PlayerTookAction ==> Alive(ls, b.owner)
    requires ThrowsRocks(b.shape) ==> ThrowReady(ls)
    modifies ls`eventQueue, ls`entityByPosition, ls`itemsByPosition, ls`losCache, ls`levelMemory, ls`Entities,
      ls.dispatcher, ls.tilemap.cells, ls.game`score, ls.Entities`hp, ls.Entities`position,
      b.owner`mode, b.owner`behaviorState, b.owner`inventory
    ensures r == Reply(false) && ev.name == PlayerTookAction ==> Alive(ls, b.owner)
  {
    match b.shape
    case Single(k) =>
      r := Handle(ls, b.owner, k, ev, pick);
    case Composite(subs) =>
      var reply, _, _ := CompositeHandle(ls, b.owner, subs, ev, pick);
      r := reply;
  }
}
