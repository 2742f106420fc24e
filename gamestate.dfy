/**
 * The older level state, kept beside the current one: it also keeps a list of
 * its entities, traces sight only up to a Manhattan distance of 20, and
 * signals the player's turn at a position its caller gives. Its tile map can
 * look up a room's neighbours, and its game state counts turns.
 */
module Legacy {
  import opened Options
  import opened Geom
  import opened Const
  import opened Catalog
  import opened Dispatcher
  import opened Rooms
  import opened TileMaps
  import opened Entities
  import opened Level

  /**
   * The rooms a room lists as neighbours, in its order; an id with no room
   * fails the lookup (None).
   */
  function GetNeighbors(roomsById: map<RoomId, Room>, neighborIds: seq<RoomId>): (r: Option<seq<Room>>)
    ensures r.Some? <==> forall i | 0 <= i < |neighborIds| :: neighborIds[i] in roomsById
    ensures r.Some? ==> |r.value| == |neighborIds|
    ensures r.Some? ==> forall i | 0 <= i < |neighborIds| :: r.value[i] == roomsById[neighborIds[i]]
  {
    if neighborIds == [] then Some([])
    else if neighborIds[0] !in roomsById then None
    else match GetNeighbors(roomsById, neighborIds[1..])
      case None => None
      case Some(rest) => Some([roomsById[neighborIds[0]]] + rest)
  }

  /** `shorter` lost `x` from `listed` and nothing else, and gained nothing. */
  predicate Shrunk<T(==)>(listed: seq<T>, shorter: seq<T>, x: T) {
    && (forall y | y in listed && y != x :: y in shorter)
    && (forall y | y in shorter :: y in listed)
  }

  /** Removing the first occurrence of an element shrinks a list that way. */
  lemma {:induction false} RemoveFirstShrinks<T>(s: seq<T>, x: T)
    requires x in s
    ensures Shrunk(s, RemoveFirst(s, x), x)
  {
    forall y | y in s && y != x
      ensures y in RemoveFirst(s, x)
    {
      RemoveFirstKeepsOthers(s, x, y);
    }
    forall y | y in RemoveFirst(s, x)
      ensures y in s
    {
      assert multiset(RemoveFirst(s, x))[y] > 0;
    }
  }

  class LevelState {
    const tilemap: TileMap
    const uuid: string
    const dispatcher: EventDispatcher<Behavior, Entity>
    const terrain: TerrainTable
    /** The Bresenham line between two points, both ends included. */
    const bresenham: (Pos, Pos) -> seq<Pos>

    var score: int
    var entities: seq<Entity>
    var eventQueue: seq<Event>
    var entityByPosition: map<Pos, Entity>
    var itemsByPosition: map<Pos, seq<Item>>
    var applying: bool
    var player: Entity?

    /**
     * The index and a list of entities agree in both directions: every entry
     * names a listed entity standing there, and every listed entity with a
     * position is the entry there (so no two listed entities share a cell).
     */
    predicate Indexed(listed: seq<Entity>)
      reads this`entityByPosition, listed
    {
      && (forall p | p in entityByPosition ::
            entityByPosition[p] in listed && entityByPosition[p].position == Some(p))
      && (forall e | e in listed && e.position.Some? ::
            e.position.value in entityByPosition && entityByPosition[e.position.value] == e)
    }

    /** The index agrees with the entity list, a living player is listed, and every event name is registered. */
    predicate Valid()
      reads this`entityByPosition, this`entities, this`player, entities, player, dispatcher`handlers
    {
      && Indexed(entities)
      && (player != null && player.position.Some? ==> player in entities)
      && (forall n :: Value(n) in dispatcher.handlers)
    }

    /**
     * An empty level over a generated map with a score of 0 and every event
     * name registered. The player, items and monsters are not spawned here.
     */
    constructor (tilemap: TileMap, uuid: string, terrain: TerrainTable, bresenham: (Pos, Pos) -> seq<Pos>)
      ensures this.tilemap == tilemap && this.uuid == uuid && this.terrain == terrain && this.bresenham == bresenham
      ensures score == 0 && entities == [] && eventQueue == [] && !applying && player == null
      ensures entityByPosition == map[] && itemsByPosition == map[]
      ensures Valid() && fresh(dispatcher)
    {
      this.tilemap := tilemap;
      this.uuid := uuid;
      this.terrain := terrain;
      this.bresenham := bresenham;
      dispatcher := new EventDispatcher();
      score := 0;
      entities := [];
      eventQueue := [];
      entityByPosition := map[];
      itemsByPosition := map[];
      applying := false;
      player := null;
      new;
      RegisterAll(dispatcher);
    }

    /**
     * Lists the entity, subscribes its behaviours and indexes it at its
     * position, if it has one. The cell must be free.
     */
    method AddEntity(e: Entity)
      requires Valid()
      requires e.position.Some? ==> e.position.value !in entityByPosition
      modifies this`entities, this`entityByPosition, dispatcher
      ensures Valid()
      ensures entities == old(entities) + [e]
      ensures entityByPosition == if e.position.Some? then old(entityByPosition)[e.position.value := e] else old(entityByPosition)
      ensures dispatcher.handlers == SubscribeBehaviors(old(dispatcher.handlers), e.behaviors)
    {
      entities := entities + [e];
      SubscribeEach(dispatcher, e.behaviors);
      if e.position.Some? {
        entityByPosition := entityByPosition[e.position.value := e];
      }
    }

    /**
     * Takes the entity off the list, unsubscribes its behaviours, then deletes
     * its index entry and clears its position. An unlisted entity fails at
     * once with nothing changed; a behaviour that is not subscribed fails
     * after the list has changed, with the index untouched.
     */
    method RemoveEntity(e: Entity) returns (ok: bool)
      requires Valid()
      modifies this`entities, this`entityByPosition, e`position, dispatcher
      ensures e !in old(entities) ==> !ok && entities == old(entities) && dispatcher.handlers == old(dispatcher.handlers)
      ensures e in old(entities) ==> entities == RemoveFirst(old(entities), e)
      ensures ok <==> e in old(entities) && UnsubscribeBehaviors(old(dispatcher.handlers), e.behaviors).Some?
      ensures ok ==> dispatcher.handlers == UnsubscribeBehaviors(old(dispatcher.handlers), e.behaviors).value
      ensures ok ==> e.position == None && Valid()
      ensures ok ==>
        entityByPosition == if old(e.position).Some? then old(entityByPosition) - {old(e.position).value} else old(entityByPosition)
      ensures !ok ==> e.position == old(e.position) && entityByPosition == old(entityByPosition)
    {
      if e !in entities {
        return false;
      }
      ghost var listed := entities;
      entities := RemoveFirst(entities, e);
      RemoveFirstShrinks(listed, e);
      ok := UnsubscribeEach(dispatcher, e.behaviors);
      if !ok {
        return;
      }
      Unindex(e, listed);
    }

    /**
     * Deletes the entity's index entry and clears its position, once it has
     * come off the list: the index then agrees with what is left.
     */
    method Unindex(e: Entity, ghost listed: seq<Entity>)
      requires Indexed(listed) && e in listed && Shrunk(listed, entities, e)
      modifies this`entityByPosition, e`position
      ensures Indexed(entities) && e.position == None
      ensures entityByPosition == if old(e.position).Some? then old(entityByPosition) - {old(e.position).value} else old(entityByPosition)
    {
      if e.position.Some? {
        entityByPosition := entityByPosition - {e.position.value};
        e.position := None;
      }
      assert forall p | p in entityByPosition :: entityByPosition[p] != e;
    }

    /** Appends the item to the cell's list and announces the drop when a dropping entity is given. */
    method DropItem(item: Item, point: Pos, entity: Option<Entity>) returns (r: bool)
      modifies this`itemsByPosition, this`eventQueue
      ensures r
      ensures itemsByPosition == Put(old(itemsByPosition), point, item)
      ensures eventQueue == old(eventQueue) +
        (if entity.Some? then [Event(EntityDroppedItem, entity, AboutItem(item))] else [])
    {
      if point !in itemsByPosition {
        itemsByPosition := itemsByPosition[point := []];
      }
      itemsByPosition := itemsByPosition[point := itemsByPosition[point] + [item]];
      if entity.Some? {
        Fire(EntityDroppedItem, entity, AboutItem(item));
      }
      r := true;
    }

    /** Remembers an event; nothing is dispatched until the queue is drained. */
    method Fire(name: EventName, entity: Option<Entity>, data: EventData)
      modifies this`eventQueue
      ensures eventQueue == old(eventQueue) + [Event(name, entity, data)]
    {
      eventQueue := eventQueue + [Event(name, entity, data)];
    }

    /**
     * Drains the queue exactly as the current level does: a drain started
     * during a drain fails (`ok` false, nothing changes); otherwise events are
     * popped first in, first out, the handlers of the i-th popped event
     * enqueue `reactions[i]`, and each popped event reaches its subscribers.
     */
    method ConsumeEvents(reactions: seq<seq<Event>>) returns (ok: bool, popped: seq<Event>, deliveries: seq<seq<Behavior>>)
      requires Valid()
      modifies this`eventQueue, this`applying
      ensures ok <==> !old(applying)
      ensures !ok ==> eventQueue == old(eventQueue) && applying == old(applying)
      ensures ok ==> popped == Drain(old(eventQueue), reactions) && eventQueue == [] && !applying
      ensures ok ==> |deliveries| == |popped| && forall i | 0 <= i < |popped| ::
        deliveries[i] == Recipients(dispatcher.handlers[Value(popped[i].name)], popped[i].entity)
    {
      if applying {
        return false, [], [];
      }
      applying := true;
      popped := [];
      deliveries := [];
      var k := 0;
      ghost var h := dispatcher.handlers;
      while eventQueue != []
        invariant 0 <= k <= |reactions|
        invariant popped + Drain(eventQueue, reactions[k..]) == Drain(old(eventQueue), reactions)
        invariant |deliveries| == |popped| && dispatcher.handlers == h
        invariant forall i | 0 <= i < |popped| ::
          deliveries[i] == Recipients(h[Value(popped[i].name)], popped[i].entity)
        decreases |reactions| - k, |eventQueue|
      {
        var ev := eventQueue[0];
        Level.LevelState.DrainPop(popped, eventQueue, reactions, k);
        eventQueue := eventQueue[1..];
        var fired, heard := dispatcher.Fire(Member(ev.name), ev.entity);
        deliveries := deliveries + [heard];
        popped := popped + [ev];
        if k < |reactions| {
          eventQueue := eventQueue + reactions[k];
          k := k + 1;
        }
      }
      applying := false;
      ok := true;
    }

    /** Line of sight between two entities, with the older sight limit of 20. */
    predicate TestLineOfSight(source: Entity, dest: Entity)
      reads source`position, dest`position, tilemap.cells
      ensures TestLineOfSight(source, dest) ==> source.position.Some? && dest.position.Some?
      ensures TestLineOfSight(source, dest) ==> Manhattan(source.position.value, dest.position.value) <= 20
      ensures source.position.Some? && dest.position.Some? && Manhattan(source.position.value, dest.position.value) <= 20 ==>
        (TestLineOfSight(source, dest) <==> tilemap.LineLit(bresenham(source.position.value, dest.position.value), terrain))
    {
      SightBetween(tilemap, terrain, bresenham, 20, source.position, dest.position)
    }

    /**
     * The older limit only narrows sight: whatever it sees the current limit
     * of 30 sees too, and the two agree on entities at most 20 apart.
     */
    lemma {:induction false} SightNarrower(source: Entity, dest: Entity)
      ensures TestLineOfSight(source, dest) ==>
        SightBetween(tilemap, terrain, bresenham, 30, source.position, dest.position)
      ensures source.position.Some? && dest.position.Some? && Manhattan(source.position.value, dest.position.value) <= 20 ==>
        (TestLineOfSight(source, dest) <==> SightBetween(tilemap, terrain, bresenham, 30, source.position, dest.position))
      ensures source.position.Some? && dest.position.Some? && Manhattan(source.position.value, dest.position.value) > 20 ==>
        !TestLineOfSight(source, dest)
    {
      SightCutoff(tilemap, terrain, bresenham, 20, 30, source.position, dest.position);
    }

    /** Signals the player's turn at the given position; nothing if the player is dead. */
    method FirePlayerTookActionIfAlive(position: Pos)
      requires player != null
      modifies this`eventQueue
      ensures player.position.None? ==> eventQueue == old(eventQueue)
      ensures player.position.Some? ==> eventQueue == old(eventQueue) + [Event(PlayerTookAction, None, AboutPoint(position))]
    {
      if player.position.None? {
        return;
      }
      Fire(PlayerTookAction, None, AboutPoint(position));
    }
  }

  /** The levels by id, the active level and the turn count. */
  class GameState {
    var turnNumber: int
    var levelStatesById: map<string, LevelState>
    var activeId: string

    /** Starts at turn 0 with exactly one level, which is the active one. */
    constructor (tilemap: TileMap, uuid: string, terrain: TerrainTable, bresenham: (Pos, Pos) -> seq<Pos>)
      ensures turnNumber == 0
      ensures levelStatesById.Keys == {uuid} && activeId == uuid
      ensures Keyed() && ActiveLevelState().tilemap == tilemap && ActiveLevelState().score == 0
    {
      turnNumber := 0;
      levelStatesById := map[];
      activeId := "";
      new;
      var ls := AddLevel(tilemap, uuid, terrain, bresenham);
      activeId := ls.uuid;
    }

    /** Every level is stored under its own uuid. */
    predicate Keyed()
      reads this`levelStatesById
    {
      forall id | id in levelStatesById :: levelStatesById[id].uuid == id
    }

    /** The active level: the one stored under the active id. */
    function ActiveLevelState(): (ls: LevelState)
      reads this`levelStatesById, this`activeId
      requires activeId in levelStatesById && Keyed()
      ensures ls in levelStatesById.Values && ls.uuid == activeId
    {
      levelStatesById[activeId]
    }

    /** Creates a level over a generated map and stores it under its uuid; other levels stay. */
    method AddLevel(tilemap: TileMap, uuid: string, terrain: TerrainTable, bresenham: (Pos, Pos) -> seq<Pos>)
      returns (ls: LevelState)
      modifies this`levelStatesById
      ensures fresh(ls) && ls.uuid == uuid && ls.tilemap == tilemap && ls.score == 0
      ensures levelStatesById == old(levelStatesById)[uuid := ls]
      ensures old(Keyed()) ==> Keyed()
    {
      ls := new LevelState(tilemap, uuid, terrain, bresenham);
      levelStatesById := levelStatesById[uuid := ls];
    }
  }
}
