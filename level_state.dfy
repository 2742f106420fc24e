/**
 * The state of one level: the map, the entities and items on it, the event
 * queue and its dispatcher; and the game state that owns the levels and the
 * score. Both classes live in one module because a level refers back to the
 * game state whose score it raises.
 */
module Level {
  import opened Options
  import opened Geom
  import opened Const
  import opened Catalog
  import opened Dispatcher
  import opened TileMaps
  import opened Entities

  /** What an event carries besides its name and subject entity. */
  datatype EventData =
    | NoData
    | AboutEntity(other: Entity)
    | AboutItem(item: Item)
    | AboutCell(cell: Pos)
    | AboutPoint(point: Pos)

  datatype Event = Event(name: EventName, entity: Option<Entity>, data: EventData)

  function Head(rs: seq<seq<Event>>): seq<Event> { if rs == [] then [] else rs[0] }
  function Tail(rs: seq<seq<Event>>): seq<seq<Event>> { if rs == [] then [] else rs[1..] }

  /**
   * The events a drain pops, in order, starting from queue `q`, when the
   * handlers of the i-th popped event enqueue `rs[i]` (and those past the end
   * of `rs` enqueue nothing).
   */
  function Drain(q: seq<Event>, rs: seq<seq<Event>>): seq<Event>
    decreases |rs|, |q|
  {
    if q == [] then [] else [q[0]] + Drain(q[1..] + Head(rs), Tail(rs))
  }

  function Flatten(rs: seq<seq<Event>>): seq<Event> {
    if rs == [] then [] else rs[0] + Flatten(rs[1..])
  }

  function Min(a: int, b: int): int { if a <= b then a else b }

  /**
   * The drain is first in, first out: it pops the whole initial queue, then
   * the events enqueued while handling the first event, then those of the
   * second, and so on, for every popped event that had handlers react.
   */
  lemma {:induction false} DrainIsFifo(q: seq<Event>, rs: seq<seq<Event>>)
    ensures Drain(q, rs) == q + Flatten(rs[..Min(|Drain(q, rs)|, |rs|)])
    decreases |rs|, |q|
  {
    if q != [] {
      var q' := q[1..] + Head(rs);
      DrainIsFifo(q', Tail(rs));
      var m' := Min(|Drain(q', Tail(rs))|, |Tail(rs)|);
      assert Drain(q, rs) == [q[0]] + Drain(q', Tail(rs));
      if rs == [] {
        assert Flatten(rs[..0]) == [];
        assert Drain(q, rs) == [q[0]] + q[1..];
      } else {
        assert Min(|Drain(q, rs)|, |rs|) == 1 + m';
        FlattenFront(rs, m');
        Regroup(q, rs[0], Flatten(rs[1..1 + m']));
      }
    }
  }

  /** Flattening a non-empty prefix of the reactions: the first list, then the rest of the prefix. */
  lemma FlattenFront(rs: seq<seq<Event>>, m: nat)
    requires m < |rs|
    ensures Tail(rs)[..m] == rs[1..1 + m]
    ensures Flatten(rs[..1 + m]) == rs[0] + Flatten(rs[1..1 + m])
  {
    assert rs[..1 + m][0] == rs[0] && rs[..1 + m][1..] == rs[1..1 + m];
  }

  /** The cells of a list of monster spawns. */
  function MonsterCells(ms: seq<MonsterData>): set<Pos> {
    if ms == [] then {} else MonsterCells(ms[..|ms| - 1]) + {ms[|ms| - 1].position}
  }

  /** Popping the head and re-queueing the rest before `a` and `b` keeps the order. */
  lemma {:induction false} Regroup(q: seq<Event>, a: seq<Event>, b: seq<Event>)
    requires q != []
    ensures [q[0]] + (q[1..] + a + b) == q + (a + b)
  {
    assert q == [q[0]] + q[1..];
  }

  /** Every event fired before a drain is popped by it, in firing order. */
  lemma DrainPopsQueueFirst(q: seq<Event>, rs: seq<seq<Event>>)
    ensures |Drain(q, rs)| >= |q| && Drain(q, rs)[..|q|] == q
  {
    DrainIsFifo(q, rs);
  }

  /** The dispatcher table after subscribing each behaviour in turn. */
  function SubscribeBehaviors(h: map<string, seq<(Behavior, Option<Entity>)>>, bs: seq<Behavior>): (r: map<string, seq<(Behavior, Option<Entity>)>>)
    requires forall n :: Value(n) in h
    ensures r.Keys == h.Keys
  {
    if bs == [] then h
    else
      KeysRegistered(h, bs[0].eventNames);
      SubscribeBehaviors(SubscribeAll(h, (bs[0], None), Keys(bs[0].eventNames)), bs[1..])
  }

  /** The dispatcher table after unsubscribing each behaviour in turn; None if a removal fails. */
  function UnsubscribeBehaviors(h: map<string, seq<(Behavior, Option<Entity>)>>, bs: seq<Behavior>): (r: Option<map<string, seq<(Behavior, Option<Entity>)>>>)
    ensures r.Some? ==> r.value.Keys == h.Keys
  {
    if bs == [] then Some(h)
    else match UnsubscribeAll(h, (bs[0], None), Keys(bs[0].eventNames))
      case None => None
      case Some(h') => UnsubscribeBehaviors(h', bs[1..])
  }

  lemma KeysRegistered(h: map<string, seq<(Behavior, Option<Entity>)>>, names: seq<EventName>)
    requires forall n :: Value(n) in h
    ensures forall k | k in Keys(names) :: k in h
  {
    forall k | k in Keys(names)
      ensures k in h
    {
      var i :| 0 <= i < |names| && Keys(names)[i] == k;
    }
  }

  /** Subscribes each behaviour in turn, as adding an entity does. */
  method SubscribeEach(d: EventDispatcher<Behavior, Entity>, bs: seq<Behavior>)
    requires forall n :: Value(n) in d.handlers
    modifies d
    ensures forall n :: Value(n) in d.handlers
    ensures d.handlers == SubscribeBehaviors(old(d.handlers), bs)
  {
    var i := 0;
    while i < |bs|
      invariant 0 <= i <= |bs|
      invariant forall n :: Value(n) in d.handlers
      invariant SubscribeBehaviors(d.handlers, bs[i..]) == SubscribeBehaviors(old(d.handlers), bs)
    {
      var b := bs[i];
      KeysRegistered(d.handlers, b.eventNames);
      b.AddToEventDispatcher(d);
      assert bs[i..][0] == b && bs[i..][1..] == bs[i + 1..];
      i := i + 1;
    }
  }

  /**
   * Unsubscribes each behaviour in turn, as removing an entity does; a
   * missing subscription stops the loop with `ok` false.
   */
  method UnsubscribeEach(d: EventDispatcher<Behavior, Entity>, bs: seq<Behavior>) returns (ok: bool)
    requires forall n :: Value(n) in d.handlers
    modifies d
    ensures forall n :: Value(n) in d.handlers
    ensures ok <==> UnsubscribeBehaviors(old(d.handlers), bs).Some?
    ensures ok ==> d.handlers == UnsubscribeBehaviors(old(d.handlers), bs).value
  {
    var i := 0;
    while i < |bs|
      invariant 0 <= i <= |bs|
      invariant forall n :: Value(n) in d.handlers
      invariant d.handlers.Keys == old(d.handlers).Keys
      invariant UnsubscribeBehaviors(d.handlers, bs[i..]) == UnsubscribeBehaviors(old(d.handlers), bs)
    {
      var b := bs[i];
      assert bs[i..][0] == b && bs[i..][1..] == bs[i + 1..];
      ok := b.RemoveFromEventDispatcher(d);
      if !ok {
        return;
      }
      i := i + 1;
    }
    ok := true;
  }

  /** Whether the monster type's item and behaviour ids are all in the catalogs. */
  predicate KnownType(mt: MonsterType, itemCatalog: map<string, ItemType>) {
    && (forall i | 0 <= i < |mt.items| :: mt.items[i] in itemCatalog)
    && (forall i | 0 <= i < |mt.behaviors| :: mt.behaviors[i] in Registry)
  }

  /** One behaviour class on its own, or a composite of several (or none). */
  function ShapeFor(mt: MonsterType): (s: Shape)
    requires forall i | 0 <= i < |mt.behaviors| :: mt.behaviors[i] in Registry
    ensures |mt.behaviors| == 1 <==> s.Single?
    ensures s.Single? ==> s.kind == Registry[mt.behaviors[0]]
    ensures s.Composite? ==>
      |s.subs| == |mt.behaviors| && forall i | 0 <= i < |s.subs| :: s.subs[i] == Registry[mt.behaviors[i]]
  {
    if |mt.behaviors| == 1 then Single(Registry[mt.behaviors[0]])
    else Composite(seq(|mt.behaviors|, i requires 0 <= i < |mt.behaviors| => Registry[mt.behaviors[i]]))
  }

  /** The items of the given type placed at `p`, in placement order. */
  function PlacedItemsAt(items: seq<ItemData>, p: Pos): seq<Item> {
    if items == [] then []
    else
      var last := items[|items| - 1];
      PlacedItemsAt(items[..|items| - 1], p) + (if last.position == p then [NewItem(last.itemType)] else [])
  }

  /** The items listed at `p` in an item index; a missing key is an empty list. */
  function ItemsIn(m: map<Pos, seq<Item>>, p: Pos): seq<Item> {
    if p in m then m[p] else []
  }

  /** The index after appending `item` to the list at `p` (creating the list if needed). */
  function Put(m: map<Pos, seq<Item>>, p: Pos, item: Item): (r: map<Pos, seq<Item>>)
    ensures r.Keys == m.Keys + {p}
    ensures ItemsIn(r, p) == ItemsIn(m, p) + [item]
    ensures forall q | q != p :: ItemsIn(r, q) == ItemsIn(m, q)
  {
    m[p := ItemsIn(m, p) + [item]]
  }

  /** The index after placing each listed item, in turn, at its position. */
  function PlaceAll(m: map<Pos, seq<Item>>, items: seq<ItemData>): map<Pos, seq<Item>> {
    if items == [] then m
    else
      var last := items[|items| - 1];
      Put(PlaceAll(m, items[..|items| - 1]), last.position, NewItem(last.itemType))
  }

  /** Placing a list of items adds, at each cell, exactly the items listed for that cell, in order. */
  lemma {:induction false} PlaceAllCells(m: map<Pos, seq<Item>>, items: seq<ItemData>, q: Pos)
    ensures ItemsIn(PlaceAll(m, items), q) == ItemsIn(m, q) + PlacedItemsAt(items, q)
  {
    if items != [] {
      var init := items[..|items| - 1];
      PlaceAllCells(m, init, q);
      assert ItemsIn(m, q) + PlacedItemsAt(init, q) + (if items[|items| - 1].position == q then [NewItem(items[|items| - 1].itemType)] else [])
          == ItemsIn(m, q) + PlacedItemsAt(items, q);
    }
  }

  /** The index after appending each of `items`, in turn, to the list at `p`. */
  function DropSeq(m: map<Pos, seq<Item>>, p: Pos, items: seq<Item>): map<Pos, seq<Item>> {
    if items == [] then m
    else Put(DropSeq(m, p, items[..|items| - 1]), p, items[|items| - 1])
  }

  /** Dropping a list at `p` appends the whole list there and leaves every other cell alone. */
  lemma {:induction false} DropSeqCells(m: map<Pos, seq<Item>>, p: Pos, items: seq<Item>, q: Pos)
    ensures ItemsIn(DropSeq(m, p, items), q) == ItemsIn(m, q) + (if q == p then items else [])
  {
    if items != [] {
      var init := items[..|items| - 1];
      DropSeqCells(m, p, init, q);
      if q == p {
        assert init + [items[|items| - 1]] == items;
        assert ItemsIn(m, q) + init + [items[|items| - 1]] == ItemsIn(m, q) + items;
      }
    }
  }

  /** Whether the level can spawn everything the generator listed without failing an assertion. */
  predicate Populatable(poi: PointsOfInterest, monsterCatalog: map<string, MonsterType>, itemCatalog: map<string, ItemType>) {
    && "PLAYER" in monsterCatalog
    && monsterCatalog["PLAYER"].IsPlayer()
    && KnownType(monsterCatalog["PLAYER"], itemCatalog)
    && (forall i | 0 <= i < |poi.monsters| ::
          KnownType(poi.monsters[i].monsterType, itemCatalog) && !poi.monsters[i].monsterType.IsPlayer()
          && poi.stairsUp != Some(poi.monsters[i].position))
    && (forall i, j | 0 <= i < j < |poi.monsters| :: poi.monsters[i].position != poi.monsters[j].position)
  }

  /**
   * Line of sight between two optional positions: both present, at most
   * `cutoff` apart in Manhattan distance, and every point of the traced line
   * in bounds and lightable.
   */
  predicate SightBetween(tm: TileMap, table: TerrainTable, line: (Pos, Pos) -> seq<Pos>, cutoff: nat, src: Option<Pos>, dst: Option<Pos>)
    reads tm.cells
  {
    src.Some? && dst.Some? && Manhattan(src.value, dst.value) <= cutoff
    && tm.LineLit(line(src.value, dst.value), table)
  }

  /** A longer cutoff sees everything a shorter one does, and nothing beyond the cutoff is seen. */
  lemma SightCutoff(tm: TileMap, table: TerrainTable, line: (Pos, Pos) -> seq<Pos>, c1: nat, c2: nat, src: Option<Pos>, dst: Option<Pos>)
    requires c1 <= c2
    ensures SightBetween(tm, table, line, c1, src, dst) ==> SightBetween(tm, table, line, c2, src, dst)
    ensures src.Some? && dst.Some? && Manhattan(src.value, dst.value) > c2 ==> !SightBetween(tm, table, line, c2, src, dst)
  {
  }

  /** Registers every event name with the dispatcher. */
  method RegisterAll(d: EventDispatcher<Behavior, Entity>)
    modifies d
    ensures forall n :: Value(n) in d.handlers
  {
    var i := 0;
    while i < |AllEventNames|
      invariant 0 <= i <= |AllEventNames|
      invariant forall j | 0 <= j < i :: Value(AllEventNames[j]) in d.handlers
    {
      d.RegisterEventType(Member(AllEventNames[i]));
      i := i + 1;
    }
    forall n
      ensures Value(n) in d.handlers
    {
      AllEventNamesComplete(n);
    }
  }

  class LevelState {
    const tilemap: TileMap
    const game: GameState
    const uuid: string
    const dispatcher: EventDispatcher<Behavior, Entity>
    const monsterCatalog: map<string, MonsterType>
    const itemCatalog: map<string, ItemType>
    const terrain: TerrainTable
    /** The shadowcasting field of view from a vantage point, given the lightable points. */
    const fieldOfView: (Option<Pos>, set<Pos>) -> set<Pos>
    /** The Bresenham line between two points, both ends included. */
    const bresenham: (Pos, Pos) -> seq<Pos>

    var eventQueue: seq<Event>
    var entityByPosition: map<Pos, Entity>
    var itemsByPosition: map<Pos, seq<Item>>
    var applying: bool
    var player: Entity?
    var losCache: set<Pos>
    var levelMemory: set<Pos>
    /** Every entity this level has indexed. */
    ghost var Entities: set<Entity>

    /**
     * The index and the entities' positions agree in both directions (so no
     * two entities share a cell), the player is one of the entities, and every
     * event name is registered.
     */
    ghost predicate Valid()
      reads this`entityByPosition, this`player, this`Entities, Entities`position, dispatcher`handlers
    {
      && (forall p | p in entityByPosition ::
            entityByPosition[p] in Entities && entityByPosition[p].position == Some(p))
      && (forall e | e in Entities && e.position.Some? ::
            e.position.value in entityByPosition && entityByPosition[e.position.value] == e)
      && (player != null ==> player in Entities && player.IsPlayer())
      && (forall n :: Value(n) in dispatcher.handlers)
    }

    /**
     * Sets up a level over a generated map: registers every event name,
     * creates the player on the up stairs, drops the listed items, creates the
     * listed monsters and computes the player's first view.
     */
    constructor (tilemap: TileMap, game: GameState, uuid: string,
                 monsterCatalog: map<string, MonsterType>, itemCatalog: map<string, ItemType>,
                 terrain: TerrainTable,
                 fieldOfView: (Option<Pos>, set<Pos>) -> set<Pos>, bresenham: (Pos, Pos) -> seq<Pos>)
      requires Populatable(tilemap.pointsOfInterest, monsterCatalog, itemCatalog)
      ensures this.tilemap == tilemap && this.game == game && this.uuid == uuid
      ensures this.monsterCatalog == monsterCatalog && this.itemCatalog == itemCatalog && this.terrain == terrain
      ensures this.fieldOfView == fieldOfView && this.bresenham == bresenham
      ensures Valid() && fresh(dispatcher)
      ensures player != null && player.IsPlayer() && player.position == tilemap.pointsOfInterest.stairsUp
      ensures forall i | 0 <= i < |tilemap.pointsOfInterest.monsters| ::
        var m := tilemap.pointsOfInterest.monsters[i];
        m.position in entityByPosition && entityByPosition[m.position].monsterType == m.monsterType
      ensures forall p :: GetItemsAt(p) == PlacedItemsAt(tilemap.pointsOfInterest.items, p)
      ensures eventQueue == [] && !applying
      ensures losCache == fieldOfView(player.position, tilemap.LightablePoints(terrain)) && levelMemory == losCache
    {
      this.tilemap := tilemap;
      this.game := game;
      this.uuid := uuid;
      this.monsterCatalog := monsterCatalog;
      this.itemCatalog := itemCatalog;
      this.terrain := terrain;
      this.fieldOfView := fieldOfView;
      this.bresenham := bresenham;
      dispatcher := new EventDispatcher();
      eventQueue := [];
      entityByPosition := map[];
      itemsByPosition := map[];
      applying := false;
      player := null;
      losCache := {};
      levelMemory := {};
      Entities := {};
      new;
      RegisterAll(dispatcher);
      Populate();
    }

    /** The spawning half of set-up: the player, the items, the monsters and the first view. */
    method Populate()
      requires Valid() && player == null && entityByPosition == map[] && itemsByPosition == map[]
      requires Populatable(tilemap.pointsOfInterest, monsterCatalog, itemCatalog)
      modifies this`entityByPosition, this`Entities, dispatcher, this`player, this`itemsByPosition, this`eventQueue
      modifies this`losCache, this`levelMemory
      ensures Valid()
      ensures player != null && player.IsPlayer() && player.position == tilemap.pointsOfInterest.stairsUp
      ensures forall i | 0 <= i < |tilemap.pointsOfInterest.monsters| ::
        var m := tilemap.pointsOfInterest.monsters[i];
        m.position in entityByPosition && entityByPosition[m.position].monsterType == m.monsterType
      ensures forall p :: GetItemsAt(p) == PlacedItemsAt(tilemap.pointsOfInterest.items, p)
      ensures eventQueue == old(eventQueue)
      ensures losCache == fieldOfView(player.position, tilemap.LightablePoints(terrain))
      ensures levelMemory == old(levelMemory) + losCache
    {
      var poi := tilemap.pointsOfInterest;
      SpawnPlayer();
      DropAll(poi.items);
      forall q
        ensures GetItemsAt(q) == PlacedItemsAt(poi.items, q)
      {
        PlaceAllCells(map[], poi.items, q);
      }
      CreateAll(poi.monsters);
      UpdateLosCache();
    }

    /** Creates the player on the up stairs of an empty level. */
    method SpawnPlayer()
      requires Valid() && player == null && entityByPosition == map[]
      requires Populatable(tilemap.pointsOfInterest, monsterCatalog, itemCatalog)
      modifies this`entityByPosition, this`Entities, dispatcher, this`player
      ensures Valid()
      ensures player != null && player.IsPlayer() && player.position == tilemap.pointsOfInterest.stairsUp
      ensures forall q :: q in entityByPosition <==> Some(q) == tilemap.pointsOfInterest.stairsUp
    {
      var stairs := tilemap.pointsOfInterest.stairsUp;
      assert !CreationFails(monsterCatalog["PLAYER"], stairs);
      var p := CreateEntity(monsterCatalog["PLAYER"], stairs, EmptyState);
      player := p;
    }

    /** Drops each listed item, unannounced, at its position. */
    method DropAll(items: seq<ItemData>)
      modifies this`itemsByPosition, this`eventQueue
      ensures itemsByPosition == PlaceAll(old(itemsByPosition), items)
      ensures eventQueue == old(eventQueue)
    {
      var i := 0;
      while i < |items|
        invariant 0 <= i <= |items|
        invariant itemsByPosition == PlaceAll(old(itemsByPosition), items[..i])
        invariant eventQueue == old(eventQueue)
      {
        var d := items[i];
        var _ := DropItem(NewItem(d.itemType), d.position, None);
        assert items[..i + 1][..i] == items[..i];
        i := i + 1;
      }
      assert items[..i] == items;
    }

    /** Creates each listed monster at its (free, distinct) position. */
    method CreateAll(monsters: seq<MonsterData>)
      requires Valid()
      requires forall i | 0 <= i < |monsters| ::
        KnownType(monsters[i].monsterType, itemCatalog) && !monsters[i].monsterType.IsPlayer()
        && monsters[i].position !in entityByPosition
      requires forall i, j | 0 <= i < j < |monsters| :: monsters[i].position != monsters[j].position
      modifies this`entityByPosition, this`Entities, dispatcher
      ensures Valid()
      ensures entityByPosition.Keys == old(entityByPosition.Keys) + MonsterCells(monsters)
      ensures forall j | 0 <= j < |monsters| ::
        monsters[j].position in entityByPosition && entityByPosition[monsters[j].position].monsterType == monsters[j].monsterType
    {
      var i := 0;
      while i < |monsters|
        invariant 0 <= i <= |monsters|
        invariant Valid()
        invariant entityByPosition.Keys == old(entityByPosition.Keys) + MonsterCells(monsters[..i])
        invariant forall j | i <= j < |monsters| :: monsters[j].position !in entityByPosition
        invariant forall j | 0 <= j < i ::
          monsters[j].position in entityByPosition && entityByPosition[monsters[j].position].monsterType == monsters[j].monsterType
      {
        CreateMonster(monsters[i]);
        assert monsters[..i + 1][..i] == monsters[..i];
        i := i + 1;
      }
      assert monsters[..i] == monsters;
    }

    /** Creates one listed monster on its free cell, adding only that cell to the index. */
    method CreateMonster(m: MonsterData)
      requires Valid()
      requires KnownType(m.monsterType, itemCatalog) && !m.monsterType.IsPlayer() && m.position !in entityByPosition
      modifies this`entityByPosition, this`Entities, dispatcher
      ensures Valid()
      ensures entityByPosition.Keys == old(entityByPosition.Keys) + {m.position}
      ensures forall p | p in old(entityByPosition) :: entityByPosition[p] == old(entityByPosition)[p]
      ensures entityByPosition[m.position].monsterType == m.monsterType
    {
      var e := CreateEntity(m.monsterType, Some(m.position), EmptyState);
    }

    /** Whether `CreateEntity` fails: a second player, an occupied cell, or an id missing from a catalog. */
    predicate CreationFails(mt: MonsterType, position: Option<Pos>)
      reads this`player, this`entityByPosition
    {
      || (mt.IsPlayer() && player != null)
      || (position.Some? && position.value in entityByPosition)
      || !KnownType(mt, itemCatalog)
    }

    /**
     * Creates an entity of type `mt` at `position` with a fresh inventory of
     * its type's starting items and one behaviour (a composite unless the type
     * lists exactly one), subscribes it and indexes it.
     */
    method CreateEntity(mt: MonsterType, position: Option<Pos>, state: BehaviorState) returns (e: Entity?)
      requires Valid()
      modifies this`entityByPosition, this`Entities, dispatcher
      ensures Valid()
      ensures e == null <==> old(CreationFails(mt, position))
      ensures e == null ==>
        entityByPosition == old(entityByPosition) && Entities == old(Entities) && dispatcher.handlers == old(dispatcher.handlers)
      ensures e != null ==> fresh(e) && Entities == old(Entities) + {e}
      ensures e != null ==> e.monsterType == mt && e.position == position && e.behaviorState == state && e.mode == Default
      ensures e != null ==> e.hp == mt.hpMax && e.hpMax == mt.hpMax && e.strength == mt.strength
      ensures e != null ==>
        |e.inventory| == |mt.items| && forall i | 0 <= i < |mt.items| :: e.inventory[i] == NewItem(itemCatalog[mt.items[i]])
      ensures e != null ==> |e.behaviors| == 1 && e.behaviors[0].owner == e && e.behaviors[0].shape == ShapeFor(mt)
      ensures e != null ==>
        entityByPosition == if position.Some? then old(entityByPosition)[position.value := e] else old(entityByPosition)
      ensures e != null ==>
        dispatcher.handlers == SubscribeAll(old(dispatcher.handlers), (e.behaviors[0], None), Keys(e.behaviors[0].eventNames))
    {
      if mt.IsPlayer() && player != null {
        return null;
      }
      if position.Some? && position.value in entityByPosition {
        return null;
      }
      var inventory := StartingInventory(mt);
      if inventory.None? {
        assert !KnownType(mt, itemCatalog);
        return null;
      }
      var known := BehaviorsRegistered(mt);
      if !known {
        assert !KnownType(mt, itemCatalog);
        return null;
      }
      assert !CreationFails(mt, position);
      var ent := Build(mt, position, state, inventory.value);
      SubscribeOne(dispatcher.handlers, ent.behaviors[0]);
      AddEntity(ent);
      e := ent;
    }

    /** A new entity of type `mt` with the given position, state and inventory and its one behaviour. */
    static method Build(mt: MonsterType, position: Option<Pos>, state: BehaviorState, inventory: seq<Item>)
      returns (e: Entity)
      requires forall i | 0 <= i < |mt.behaviors| :: mt.behaviors[i] in Registry
      ensures fresh(e)
      ensures e.monsterType == mt && e.position == position && e.behaviorState == state && e.mode == Default
      ensures e.hp == mt.hpMax && e.hpMax == mt.hpMax && e.strength == mt.strength && e.inventory == inventory
      ensures |e.behaviors| == 1 && e.behaviors[0].owner == e && e.behaviors[0].shape == ShapeFor(mt)
    {
      e := new Entity(mt);
      e.position := position;
      e.behaviorState := state;
      e.inventory := inventory;
      var b := new Behavior(e, ShapeFor(mt));
      e.AddBehavior(b);
    }

    /** Subscribing a list of one behaviour is subscribing that behaviour. */
    static lemma SubscribeOne(h: map<string, seq<(Behavior, Option<Entity>)>>, b: Behavior)
      requires forall n :: Value(n) in h
      ensures forall k | k in Keys(b.eventNames) :: k in h
      ensures SubscribeBehaviors(h, [b]) == SubscribeAll(h, (b, None), Keys(b.eventNames))
    {
      KeysRegistered(h, b.eventNames);
      assert [b][1..] == [];
    }

    /** A fresh copy of each starting item of the type, in order; None when an id is not in the item catalog. */
    method StartingInventory(mt: MonsterType) returns (r: Option<seq<Item>>)
      ensures r.Some? <==> forall i | 0 <= i < |mt.items| :: mt.items[i] in itemCatalog
      ensures r.Some? ==>
        |r.value| == |mt.items| && forall i | 0 <= i < |mt.items| :: r.value[i] == NewItem(itemCatalog[mt.items[i]])
    {
      var inventory: seq<Item> := [];
      var i := 0;
      while i < |mt.items|
        invariant 0 <= i <= |mt.items|
        invariant |inventory| == i
        invariant forall j | 0 <= j < i :: mt.items[j] in itemCatalog && inventory[j] == NewItem(itemCatalog[mt.items[j]])
      {
        if mt.items[i] !in itemCatalog {
          return None;
        }
        inventory := inventory + [NewItem(itemCatalog[mt.items[i]])];
        i := i + 1;
      }
      r := Some(inventory);
    }

    /** Whether every behaviour id of the type names a registered behaviour class. */
    static method BehaviorsRegistered(mt: MonsterType) returns (ok: bool)
      ensures ok <==> forall i | 0 <= i < |mt.behaviors| :: mt.behaviors[i] in Registry
    {
      var i := 0;
      while i < |mt.behaviors|
        invariant 0 <= i <= |mt.behaviors|
        invariant forall j | 0 <= j < i :: mt.behaviors[j] in Registry
      {
        if mt.behaviors[i] !in Registry {
          return false;
        }
        i := i + 1;
      }
      ok := true;
    }

    /** Two entities never share a cell. */
    lemma NoSharedCells(a: Entity, b: Entity)
      requires Valid() && a in Entities && b in Entities
      requires a.position.Some? && a.position == b.position
      ensures a == b
    {
    }

    function GetEntityAt(p: Pos): (r: Option<Entity>)
      reads this`entityByPosition, this`player, this`Entities, Entities`position, dispatcher`handlers
      requires Valid()
      ensures r.Some? <==> exists e :: e in Entities && e.position == Some(p)
      ensures r.Some? ==> r.value in Entities && r.value.position == Some(p)
    {
      if p in entityByPosition then Some(entityByPosition[p]) else None
    }

    /** The items dropped at `p`, in drop order; an empty list where nothing was ever dropped. */
    function GetItemsAt(p: Pos): (r: seq<Item>)
      reads this`itemsByPosition
      ensures p in itemsByPosition ==> r == itemsByPosition[p]
      ensures p !in itemsByPosition ==> r == []
    {
      ItemsIn(itemsByPosition, p)
    }

    /** Whether the terrain at `p` is walkable; false out of bounds. */
    predicate GetIsTerrainPassable(p: Pos)
      reads tilemap.cells
      ensures !tilemap.InBounds(p) ==> !GetIsTerrainPassable(p)
      ensures tilemap.InBounds(p) ==> (GetIsTerrainPassable(p) <==> tilemap.At(p).terrain in terrain.walkable)
    {
      tilemap.InBounds(p) && tilemap.At(p).terrain in terrain.walkable
    }

    /**
     * Whether a monster may step onto `p`: never onto a non-player, onto the
     * player only when `allowPlayer`, never out of bounds, and otherwise
     * exactly when the terrain is walkable.
     */
    predicate GetCanMove(p: Pos, allowPlayer: bool)
      reads this`entityByPosition, this`player, tilemap.cells
      ensures p in entityByPosition && entityByPosition[p] != player ==> !GetCanMove(p, allowPlayer)
      ensures p in entityByPosition && entityByPosition[p] == player && !allowPlayer ==> !GetCanMove(p, allowPlayer)
      ensures !tilemap.InBounds(p) ==> !GetCanMove(p, allowPlayer)
      ensures (p !in entityByPosition || (entityByPosition[p] == player && allowPlayer)) ==>
        (GetCanMove(p, allowPlayer) <==> GetIsTerrainPassable(p))
    {
      if p in entityByPosition && entityByPosition[p] == player && !allowPlayer then false
      else if p in entityByPosition && entityByPosition[p] != player then false
      else GetIsTerrainPassable(p)
    }

    /** Whether light passes the cell at `p`; false out of bounds. */
    predicate GetCanSee(p: Pos)
      reads tilemap.cells
      ensures !tilemap.InBounds(p) ==> !GetCanSee(p)
      ensures tilemap.InBounds(p) ==> (GetCanSee(p) <==> tilemap.At(p).terrain in terrain.lightable)
    {
      tilemap.Lightable(p, terrain)
    }

    /** Only the player opens doors. */
    predicate GetCanOpenDoor(e: Entity)
      ensures GetCanOpenDoor(e) <==> e.monsterType.id == "PLAYER"
    {
      e.IsPlayer()
    }

    /** The members of `ps` a monster may step onto (the player's cell allowed), in order. */
    function MovableAmong(ps: seq<Pos>): (r: seq<Pos>)
      reads this`entityByPosition, this`player, tilemap.cells
      ensures |r| <= |ps|
      ensures forall p :: p in r <==> p in ps && GetCanMove(p, true)
    {
      if ps == [] then []
      else (if GetCanMove(ps[0], true) then [ps[0]] else []) + MovableAmong(ps[1..])
    }

    /**
     * The orthogonal then diagonal neighbours of `e` that pass the move test
     * with the player's cell allowed (the source's own `allow_player` argument
     * is ignored, so it is not a parameter here).
     */
    function GetPassableNeighbors(e: Entity): (r: seq<Pos>)
      reads this`entityByPosition, this`player, e`position, tilemap.cells
      requires e.position.Some?
      ensures forall p :: p in r <==>
        (p in Orthogonal(e.position.value) || p in Diagonal(e.position.value)) && GetCanMove(p, true)
    {
      MovableAmong(Orthogonal(e.position.value) + Diagonal(e.position.value))
    }

    /** Line of sight between two entities, with the sight limit of 30. */
    predicate TestLineOfSight(source: Entity, dest: Entity)
      reads source`position, dest`position, tilemap.cells
      ensures TestLineOfSight(source, dest) ==> source.position.Some? && dest.position.Some?
      ensures TestLineOfSight(source, dest) ==> Manhattan(source.position.value, dest.position.value) <= 30
      ensures source.position.Some? && dest.position.Some? && Manhattan(source.position.value, dest.position.value) <= 30 ==>
        (TestLineOfSight(source, dest) <==> tilemap.LineLit(bresenham(source.position.value, dest.position.value), terrain))
    {
      SightBetween(tilemap, terrain, bresenham, 30, source.position, dest.position)
    }

    /** The two sight rules: dead or far entities are never in sight; otherwise every traced point must be lit. */
    lemma LineOfSightRules(source: Entity, dest: Entity)
      ensures source.position.None? || dest.position.None? ==> !TestLineOfSight(source, dest)
      ensures source.position.Some? && dest.position.Some? && Manhattan(source.position.value, dest.position.value) > 30
        ==> !TestLineOfSight(source, dest)
      ensures source.position.Some? && dest.position.Some? && Manhattan(source.position.value, dest.position.value) <= 30
        ==> (TestLineOfSight(source, dest) <==>
             forall q | q in bresenham(source.position.value, dest.position.value) :: GetCanSee(q))
    {
    }

    /** Remembers an event; nothing is dispatched until the queue is drained. */
    method Fire(name: EventName, entity: Option<Entity>, data: EventData)
      modifies this`eventQueue
      ensures eventQueue == old(eventQueue) + [Event(name, entity, data)]
    {
      eventQueue := eventQueue + [Event(name, entity, data)];
    }

    /**
     * Drains the queue. Starting a drain while one is in progress fails the
     * assertion (`ok` false, nothing changes). Otherwise events are popped
     * first in, first out; the handlers of the i-th popped event enqueue
     * `reactions[i]`. Each popped event is delivered to the subscribers that
     * hear it, in subscription order.
     */
    method ConsumeEvents(reactions: seq<seq<Event>>) returns (ok: bool, popped: seq<Event>, deliveries: seq<seq<Behavior>>)
      requires Valid()
      modifies this`eventQueue, this`applying
      ensures ok <==> !old(applying)
      ensures !ok ==> eventQueue == old(eventQueue) && applying == old(applying)
      ensures ok ==> popped == Drain(old(eventQueue), reactions) && eventQueue == [] && !applying
      ensures ok ==> |deliveries| == |popped| && forall i | 0 <= i < |popped| ::
        deliveries[i] == Recipients(dispatcher.handlers[Value(popped[i].name)], popped[i].entity)
    {
      if applying {
        return false, [], [];
      }
      applying := true;
      popped := [];
      deliveries := [];
      var k := 0;
      ghost var h := dispatcher.handlers;
      while eventQueue != []
        invariant 0 <= k <= |reactions|
        invariant popped + Drain(eventQueue, reactions[k..]) == Drain(old(eventQueue), reactions)
        invariant |deliveries| == |popped| && dispatcher.handlers == h
        invariant forall i | 0 <= i < |popped| ::
          deliveries[i] == Recipients(h[Value(popped[i].name)], popped[i].entity)
        decreases |reactions| - k, |eventQueue|
      {
        var ev := eventQueue[0];
        DrainPop(popped, eventQueue, reactions, k);
        eventQueue := eventQueue[1..];
        var fired, heard := dispatcher.Fire(Member(ev.name), ev.entity);
        deliveries := deliveries + [heard];
        popped := popped + [ev];
        if k < |reactions| {
          eventQueue := eventQueue + reactions[k];
          k := k + 1;
        }
      }
      applying := false;
      ok := true;
    }

    /** One pop of the drain: the head, then the drain of the rest with the next reaction appended. */
    static lemma DrainPop(popped: seq<Event>, q: seq<Event>, rs: seq<seq<Event>>, k: nat)
      requires q != [] && k <= |rs|
      ensures k < |rs| ==> popped + Drain(q, rs[k..]) == (popped + [q[0]]) + Drain(q[1..] + rs[k], rs[k + 1..])
      ensures k == |rs| ==> popped + Drain(q, rs[k..]) == (popped + [q[0]]) + Drain(q[1..], rs[k..])
    {
      var t := rs[k..];
      var next := Drain(q[1..] + Head(t), Tail(t));
      assert Drain(q, t) == [q[0]] + next;
      assert popped + ([q[0]] + next) == (popped + [q[0]]) + next;
      if k < |rs| {
        assert Head(t) == rs[k] && Tail(t) == rs[k + 1..];
      } else {
        assert t == [] && Tail(t) == t;
        assert q[1..] + Head(t) == q[1..];
      }
    }

    /** Signals the player's turn, at `position` if given and at the player's cell otherwise; nothing if the player is dead. */
    method FirePlayerTookActionIfAlive(position: Option<Pos>)
      requires player != null
      modifies this`eventQueue
      ensures player.position.None? ==> eventQueue == old(eventQueue)
      ensures player.position.Some? ==>
        eventQueue == old(eventQueue) + [Event(PlayerTookAction, None, AboutPoint(if position.Some? then position.value else player.position.value))]
    {
      if player.position.None? {
        return;
      }
      var at := if position.Some? then position.value else player.position.value;
      Fire(PlayerTookAction, None, AboutPoint(at));
    }

    /** Recomputes what the player sees and adds it to what the player remembers. */
    method UpdateLosCache()
      requires player != null
      modifies this`losCache, this`levelMemory
      ensures losCache == fieldOfView(player.position, tilemap.LightablePoints(terrain))
      ensures levelMemory == old(levelMemory) + losCache
    {
      losCache := fieldOfView(player.position, tilemap.LightablePoints(terrain));
      levelMemory := levelMemory + losCache;
    }

    /** Appends the item to the cell's list and announces the drop when a dropping entity is given. */
    method DropItem(item: Item, point: Pos, entity: Option<Entity>) returns (r: bool)
      modifies this`itemsByPosition, this`eventQueue
      ensures r
      ensures itemsByPosition == Put(old(itemsByPosition), point, item)
      ensures eventQueue == old(eventQueue) +
        (if entity.Some? then [Event(EntityDroppedItem, entity, AboutItem(item))] else [])
    {
      if point !in itemsByPosition {
        itemsByPosition := itemsByPosition[point := []];
      }
      itemsByPosition := itemsByPosition[point := itemsByPosition[point] + [item]];
      if entity.Some? {
        Fire(EntityDroppedItem, entity, AboutItem(item));
      }
      r := true;
    }

    /**
     * Subscribes the entity's behaviours and indexes it at its position, if it
     * has one. The cell must be free: the index is a plain dictionary store.
     */
    method AddEntity(e: Entity)
      requires Valid()
      requires e.position.Some? ==> e.position.value !in entityByPosition
      modifies this`entityByPosition, this`Entities, dispatcher
      ensures Valid()
      ensures Entities == old(Entities) + {e}
      ensures entityByPosition == if e.position.Some? then old(entityByPosition)[e.position.value := e] else old(entityByPosition)
      ensures dispatcher.handlers == SubscribeBehaviors(old(dispatcher.handlers), e.behaviors)
    {
      SubscribeEach(dispatcher, e.behaviors);
      Entities := Entities + {e};
      if e.position.Some? {
        entityByPosition := entityByPosition[e.position.value := e];
      }
    }

    /**
     * Unsubscribes the entity's behaviours, then deletes its index entry and
     * clears its position. A behaviour that is not subscribed stops this with
     * `ok` false before the index is touched.
     */
    method RemoveEntity(e: Entity) returns (ok: bool)
      requires Valid() && e in Entities
      modifies this`entityByPosition, e`position, dispatcher
      ensures Valid()
      ensures ok <==> UnsubscribeBehaviors(old(dispatcher.handlers), e.behaviors).Some?
      ensures ok ==> dispatcher.handlers == UnsubscribeBehaviors(old(dispatcher.handlers), e.behaviors).value
      ensures ok ==> e.position == None
      ensures ok ==>
        entityByPosition == if old(e.position).Some? then old(entityByPosition) - {old(e.position).value} else old(entityByPosition)
      ensures !ok ==> e.position == old(e.position) && entityByPosition == old(entityByPosition)
    {
      ok := UnsubscribeEach(dispatcher, e.behaviors);
      if !ok {
        return;
      }
      if e.position.Some? {
        entityByPosition := entityByPosition - {e.position.value};
        e.position := None;
      }
      ok := true;
    }
  }

  /** The levels by id, the active level and the score. */
  class GameState {
    var levelStatesById: map<string, LevelState>
    var score: int
    var activeId: string

    /** Starts with a score of 0 and exactly one level, which is the active one. */
    constructor (tilemap: TileMap, uuid: string,
                 monsterCatalog: map<string, MonsterType>, itemCatalog: map<string, ItemType>,
                 terrain: TerrainTable,
                 fieldOfView: (Option<Pos>, set<Pos>) -> set<Pos>, bresenham: (Pos, Pos) -> seq<Pos>)
      requires Populatable(tilemap.pointsOfInterest, monsterCatalog, itemCatalog)
      ensures score == 0
      ensures levelStatesById.Keys == {uuid} && activeId == uuid
      ensures Keyed() && Level().tilemap == tilemap && Level().game == this
    {
      levelStatesById := map[];
      score := 0;
      activeId := "";
      new;
      var ls := AddLevel(tilemap, uuid, monsterCatalog, itemCatalog, terrain, fieldOfView, bresenham);
      activeId := ls.uuid;
    }

    /** Every level is stored under its own uuid. */
    predicate Keyed()
      reads this`levelStatesById
    {
      forall id | id in levelStatesById :: levelStatesById[id].uuid == id
    }

    /** The active level: the one stored under the active id. */
    function Level(): (ls: LevelState)
      reads this`levelStatesById, this`activeId
      requires activeId in levelStatesById && Keyed()
      ensures ls in levelStatesById.Values && ls.uuid == activeId
    {
      levelStatesById[activeId]
    }

    /** Creates a level over a generated map and stores it under its uuid; other levels stay. */
    method AddLevel(tilemap: TileMap, uuid: string,
                    monsterCatalog: map<string, MonsterType>, itemCatalog: map<string, ItemType>,
                    terrain: TerrainTable,
                    fieldOfView: (Option<Pos>, set<Pos>) -> set<Pos>, bresenham: (Pos, Pos) -> seq<Pos>)
      returns (ls: LevelState)
      requires Populatable(tilemap.pointsOfInterest, monsterCatalog, itemCatalog)
      modifies this`levelStatesById
      ensures fresh(ls) && ls.uuid == uuid && ls.game == this && ls.tilemap == tilemap
      ensures levelStatesById == old(levelStatesById)[uuid := ls]
      ensures old(Keyed()) ==> Keyed()
    {
      ls := new LevelState(tilemap, this, uuid, monsterCatalog, itemCatalog, terrain, fieldOfView, bresenham);
      levelStatesById := levelStatesById[uuid := ls];
    }
  }
}
