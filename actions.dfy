/**
 * The actions entities take: move (which may attack or open a door instead),
 * attack, pick up, open and close doors, and throw. Each changes the level in
 * place and enqueues a fixed sequence of events.
 */
module Actions {
  import opened Options
  import opened Geom
  import opened Const
  import opened Catalog
  import opened Dispatcher
  import opened TileMaps
  import opened Entities
  import opened Level

  /** The events of `a` attacking `b`, with the death notice when `b` dies. */
  function AttackEvents(a: Entity, b: Entity, died: bool): (r: seq<Event>)
    ensures |r| == if died then 4 else 3
    ensures r[0].name == EntityAttacking && r[0].entity == Some(a)
    ensures r[1].name == EntityAttacked && r[1].entity == Some(b)
    ensures r[2].name == EntityTookDamage && r[2].entity == Some(b)
    ensures died ==> r[3] == Event(EntityDied, Some(b), NoData)
  {
    [Event(EntityAttacking, Some(a), AboutEntity(b)),
     Event(EntityAttacked, Some(b), AboutEntity(a)),
     Event(EntityTookDamage, Some(b), AboutEntity(a))]
    + (if died then [Event(EntityDied, Some(b), NoData)] else [])
  }

  /** The player's-turn event at `p`. */
  function TookAction(p: Pos): Event {
    Event(PlayerTookAction, None, AboutPoint(p))
  }

  /**
   * What an attack of `a` on `b` leaves behind besides its events: `b` has
   * lost `a`'s strength in hit points. While `b` lives, or when its removal
   * fails, its place, the entity index and the floor items are as they
   * were, and while it lives so are the handlers. When it dies and is
   * removed, its behaviours are unsubscribed, it stands nowhere, its cell
   * leaves the index and its inventory lies, in order, on that cell.
   */
  twostate predicate Attacked(ls: LevelState, a: Entity, b: Entity)
    reads ls`entityByPosition, ls`itemsByPosition, ls.dispatcher`handlers, a`strength, b`hp, b`position, b`behaviors, b`inventory
  {
    && old(b.position).Some?
    && b.hp == old(b.hp) - old(a.strength)
    && (b.hp > 0 || UnsubscribeBehaviors(old(ls.dispatcher.handlers), b.behaviors).None? ==>
          && b.position == old(b.position) && ls.entityByPosition == old(ls.entityByPosition)
          && ls.itemsByPosition == old(ls.itemsByPosition))
    && (b.hp > 0 ==> ls.dispatcher.handlers == old(ls.dispatcher.handlers))
    && (b.hp <= 0 && UnsubscribeBehaviors(old(ls.dispatcher.handlers), b.behaviors).Some? ==>
          && ls.dispatcher.handlers == UnsubscribeBehaviors(old(ls.dispatcher.handlers), b.behaviors).value
          && b.position == None
          && ls.entityByPosition == old(ls.entityByPosition) - {old(b.position).value}
          && ls.itemsByPosition == DropSeq(old(ls.itemsByPosition), old(b.position).value, old(b.inventory)))
  }

  /**
   * Entity `a` attacks `b`: three events, `b` loses `a`'s strength in hit
   * points, and at zero or below `b` dies: a death event, removal from the
   * level and its inventory dropped, unannounced, on its former cell. The
   * removal stops with the unsubscription failure it raises when one of
   * `b`'s behaviours is not subscribed; the drops are then not made.
   */
  method ActionAttack(ls: LevelState, a: Entity, b: Entity)
    requires ls.Valid() && b in ls.Entities && b.position.Some?
    modifies ls`eventQueue, ls`entityByPosition, ls`itemsByPosition, ls.dispatcher, b`hp, b`position
    ensures ls.Valid()
    ensures ls.eventQueue == old(ls.eventQueue) + AttackEvents(a, b, b.hp <= 0)
    ensures Attacked(ls, a, b)
  {
    Strike(ls, a, b);
    if b.hp <= 0 {
      Die(ls, b);
      assert AttackEvents(a, b, true) == AttackEvents(a, b, false) + [Event(EntityDied, Some(b), NoData)];
    }
  }

  /** The blow itself: the three attack events and the hit-point loss. */
  method Strike(ls: LevelState, a: Entity, b: Entity)
    modifies ls`eventQueue, b`hp
    ensures b.hp == old(b.hp) - old(a.strength)
    ensures ls.eventQueue == old(ls.eventQueue) + AttackEvents(a, b, false)
  {
    ls.Fire(EntityAttacking, Some(a), AboutEntity(b));
    ls.Fire(EntityAttacked, Some(b), AboutEntity(a));
    b.hp := b.hp - a.strength;
    ls.Fire(EntityTookDamage, Some(b), AboutEntity(a));
  }

  /**
   * The death of `b`: the death event, removal from the level, then its
   * inventory dropped, unannounced, where it stood (unless the removal fails).
   */
  method Die(ls: LevelState, b: Entity)
    requires ls.Valid() && b in ls.Entities && b.position.Some?
    modifies ls`eventQueue, ls`entityByPosition, ls`itemsByPosition, ls.dispatcher, b`position
    ensures ls.Valid()
    ensures ls.eventQueue == old(ls.eventQueue) + [Event(EntityDied, Some(b), NoData)]
    ensures UnsubscribeBehaviors(old(ls.dispatcher.handlers), b.behaviors).None? ==>
      && b.position == old(b.position) && ls.entityByPosition == old(ls.entityByPosition)
      && ls.itemsByPosition == old(ls.itemsByPosition)
    ensures UnsubscribeBehaviors(old(ls.dispatcher.handlers), b.behaviors).Some? ==>
      && ls.dispatcher.handlers == UnsubscribeBehaviors(old(ls.dispatcher.handlers), b.behaviors).value
      && b.position == None
      && ls.entityByPosition == old(ls.entityByPosition) - {old(b.position).value}
      && ls.itemsByPosition == DropSeq(old(ls.itemsByPosition), old(b.position).value, b.inventory)
  {
    ls.Fire(EntityDied, Some(b), NoData);
    var p := b.position.value;
    var ok := ls.RemoveEntity(b);
    if ok {
      DropInventory(ls, b.inventory, p);
    }
  }

  /** Drops each item at `p` in turn, without drop events. */
  method DropInventory(ls: LevelState, items: seq<Item>, p: Pos)
    modifies ls`itemsByPosition, ls`eventQueue
    ensures ls.itemsByPosition == DropSeq(old(ls.itemsByPosition), p, items)
    ensures ls.eventQueue == old(ls.eventQueue)
  {
    var k := 0;
    while k < |items|
      invariant 0 <= k <= |items|
      invariant ls.itemsByPosition == DropSeq(old(ls.itemsByPosition), p, items[..k])
      invariant ls.eventQueue == old(ls.eventQueue)
    {
      var _ := ls.DropItem(items[k], p, None);
      assert items[..k + 1][..k] == items[..k];
      k := k + 1;
    }
    assert items[..k] == items;
  }

  /** The player's-turn signal a mover sends: only a player mover, and only while the player lives. */
  function TurnSignal(mover: Entity, playerAlive: bool, p: Pos): seq<Event> {
    if mover.IsPlayer() && playerAlive then [TookAction(p)] else []
  }

  /** Opens the door at `position` (whatever the terrain was) and announces it. */
  method ActionOpenDoor(ls: LevelState, e: Entity, position: Pos)
    requires ls.tilemap.InBounds(position)
    modifies ls.tilemap.cells, ls`eventQueue
    ensures ls.tilemap.At(position) == old(ls.tilemap.At(position)).(terrain := DoorOpen)
    ensures forall x, y | 0 <= x < ls.tilemap.cells.Length0 && 0 <= y < ls.tilemap.cells.Length1 && Pos(x, y) != position ::
      ls.tilemap.cells[x, y] == old(ls.tilemap.cells[x, y])
    ensures ls.eventQueue == old(ls.eventQueue) + [Event(DoorOpened, Some(e), AboutCell(position))]
  {
    ls.tilemap.SetTerrain(position, DoorOpen);
    ls.Fire(DoorOpened, Some(e), AboutCell(position));
  }

  /**
   * Closes the open door at `position`. Out of bounds or not an open door:
   * false and nothing changes. There is no door-closed event; a player
   * closing a door spends a turn, and the player's view is recomputed.
   */
  method ActionClose(ls: LevelState, e: Entity, position: Pos) returns (closed: bool)
    requires ls.player != null
    modifies ls.tilemap.cells, ls`eventQueue, ls`losCache, ls`levelMemory
    ensures closed <==> ls.tilemap.InBounds(position) && old(ls.tilemap.At(position)).terrain == DoorOpen
    ensures !closed ==> unchanged(ls.tilemap.cells) && unchanged(ls)
    ensures closed ==> ls.tilemap.At(position) == old(ls.tilemap.At(position)).(terrain := DoorClosed)
    ensures forall x, y | 0 <= x < ls.tilemap.cells.Length0 && 0 <= y < ls.tilemap.cells.Length1 && Pos(x, y) != position ::
      ls.tilemap.cells[x, y] == old(ls.tilemap.cells[x, y])
    ensures closed ==> ls.eventQueue == old(ls.eventQueue) + TurnSignal(e, ls.player.position.Some?, position)
    ensures closed ==> ls.losCache == ls.fieldOfView(ls.player.position, ls.tilemap.LightablePoints(ls.terrain))
  {
    if !ls.tilemap.InBounds(position) {
      return false;
    }
    if ls.tilemap.cells[position.x, position.y].terrain != DoorOpen {
      return false;
    }
    ls.tilemap.SetTerrain(position, DoorClosed);
    if e.IsPlayer() {
      ls.FirePlayerTookActionIfAlive(Some(position));
    }
    ls.UpdateLosCache();
    closed := true;
  }

  /**
   * Entity `e` "moves" to `position`. An entity there is attacked; a cell the
   * entity may enter is entered; a closed door the entity may open is opened;
   * otherwise a player bumps into the cell and nothing else happens. Each of
   * the first three spends a player's turn and recomputes the player's view.
   */
  method ActionMove(ls: LevelState, e: Entity, position: Pos) returns (handled: bool)
    requires ls.Valid() && ls.player != null && e in ls.Entities && e.position.Some?
    requires ls.tilemap.InBounds(position)
    modifies ls`eventQueue, ls`entityByPosition, ls`itemsByPosition, ls`losCache, ls`levelMemory
    modifies ls.dispatcher, ls.tilemap.cells, ls.Entities`hp, ls.Entities`position
    ensures ls.Valid()
    ensures handled <==> old(position in ls.entityByPosition || ls.GetCanMove(position, false)
                             || (ls.tilemap.At(position).terrain == DoorClosed && ls.GetCanOpenDoor(e)))
    ensures old(position in ls.entityByPosition) ==>
      var target := old(ls.entityByPosition[position]);
      && Attacked(ls, e, target)
      && ls.eventQueue == old(ls.eventQueue) + AttackEvents(e, target, target.hp <= 0)
                          + TurnSignal(e, ls.player.position.Some?, position)
      && unchanged(ls.tilemap.cells)
    ensures old(ls.GetCanMove(position, false)) ==>
      && e.position == Some(position)
      && ls.entityByPosition == (old(ls.entityByPosition) - {old(e.position).value})[position := e]
      && ls.eventQueue == old(ls.eventQueue) + [Event(EntityMoved, Some(e), AboutEntity(e))]
                          + TurnSignal(e, ls.player.position.Some?, position)
      && unchanged(ls.tilemap.cells)
    ensures old(position !in ls.entityByPosition && !ls.GetCanMove(position, false)
                && ls.tilemap.At(position).terrain == DoorClosed && ls.GetCanOpenDoor(e)) ==>
      && ls.tilemap.At(position) == old(ls.tilemap.At(position)).(terrain := DoorOpen)
      && ls.entityByPosition == old(ls.entityByPosition) && e.position == old(e.position)
      && ls.eventQueue == old(ls.eventQueue) + [Event(DoorOpened, Some(e), AboutCell(position))]
                          + TurnSignal(e, ls.player.position.Some?, position)
    ensures !handled ==>
      && unchanged(ls.tilemap.cells)
      && ls.entityByPosition == old(ls.entityByPosition) && e.position == old(e.position)
      && ls.eventQueue == old(ls.eventQueue)
                          + (if e.IsPlayer() then [Event(EntityBumped, Some(e), AboutCell(position))] else [])
    ensures forall x, y | 0 <= x < ls.tilemap.cells.Length0 && 0 <= y < ls.tilemap.cells.Length1 && Pos(x, y) != position ::
      ls.tilemap.cells[x, y] == old(ls.tilemap.cells[x, y])
    ensures old(position !in ls.entityByPosition) ==>
      ls.itemsByPosition == old(ls.itemsByPosition) && ls.dispatcher.handlers == old(ls.dispatcher.handlers)
    ensures handled && e.IsPlayer() ==>
      ls.losCache == ls.fieldOfView(ls.player.position, ls.tilemap.LightablePoints(ls.terrain))
    ensures !(handled && e.IsPlayer()) ==> ls.losCache == old(ls.losCache) && ls.levelMemory == old(ls.levelMemory)
  {
    if position in ls.entityByPosition {
      MoveAttack(ls, e, position);
      handled := true;
    } else if ls.GetCanMove(position, false) {
      MoveStep(ls, e, position);
      handled := true;
    } else if ls.tilemap.cells[position.x, position.y].terrain == DoorClosed && ls.GetCanOpenDoor(e) {
      MoveOpen(ls, e, position);
      handled := true;
    } else {
      if e.IsPlayer() {
        ls.Fire(EntityBumped, Some(e), AboutCell(position));
      }
      handled := false;
    }
  }

  /** The attacking branch of a move: the occupant of `position` is attacked, then the turn ends. */
  method MoveAttack(ls: LevelState, e: Entity, position: Pos)
    requires ls.Valid() && ls.player != null && position in ls.entityByPosition
    modifies ls`eventQueue, ls`entityByPosition, ls`itemsByPosition, ls`losCache, ls`levelMemory
    modifies ls.dispatcher, ls.Entities`hp, ls.Entities`position
    ensures ls.Valid()
    ensures var target := old(ls.entityByPosition[position]);
      && Attacked(ls, e, target)
      && ls.eventQueue == old(ls.eventQueue) + AttackEvents(e, target, target.hp <= 0)
                          + TurnSignal(e, ls.player.position.Some?, position)
    ensures e.IsPlayer() ==> ls.losCache == ls.fieldOfView(ls.player.position, ls.tilemap.LightablePoints(ls.terrain))
    ensures !e.IsPlayer() ==> ls.losCache == old(ls.losCache) && ls.levelMemory == old(ls.levelMemory)
  {
    var target := ls.entityByPosition[position];
    ActionAttack(ls, e, target);
    EndTurn(ls, e, position);
  }

  /** The stepping branch of a move: `e` enters the free cell, then the turn ends. */
  method MoveStep(ls: LevelState, e: Entity, position: Pos)
    requires ls.Valid() && ls.player != null && e in ls.Entities && e.position.Some? && position !in ls.entityByPosition
    modifies ls`eventQueue, ls`entityByPosition, ls`losCache, ls`levelMemory, e`position
    ensures ls.Valid()
    ensures e.position == Some(position)
    ensures ls.entityByPosition == (old(ls.entityByPosition) - {old(e.position).value})[position := e]
    ensures ls.eventQueue == old(ls.eventQueue) + [Event(EntityMoved, Some(e), AboutEntity(e))]
                             + TurnSignal(e, ls.player.position.Some?, position)
    ensures e.IsPlayer() ==> ls.losCache == ls.fieldOfView(ls.player.position, ls.tilemap.LightablePoints(ls.terrain))
    ensures !e.IsPlayer() ==> ls.losCache == old(ls.losCache) && ls.levelMemory == old(ls.levelMemory)
  {
    Relocate(ls, e, position);
    ls.Fire(EntityMoved, Some(e), AboutEntity(e));
    EndTurn(ls, e, position);
  }

  /** The door branch of a move: the door at `position` opens, then the turn ends. */
  method MoveOpen(ls: LevelState, e: Entity, position: Pos)
    requires ls.player != null && ls.tilemap.InBounds(position)
    modifies ls`eventQueue, ls`losCache, ls`levelMemory, ls.tilemap.cells
    ensures ls.tilemap.At(position) == old(ls.tilemap.At(position)).(terrain := DoorOpen)
    ensures forall x, y | 0 <= x < ls.tilemap.cells.Length0 && 0 <= y < ls.tilemap.cells.Length1 && Pos(x, y) != position ::
      ls.tilemap.cells[x, y] == old(ls.tilemap.cells[x, y])
    ensures ls.eventQueue == old(ls.eventQueue) + [Event(DoorOpened, Some(e), AboutCell(position))]
                             + TurnSignal(e, ls.player.position.Some?, position)
    ensures e.IsPlayer() ==> ls.losCache == ls.fieldOfView(ls.player.position, ls.tilemap.LightablePoints(ls.terrain))
    ensures !e.IsPlayer() ==> ls.losCache == old(ls.losCache) && ls.levelMemory == old(ls.levelMemory)
  {
    ActionOpenDoor(ls, e, position);
    EndTurn(ls, e, position);
  }

  /** Moves `e` to the free cell `position`, keeping the index in step. */
  method Relocate(ls: LevelState, e: Entity, position: Pos)
    requires ls.Valid() && e in ls.Entities && e.position.Some? && position !in ls.entityByPosition
    modifies ls`entityByPosition, e`position
    ensures ls.Valid()
    ensures e.position == Some(position)
    ensures ls.entityByPosition == (old(ls.entityByPosition) - {old(e.position).value})[position := e]
  {
    ls.entityByPosition := (ls.entityByPosition - {e.position.value})[position := e];
    e.position := Some(position);
  }

  /** After a player's move: the player's turn is signalled and the view recomputed. */
  method EndTurn(ls: LevelState, e: Entity, position: Pos)
    requires ls.player != null
    modifies ls`eventQueue, ls`losCache, ls`levelMemory
    ensures ls.eventQueue == old(ls.eventQueue) + TurnSignal(e, ls.player.position.Some?, position)
    ensures e.IsPlayer() ==> ls.losCache == ls.fieldOfView(ls.player.position, ls.tilemap.LightablePoints(ls.terrain))
    ensures !e.IsPlayer() ==> ls.losCache == old(ls.losCache) && ls.levelMemory == old(ls.levelMemory)
  {
    if e.IsPlayer() {
      ls.FirePlayerTookActionIfAlive(Some(position));
      ls.UpdateLosCache();
    }
  }

  predicate IsGold(it: Item) {
    it.itemType.id == "GOLD"
  }

  /** The items whose gold-ness is `gold`, in their original order. */
  function Sift(items: seq<Item>, gold: bool): (r: seq<Item>)
    ensures |r| <= |items|
    ensures forall it :: it in r <==> it in items && IsGold(it) == gold
  {
    if items == [] then []
    else (if IsGold(items[0]) == gold then [items[0]] else []) + Sift(items[1..], gold)
  }

  /** Gold and everything else split a cell's items without loss or duplication. */
  lemma {:induction false} SiftPartitions(items: seq<Item>)
    ensures multiset(Sift(items, true)) + multiset(Sift(items, false)) == multiset(items)
  {
    if items != [] {
      var x, rest := items[0], items[1..];
      SiftPartitions(rest);
      assert items == [x] + rest;
      assert multiset(items) == multiset{x} + multiset(rest);
      if IsGold(x) {
        assert Sift(items, true) == [x] + Sift(rest, true);
        assert Sift(items, false) == Sift(rest, false);
      } else {
        assert Sift(items, true) == Sift(rest, true);
        assert Sift(items, false) == [x] + Sift(rest, false);
      }
    }
  }

  /** The items with their positions cleared: picked-up items are positionless. */
  function Unplaced(items: seq<Item>): (r: seq<Item>)
    ensures |r| == |items|
    ensures forall i | 0 <= i < |r| :: r[i].itemType == items[i].itemType && r[i].position.None?
  {
    seq(|items|, i requires 0 <= i < |items| => items[i].(position := None))
  }

  /** One pick-up event per item, in order. */
  function PickupEvents(e: Entity, items: seq<Item>): (r: seq<Event>)
    ensures |r| == |items|
    ensures forall i | 0 <= i < |r| :: r[i] == Event(EntityPickedUpItem, Some(e), AboutItem(items[i]))
  {
    seq(|items|, i requires 0 <= i < |items| => Event(EntityPickedUpItem, Some(e), AboutItem(items[i])))
  }

  /** The items on the cell `e` stands on (none when it stands nowhere). */
  function Underfoot(ls: LevelState, e: Entity): seq<Item>
    reads ls`itemsByPosition, e`position
  {
    if e.position.Some? then ls.GetItemsAt(e.position.value) else []
  }

  /**
   * What a pick-up from a non-empty cell did: everything but gold joined the
   * inventory, positionless; the level's player scored a point per gold
   * piece and cleared the cell, anyone else left the gold lying there; the
   * score event (when gold was taken), a pick-up event per item and a
   * player's turn signal were queued. The entity stays where it is.
   */
  twostate predicate PickedUp(ls: LevelState, e: Entity)
    reads ls`itemsByPosition, ls`eventQueue, ls`player, ls.game`score, e`inventory, e`position
    reads if ls.player != null then {ls.player} else {}
  {
    && ls.player != null && old(ls.player) == ls.player
    && e.position.Some? && e.position == old(e.position)
    && var underfoot := old(ls.GetItemsAt(e.position.value));
    && e.inventory == old(e.inventory) + Unplaced(Sift(underfoot, false))
    && (e == ls.player ==>
          && ls.itemsByPosition == old(ls.itemsByPosition) - {e.position.value}
          && ls.game.score == old(ls.game.score) + |Sift(underfoot, true)|)
    && (e != ls.player ==>
          && ls.itemsByPosition == old(ls.itemsByPosition)[e.position.value := Sift(underfoot, true)]
          && ls.game.score == old(ls.game.score))
    && ls.eventQueue == old(ls.eventQueue)
         + (if e == ls.player && Sift(underfoot, true) != [] then [Event(ScoreIncreased, None, NoData)] else [])
         + PickupEvents(e, Unplaced(Sift(underfoot, false)))
         + TurnSignal(e, ls.player.position.Some?, e.position.value)
  }

  /**
   * Entity `e` picks up what lies on its cell. Nothing there: `Some(false)`
   * and nothing changes. Otherwise (`None`): the level's player scores one
   * point per gold piece; everything but gold joins the inventory,
   * positionless, each with a pick-up event; the level's player clears the
   * cell, anyone else leaves the gold behind; and a player spends a turn.
   */
  method ActionPickupItem(ls: LevelState, e: Entity) returns (r: Option<bool>)
    requires ls.player != null
    modifies ls`itemsByPosition, ls`eventQueue, e`inventory, ls.game`score
    ensures r == if old(Underfoot(ls, e)) == [] then Some(false) else None
    ensures r.Some? ==>
      && ls.itemsByPosition == old(ls.itemsByPosition) && ls.eventQueue == old(ls.eventQueue)
      && e.inventory == old(e.inventory) && ls.game.score == old(ls.game.score)
    ensures r.None? ==> PickedUp(ls, e)
  {
    var items := Underfoot(ls, e);
    if items == [] {
      return Some(false);
    }
    var p := e.position.value;
    var taken := TakeItems(ls, e, p, items);
    FirePickups(ls, e, taken);
    if e.IsPlayer() {
      ls.FirePlayerTookActionIfAlive(Some(p));
    }
    r := None;
  }

  /**
   * The state change of a pick-up from the cell `p`: scoring, the inventory
   * and the cell's list. Returns what went into the inventory.
   */
  method TakeItems(ls: LevelState, e: Entity, p: Pos, items: seq<Item>) returns (taken: seq<Item>)
    modifies ls`itemsByPosition, ls`eventQueue, e`inventory, ls.game`score
    ensures taken == Unplaced(Sift(items, false))
    ensures e.inventory == old(e.inventory) + taken
    ensures e == ls.player ==>
      && ls.itemsByPosition == old(ls.itemsByPosition) - {p}
      && ls.game.score == old(ls.game.score) + |Sift(items, true)|
    ensures e != ls.player ==>
      && ls.itemsByPosition == old(ls.itemsByPosition)[p := Sift(items, true)]
      && ls.game.score == old(ls.game.score)
    ensures ls.eventQueue == old(ls.eventQueue)
        + (if e == ls.player && Sift(items, true) != [] then [Event(ScoreIncreased, None, NoData)] else [])
  {
    var golds := Sift(items, true);
    if e == ls.player && golds != [] {
      ls.game.score := ls.game.score + |golds|;
      ls.Fire(ScoreIncreased, None, NoData);
    }
    taken := Unplaced(Sift(items, false));
    e.inventory := e.inventory + taken;
    if e == ls.player {
      ls.itemsByPosition := ls.itemsByPosition - {p};
    } else {
      ls.itemsByPosition := ls.itemsByPosition[p := golds];
    }
  }

  /** Fires a pick-up event per item, in order. */
  method FirePickups(ls: LevelState, e: Entity, items: seq<Item>)
    modifies ls`eventQueue
    ensures ls.eventQueue == old(ls.eventQueue) + PickupEvents(e, items)
  {
    var k := 0;
    while k < |items|
      invariant 0 <= k <= |items|
      invariant ls.eventQueue == old(ls.eventQueue) + PickupEvents(e, items[..k])
    {
      ls.Fire(EntityPickedUpItem, Some(e), AboutItem(items[k]));
      assert PickupEvents(e, items[..k + 1]) == PickupEvents(e, items[..k]) + [Event(EntityPickedUpItem, Some(e), AboutItem(items[k]))];
      k := k + 1;
    }
    assert items[..k] == items;
  }

  /** The monster type id of an item in flight. */
  function FlightId(it: Item): string {
    it.itemType.id + "_IN_FLIGHT"
  }

  /** The path with the leading cells equal to `p` dropped. */
  function SkipFrom(path: seq<Pos>, p: Pos): (r: seq<Pos>)
    ensures |r| <= |path| && r == path[|path| - |r|..]
    ensures r == [] || r[0] != p
    ensures forall i | 0 <= i < |path| - |r| :: path[i] == p
  {
    if path != [] && path[0] == p then
      var r := SkipFrom(path[1..], p);
      assert path[1..][|path| - 1 - |r|..] == path[|path| - |r|..];
      assert forall i | 1 <= i < |path| - |r| :: path[i] == path[1..][i - 1];
      r
    else path
  }

  /** A flight path as stored in the behaviour state: every cell present. */
  function Lift(path: seq<Pos>): (r: seq<Option<Pos>>)
    ensures |r| == |path| && forall i | 0 <= i < |r| :: r[i] == Some(path[i])
  {
    seq(|path|, i requires 0 <= i < |path| => Some(path[i]))
  }

  /**
   * Entity `e` throws `item` towards `target`. The straight line from the
   * thrower, minus its own cell, must begin with a cell the thrower could
   * step into; otherwise false and nothing changes. Then the item leaves the
   * inventory and a new entity of the item's in-flight type appears on that
   * first cell, carrying the item, with the thrower's strength and the rest
   * of the line (led by a placeholder) as its flight path. A player spends a
   * turn.
   */
  method ActionThrow(ls: LevelState, e: Entity, item: Item, target: Pos, speed: int) returns (thrown: bool)
    requires ls.Valid() && ls.player != null && e in ls.Entities && e.position.Some? && item in e.inventory
    requires FlightId(item) in ls.monsterCatalog
    requires KnownType(ls.monsterCatalog[FlightId(item)], ls.itemCatalog) && !ls.monsterCatalog[FlightId(item)].IsPlayer()
    modifies e`inventory, ls`entityByPosition, ls`Entities, ls.dispatcher, ls`eventQueue
    ensures ls.Valid()
    ensures var path := SkipFrom(ls.bresenham(e.position.value, target), e.position.value);
      thrown <==> path != [] && old(ls.GetCanMove(path[0], false))
    ensures !thrown ==>
      && e.inventory == old(e.inventory) && ls.entityByPosition == old(ls.entityByPosition)
      && ls.Entities == old(ls.Entities) && ls.dispatcher.handlers == old(ls.dispatcher.handlers)
      && ls.eventQueue == old(ls.eventQueue)
    ensures thrown ==> Launched(ls, e, item, SkipFrom(ls.bresenham(e.position.value, target), e.position.value), speed)
  {
    var path := FlightPath(ls, e, target);
    thrown := TryThrow(ls, e, item, path, speed);
  }

  /**
   * The two tests on the first cell of `path` (it may be moved onto, and no
   * entity stands there), then the throw proper when both pass.
   */
  method TryThrow(ls: LevelState, e: Entity, item: Item, path: seq<Pos>, speed: int) returns (thrown: bool)
    requires ls.Valid() && ls.player != null && e.position.Some? && item in e.inventory
    requires FlightId(item) in ls.monsterCatalog
    requires KnownType(ls.monsterCatalog[FlightId(item)], ls.itemCatalog) && !ls.monsterCatalog[FlightId(item)].IsPlayer()
    modifies e`inventory, ls`entityByPosition, ls`Entities, ls.dispatcher, ls`eventQueue
    ensures ls.Valid()
    ensures thrown <==> path != [] && old(ls.GetCanMove(path[0], false))
    ensures !thrown ==>
      && e.inventory == old(e.inventory) && ls.entityByPosition == old(ls.entityByPosition)
      && ls.Entities == old(ls.Entities) && ls.dispatcher.handlers == old(ls.dispatcher.handlers)
      && ls.eventQueue == old(ls.eventQueue)
    ensures thrown ==> Launched(ls, e, item, path, speed)
  {
    thrown := path != [] && ls.GetCanMove(path[0], false) && path[0] !in ls.entityByPosition;
    if thrown {
      ThrowAlong(ls, e, item, path, speed);
    }
  }

  /**
   * What a throw along `path` did: a fresh entity of the item's in-flight
   * type stands, indexed, on the first cell, with the thrower's strength, the
   * item at the end of its starting inventory and the rest of the path (led
   * by a placeholder) as its flight; the item left the thrower's inventory,
   * and a player thrower spent a turn.
   */
  twostate predicate Launched(ls: LevelState, e: Entity, item: Item, path: seq<Pos>, speed: int)
    reads ls, e, ls.player, ls.entityByPosition.Values, ls.dispatcher
  {
    && path != [] && path[0] in ls.entityByPosition && FlightId(item) in ls.monsterCatalog && ls.player != null && e.position.Some?
    && InFlight(ls, ls.entityByPosition[path[0]], ls.monsterCatalog[FlightId(item)], item, e.strength, path, speed)
    && item in old(e.inventory) && e.inventory == RemoveFirst(old(e.inventory), item)
    && ls.eventQueue == old(ls.eventQueue) + TurnSignal(e, ls.player.position.Some?, e.position.value)
  }

  /**
   * The object `rock` a throw along `path` created: a fresh entity of the
   * in-flight type `mt`, with that type's full hit points, mode and single
   * behaviour (subscribed, after the existing handlers, to each of its
   * events), standing indexed on the first cell, with the thrower's
   * `strength`, the type's starting items followed by the thrown `item`,
   * and the rest of the path, led by a placeholder, as its flight.
   */
  twostate predicate InFlight(ls: LevelState, new rock: Entity, mt: MonsterType, item: Item, strength: int,
                              path: seq<Pos>, speed: int)
    reads ls`Entities, ls`entityByPosition, ls.dispatcher`handlers, rock
  {
    && path != [] && KnownType(mt, ls.itemCatalog)
    && (forall n :: Value(n) in old(ls.dispatcher.handlers))
    && fresh(rock) && ls.Entities == old(ls.Entities) + {rock}
    && ls.entityByPosition == old(ls.entityByPosition)[path[0] := rock]
    && rock.monsterType == mt && rock.position == Some(path[0])
    && rock.hp == mt.hpMax && rock.hpMax == mt.hpMax && rock.mode == Default
    && rock.strength == strength
    && |rock.inventory| == |mt.items| + 1 && rock.inventory[|mt.items|] == item
    && (forall i | 0 <= i < |mt.items| :: rock.inventory[i] == NewItem(ls.itemCatalog[mt.items[i]]))
    && rock.behaviorState == BehaviorState(None, None, Some([None] + Lift(path[1..])), Some(speed))
    && |rock.behaviors| == 1 && rock.behaviors[0].owner == rock && rock.behaviors[0].shape == ShapeFor(mt)
    && ls.dispatcher.handlers
       == SubscribeAll(old(ls.dispatcher.handlers), (rock.behaviors[0], None), Keys(rock.behaviors[0].eventNames))
  }

  /** The throw proper, once the first cell of `path` is known to be free. */
  method ThrowAlong(ls: LevelState, e: Entity, item: Item, path: seq<Pos>, speed: int)
    requires ls.Valid() && ls.player != null && e.position.Some? && item in e.inventory
    requires path != [] && path[0] !in ls.entityByPosition
    requires FlightId(item) in ls.monsterCatalog
    requires KnownType(ls.monsterCatalog[FlightId(item)], ls.itemCatalog) && !ls.monsterCatalog[FlightId(item)].IsPlayer()
    modifies e`inventory, ls`entityByPosition, ls`Entities, ls.dispatcher, ls`eventQueue
    ensures ls.Valid()
    ensures Launched(ls, e, item, path, speed)
  {
    var p := e.position.value;
    e.inventory := RemoveFirst(e.inventory, item);
    Launch(ls, ls.monsterCatalog[FlightId(item)], item, e.strength, path, speed);
    if e.IsPlayer() {
      ls.FirePlayerTookActionIfAlive(Some(p));
    }
  }

  /** The line from `e` to `target`, skipping the cells `e` itself stands on. */
  method FlightPath(ls: LevelState, e: Entity, target: Pos) returns (path: seq<Pos>)
    requires ls.Valid() && e in ls.Entities && e.position.Some?
    ensures path == SkipFrom(ls.bresenham(e.position.value, target), e.position.value)
  {
    var p := e.position.value;
    path := ls.bresenham(p, target);
    assert p in ls.entityByPosition && ls.entityByPosition[p] == e;
    while path != [] && path[0] in ls.entityByPosition && ls.entityByPosition[path[0]] == e
      invariant SkipFrom(path, p) == SkipFrom(ls.bresenham(p, target), p)
      decreases |path|
    {
      assert e.position == Some(path[0]);
      path := path[1..];
    }
  }

  /** Creates the item in flight on the first cell of `path`, carrying `item`. */
  method Launch(ls: LevelState, mt: MonsterType, item: Item, strength: int, path: seq<Pos>, speed: int)
    requires ls.Valid() && path != [] && path[0] !in ls.entityByPosition
    requires KnownType(mt, ls.itemCatalog) && !mt.IsPlayer()
    modifies ls`entityByPosition, ls`Entities, ls.dispatcher
    ensures ls.Valid()
    ensures path[0] in ls.entityByPosition
    ensures InFlight(ls, ls.entityByPosition[path[0]], mt, item, strength, path, speed)
  {
    var rock := ls.CreateEntity(mt, Some(path[0]), BehaviorState(None, None, Some([None] + Lift(path[1..])), Some(speed)));
    rock.strength := strength;
    rock.inventory := rock.inventory + [item];
  }
}
