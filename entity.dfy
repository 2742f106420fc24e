/**
 * Entities (every moving game object), the items they carry, and the
 * behaviour objects that subscribe an entity's reactions to level events.
 */
module Entities {
  import opened Options
  import opened Geom
  import opened Const
  import opened Catalog
  import opened Dispatcher

  /** An item knows its type and where it lies; None while it is carried. */
  datatype Item = Item(itemType: ItemType, position: Option<Pos>)

  function NewItem(t: ItemType): (it: Item)
    ensures it.itemType == t && it.position == None
  {
    Item(t, None)
  }

  /** The per-entity bucket behaviours keep their state in; a missing key is None. */
  datatype BehaviorState = BehaviorState(
    stunCooldown: Option<int>,
    throwRockCooldown: Option<int>,
    path: Option<seq<Option<Pos>>>,
    speed: Option<int>)

  const EmptyState := BehaviorState(None, None, None, None)

  /** The behaviour classes; the two range keepers differ only in their best range. */
  datatype Kind =
    | Sleep
    | Stunnable
    | RandomWalk
    | PickUpRocks
    | BeelineVisible
    | RangeVisible(bestRange: int)
    | ThrowRockSlow(rockSpeed: int)
    | PathUntilHit

  /** The events a behaviour class has handlers for. */
  function KindEvents(k: Kind): (r: seq<EventName>)
    ensures PlayerTookAction in r
    ensures EntityAttacked in r <==> k == Stunnable
    ensures NoDupNames(r)
  {
    if k == Stunnable then [EntityAttacked, PlayerTookAction] else [PlayerTookAction]
  }

  predicate NoDupNames(s: seq<EventName>) {
    forall i, j | 0 <= i < j < |s| :: s[i] != s[j]
  }

  /** The behaviour classes by the id that the monster table uses. */
  const Registry: map<string, Kind> := map[
    "sleep" := Sleep,
    "stunnable" := Stunnable,
    "random_walk" := RandomWalk,
    "pick_up_rocks" := PickUpRocks,
    "beeline_visible" := BeelineVisible,
    "range_5_visible" := RangeVisible(5),
    "range_7_visible" := RangeVisible(7),
    "throw_rock_slow" := ThrowRockSlow(1),
    "path_until_hit" := PathUntilHit]

  /** One behaviour class, or a composite trying several in priority order. */
  datatype Shape = Single(kind: Kind) | Composite(subs: seq<Kind>)

  /**
   * The names a composite subscribes to: the union of its sub-behaviours'
   * names, each once.
   */
  method UnionEventNames(subs: seq<Kind>) returns (names: seq<EventName>)
    ensures NoDupNames(names)
    ensures forall n :: n in names <==> exists i :: 0 <= i < |subs| && n in KindEvents(subs[i])
  {
    names := [];
    var i := 0;
    while i < |subs|
      invariant 0 <= i <= |subs|
      invariant NoDupNames(names)
      invariant forall n :: n in names <==> exists j :: 0 <= j < i && n in KindEvents(subs[j])
    {
      names := AddNames(names, KindEvents(subs[i]));
      forall n | n in KindEvents(subs[i])
        ensures exists j :: 0 <= j < i + 1 && n in KindEvents(subs[j])
      {
        assert n in KindEvents(subs[i]);
      }
      i := i + 1;
    }
  }

  /** Set union on name lists: appends the names of `more` not already present. */
  method AddNames(names: seq<EventName>, more: seq<EventName>) returns (r: seq<EventName>)
    requires NoDupNames(names)
    ensures NoDupNames(r)
    ensures forall n :: n in r <==> n in names || n in more
  {
    r := names;
    var k := 0;
    while k < |more|
      invariant 0 <= k <= |more|
      invariant NoDupNames(r)
      invariant forall n :: n in r <==> n in names || n in more[..k]
    {
      if more[k] !in r {
        r := r + [more[k]];
      }
      assert more[..k + 1] == more[..k] + [more[k]];
      k := k + 1;
    }
    assert more[..k] == more;
  }

  /** The dispatcher keys of a list of event names. */
  function Keys(names: seq<EventName>): (r: seq<string>)
    ensures |r| == |names|
    ensures forall i | 0 <= i < |names| :: r[i] == Key(Member(names[i]))
  {
    if names == [] then [] else [Value(names[0])] + Keys(names[1..])
  }

  class Behavior {
    const owner: Entity
    const shape: Shape
    const eventNames: seq<EventName>

    /**
     * The names are those the shape has handlers for, each once: a single
     * class's own, or the union of a composite's parts'.
     */
    predicate NamesFit() {
      && NoDupNames(eventNames)
      && (shape.Single? ==> eventNames == KindEvents(shape.kind))
      && (shape.Composite? ==> forall n :: n in eventNames <==>
            exists i :: 0 <= i < |shape.subs| && n in KindEvents(shape.subs[i]))
    }

    constructor (owner: Entity, shape: Shape)
      ensures this.owner == owner && this.shape == shape
      ensures shape.Single? ==> eventNames == KindEvents(shape.kind)
      ensures NoDupNames(eventNames)
      ensures shape.Composite? ==> forall n :: n in eventNames <==>
        exists i :: 0 <= i < |shape.subs| && n in KindEvents(shape.subs[i])
      ensures NamesFit()
    {
      var names;
      if shape.Single? {
        names := KindEvents(shape.kind);
      } else {
        names := UnionEventNames(shape.subs);
      }
      this.owner := owner;
      this.shape := shape;
      this.eventNames := names;
    }

    /** Subscribes this behaviour, for every entity, to each of its names in turn. */
    method AddToEventDispatcher(d: EventDispatcher<Behavior, Entity>)
      requires forall k | k in Keys(eventNames) :: k in d.handlers
      modifies d
      ensures d.handlers == SubscribeAll(old(d.handlers), (this, None), Keys(eventNames))
    {
      var keys := Keys(eventNames);
      var i := 0;
      while i < |eventNames|
        invariant 0 <= i <= |eventNames|
        invariant forall k | k in keys[i..] :: k in d.handlers
        invariant SubscribeAll(d.handlers, (this, None), keys[i..])
               == SubscribeAll(old(d.handlers), (this, None), keys)
      {
        var ok := d.AddSubscriber(this, Member(eventNames[i]), None);
        assert keys[i..][0] == keys[i] && keys[i..][1..] == keys[i + 1..];
        i := i + 1;
      }
    }

    /**
     * Removes the subscriptions that `AddToEventDispatcher` made. A missing
     * subscription stops the loop with `ok` false, as the list removal raises.
     */
    method RemoveFromEventDispatcher(d: EventDispatcher<Behavior, Entity>) returns (ok: bool)
      modifies d
      ensures ok <==> UnsubscribeAll(old(d.handlers), (this, None), Keys(eventNames)).Some?
      ensures ok ==> d.handlers == UnsubscribeAll(old(d.handlers), (this, None), Keys(eventNames)).value
      ensures d.handlers.Keys == old(d.handlers).Keys
    {
      var keys := Keys(eventNames);
      var i := 0;
      while i < |eventNames|
        invariant 0 <= i <= |eventNames|
        invariant UnsubscribeAll(d.handlers, (this, None), keys[i..])
               == UnsubscribeAll(old(d.handlers), (this, None), keys)
        invariant d.handlers.Keys == old(d.handlers).Keys
      {
        assert keys[i..][0] == keys[i] && keys[i..][1..] == keys[i + 1..];
        ok := d.RemoveSubscriber(this, Member(eventNames[i]), None);
        if !ok {
          return;
        }
        i := i + 1;
      }
      ok := true;
    }

    /** Subscribing and then unsubscribing a behaviour restores the dispatcher's table. */
    lemma AddThenRemove(h: map<string, seq<(Behavior, Option<Entity>)>>)
      requires forall k | k in Keys(eventNames) :: k in h && (this, None) !in h[k]
      ensures UnsubscribeAll(SubscribeAll(h, (this, None), Keys(eventNames)), (this, None), Keys(eventNames)) == Some(h)
    {
      SubscribeThenUnsubscribe(h, (this, None), Keys(eventNames));
    }
  }

  class Entity {
    const monsterType: MonsterType
    var hpMax: int
    var strength: int
    var hp: int
    var position: Option<Pos>
    var behaviors: seq<Behavior>
    var inventory: seq<Item>
    var mode: MonsterMode
    var behaviorState: BehaviorState

    /** A new entity: stats from its type, full hit points, not yet on the map. */
    constructor (monsterType: MonsterType)
      ensures this.monsterType == monsterType
      ensures hpMax == monsterType.hpMax && strength == monsterType.strength && hp == hpMax
      ensures position == None && behaviors == [] && inventory == []
      ensures mode == Default && behaviorState == EmptyState
    {
      this.monsterType := monsterType;
      hpMax := monsterType.hpMax;
      strength := monsterType.strength;
      hp := monsterType.hpMax;
      position := None;
      behaviors := [];
      inventory := [];
      mode := Default;
      behaviorState := EmptyState;
    }

    /** Whether this is the player: its type's id is "PLAYER". */
    predicate IsPlayer()
      ensures IsPlayer() <==> monsterType.id == "PLAYER"
    {
      monsterType.IsPlayer()
    }

    method AddBehavior(b: Behavior)
      modifies this`behaviors
      ensures behaviors == old(behaviors) + [b]
    {
      behaviors := behaviors + [b];
    }
  }
}
