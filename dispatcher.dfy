/**
 * A publish/subscribe table from event names to ordered subscriber lists.
 * Each subscription is a pair of a subscriber and an optional entity filter.
 */
module Dispatcher {
  import opened Options
  import opened Const

  /** An event name as callers pass it: an enum member or a plain string. */
  datatype NameArg = Member(member: EventName) | Text(text: string)

  /** Enum members are normalised to their string value. */
  function Key(n: NameArg): string {
    match n
    case Member(e) => Value(e)
    case Text(s) => s
  }

  lemma MemberIsItsValue(e: EventName)
    ensures Key(Member(e)) == Key(Text(Value(e)))
  {
  }

  /** Whether a subscription with entity filter `filter` hears an event about `entity`. */
  predicate Delivers<E(==)>(filter: Option<E>, entity: Option<E>) {
    entity.None? || filter.None? || filter == entity
  }

  /** The subscribers that hear an event, in subscription order. */
  function Recipients<S, E(==)>(subs: seq<(S, Option<E>)>, entity: Option<E>): seq<S> {
    if subs == [] then []
    else (if Delivers(subs[0].1, entity) then [subs[0].0] else []) + Recipients(subs[1..], entity)
  }

  lemma {:induction false} RecipientsAppend<S, E>(a: seq<(S, Option<E>)>, b: seq<(S, Option<E>)>, entity: Option<E>)
    ensures Recipients(a + b, entity) == Recipients(a, entity) + Recipients(b, entity)
  {
    if a == [] {
      assert a + b == b;
    } else {
      var ab := a + b;
      assert ab[0] == a[0];
      assert ab[1..] == a[1..] + b;
      var head := if Delivers(a[0].1, entity) then [a[0].0] else [];
      assert Recipients(ab, entity) == head + Recipients(ab[1..], entity);
      RecipientsAppend(a[1..], b, entity);
      assert Recipients(a, entity) == head + Recipients(a[1..], entity);
    }
  }

  /** A subscriber hears the event iff one of its subscriptions lets it through. */
  lemma {:induction false} RecipientsMember<S, E>(subs: seq<(S, Option<E>)>, entity: Option<E>, s: S)
    ensures s in Recipients(subs, entity) <==>
      exists i :: 0 <= i < |subs| && subs[i].0 == s && Delivers(subs[i].1, entity)
  {
    if subs != [] {
      RecipientsMember(subs[1..], entity, s);
      if s in Recipients(subs[1..], entity) {
        var i :| 0 <= i < |subs[1..]| && subs[1..][i].0 == s && Delivers(subs[1..][i].1, entity);
        assert subs[i + 1] == subs[1..][i];
      }
      if exists i :: 0 <= i < |subs| && subs[i].0 == s && Delivers(subs[i].1, entity) {
        var i :| 0 <= i < |subs| && subs[i].0 == s && Delivers(subs[i].1, entity);
        if i > 0 {
          assert subs[1..][i - 1] == subs[i];
        }
      }
    }
  }

  /** An event that names no entity reaches every subscription, in order. */
  lemma {:induction false} BroadcastReachesAll<S, E>(subs: seq<(S, Option<E>)>)
    ensures |Recipients(subs, None)| == |subs|
    ensures forall i :: 0 <= i < |subs| ==> Recipients(subs, None)[i] == subs[i].0
  {
    if subs != [] {
      BroadcastReachesAll(subs[1..]);
    }
  }

  /** Python's `list.remove`: drop the first element equal to `x`. */
  function RemoveFirst<T(==)>(s: seq<T>, x: T): (r: seq<T>)
    requires x in s
    ensures |r| == |s| - 1
    ensures multiset(r) == multiset(s) - multiset{x}
  {
    if s[0] == x then
      assert s == [s[0]] + s[1..];
      s[1..]
    else
      assert s == [s[0]] + s[1..];
      [s[0]] + RemoveFirst(s[1..], x)
  }

  lemma RemoveFirstKeepsOthers<T>(s: seq<T>, x: T, y: T)
    requires x in s && y != x
    ensures y in RemoveFirst(s, x) <==> y in s
  {
    assert multiset(RemoveFirst(s, x))[y] == multiset(s)[y];
  }

  /** Appending `x` and then removing it restores a list that did not hold `x`. */
  lemma {:induction false} RemoveFirstOfAppended<T>(s: seq<T>, t: seq<T>, x: T)
    requires x !in s && x in t
    ensures RemoveFirst(s + t, x) == s + RemoveFirst(t, x)
  {
    if s == [] {
      assert s + t == t;
    } else {
      assert (s + t)[0] == s[0];
      assert (s + t)[1..] == s[1..] + t;
      RemoveFirstOfAppended(s[1..], t, x);
      assert [s[0]] + (s[1..] + RemoveFirst(t, x)) == s + RemoveFirst(t, x);
    }
  }

  /** `n` copies of `x`. */
  function Rep<T>(x: T, n: nat): seq<T> {
    if n == 0 then [] else [x] + Rep(x, n - 1)
  }

  /** How many of `keys` equal `k`. */
  function Count(keys: seq<string>, k: string): nat {
    if keys == [] then 0 else (if keys[0] == k then 1 else 0) + Count(keys[1..], k)
  }

  /** Subscribe `x` under each of `keys` in turn (each key must be registered). */
  function SubscribeAll<T>(h: map<string, seq<T>>, x: T, keys: seq<string>): (r: map<string, seq<T>>)
    requires forall k | k in keys :: k in h
    ensures r.Keys == h.Keys
  {
    if keys == [] then h
    else SubscribeAll(h[keys[0] := h[keys[0]] + [x]], x, keys[1..])
  }

  /** Unsubscribe `x` under each of `keys` in turn; None when a removal would fail. */
  function UnsubscribeAll<T(==)>(h: map<string, seq<T>>, x: T, keys: seq<string>): (r: Option<map<string, seq<T>>>)
    ensures r.Some? ==> r.value.Keys == h.Keys
  {
    if keys == [] then Some(h)
    else if keys[0] in h && x in h[keys[0]] then
      UnsubscribeAll(h[keys[0] := RemoveFirst(h[keys[0]], x)], x, keys[1..])
    else None
  }

  lemma {:induction false} SubscribeAllAt<T>(h: map<string, seq<T>>, x: T, keys: seq<string>, k: string)
    requires forall j | j in keys :: j in h
    ensures SubscribeAll(h, x, keys).Keys == h.Keys
    ensures k in h ==> SubscribeAll(h, x, keys)[k] == h[k] + Rep(x, Count(keys, k))
  {
    if keys != [] {
      var h' := h[keys[0] := h[keys[0]] + [x]];
      SubscribeAllAt(h', x, keys[1..], k);
      if k in h && k == keys[0] {
        RepSnoc(x, Count(keys[1..], k));
        assert h[k] + [x] + Rep(x, Count(keys[1..], k)) == h[k] + Rep(x, Count(keys, k));
      }
    }
  }

  lemma {:induction false} RepSnoc<T>(x: T, n: nat)
    ensures [x] + Rep(x, n) == Rep(x, n) + [x]
  {
    if n > 0 {
      RepSnoc(x, n - 1);
    }
  }

  lemma RemoveFirstOfRep<T>(s: seq<T>, x: T, c: nat)
    requires x !in s && c > 0
    ensures x in s + Rep(x, c)
    ensures RemoveFirst(s + Rep(x, c), x) == s + Rep(x, c - 1)
  {
    assert Rep(x, c) == [x] + Rep(x, c - 1);
    RemoveFirstOfAppended(s, Rep(x, c), x);
  }

  lemma {:induction false} UnsubscribeAllFrom<T>(h: map<string, seq<T>>, g: map<string, seq<T>>, x: T, keys: seq<string>)
    requires forall k | k in keys :: k in h
    requires g.Keys == h.Keys
    requires forall k | k in h :: g[k] == h[k] + Rep(x, Count(keys, k))
    requires forall k | k in keys :: x !in h[k]
    ensures UnsubscribeAll(g, x, keys) == Some(h)
  {
    if keys == [] {
      forall k | k in h
        ensures g[k] == h[k]
      {
        assert Count(keys, k) == 0;
        assert h[k] + [] == h[k];
      }
      assert g == h;
    } else {
      var k0 := keys[0];
      assert k0 in h && x !in h[k0];
      var c := Count(keys, k0);
      assert c == 1 + Count(keys[1..], k0);
      RemoveFirstOfRep(h[k0], x, c);
      assert g[k0] == h[k0] + Rep(x, c);
      var g' := g[k0 := RemoveFirst(g[k0], x)];
      assert g'.Keys == h.Keys;
      forall k | k in h
        ensures g'[k] == h[k] + Rep(x, Count(keys[1..], k))
      {
        if k != k0 {
          assert Count(keys, k) == Count(keys[1..], k);
          assert g'[k] == g[k];
        }
      }
      UnsubscribeAllFrom(h, g', x, keys[1..]);
      assert UnsubscribeAll(g, x, keys) == UnsubscribeAll(g', x, keys[1..]);
    }
  }

  /** Subscribing and then unsubscribing under the same keys leaves the table as it was. */
  lemma SubscribeThenUnsubscribe<T>(h: map<string, seq<T>>, x: T, keys: seq<string>)
    requires forall k | k in keys :: k in h && x !in h[k]
    ensures UnsubscribeAll(SubscribeAll(h, x, keys), x, keys) == Some(h)
  {
    var g := SubscribeAll(h, x, keys);
    SubscribeAllAt(h, x, keys, "");
    forall k | k in h
      ensures g[k] == h[k] + Rep(x, Count(keys, k))
    {
      SubscribeAllAt(h, x, keys, k);
    }
    UnsubscribeAllFrom(h, g, x, keys);
  }

  class EventDispatcher<S(==), E(==)> {
    var handlers: map<string, seq<(S, Option<E>)>>

    constructor ()
      ensures handlers == map[]
    {
      handlers := map[];
    }

    /** Registering a name (again) gives it an empty subscriber list. */
    method RegisterEventType(name: NameArg)
      modifies this
      ensures handlers == old(handlers)[Key(name) := []]
    {
      handlers := handlers[Key(name) := []];
    }

    /** Appends the subscription; an unregistered name is a KeyError (`ok` false, nothing changes). */
    method AddSubscriber(obj: S, name: NameArg, entity: Option<E>) returns (ok: bool)
      modifies this
      ensures ok <==> Key(name) in old(handlers)
      ensures handlers == if ok then old(handlers)[Key(name) := old(handlers)[Key(name)] + [(obj, entity)]]
                          else old(handlers)
    {
      var k := Key(name);
      if k !in handlers {
        return false;
      }
      handlers := handlers[k := handlers[k] + [(obj, entity)]];
      ok := true;
    }

    /** Removes the first equal subscription; an unregistered name or a missing pair fails. */
    method RemoveSubscriber(obj: S, name: NameArg, entity: Option<E>) returns (ok: bool)
      modifies this
      ensures ok <==> Key(name) in old(handlers) && (obj, entity) in old(handlers)[Key(name)]
      ensures handlers == if ok then old(handlers)[Key(name) := RemoveFirst(old(handlers)[Key(name)], (obj, entity))]
                          else old(handlers)
    {
      var k := Key(name);
      if k !in handlers || (obj, entity) !in handlers[k] {
        return false;
      }
      handlers := handlers[k := RemoveFirst(handlers[k], (obj, entity))];
      ok := true;
    }

    /**
     * Visits the subscriptions of `name` in order and returns the subscribers
     * that hear the event. Calling their handler methods is left to the caller.
     */
    method Fire(name: NameArg, entity: Option<E>) returns (ok: bool, delivered: seq<S>)
      ensures ok <==> Key(name) in handlers
      ensures ok ==> delivered == Recipients(handlers[Key(name)], entity)
    {
      var k := Key(name);
      if k !in handlers {
        return false, [];
      }
      ok := true;
      var subs := handlers[k];
      delivered := [];
      var i := 0;
      while i < |subs|
        invariant 0 <= i <= |subs|
        invariant delivered == Recipients(subs[..i], entity)
      {
        var (obj, inner) := subs[i];
        if entity.None? || inner.None? || entity == inner {
          delivered := delivered + [obj];
        }
        RecipientsAppend(subs[..i], [subs[i]], entity);
        assert subs[..i + 1] == subs[..i] + [subs[i]];
        i := i + 1;
      }
      assert subs[..|subs|] == subs;
    }
  }
}
