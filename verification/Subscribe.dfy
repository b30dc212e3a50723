/** Who wants to hear of which movements (crates/lotusd/src/subscribe.rs). */
module Subscribe {
  import opened Wire
  import opened ChangeSets

  /** A single interest. */
  datatype Selector = HeadMoves | InNamespace(key: Name) | AtPath(key: Name, path: Path) | Orphans(digest: Digest)

  predicate Selects(selector: Selector, movement: Movement) {
    match selector
    case HeadMoves => true
    case InNamespace(key) => Touches(movement.changes, key, None)
    case AtPath(key, path) => Touches(movement.changes, key, Some(path))
    case Orphans(digest) => digest in movement.orphaned
  }

  /** What one subscription watches, never nothing. */
  type Filter = f: seq<Selector> | f != [] witness [HeadMoves]

  predicate Matches(filter: Filter, movement: Movement) {
    exists selector :: selector in filter && Selects(selector, movement)
  }

  /** News for a subscriber: one movement, or several in one. */
  datatype Notification = Notification(from: Digest, head: Digest, movement: Movement)

  /** A subscription: what it watches, what has accumulated since it last
      drained, and whether a wake is stored for it. */
  datatype Subscriber = Subscriber(filter: Filter, openedAt: Digest, pending: Option<Notification>, wake: bool)

  /** `after` is what was pending with one more movement merged into it. */
  ghost predicate Accumulates(before: Option<Notification>, after: Option<Notification>, from: Digest, head: Digest,
                              movement: Movement) {
    && after.Some?
    && after.value.head == head
    && match before
       case None => after.value.from == from && after.value.movement == movement
       case Some(old') =>
         && after.value.from == old'.from
         && after.value.movement.orphaned == old'.movement.orphaned + movement.orphaned
         && IsMerge(old'.movement.changes, movement.changes, after.value.movement.changes)
  }

  /** `after` is `before` with one more movement pending and a wake stored. */
  ghost predicate Pushed(before: Subscriber, after: Subscriber, from: Digest, head: Digest, movement: Movement) {
    && after.filter == before.filter && after.openedAt == before.openedAt && after.wake
    && Accumulates(before.pending, after.pending, from, head, movement)
  }

  ghost predicate PendingMinimal(s: Subscriber) {
    s.pending.Some? ==> Minimal(s.pending.value.movement.changes)
  }

  method Push(s: Subscriber, from: Digest, head: Digest, movement: Movement) returns (after: Subscriber)
    requires PendingMinimal(s) && Minimal(movement.changes)
    ensures Pushed(s, after, from, head, movement) && PendingMinimal(after)
    ensures after.filter == s.filter && after.openedAt == s.openedAt && after.wake && after.pending.Some?
    ensures after.pending.value.head == head
    ensures after.pending.value.from == if s.pending.Some? then s.pending.value.from else from
    ensures after.pending.value.movement.orphaned ==
            (if s.pending.Some? then s.pending.value.movement.orphaned else {}) + movement.orphaned
  {
    var pending := Notification(from, head, movement);
    if s.pending.Some? {
      var merged := MergeMovements(s.pending.value.movement, movement);
      pending := Notification(s.pending.value.from, head, merged);
    }
    after := s.(pending := Some(pending), wake := true);
  }

  /** The registry. */
  class Subscriptions {
    var subscribers: map<nat, Subscriber>
    var next: nat

    ghost predicate Valid()
      reads this
    {
      && (forall id :: id in subscribers ==> id < next)
      && (forall id :: id in subscribers ==> PendingMinimal(subscribers[id]))
    }

    constructor ()
      ensures Valid() && subscribers == map[]
    {
      subscribers, next := map[], 0;
    }

    /** A new subscription, told of nothing yet, as of the given head. */
    method Register(filter: Filter, openedAt: Digest) returns (id: nat)
      requires Valid()
      modifies this
      ensures Valid() && id !in old(subscribers)
      ensures subscribers == old(subscribers)[id := Subscriber(filter, openedAt, None, false)]
    {
      id := next;
      next := next + 1;
      subscribers := subscribers[id := Subscriber(filter, openedAt, None, false)];
    }

    /** Dropping a handle deregisters it. */
    method Deregister(id: nat)
      requires Valid()
      modifies this
      ensures Valid() && subscribers == old(subscribers) - {id}
    {
      subscribers := subscribers - {id};
    }

    /** Merges a movement into every subscription whose filter selects it, and
        into no other. */
    method Publish(from: Digest, head: Digest, movement: Movement)
      requires Valid() && Minimal(movement.changes)
      modifies this
      ensures Valid() && subscribers.Keys == old(subscribers).Keys
      ensures forall id :: id in subscribers ==>
                if Matches(subscribers[id].filter, movement)
                then Pushed(old(subscribers)[id], subscribers[id], from, head, movement)
                else subscribers[id] == old(subscribers)[id]
      ensures forall id :: id in subscribers && subscribers[id] != old(subscribers)[id] ==>
                subscribers[id].wake && subscribers[id].pending.Some? && subscribers[id].pending.value.head == head
    {
      ghost var before := subscribers;
      var left := subscribers.Keys;
      while left != {}
        invariant left <= subscribers.Keys == before.Keys && Valid()
        invariant forall id :: id in left ==> subscribers[id] == before[id]
        invariant forall id :: id in subscribers && id !in left ==>
                    if Matches(subscribers[id].filter, movement)
                    then Pushed(before[id], subscribers[id], from, head, movement)
                    else subscribers[id] == before[id]
      {
        var id :| id in left;
        left := left - {id};
        if Matches(subscribers[id].filter, movement) {
          var after := Push(subscribers[id], from, head, movement);
          subscribers := subscribers[id := after];
        }
      }
    }

    /** Takes what is pending. */
    method Take(id: nat) returns (r: Option<Notification>)
      requires Valid() && id in subscribers
      modifies this
      ensures Valid()
      ensures r == old(subscribers)[id].pending
      ensures subscribers == old(subscribers)[id := old(subscribers)[id].(pending := None)]
    {
      r := subscribers[id].pending;
      subscribers := subscribers[id := subscribers[id].(pending := None)];
    }
  }
}
