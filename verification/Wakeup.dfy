/** Publisher and subscriber as they interleave: the pending slot, the
    one-slot wake channel, and a reader that may be cancelled and restarted
    (crates/lotusd/src/subscribe.rs). */
module Wakeup {
  import opened Wire
  import opened ChangeSets
  import opened Subscribe

  /** The publisher between movements, or done merging one and about to send
      the wake. */
  datatype Publisher = Resting | Sending | Gone

  /** The reader: not in `next`, about to look at what is pending, blocked on
      the wake channel, or told that the core is gone. */
  datatype Reader = Away | Looking | Blocked | Ended

  datatype Shared = Shared(
    filter: Filter,
    openedAt: Digest,
    head: Digest,
    pending: Option<Notification>,
    wake: bool,
    publisher: Publisher,
    reader: Reader,
    told: seq<Notification>,
    selected: seq<Movement>)

  ghost predicate Starts(s: Shared) {
    s == Shared(s.filter, s.openedAt, s.openedAt, None, false, Resting, Away, [], [])
  }

  // ---------------------------------------------------------------------
  // Steps of the publisher

  /** The head moves; a subscriber that selects the movement has it merged. */
  ghost predicate Merges(s: Shared, t: Shared, to: Digest, movement: Movement) {
    && s.publisher == Resting && Minimal(movement.changes)
    && if Matches(s.filter, movement)
       then
         && Accumulates(s.pending, t.pending, s.head, to, movement)
         && t == s.(head := to, pending := t.pending, publisher := Sending, selected := s.selected + [movement])
       else t == s.(head := to)
  }

  /** The wake is sent; a full channel already holds one. */
  ghost predicate Sends(s: Shared, t: Shared) {
    s.publisher == Sending && t == s.(publisher := Resting, wake := true)
  }

  /** The core goes away, closing the channel. */
  ghost predicate Closes(s: Shared, t: Shared) {
    s.publisher == Resting && t == s.(publisher := Gone)
  }

  // ---------------------------------------------------------------------
  // Steps of the reader

  ghost predicate Calls(s: Shared, t: Shared) {
    s.reader == Away && t == s.(reader := Looking)
  }

  /** Takes what is pending and returns it, or goes to wait. */
  ghost predicate Looks(s: Shared, t: Shared) {
    && s.reader == Looking
    && t == if s.pending.Some? then s.(pending := None, told := s.told + [s.pending.value], reader := Away)
            else s.(reader := Blocked)
  }

  /** A stored wake is received; a closed channel without one ends the wait. */
  ghost predicate Receives(s: Shared, t: Shared) {
    && s.reader == Blocked && (s.wake || s.publisher == Gone)
    && t == if s.wake then s.(wake := false, reader := Looking) else s.(reader := Ended)
  }

  /** A call is dropped, and with it perhaps a wake it was about to receive. */
  ghost predicate Cancels(s: Shared, t: Shared) {
    && s.reader in {Looking, Blocked}
    && (t == s.(reader := Away) || (s.reader == Blocked && t == s.(reader := Away, wake := false)))
  }

  ghost predicate Publishes(s: Shared, t: Shared) {
    (exists to, movement :: Merges(s, t, to, movement)) || Sends(s, t) || Closes(s, t)
  }

  ghost predicate Reads(s: Shared, t: Shared) {
    Calls(s, t) || Looks(s, t) || Receives(s, t) || Cancels(s, t)
  }

  ghost predicate IsInterleaving(run: seq<Shared>) {
    && run != [] && Starts(run[0])
    && forall i {:trigger run[i]} :: 0 < i < |run| ==> Publishes(run[i - 1], run[i]) || Reads(run[i - 1], run[i])
  }

  // ---------------------------------------------------------------------
  // No lost wake-up

  /** Whoever waits while something is pending has a wake coming; and whoever
      was told the core is gone missed nothing. */
  ghost predicate NoLostWake(s: Shared) {
    && (s.reader == Blocked && s.pending.Some? ==> s.wake || s.publisher == Sending)
    && (s.reader == Ended ==> s.pending.None? && s.publisher == Gone)
  }

  /** The head last told of. */
  function LastTold(openedAt: Digest, told: seq<Notification>): Digest {
    if told == [] then openedAt else told[|told| - 1].head
  }

  ghost predicate GapFree(openedAt: Digest, told: seq<Notification>) {
    forall i: nat :: i < |told| ==> told[i].from == LastTold(openedAt, told[..i])
  }

  /** A watcher of the head is told of one unbroken line of movements, up to
      where the chain stands. */
  ghost predicate Unbroken(s: Shared) {
    && GapFree(s.openedAt, s.told)
    && match s.pending
       case None => s.head == LastTold(s.openedAt, s.told)
       case Some(n) => n.from == LastTold(s.openedAt, s.told) && n.head == s.head
  }

  // ---------------------------------------------------------------------
  // Nothing published is lost or made up

  function Movements(told: seq<Notification>): seq<Movement>
  {
    if told == [] then [] else Movements(told[..|told| - 1]) + [told[|told| - 1].movement]
  }

  ghost predicate TouchedIn(movements: seq<Movement>, key: Name, path: Option<Path>)
  {
    movements != [] &&
    (TouchedIn(movements[..|movements| - 1], key, path) || Touches(movements[|movements| - 1].changes, key, path))
  }

  ghost function OrphanedIn(movements: seq<Movement>): set<Digest>
  {
    if movements == [] then {} else OrphanedIn(movements[..|movements| - 1]) + movements[|movements| - 1].orphaned
  }

  /** What was delivered so far and what is pending touch and orphan exactly
      what the selected movements did. */
  ghost predicate Accounted(s: Shared) {
    && (s.pending.Some? ==> Minimal(s.pending.value.movement.changes))
    && (forall key, path :: TouchedIn(s.selected, key, path) <==>
          TouchedIn(Movements(s.told), key, path) ||
          (s.pending.Some? && Touches(s.pending.value.movement.changes, key, path)))
    && OrphanedIn(s.selected) == OrphanedIn(Movements(s.told)) +
       if s.pending.Some? then s.pending.value.movement.orphaned else {}
  }

  lemma OneMore(movements: seq<Movement>, m: Movement)
    ensures OrphanedIn(movements + [m]) == OrphanedIn(movements) + m.orphaned
    ensures forall key, path ::
              TouchedIn(movements + [m], key, path) <==>
                TouchedIn(movements, key, path) || Touches(m.changes, key, path)
  {
    assert (movements + [m])[..|movements|] == movements;
  }

  lemma MergeAccounts(s: Shared, t: Shared, to: Digest, movement: Movement)
    requires Accounted(s) && Merges(s, t, to, movement) && Matches(s.filter, movement)
    ensures Accounted(t)
  {
    hide Matches;
    hide Minimal;
    hide Touches;
    hide TouchedIn;
    hide OrphanedIn;
    OneMore(s.selected, movement);
    if s.pending.Some? {
      hide IsMerge;
      forall key, path
        ensures Touches(t.pending.value.movement.changes, key, path) <==>
                Touches(s.pending.value.movement.changes, key, path) || Touches(movement.changes, key, path)
      {
        MergeTouches(s.pending.value.movement.changes, movement.changes, t.pending.value.movement.changes, key, path);
      }
      MergedMinimal(s.pending.value.movement.changes, movement.changes, t.pending.value.movement.changes);
    }
  }

  lemma MergedMinimal(a: Changes, b: Changes, c: Changes)
    requires IsMerge(a, b, c)
    ensures Minimal(c)
  {
  }

  lemma LookAccounts(s: Shared, t: Shared)
    requires Accounted(s) && Looks(s, t)
    ensures Accounted(t)
  {
    hide Minimal;
    hide Touches;
    hide TouchedIn;
    hide OrphanedIn;
    if s.pending.Some? {
      assert t.told[..|s.told|] == s.told;
      OneMore(Movements(s.told), s.pending.value.movement);
    }
  }

  lemma LookUnbroken(s: Shared, t: Shared)
    requires Unbroken(s) && Looks(s, t)
    ensures Unbroken(t)
  {
    if s.pending.Some? {
      forall i: nat | i < |t.told| ensures t.told[i].from == LastTold(t.openedAt, t.told[..i]) {
        if i < |s.told| {
          assert t.told[..i] == s.told[..i];
        } else {
          assert t.told[..i] == s.told;
        }
      }
    }
  }

  /** One interleaved step keeps all three. */
  lemma StepKeeps(s: Shared, t: Shared)
    requires Publishes(s, t) || Reads(s, t)
    ensures t.filter == s.filter && t.openedAt == s.openedAt
    ensures NoLostWake(s) ==> NoLostWake(t)
    ensures Accounted(s) ==> Accounted(t)
    ensures HeadMoves in s.filter && Unbroken(s) ==> Unbroken(t)
  {
    hide Accounted;
    hide Unbroken;
    if to, movement :| Merges(s, t, to, movement) {
      MergeKeeps(s, t, to, movement);
    } else if Looks(s, t) {
      if Accounted(s) { LookAccounts(s, t); }
      if Unbroken(s) { LookUnbroken(s, t); }
    } else {
      SameSlot(s, t);
    }
  }

  lemma MergeKeeps(s: Shared, t: Shared, to: Digest, movement: Movement)
    requires Merges(s, t, to, movement)
    ensures NoLostWake(s) ==> NoLostWake(t)
    ensures Accounted(s) ==> Accounted(t)
    ensures HeadMoves in s.filter && Unbroken(s) ==> Unbroken(t)
  {
    hide IsMerge;
    hide Minimal;
    hide GapFree;
    if Matches(s.filter, movement) {
      if Accounted(s) { MergeAccounts(s, t, to, movement); }
    } else {
      hide Accounted;
      SameSlot(s, t);
      assert Selects(HeadMoves, movement);
    }
  }

  lemma SameSlot(s: Shared, t: Shared)
    requires t.pending == s.pending && t.told == s.told && t.selected == s.selected
    ensures Accounted(s) ==> Accounted(t)
    ensures t.head == s.head && t.openedAt == s.openedAt && Unbroken(s) ==> Unbroken(t)
  {
  }

  /** Over every interleaving: no wake-up is lost, a reader told the core is
      gone has been told everything, what was delivered and what is pending
      account for exactly the movements selected, and the notifications of a
      watcher of the head chain without a gap from where it opened. */
  lemma {:induction false} EveryInterleaving(run: seq<Shared>, i: nat)
    requires IsInterleaving(run) && i < |run|
    ensures run[i].filter == run[0].filter && run[i].openedAt == run[0].openedAt
    ensures NoLostWake(run[i]) && Accounted(run[i])
    ensures HeadMoves in run[0].filter ==> Unbroken(run[i])
    decreases i
  {
    if i == 0 {
    } else {
      EveryInterleaving(run, i - 1);
      hide NoLostWake;
      hide Accounted;
      hide Unbroken;
      hide Publishes;
      hide Reads;
      StepKeeps(run[i - 1], run[i]);
    }
  }

  /** Left alone, whoever is blocked with something pending is handed it: the
      publisher's outstanding send, the wake, and one look are enough. */
  lemma BlockedIsServed(s: Shared) returns (sent: Shared, woken: Shared, served: Shared)
    requires NoLostWake(s) && s.reader == Blocked && s.pending.Some?
    ensures sent == s || Sends(s, sent)
    ensures Receives(sent, woken) && Looks(woken, served)
    ensures served.told == s.told + [s.pending.value] && served.pending.None? && served.reader == Away
  {
    sent := if s.publisher == Sending then s.(publisher := Resting, wake := true) else s;
    woken := sent.(wake := false, reader := Looking);
    served := woken.(pending := None, told := woken.told + [woken.pending.value], reader := Away);
  }

  /** Merging and sending without interruption is what a push does. */
  lemma PushIsMergeThenSend(s: Shared, merged: Shared, sent: Shared, to: Digest, movement: Movement)
    requires Merges(s, merged, to, movement) && Matches(s.filter, movement) && Sends(merged, sent)
    ensures Pushed(Subscriber(s.filter, s.openedAt, s.pending, s.wake),
                   Subscriber(sent.filter, sent.openedAt, sent.pending, sent.wake), s.head, to, movement)
  {
  }
}
