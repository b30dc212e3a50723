/** What a subscriber may rely on between notifications: the reason for the
    machinery of crates/lotusd/src/subscribe.rs. */
module Watch {
  import opened Wire
  import opened Ledger
  import opened Lineage
  import opened ForkChoice
  import opened ChangeSets
  import opened Differ
  import opened Subscribe

  /** Whether a filter has an interest in this path, or in the namespace. */
  predicate Interested(filter: Filter, key: Name, path: Option<Path>) {
    match path
    case None => InNamespace(key) in filter
    case Some(p) => AtPath(key, p) in filter
  }

  /** The head a subscriber stands informed of: that of what is pending, or
      the one it was last told of. */
  function Anchor(s: Subscriber, seen: Digest): Digest {
    if s.pending.Some? then s.pending.value.head else seen
  }

  /** None of the envelopes clears an array element before one the path walks
      through. */
  ghost predicate Unshifted(quiet: set<Digest>, key: Name, path: Option<Path>) {
    forall d :: d in quiet ==> !Shifts(d.payload, key, path)
  }

  /** A subscriber stands informed: all it watches reads at the current head
      as it did at its anchor, unless one of the envelopes of the movements
      that passed it by since (`quiet`) shifted it; an envelope it watches
      that was canonical there still is; and a watcher of the head itself has
      missed no movement at all. */
  ghost predicate Informed(genesis: Base, head: Digest, s: Subscriber, seen: Digest, quiet: set<Digest>) {
    && Replay(genesis, head).Some? && Replay(genesis, Anchor(s, seen)).Some?
    && (forall key, path :: Interested(s.filter, key, path) && Unshifted(quiet, key, path) ==>
          ReadAt(genesis, Anchor(s, seen), key, path) == ReadAt(genesis, head, key, path))
    && (forall d :: Orphans(d) in s.filter && IsAncestor(d, Anchor(s, seen)) ==> IsAncestor(d, head))
    && (HeadMoves in s.filter ==>
          Anchor(s, seen) == head && (s.pending.Some? ==> s.pending.value.from == seen))
  }

  /** The movement between two heads, as the differ reports it. */
  ghost predicate IsMovement(from: Digest, to: Digest, movement: Movement) {
    && movement.orphaned == Leaving(from, to)
    && Summarises(movement.changes, Leaving(from, to) + Leaving(to, from))
  }

  lemma Opened(genesis: Base, head: Digest, filter: Filter)
    requires Replay(genesis, head).Some?
    ensures Informed(genesis, head, Subscriber(filter, head, None, false), head, {})
  {
  }

  /** Draining moves the anchor nowhere: the notification's head becomes what
      the subscriber was last told. */
  lemma DrainInforms(genesis: Base, head: Digest, s: Subscriber, seen: Digest, quiet: set<Digest>)
    requires Informed(genesis, head, s, seen, quiet)
    ensures Informed(genesis, head, s.(pending := None), Anchor(s, seen), quiet)
  {
    hide Replay;
    hide ReadAt;
  }

  /** A movement the filter selects re-anchors the subscriber at its head. */
  lemma PushInforms(genesis: Base, from: Digest, to: Digest, movement: Movement, before: Subscriber, after: Subscriber,
                    seen: Digest, quiet: set<Digest>)
    requires Informed(genesis, from, before, seen, quiet) && Replay(genesis, to).Some?
    requires Pushed(before, after, from, to, movement)
    ensures Informed(genesis, to, after, seen, {})
  {
    hide Replay;
    hide ReadAt;
  }

  /** A movement the filter does not select disturbs nothing it watches. */
  lemma PassesBy(genesis: Base, from: Digest, to: Digest, movement: Movement, s: Subscriber, seen: Digest,
                 quiet: set<Digest>)
    requires Informed(genesis, from, s, seen, quiet) && Replay(genesis, to).Some?
    requires IsMovement(from, to, movement) && !Matches(s.filter, movement)
    ensures Informed(genesis, to, s, seen, quiet + Leaving(from, to) + Leaving(to, from))
  {
    hide Replay;
    hide Summarises;
    hide Leaving;
    assert !Selects(HeadMoves, movement) || HeadMoves !in s.filter;
    var quiet' := quiet + Leaving(from, to) + Leaving(to, from);
    forall key, path | Interested(s.filter, key, path) && Unshifted(quiet', key, path)
      ensures ReadAt(genesis, Anchor(s, seen), key, path) == ReadAt(genesis, to, key, path)
    {
      NotTouched(s.filter, movement, key, path);
      hide ReadAt;
      hide Touches;
      assert Unshifted(quiet, key, path);
      MovementSound(genesis, from, to, movement.changes, key, path);
    }
    forall d | Orphans(d) in s.filter && IsAncestor(d, Anchor(s, seen)) ensures IsAncestor(d, to) {
      assert !Selects(Orphans(d), movement);
      LeavingIs(from, to, d);
    }
  }

  lemma NotTouched(filter: Filter, movement: Movement, key: Name, path: Option<Path>)
    requires Interested(filter, key, path) && !Matches(filter, movement)
    ensures !Touches(movement.changes, key, path)
  {
    assert !Selects(if path.None? then InNamespace(key) else AtPath(key, path.value), movement);
  }

  /** What a filter is told of, by the envelopes of the two branches a
      movement is between: those under just one of its heads. It watches the
      head, a namespace one of them writes, a path what one of them writes
      meets, or an envelope that is no longer under the head. */
  lemma MatchesExactly(from: Digest, to: Digest, movement: Movement, filter: Filter)
    requires IsMovement(from, to, movement)
    ensures Matches(filter, movement) <==>
            exists selector :: selector in filter &&
              (|| selector.HeadMoves?
               || (selector.InNamespace? &&
                    exists d :: (IsAncestor(d, from) <==> !IsAncestor(d, to)) &&
                      if d.payload.Init? then selector.key in d.payload.namespaces else d.payload.key == selector.key)
               || (selector.AtPath? &&
                    exists d :: (IsAncestor(d, from) <==> !IsAncestor(d, to)) &&
                      (if d.payload.Init? then selector.key in d.payload.namespaces
                       else
                         && d.payload.key == selector.key
                         && (d.payload.SetNamespaceKey? ==>
                               d.payload.path <= selector.path || selector.path <= d.payload.path)
                         && (d.payload.AmendNamespaceKey? && d.payload.target.Some? ==>
                               d.payload.target.value <= selector.path || selector.path <= d.payload.target.value)))
               || (selector.Orphans? && IsAncestor(selector.digest, from) && !IsAncestor(selector.digest, to)))
  {
    hide IsMovement;
    forall selector | selector in filter
      ensures Selects(selector, movement) <==>
              || selector.HeadMoves?
              || (selector.InNamespace? &&
                    exists d :: (IsAncestor(d, from) <==> !IsAncestor(d, to)) &&
                      if d.payload.Init? then selector.key in d.payload.namespaces else d.payload.key == selector.key)
              || (selector.AtPath? &&
                    exists d :: (IsAncestor(d, from) <==> !IsAncestor(d, to)) &&
                      (if d.payload.Init? then selector.key in d.payload.namespaces
                       else
                         && d.payload.key == selector.key
                         && (d.payload.SetNamespaceKey? ==>
                               d.payload.path <= selector.path || selector.path <= d.payload.path)
                         && (d.payload.AmendNamespaceKey? && d.payload.target.Some? ==>
                               d.payload.target.value <= selector.path || selector.path <= d.payload.target.value)))
              || (selector.Orphans? && IsAncestor(selector.digest, from) && !IsAncestor(selector.digest, to))
    {
      match selector
      case HeadMoves =>
      case InNamespace(key) => NamespaceToldOf(from, to, movement, key);
      case AtPath(key, path) => PathToldOf(from, to, movement, key, path);
      case Orphans(x) => OrphanToldOf(from, to, movement, x);
    }
  }

  lemma MovedExactly(from: Digest, to: Digest, d: Digest)
    ensures d in Leaving(from, to) + Leaving(to, from) <==> (IsAncestor(d, from) <==> !IsAncestor(d, to))
  {
    LeavingIs(from, to, d);
    LeavingIs(to, from, d);
  }

  lemma OrphanToldOf(from: Digest, to: Digest, movement: Movement, x: Digest)
    requires IsMovement(from, to, movement)
    ensures Selects(Orphans(x), movement) <==> IsAncestor(x, from) && !IsAncestor(x, to)
  {
    hide Summarises;
    LeavingIs(from, to, x);
  }

  lemma NamespaceToldOf(from: Digest, to: Digest, movement: Movement, key: Name)
    requires IsMovement(from, to, movement)
    ensures Selects(InNamespace(key), movement) <==>
            exists d :: (IsAncestor(d, from) <==> !IsAncestor(d, to)) &&
              if d.payload.Init? then key in d.payload.namespaces else d.payload.key == key
  {
    var moved := Leaving(from, to) + Leaving(to, from);
    SummaryTouches(movement.changes, moved, key, None);
    hide Summarises;
    hide Leaving;
    hide Touches;
    forall d
      ensures d in moved <==> (IsAncestor(d, from) <==> !IsAncestor(d, to))
      ensures MsgTouches(d.payload, key, None) <==>
              if d.payload.Init? then key in d.payload.namespaces else d.payload.key == key
    {
      MovedExactly(from, to, d);
      WritesExactly(d.payload, key, None);
    }
    hide MsgTouches;
  }

  lemma PathToldOf(from: Digest, to: Digest, movement: Movement, key: Name, path: Path)
    requires IsMovement(from, to, movement)
    ensures Selects(AtPath(key, path), movement) <==>
            exists d :: (IsAncestor(d, from) <==> !IsAncestor(d, to)) &&
              (if d.payload.Init? then key in d.payload.namespaces
               else
                 && d.payload.key == key
                 && (d.payload.SetNamespaceKey? ==> d.payload.path <= path || path <= d.payload.path)
                 && (d.payload.AmendNamespaceKey? && d.payload.target.Some? ==>
                       d.payload.target.value <= path || path <= d.payload.target.value))
  {
    var moved := Leaving(from, to) + Leaving(to, from);
    SummaryTouches(movement.changes, moved, key, Some(path));
    hide Summarises;
    hide Leaving;
    hide Touches;
    forall d
      ensures d in moved <==> (IsAncestor(d, from) <==> !IsAncestor(d, to))
      ensures MsgTouches(d.payload, key, Some(path)) <==>
              (if d.payload.Init? then key in d.payload.namespaces
               else
                 && d.payload.key == key
                 && (d.payload.SetNamespaceKey? ==> d.payload.path <= path || path <= d.payload.path)
                 && (d.payload.AmendNamespaceKey? && d.payload.target.Some? ==>
                       d.payload.target.value <= path || path <= d.payload.target.value))
    {
      MovedExactly(from, to, d);
      WritesExactly(d.payload, key, Some(path));
    }
    hide MsgTouches;
  }

  /** One subscription at one moment of a run. */
  datatype Moment = Moment(head: Digest, s: Subscriber, seen: Digest, quiet: set<Digest>)

  /** Publishing this movement takes a subscription from `m` to `n`. */
  ghost predicate MovesWith(m: Moment, n: Moment, movement: Movement) {
    && IsMovement(m.head, n.head, movement)
    && if Matches(m.s.filter, movement) then Pushed(m.s, n.s, m.head, n.head, movement) && n.quiet == {}
       else n.s == m.s && n.quiet == m.quiet + Leaving(m.head, n.head) + Leaving(n.head, m.head)
  }

  /** The head moves, and the movement is published. */
  ghost predicate Moves(m: Moment, n: Moment) {
    n.seen == m.seen && exists movement :: MovesWith(m, n, movement)
  }

  lemma MovesBy(m: Moment, n: Moment, movement: Movement)
    requires n.seen == m.seen && MovesWith(m, n, movement)
    ensures Moves(m, n)
  {
  }

  /** The subscriber drains; a wake is taken or left. */
  ghost predicate Drains(m: Moment, n: Moment) {
    && n.head == m.head && n.quiet == m.quiet && n.seen == Anchor(m.s, m.seen)
    && n.s == m.s.(pending := None, wake := n.s.wake)
  }

  /** A run from registration on, over heads that replay. */
  ghost predicate IsWatch(genesis: Base, run: seq<Moment>) {
    && run != []
    && run[0] == Moment(run[0].head, Subscriber(run[0].s.filter, run[0].head, None, false), run[0].head, {})
    && (forall i :: 0 <= i < |run| ==> Replay(genesis, run[i].head).Some?)
    && (forall i: nat :: i + 1 < |run| ==> Goes(run, i))
  }

  /** What happens next is a movement, a drain, or nothing to this
      subscription. */
  ghost predicate Goes(run: seq<Moment>, i: nat)
    requires i + 1 < |run|
  {
    run[i + 1] == run[i] || Moves(run[i], run[i + 1]) || Drains(run[i], run[i + 1])
  }

  /** Over every run of movements and drains, at every moment, a subscriber
      with nothing pending reads all it watches as it stood at the head of its
      last notification, or where it opened. */
  lemma {:induction false} WatchedOverRun(genesis: Base, run: seq<Moment>, i: nat)
    requires IsWatch(genesis, run) && i < |run|
    ensures Informed(genesis, run[i].head, run[i].s, run[i].seen, run[i].quiet)
    ensures run[i].s.pending.None? ==> forall key, path ::
              Interested(run[i].s.filter, key, path) && Unshifted(run[i].quiet, key, path) ==>
              ReadAt(genesis, run[i].seen, key, path) == ReadAt(genesis, run[i].head, key, path)
    decreases i
  {
    if i == 0 {
      Opened(genesis, run[0].head, run[0].s.filter);
    } else {
      WatchedOverRun(genesis, run, i - 1);
      assert Goes(run, i - 1);
      if run[i] != run[i - 1] { StepInformed(genesis, run[i - 1], run[i]); }
    }
  }

  lemma StepInformed(genesis: Base, m: Moment, n: Moment)
    requires Informed(genesis, m.head, m.s, m.seen, m.quiet) && Replay(genesis, n.head).Some?
    requires Moves(m, n) || Drains(m, n)
    ensures Informed(genesis, n.head, n.s, n.seen, n.quiet)
  {
    hide Replay;
    hide Informed;
    hide Matches;
    hide IsMovement;
    if Moves(m, n) {
      var movement :| MovesWith(m, n, movement);
      if Matches(m.s.filter, movement) {
        PushInforms(genesis, m.head, n.head, movement, m.s, n.s, m.seen, m.quiet);
      } else {
        PassesBy(genesis, m.head, n.head, movement, m.s, m.seen, m.quiet);
      }
    } else {
      DrainInforms(genesis, m.head, m.s, m.seen, m.quiet);
      WakeInforms(genesis, m.head, m.s.(pending := None), n.seen, m.quiet, n.s.wake);
    }
  }

  lemma WakeInforms(genesis: Base, head: Digest, s: Subscriber, seen: Digest, quiet: set<Digest>, wake: bool)
    requires Informed(genesis, head, s, seen, quiet)
    ensures Informed(genesis, head, s.(wake := wake), seen, quiet)
  {
    hide Replay;
    hide ReadAt;
  }

  /** Everything a pending notification says was orphaned is off for good. */
  ghost predicate OrphansOff(log: Log, root: Digest, s: Subscriber) {
    s.pending.Some? ==> forall d :: d in s.pending.value.movement.orphaned ==> OffForGood(log, root, d)
  }

  /** Merging a movement's orphans into what is pending keeps that so. */
  lemma PushOrphansOff(small: Log, log: Log, root: Digest, from: Digest, to: Digest, movement: Movement,
                       before: Subscriber, after: Subscriber)
    requires OrphansOff(small, root, before) && Pushed(before, after, from, to, movement)
    requires IsMovement(from, to, movement) && DigestsPin(log.Keys)
    requires IsHead(small, root, from) && IsHead(log, root, to)
    requires forall x :: x in small ==> x in log && log[x] == small[x]
    ensures OrphansOff(log, root, after)
  {
    hide Summarises;
    forall d | d in after.pending.value.movement.orphaned ensures OffForGood(log, root, d) {
      if d in movement.orphaned {
        LeavingIs(from, to, d);
        LeavingMeansOff(small, log, root, from, to, d);
      } else {
        OffKeptByGrowth(small, log, root, d);
      }
    }
  }

  /** The head a subscriber was last notified of lies behind the current one,
      or off its line for good. */
  ghost predicate Behind(log: Log, root: Digest, head: Digest, s: Subscriber) {
    s.pending.Some? ==> IsAncestor(s.pending.value.head, head) || OffForGood(log, root, s.pending.value.head)
  }

  lemma StaysBehind(small: Log, log: Log, root: Digest, from: Digest, to: Digest, s: Subscriber)
    requires Behind(small, root, from, s) && DigestsPin(log.Keys)
    requires IsHead(small, root, from) && IsHead(log, root, to)
    requires forall x :: x in small ==> x in log && log[x] == small[x]
    ensures Behind(log, root, to, s)
  {
    hide OffForGood;
    hide IsHead;
    if s.pending.Some? {
      var x := s.pending.value.head;
      if OffForGood(small, root, x) {
        OffKeptByGrowth(small, log, root, x);
      } else if !IsAncestor(x, to) {
        LeavingMeansOff(small, log, root, from, to, x);
      }
    }
  }

  lemma GrownBehind(small: Log, log: Log, root: Digest, head: Digest, s: Subscriber)
    requires Behind(small, root, head, s) && forall x :: x in small ==> x in log && log[x] == small[x]
    ensures Behind(log, root, head, s)
  {
    hide OffForGood;
    if s.pending.Some? && OffForGood(small, root, s.pending.value.head) {
      OffKeptByGrowth(small, log, root, s.pending.value.head);
    }
  }

  lemma CutBehind(log: Log, kept: Log, root: Digest, cut: Digest, head: Digest, s: Subscriber)
    requires Behind(log, root, head, s) && OnPath(log, root, cut)
    requires forall x :: IsProperAncestor(cut, x) && x in log ==> x in kept && kept[x] == log[x]
    ensures Behind(kept, cut, head, s)
  {
    hide OffForGood;
    if s.pending.Some? && OffForGood(log, root, s.pending.value.head) {
      OffKeptByCut(log, kept, root, cut, s.pending.value.head);
    }
  }

  /** A chain that moves on is never back at a head it told a subscriber of. */
  lemma NeverBack(small: Log, log: Log, root: Digest, from: Digest, to: Digest, s: Subscriber)
    requires Behind(small, root, from, s) && s.pending.Some? && from != to
    requires IsHead(small, root, from) && IsHead(log, root, to)
    requires forall x :: x in small ==> x in log && log[x] == small[x]
    ensures s.pending.value.head != to
  {
    hide OffForGood;
    var x := s.pending.value.head;
    if OffForGood(small, root, x) {
      OffKeptByGrowth(small, log, root, x);
      OffMeansNotCanonical(log, root, to, x);
    } else if x == to {
      OnPathDescends(log, root, to);
      OnPathThrough(small, root, to, from);
      PathStored(small, root, to, from);
      NoneOnHead(log, root, to, Toward(to, from));
    }
  }

  lemma NoneOnHead(log: Log, root: Digest, h: Digest, kid: Digest)
    requires IsHead(log, root, h) && kid in log
    ensures kid.Prev() != Some(h)
  {
    assert kid.Prev() == Some(h) ==> kid in Kids(log, h);
  }

  /** A movement leaves a subscription exactly as it was if and only if it
      watches none of this: the head, a namespace an envelope of either branch
      writes, a path what one of them writes meets, an envelope no longer
      under the head. */
  lemma LeftAloneExactly(small: Log, log: Log, root: Digest, from: Digest, to: Digest, movement: Movement,
                         before: Subscriber, after: Subscriber)
    requires Behind(small, root, from, before) && from != to && IsMovement(from, to, movement)
    requires IsHead(small, root, from) && IsHead(log, root, to)
    requires forall x :: x in small ==> x in log && log[x] == small[x]
    requires if Matches(before.filter, movement) then Pushed(before, after, from, to, movement) else after == before
    ensures after != before ==> after.wake && after.pending.Some? && after.pending.value.head == to
    ensures after == before <==>
            !exists selector :: selector in before.filter &&
               (|| selector.HeadMoves?
                || (selector.InNamespace? &&
                     exists d :: (IsAncestor(d, from) <==> !IsAncestor(d, to)) &&
                       if d.payload.Init? then selector.key in d.payload.namespaces else d.payload.key == selector.key)
                || (selector.AtPath? &&
                     exists d :: (IsAncestor(d, from) <==> !IsAncestor(d, to)) &&
                       (if d.payload.Init? then selector.key in d.payload.namespaces
                        else
                          && d.payload.key == selector.key
                          && (d.payload.SetNamespaceKey? ==>
                                d.payload.path <= selector.path || selector.path <= d.payload.path)
                          && (d.payload.AmendNamespaceKey? && d.payload.target.Some? ==>
                                d.payload.target.value <= selector.path || selector.path <= d.payload.target.value)))
                || (selector.Orphans? && IsAncestor(selector.digest, from) && !IsAncestor(selector.digest, to)))
  {
    MatchesExactly(from, to, movement, before.filter);
    hide Matches;
    hide IsMovement;
    hide IsHead;
    if before.pending.Some? { NeverBack(small, log, root, from, to, before); }
    hide Behind;
    hide IsAncestor;
  }

  lemma StayOrphansOff(small: Log, log: Log, root: Digest, s: Subscriber)
    requires OrphansOff(small, root, s) && forall x :: x in small ==> x in log && log[x] == small[x]
    ensures OrphansOff(log, root, s)
  {
    if s.pending.Some? {
      forall d | d in s.pending.value.movement.orphaned ensures OffForGood(log, root, d) {
        OffKeptByGrowth(small, log, root, d);
      }
    }
  }

  lemma CutOrphansOff(log: Log, kept: Log, root: Digest, cut: Digest, s: Subscriber)
    requires OrphansOff(log, root, s) && OnPath(log, root, cut)
    requires forall x :: IsProperAncestor(cut, x) && x in log ==> x in kept && kept[x] == log[x]
    ensures OrphansOff(kept, cut, s)
  {
    if s.pending.Some? {
      forall d | d in s.pending.value.movement.orphaned ensures OffForGood(kept, cut, d) {
        OffKeptByCut(log, kept, root, cut, d);
      }
    }
  }

  /** No movement of a run orphans what an earlier one orphaned. */
  lemma OrphanedOnce(run: seq<Stage>, i: nat, j: nat)
    requires IsRun(run) && i < j && j + 1 < |run|
    ensures Leaving(run[i].head, run[i + 1].head) !! Leaving(run[j].head, run[j + 1].head)
  {
    var earlier, later := Leaving(run[i].head, run[i + 1].head), Leaving(run[j].head, run[j + 1].head);
    forall d | d in earlier ensures d !in later {
      LeavingIs(run[i].head, run[i + 1].head, d);
      LeavingIs(run[j].head, run[j + 1].head, d);
      OrphanedForGood(run, i, i + 1, j, d);
    }
  }

  /** So it is for a watcher: one movement passes a subscriber of the path by,
      nothing is pending, and yet the path reads differently. */
  lemma ShiftPassesBy(path: Path, other: Path) returns (genesis: Base, run: seq<Moment>, key: Name)
    requires ValueTree.ShiftedBy(path, None, other)
    ensures genesis.root.payload == Init(genesis.state) && RulesHold(genesis.state)
    ensures IsWatch(genesis, run) && |run| == 2 && run[1].s.pending.None?
            && Interested(run[1].s.filter, key, Some(other))
    ensures Replay(genesis, run[1].seen).Some?
    ensures ReadAt(genesis, run[1].seen, key, Some(other)) != ReadAt(genesis, run[1].head, key, Some(other))
  {
    var d: Digest;
    genesis, d, key := ShiftGoesUnrecorded(path, other);
    hide Replay;
    hide ReadAt;
    var root, filter := genesis.root, [AtPath(key, other)];
    var s := Subscriber(filter, root, None, false);
    var changes := Touch(map[], key, Some(path));
    OnlyLeaver(root, d);
    OneSummarised(d, key, path);
    LeavesNothing(root, d);
    var movement := Movement({}, changes);
    assert !Matches(filter, movement);
    var m, n := Moment(root, s, root, {}), Moment(d, s, root, {} + Leaving(root, d) + Leaving(d, root));
    run := [m, n];
    MovesBy(m, n, movement);
    hide Moves;
    assert Goes(run, 0);
  }

  lemma LeavesNothing(root: Digest, d: Digest)
    requires d.Prev() == Some(root)
    ensures Leaving(root, d) == {}
  {
    forall x ensures x !in Leaving(root, d) {
      LeavingIs(root, d, x);
    }
  }

  lemma OneSummarised(d: Digest, key: Name, path: Path)
    requires d.payload.SetNamespaceKey? && d.payload.key == key && d.payload.path == path
    ensures Summarises(Touch(map[], key, Some(path)), {d})
  {
    TouchRecords(map[], key, Some(path));
  }
}
