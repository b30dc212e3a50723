/** A node's whole life as its callers see it: any sequence of inserts,
    subscriptions, reads, hang-ups and compactions, and what every subscriber
    may rely on throughout (crates/lotusd/src/core.rs,
    crates/lotusd/src/subscribe.rs). */
module Life {
  import opened Wire
  import opened Ledger
  import opened Lineage
  import opened Storage
  import opened Ingest
  import opened Walks
  import opened Chains
  import opened Differ
  import opened Subscribe
  import opened Watch
  import opened Cores
  import opened Retention

  datatype Action =
    | Offers(batch: seq<Envelope>, now: int)
    | Opens(filter: Filter)
    | Reads(id: nat)
    | HangsUp(id: nat)
    | Prunes(cutoff: Option<int>, keep: nat, minPrune: nat, pinned: set<Digest>)

  ghost function OfferedIn(actions: seq<Action>): set<Digest> {
    if actions == [] then {}
    else (if actions[0].Offers? then Offered(actions[0].batch) else {}) + OfferedIn(actions[1..])
  }

  // ---------------------------------------------------------------------
  // A node at one time, and what an action makes of it

  /** A registry and its record at one time. */
  datatype Roll =
    Roll(head: Digest, subscribers: map<nat, Subscriber>, seen: map<nat, Digest>, quiet: map<nat, set<Digest>>)

  datatype Node = Node(root: Digest, books: Books, roll: Roll)

  ghost predicate Filled(r: Roll) {
    r.subscribers.Keys == r.seen.Keys == r.quiet.Keys
  }

  ghost function At(r: Roll, id: nat): Moment
    requires Filled(r) && id in r.subscribers
  {
    MomentAt(r.head, r.subscribers, r.seen, r.quiet, id)
  }

  ghost function Opening(r: Roll, id: nat, filter: Filter): Roll {
    r.(subscribers := r.subscribers[id := Subscriber(filter, r.head, None, false)],
       seen := r.seen[id := r.head], quiet := r.quiet[id := {}])
  }

  ghost function Draining(r: Roll, id: nat): Roll
    requires Filled(r) && id in r.subscribers
  {
    var s := r.subscribers[id];
    r.(subscribers := r.subscribers[id := s.(pending := None)], seen := r.seen[id := Anchor(s, r.seen[id])])
  }

  ghost function HangingUp(r: Roll, id: nat): Roll {
    r.(subscribers := r.subscribers - {id}, seen := r.seen - {id}, quiet := r.quiet - {id})
  }

  /** An insert is one movement for every subscription, or none moves. */
  ghost predicate Inserted(batch: seq<Envelope>, now: int, p: Node, q: Node) {
    && q.root == p.root && q.books == StoreAll(p.books, batch, None, now).books
    && if q.roll.head == p.roll.head then q.roll == p.roll
       else
         && q.roll.seen == p.roll.seen
         && SameWatches(p.roll.subscribers, q.roll.subscribers)
         && OnlyConcerned(p.roll.head, q.roll.head, p.roll.subscribers, q.roll.subscribers)
         && AllMove(p.roll.head, q.roll.head, p.roll.subscribers, q.roll.subscribers, p.roll.seen, p.roll.quiet,
                    q.roll.quiet)
  }

  /** A compaction by policy prunes below the cut the policy picks, or finds
      nothing to prune, and tells no one. */
  ghost predicate Compacts(cutoff: Option<int>, keep: nat, minPrune: nat, pinned: set<Digest>, path: seq<Held>,
                           p: Node, q: Node) {
    && q.roll == p.roll && IsHeldPath(p.books.entries, p.roll.head, path)
    && if !Prunable(path, keep, cutoff, minPrune, pinned) then q == p
       else
         && ChosenCut(path, keep, cutoff, pinned, q.root)
         && CutDown(p.books, q.books, q.root, p.roll.head) && CutTo(p.books, q.books, p.root, q.root, p.roll.head)
  }

  /** Just what each action does. */
  ghost predicate Did(action: Action, p: Node, q: Node)
    requires Filled(p.roll)
  {
    match action
    case Offers(batch, now) => Inserted(batch, now, p, q)
    case Opens(filter) => exists id: nat :: id !in p.roll.subscribers && q == p.(roll := Opening(p.roll, id, filter))
    case Reads(id) => q == if id in p.roll.subscribers then p.(roll := Draining(p.roll, id)) else p
    case HangsUp(id) => q == p.(roll := HangingUp(p.roll, id))
    case Prunes(cutoff, keep, minPrune, pinned) =>
      exists path :: Compacts(cutoff, keep, minPrune, pinned, path, p, q)
  }

  /** The node is a sound chain that stands at its canonical head, and holds
      the state replay arrives at there. */
  ghost predicate Sits(genesis: Base, n: Node) {
    && ChainSound(n.root, n.roll.head, n.books) && Tidy(n.root, n.books) && Filled(n.roll)
    && n.roll.head in n.books.versions && Replay(genesis, n.roll.head) == Some(n.books.versions[n.roll.head])
  }

  // ---------------------------------------------------------------------
  // Each subscription's record

  /** For each subscription all its moments, from registration up to now. */
  type Lives = map<nat, seq<Moment>>

  /** One more moment for every subscription, a first one for a new one. */
  ghost function Lengthened(lives: Lives, r: Roll): Lives
    requires Filled(r)
  {
    map id | id in r.subscribers :: (if id in lives then lives[id] else []) + [At(r, id)]
  }

  /** The records a run of nodes leaves. */
  ghost function LivesOver(nodes: seq<Node>): Lives
    requires forall n :: n in nodes ==> Filled(n.roll)
    decreases |nodes|
  {
    if nodes == [] then map[] else Lengthened(LivesOver(nodes[..|nodes| - 1]), nodes[|nodes| - 1].roll)
  }

  ghost predicate Recorded(genesis: Base, r: Roll, lives: Lives)
    requires Filled(r)
  {
    && lives.Keys == r.subscribers.Keys
    && forall id :: id in r.subscribers ==> IsWatch(genesis, lives[id]) && lives[id][|lives[id]| - 1] == At(r, id)
  }

  lemma WatchStarts(genesis: Base, head: Digest, filter: Filter)
    requires Replay(genesis, head).Some?
    ensures IsWatch(genesis, [Moment(head, Subscriber(filter, head, None, false), head, {})])
  {
  }

  lemma WatchGoesOn(genesis: Base, run: seq<Moment>, n: Moment)
    requires IsWatch(genesis, run) && Replay(genesis, n.head).Some?
    requires var m := run[|run| - 1]; n == m || Moves(m, n) || Drains(m, n)
    ensures IsWatch(genesis, run + [n])
  {
    hide Replay;
    hide Moves;
    hide Drains;
    var more := run + [n];
    forall i: nat | i + 1 < |more| ensures Goes(more, i) {
      if i + 1 < |run| { assert Goes(run, i); }
    }
  }

  lemma WatchNotEmpty(genesis: Base, run: seq<Moment>)
    requires IsWatch(genesis, run)
    ensures run != []
  {
  }

  /** The step a subscription takes from one roll to the next; a new one just
      opened. */
  ghost predicate Stepped(p: Roll, q: Roll, id: nat)
    requires Filled(p) && Filled(q) && id in q.subscribers
  {
    var n := At(q, id);
    if id in p.subscribers then n == At(p, id) || Moves(At(p, id), n) || Drains(At(p, id), n)
    else n == Moment(q.head, Subscriber(n.s.filter, q.head, None, false), q.head, {})
  }

  /** Whatever was done, every subscription took a step it may take. */
  lemma DidSteps(action: Action, p: Node, q: Node, id: nat)
    requires Filled(p.roll) && Filled(q.roll) && Did(action, p, q) && id in q.roll.subscribers
    ensures Stepped(p.roll, q.roll, id)
  {
    hide Moves;
    hide StoreAll;
    hide CutTo;
    hide CutDown;
    hide IsHeldPath;
    hide Prunable;
    hide ChosenCut;
  }

  lemma LifeGoesOn(genesis: Base, p: Roll, run: seq<Moment>, q: Roll, id: nat)
    requires Filled(p) && Filled(q) && id in q.subscribers && Stepped(p, q, id) && Replay(genesis, q.head).Some?
    requires if id in p.subscribers then IsWatch(genesis, run) && run[|run| - 1] == At(p, id) else run == []
    ensures IsWatch(genesis, run + [At(q, id)])
  {
    hide Replay;
    hide Moves;
    hide Drains;
    if id in p.subscribers {
      WatchGoesOn(genesis, run, At(q, id));
    } else {
      WatchStarts(genesis, q.head, q.subscribers[id].filter);
      assert [] + [At(q, id)] == [At(q, id)];
    }
  }

  lemma RecordGoesOn(genesis: Base, p: Roll, lives: Lives, q: Roll)
    requires Filled(p) && Filled(q) && Recorded(genesis, p, lives) && Replay(genesis, q.head).Some?
    requires forall id :: id in q.subscribers ==> Stepped(p, q, id)
    ensures Recorded(genesis, q, Lengthened(lives, q))
  {
    hide IsWatch;
    hide Replay;
    hide Stepped;
    forall id | id in q.subscribers ensures IsWatch(genesis, Lengthened(lives, q)[id]) {
      LifeGoesOn(genesis, p, if id in lives then lives[id] else [], q, id);
    }
  }

  /** A run of actions: just what each action does, and a sound node before
      and after every one. */
  ghost predicate Lived(genesis: Base, actions: seq<Action>, nodes: seq<Node>) {
    && |nodes| == |actions| + 1
    && (forall i :: 0 <= i < |nodes| ==> Sits(genesis, nodes[i]))
    && (forall i :: 0 <= i < |actions| ==> Did(actions[i], nodes[i], nodes[i + 1]))
  }

  lemma LivedBefore(genesis: Base, actions: seq<Action>, nodes: seq<Node>, k: nat)
    requires Lived(genesis, actions, nodes) && k <= |actions|
    ensures Lived(genesis, actions[..k], nodes[..k + 1])
  {
    hide Sits;
    hide Did;
  }

  lemma LivedMore(genesis: Base, actions: seq<Action>, nodes: seq<Node>, action: Action, n: Node)
    requires Lived(genesis, actions, nodes) && Sits(genesis, n) && Did(action, nodes[|nodes| - 1], n)
    ensures Lived(genesis, actions + [action], nodes + [n])
  {
    hide Sits;
    hide Did;
  }

  lemma SitsFilled(genesis: Base, n: Node)
    requires Sits(genesis, n)
    ensures Filled(n.roll) && Replay(genesis, n.roll.head).Some?
  {
    hide ChainSound;
    hide Tidy;
    hide Replay;
  }

  lemma LivedFilled(genesis: Base, actions: seq<Action>, nodes: seq<Node>)
    requires Lived(genesis, actions, nodes)
    ensures forall n :: n in nodes ==> Filled(n.roll)
  {
    hide Sits;
    hide Did;
    forall n | n in nodes ensures Filled(n.roll) { SitsFilled(genesis, n); }
  }

  lemma RecordStarts(genesis: Base, nodes: seq<Node>)
    requires |nodes| == 1 && Filled(nodes[0].roll) && nodes[0].roll.subscribers == map[]
    ensures Recorded(genesis, nodes[0].roll, LivesOver(nodes))
  {
    hide IsWatch;
  }

  /** Over any run from a node's opening on, each subscription lived through
      published movements and drains only. */
  lemma {:induction false} LivesAreWatches(genesis: Base, actions: seq<Action>, nodes: seq<Node>)
    requires Lived(genesis, actions, nodes) && nodes[0].roll.subscribers == map[]
    ensures forall n :: n in nodes ==> Filled(n.roll)
    ensures Recorded(genesis, nodes[|actions|].roll, LivesOver(nodes))
    decreases |actions|
  {
    hide Sits;
    hide Did;
    hide IsWatch;
    hide Replay;
    hide Stepped;
    hide Recorded;
    hide Lengthened;
    LivedFilled(genesis, actions, nodes);
    var k := |actions|;
    assert nodes[..k + 1] == nodes;
    if k == 0 {
      SitsFilled(genesis, nodes[0]);
      RecordStarts(genesis, nodes);
    } else {
      var p, q := nodes[k - 1], nodes[k];
      LivedBefore(genesis, actions, nodes, k - 1);
      LivesAreWatches(genesis, actions[..k - 1], nodes[..k]);
      SitsFilled(genesis, q);
      assert nodes[..k][k - 1] == p && Did(actions[k - 1], p, q);
      forall id | id in q.roll.subscribers ensures Stepped(p.roll, q.roll, id) { DidSteps(actions[k - 1], p, q, id); }
      RecordGoesOn(genesis, p.roll, LivesOver(nodes[..k]), q.roll);
    }
  }

  /** What a subscriber with nothing pending may rely on: all it watches reads
      at the current head as it did at the head of its last notification, or
      where it opened, unless an envelope of the movements that passed it by
      shifted it. */
  ghost predicate Reliable(genesis: Base, n: Node, id: nat)
    requires Filled(n.roll) && id in n.roll.subscribers && n.roll.head in n.books.versions
  {
    n.roll.subscribers[id].pending.None? ==>
      && Replay(genesis, n.roll.seen[id]).Some?
      && forall key, path ::
           Interested(n.roll.subscribers[id].filter, key, path) && Unshifted(n.roll.quiet[id], key, path) ==>
           ReadAt(genesis, n.roll.seen[id], key, path) == Read(n.books.versions[n.roll.head], key, SegmentsOf(path))
  }

  /** At every moment of any run every subscriber may rely on what it watches. */
  lemma ReliableThroughout(genesis: Base, actions: seq<Action>, nodes: seq<Node>, k: nat, id: nat)
    requires Lived(genesis, actions, nodes) && nodes[0].roll.subscribers == map[] && k <= |actions|
    requires Filled(nodes[k].roll) && nodes[k].roll.head in nodes[k].books.versions && id in nodes[k].roll.subscribers
    ensures Reliable(genesis, nodes[k], id)
  {
    hide Did;
    hide ChainSound;
    hide Tidy;
    hide Replay;
    hide Informed;
    LivedBefore(genesis, actions, nodes, k);
    LivesAreWatches(genesis, actions[..k], nodes[..k + 1]);
    var n, run := nodes[k], LivesOver(nodes[..k + 1])[id];
    assert nodes[..k + 1][k] == n && Sits(genesis, n);
    hide Lived;
    WatchNotEmpty(genesis, run);
    hide IsWatch;
    WatchedOverRun(genesis, run, |run| - 1);
    InformedReplays(genesis, n.roll.head, n.roll.subscribers[id], n.roll.seen[id], n.roll.quiet[id]);
  }

  lemma InformedReplays(genesis: Base, head: Digest, s: Subscriber, seen: Digest, quiet: set<Digest>)
    requires Informed(genesis, head, s, seen, quiet)
    ensures s.pending.None? ==> Replay(genesis, seen).Some?
  {
    hide Replay;
  }

  // ---------------------------------------------------------------------
  // The node's own methods live so

  /** What an action may be: a compaction keeps at least one envelope, and no
      digest it offers collides with one held. */
  ghost predicate Allowed(keys: set<Digest>, action: Action) {
    && (action.Prunes? ==> action.keep >= 1)
    && (action.Offers? ==> DigestsPin(keys + Offered(action.batch)))
  }

  ghost function RollOf(core: Core): Roll
    reads core, core.chain, core.subscriptions
  {
    Roll(core.chain.head, core.subscriptions.subscribers, core.seen, core.quiet)
  }

  ghost function NodeOf(core: Core): Node
    reads core, core.chain, core.storage, core.subscriptions
  {
    Node(core.chain.root, BooksOf(core.storage), RollOf(core))
  }

  lemma LiveSits(core: Core)
    requires core.Valid() && core.Tidied()
    ensures Sits(core.genesis, NodeOf(core)) && SoundFrom(core.chain.root, BooksOf(core.storage))
    ensures Filled(RollOf(core))
  {
    hide AllInformed;
    hide SoundFrom;
    hide Tidy;
    hide Replay;
    ChainIsSound(core.chain.root, core.chain.head, BooksOf(core.storage));
    hide ChainSound;
    HeadReplays(core.genesis, core.chain.root, core.chain.head, BooksOf(core.storage));
    AllInformedKeys(core.genesis, core.chain.root, core.chain.head, core.storage.Log(), core.subscriptions.subscribers,
                    core.seen, core.quiet);
  }

  lemma ChainIsSound(root: Digest, head: Digest, b: Books)
    requires ChainSound(root, head, b)
    ensures SoundFrom(root, b)
  {
    hide SoundFrom;
  }

  lemma StoresNoMore(root: Digest, b: Books, batch: seq<Envelope>, now: int)
    requires SoundFrom(root, b)
    ensures StoreAll(b, batch, None, now).books.entries.Keys <= b.entries.Keys + Offered(batch)
  {
    hide Sound;
    StoreAllSound(Base(root, b.versions[root]), b, batch, None, now);
  }

  lemma PrunesOnly(b: Books, c: Books, to: Digest, head: Digest)
    requires CutDown(b, c, to, head)
    ensures c.entries.Keys <= b.entries.Keys
  {
  }

  method Offer(core: Core, batch: seq<Envelope>, now: int)
    requires core.Valid() && core.Tidied() && DigestsPin(core.storage.envelopes.Keys + Offered(batch))
    requires SoundFrom(core.chain.root, BooksOf(core.storage))
    modifies core`seen, core`quiet, core.storage, core.chain`head, core.subscriptions
    ensures core.Valid() && core.Tidied() && Inserted(batch, now, old(NodeOf(core)), NodeOf(core))
    ensures core.storage.envelopes.Keys <= old(core.storage.envelopes.Keys) + Offered(batch)
  {
    hide Core.Valid;
    hide Core.Tidied;
    hide StoreAll;
    hide CachesPath;
    hide Grows;
    hide AllMove;
    hide Replay;
    hide SoundFrom;
    hide DigestsPin;
    hide Offered;
    hide SameWatches;
    hide OnlyConcerned;
    StoresNoMore(core.chain.root, BooksOf(core.storage), batch, now);
    var r := core.Insert(batch, now);
  }

  method Prune(core: Core, cutoff: Option<int>, keep: nat, minPrune: nat, pinned: set<Digest>)
      returns (ghost path: seq<Held>)
    requires core.Valid() && core.Tidied() && keep >= 1
    modifies core`oldest, core`recorded, core.chain`root, core.storage
    ensures core.Valid() && core.Tidied()
    ensures Compacts(cutoff, keep, minPrune, pinned, path, old(NodeOf(core)), NodeOf(core))
    ensures core.storage.envelopes.Keys <= old(core.storage.envelopes.Keys)
  {
    hide Core.Tidied;
    hide ChainSound;
    hide AllInformed;
    hide Replay;
    hide CutTo;
    hide CutDown;
    hide Footed;
    hide IsHeldPath;
    hide Prunable;
    hide ChosenCut;
    hide MemStorage.Valid;
    ghost var before := BooksOf(core.storage);
    var r;
    r, path := core.CompactBefore(cutoff, keep, minPrune, pinned);
    if r.value.pruned > 0 { PrunesOnly(before, BooksOf(core.storage), core.oldest, core.chain.head); }
  }

  /** Any one action does just what it is to do, and leaves the node sound. */
  method Perform(core: Core, action: Action)
    requires core.Valid() && core.Tidied() && Allowed(core.storage.envelopes.Keys, action) && Filled(RollOf(core))
    requires SoundFrom(core.chain.root, BooksOf(core.storage))
    modifies core`seen, core`quiet, core`oldest, core`recorded, core.storage, core.chain, core.subscriptions
    ensures core.Valid() && core.Tidied() && Did(action, old(NodeOf(core)), NodeOf(core))
    ensures core.storage.envelopes.Keys <= old(core.storage.envelopes.Keys) + OfferedIn([action])
  {
    hide Core.Valid;
    hide Core.Tidied;
    hide Inserted;
    hide Compacts;
    hide Replay;
    hide Informed;
    hide SoundFrom;
    hide DigestsPin;
    hide Offered;
    OneOffered(action);
    ghost var roll := RollOf(core);
    match action {
      case Offers(batch, now) =>
        Offer(core, batch, now);
      case Opens(filter) =>
        var id := core.Subscribe(filter);
        assert RollOf(core) == Opening(roll, id, filter);
      case Reads(id) =>
        if id in core.subscriptions.subscribers {
          var r := core.Drain(id);
          assert RollOf(core) == Draining(roll, id);
        }
      case HangsUp(id) =>
        core.Unsubscribe(id);
      case Prunes(cutoff, keep, minPrune, pinned) =>
        var path := Prune(core, cutoff, keep, minPrune, pinned);
    }
  }

  lemma OneOffered(action: Action)
    ensures OfferedIn([action]) == if action.Offers? then Offered(action.batch) else {}
  {
    assert [action][1..] == [];
  }

  ghost predicate AllAllowed(keys: set<Digest>, actions: seq<Action>) {
    && DigestsPin(keys + OfferedIn(actions))
    && forall i :: 0 <= i < |actions| && actions[i].Prunes? ==> actions[i].keep >= 1
  }

  lemma NextAllowed(keys: set<Digest>, actions: seq<Action>, keys': set<Digest>)
    requires AllAllowed(keys, actions) && actions != []
    ensures Allowed(keys, actions[0])
    ensures keys' <= keys + OfferedIn([actions[0]]) ==> AllAllowed(keys', actions[1..])
  {
    OneOffered(actions[0]);
    assert forall i :: 0 <= i < |actions[1..]| ==> actions[1..][i] == actions[i + 1];
  }

  /** At every moment of a run every subscriber may rely on what it watches. */
  ghost predicate AllReliable(genesis: Base, nodes: seq<Node>)
  {
    forall n, id :: n in nodes && id in n.roll.subscribers ==>
      Filled(n.roll) && n.roll.head in n.books.versions && Reliable(genesis, n, id)
  }

  lemma Throughout(genesis: Base, actions: seq<Action>, nodes: seq<Node>)
    requires Lived(genesis, actions, nodes) && nodes[0].roll.subscribers == map[]
    ensures AllReliable(genesis, nodes)
  {
    hide Reliable;
    hide Did;
    hide ChainSound;
    hide Tidy;
    hide Replay;
    forall n, id | n in nodes && id in n.roll.subscribers
      ensures Filled(n.roll) && n.roll.head in n.books.versions && Reliable(genesis, n, id)
    {
      var k: nat :| k < |nodes| && nodes[k] == n;
      assert Sits(genesis, nodes[k]);
      ReliableThroughout(genesis, actions, nodes, k, id);
    }
  }

  lemma OnlyOne(genesis: Base, n: Node)
    requires Sits(genesis, n)
    ensures Lived(genesis, [], [n])
  {
    hide Sits;
  }

  /** Over every run of inserts, subscriptions, reads, hang-ups and
      compactions from a node's opening on, each action does just what it is
      to do, each subscription lives through published movements and drains
      only, and at every moment it may rely on what it watches. */
  method Live(core: Core, actions: seq<Action>) returns (ghost nodes: seq<Node>)
    requires core.Valid() && core.Tidied() && core.subscriptions.subscribers == map[]
    requires AllAllowed(core.storage.envelopes.Keys, actions)
    modifies core`seen, core`quiet, core`oldest, core`recorded, core.storage, core.chain, core.subscriptions
    ensures core.Valid() && core.Tidied()
    ensures Lived(core.genesis, actions, nodes) && nodes[0] == old(NodeOf(core)) && nodes[|actions|] == NodeOf(core)
    ensures AllReliable(core.genesis, nodes)
  {
    hide Lived;
    hide AllAllowed;
    hide Allowed;
    hide OfferedIn;
    hide Core.Valid;
    hide Core.Tidied;
    hide Did;
    hide Sits;
    hide AllReliable;
    LiveSits(core);
    nodes := [NodeOf(core)];
    OnlyOne(core.genesis, NodeOf(core));
    for i := 0 to |actions|
      invariant core.Valid() && core.Tidied() && AllAllowed(core.storage.envelopes.Keys, actions[i..])
      invariant |nodes| == i + 1 && nodes[0] == old(NodeOf(core)) && nodes[i] == NodeOf(core)
      invariant Lived(core.genesis, actions[..i], nodes)
    {
      ghost var keys, rest := core.storage.envelopes.Keys, actions[i..];
      assert rest[0] == actions[i] && rest[1..] == actions[i + 1..] && actions[..i + 1] == actions[..i] + [actions[i]];
      NextAllowed(keys, rest, keys);
      LiveSits(core);
      Perform(core, actions[i]);
      LiveSits(core);
      NextAllowed(keys, rest, core.storage.envelopes.Keys);
      LivedMore(core.genesis, actions[..i], nodes, actions[i], NodeOf(core));
      nodes := nodes + [NodeOf(core)];
    }
    assert actions[..|actions|] == actions;
    Throughout(core.genesis, actions, nodes);
  }
}
