/** A node: the chain, its store, and the watchers told of every movement of
    the head (crates/lotusd/src/core.rs). */
module Cores {
  import opened Wire
  import opened Ledger
  import opened Lineage
  import opened ForkChoice
  import opened Pruning
  import opened Storage
  import opened Ingest
  import opened Walks
  import opened Compaction
  import opened Chains
  import opened ChangeSets
  import opened Differ
  import opened Subscribe
  import opened Watch
  import opened Retention

  /** Everything the books hold stands on the root. */
  ghost predicate Tidy(root: Digest, b: Books) {
    && (forall d :: d in b.entries ==> IsAncestor(root, d))
    && (forall d :: d in b.versions ==> IsAncestor(root, d))
  }

  lemma StoreOneTidy(root: Digest, b: Books, e: Envelope, now: int)
    requires Tidy(root, b) && e.digest.Prev().Some?
    ensures Tidy(root, StoreOne(b, e, now).books)
  {
    hide Verify;
    hide Apply;
    assert e.digest.Prev().value in b.versions ==> IsAncestor(root, e.digest);
  }

  lemma {:induction false} StoreAllTidy(root: Digest, b: Books, batch: seq<Envelope>, last: Option<Digest>, now: int)
    requires Tidy(root, b)
    ensures Tidy(root, StoreAll(b, batch, last, now).books)
    decreases |batch|
  {
    hide StoreOne;
    hide Tidy;
    if batch == [] || batch[0].digest.Prev().None? || (last.Some? && last != batch[0].digest.Prev()) {
    } else {
      StoreOneTidy(root, b, batch[0], now);
      var one := StoreOne(b, batch[0], now);
      StoreAllTidy(root, one.books, batch[1..], Some(batch[0].digest), now);
    }
  }

  lemma SoundChainStores(root: Digest, head: Digest, b: Books, batch: seq<Envelope>, now: int)
    requires ChainSound(root, head, b)
    ensures root in b.versions && SoundFrom(root, StoreAll(b, batch, None, now).books)
  {
    hide Sound;
    hide StoreAll;
    SoundStores(root, b, batch, now);
  }

  lemma RootGrown(b: Books, c: Books, root: Digest)
    requires Grows(b, c) && root in b.versions
    ensures root in c.versions && c.versions[root] == b.versions[root]
  {
  }

  /** A chain's head replays, from as far back as its root does. */
  lemma HeadReplays(genesis: Base, root: Digest, head: Digest, b: Books)
    requires ChainSound(root, head, b) && Replay(genesis, root) == Some(b.versions[root])
    ensures head in b.versions && head in b.entries && IsAncestor(root, head)
    ensures Replay(genesis, head) == Some(b.versions[head])
  {
    hide RulesHold;
    hide StatusOn;
    OnPathDescends(Weigh(b.entries), root, head);
    Rebase(genesis, root, head);
  }

  /** Two heads of one growing chain share its root, so the log can always
      tell what lies between them. */
  lemma HeadsMeet(root: Digest, from: Digest, head: Digest, b: Books, c: Books)
    requires ChainSound(root, from, b) && ChainSound(root, head, c) && Grows(b, c)
    ensures !(Named(c.entries.Keys, from) !! Named(c.entries.Keys, head))
  {
    hide SoundFrom;
    RootNamed(root, from, Weigh(b.entries), c.entries.Keys);
    RootNamed(root, head, Weigh(c.entries), c.entries.Keys);
  }

  lemma RootNamed(root: Digest, h: Digest, log: Log, keys: set<Digest>)
    requires OnPath(log, root, h) && log.Keys <= keys
    ensures root in Named(keys, h)
  {
    OnPathDescends(log, root, h);
    PathStored(log, root, root, h);
    NamedReaches(keys, root, h);
  }

  /** Every subscriber stands informed, every orphan it is yet to be told of is
      off for good, and so is any head it was told of that is not behind. */
  ghost predicate AllInformed(genesis: Base, root: Digest, head: Digest, log: Log, subscribers: map<nat, Subscriber>,
                              seen: map<nat, Digest>, quiet: map<nat, set<Digest>>) {
    && seen.Keys == subscribers.Keys && quiet.Keys == subscribers.Keys
    && forall id :: id in subscribers ==>
         && Informed(genesis, head, subscribers[id], seen[id], quiet[id])
         && OrphansOff(log, root, subscribers[id]) && Behind(log, root, head, subscribers[id])
  }

  /** What has passed each subscriber by once a movement was published. */
  ghost function QuietAfter(quiet: map<nat, set<Digest>>, subscribers: map<nat, Subscriber>, from: Digest, to: Digest,
                            movement: Movement): map<nat, set<Digest>>
    requires quiet.Keys == subscribers.Keys
  {
    map id | id in quiet ::
      if Matches(subscribers[id].filter, movement) then {} else quiet[id] + Leaving(from, to) + Leaving(to, from)
  }

  ghost function MomentAt(head: Digest, subscribers: map<nat, Subscriber>, seen: map<nat, Digest>,
                          quiet: map<nat, set<Digest>>, id: nat): Moment
    requires id in subscribers && id in seen && id in quiet
  {
    Moment(head, subscribers[id], seen[id], quiet[id])
  }

  /** The same subscriptions, each with the filter it was registered with. */
  ghost predicate SameWatches(before: map<nat, Subscriber>, after: map<nat, Subscriber>) {
    && after.Keys == before.Keys
    && forall id :: id in after ==> after[id].filter == before[id].filter && after[id].openedAt == before[id].openedAt
  }

  /** Every subscription takes the one step publishing a movement is. */
  ghost predicate AllMove(from: Digest, to: Digest, before: map<nat, Subscriber>, after: map<nat, Subscriber>,
                          seen: map<nat, Digest>, quiet: map<nat, set<Digest>>, quiet': map<nat, set<Digest>>) {
    && before.Keys == after.Keys == seen.Keys == quiet.Keys == quiet'.Keys
    && forall id :: id in before ==>
         Moves(MomentAt(from, before, seen, quiet, id), MomentAt(to, after, seen, quiet', id))
  }

  lemma PublishMoves(from: Digest, to: Digest, movement: Movement, before: map<nat, Subscriber>,
                     after: map<nat, Subscriber>, seen: map<nat, Digest>, quiet: map<nat, set<Digest>>)
    requires IsMovement(from, to, movement)
    requires before.Keys == after.Keys == seen.Keys == quiet.Keys
    requires forall id :: id in after ==>
               if Matches(after[id].filter, movement) then Pushed(before[id], after[id], from, to, movement)
               else after[id] == before[id]
    ensures SameWatches(before, after)
    ensures AllMove(from, to, before, after, seen, quiet, QuietAfter(quiet, after, from, to, movement))
  {
    hide IsMovement;
    hide Matches;
    hide Accumulates;
    hide Leaving;
    var quiet' := QuietAfter(quiet, after, from, to, movement);
    forall id | id in before
      ensures Moves(MomentAt(from, before, seen, quiet, id), MomentAt(to, after, seen, quiet', id))
    {
      MovesBy(MomentAt(from, before, seen, quiet, id), MomentAt(to, after, seen, quiet', id), movement);
    }
  }

  lemma PublishInforms(genesis: Base, root: Digest, from: Digest, to: Digest, small: Log, log: Log, movement: Movement,
                       before: map<nat, Subscriber>, after: map<nat, Subscriber>,
                       seen: map<nat, Digest>, quiet: map<nat, set<Digest>>)
    requires AllInformed(genesis, root, from, small, before, seen, quiet) && Replay(genesis, to).Some?
    requires IsMovement(from, to, movement) && DigestsPin(log.Keys)
    requires IsHead(small, root, from) && IsHead(log, root, to)
    requires forall x :: x in small ==> x in log && log[x] == small[x]
    requires after.Keys == before.Keys
    requires forall id :: id in after ==>
               if Matches(after[id].filter, movement) then Pushed(before[id], after[id], from, to, movement)
               else after[id] == before[id]
    ensures AllInformed(genesis, root, to, log, after, seen, QuietAfter(quiet, after, from, to, movement))
  {
    hide Informed;
    hide OrphansOff;
    hide IsMovement;
    hide Matches;
    hide IsHead;
    hide Replay;
    hide DigestsPin;
    hide OffForGood;
    var quiet' := QuietAfter(quiet, after, from, to, movement);
    forall id | id in after
      ensures Informed(genesis, to, after[id], seen[id], quiet'[id])
      ensures OrphansOff(log, root, after[id]) && Behind(log, root, to, after[id])
    {
      if Matches(after[id].filter, movement) {
        PushInforms(genesis, from, to, movement, before[id], after[id], seen[id], quiet[id]);
        PushOrphansOff(small, log, root, from, to, movement, before[id], after[id]);
      } else {
        PassesBy(genesis, from, to, movement, before[id], seen[id], quiet[id]);
        StayOrphansOff(small, log, root, before[id]);
        StaysBehind(small, log, root, from, to, before[id]);
      }
    }
  }

  /** Just these subscriptions are not as they were: those that watch the head,
      a namespace an envelope of either branch writes, a path what one of them
      writes meets, or an envelope no longer under the head. */
  ghost predicate OnlyConcerned(from: Digest, to: Digest, before: map<nat, Subscriber>, after: map<nat, Subscriber>) {
    && after.Keys == before.Keys
    && (forall id :: id in after && after[id] != before[id] ==>
          after[id].wake && after[id].pending.Some? && after[id].pending.value.head == to)
    && forall id :: id in after ==>
         (after[id] == before[id] <==>
            !exists selector :: selector in before[id].filter &&
               (|| selector.HeadMoves?
                || (selector.InNamespace? &&
                     exists d :: (IsAncestor(d, from) <==> !IsAncestor(d, to)) &&
                       if d.payload.Init? then selector.key in d.payload.namespaces else d.payload.key == selector.key)
                || (selector.AtPath? &&
                     exists d :: (IsAncestor(d, from) <==> !IsAncestor(d, to)) &&
                       (if d.payload.Init? then selector.key in d.payload.namespaces
                        else
                          && d.payload.key == selector.key
                          && (d.payload.SetNamespaceKey? ==>
                                d.payload.path <= selector.path || selector.path <= d.payload.path)
                          && (d.payload.AmendNamespaceKey? && d.payload.target.Some? ==>
                                d.payload.target.value <= selector.path || selector.path <= d.payload.target.value)))
                || (selector.Orphans? && IsAncestor(selector.digest, from) && !IsAncestor(selector.digest, to))))
  }

  lemma AllLeftAlone(genesis: Base, root: Digest, from: Digest, to: Digest, small: Log, log: Log, movement: Movement,
                     before: map<nat, Subscriber>, after: map<nat, Subscriber>,
                     seen: map<nat, Digest>, quiet: map<nat, set<Digest>>)
    requires AllInformed(genesis, root, from, small, before, seen, quiet) && from != to
    requires IsMovement(from, to, movement) && IsHead(small, root, from) && IsHead(log, root, to)
    requires forall x :: x in small ==> x in log && log[x] == small[x]
    requires after.Keys == before.Keys
    requires forall id :: id in after ==>
               if Matches(after[id].filter, movement) then Pushed(before[id], after[id], from, to, movement)
               else after[id] == before[id]
    ensures OnlyConcerned(from, to, before, after)
  {
    hide Informed;
    hide OrphansOff;
    hide Behind;
    hide IsMovement;
    hide Matches;
    hide IsHead;
    hide IsAncestor;
    hide Accumulates;
    forall id | id in after
      ensures after[id] != before[id] ==>
                after[id].wake && after[id].pending.Some? && after[id].pending.value.head == to
      ensures after[id] == before[id] <==>
              !exists selector :: selector in before[id].filter &&
                 (|| selector.HeadMoves?
                  || (selector.InNamespace? &&
                       exists d :: (IsAncestor(d, from) <==> !IsAncestor(d, to)) &&
                         if d.payload.Init? then selector.key in d.payload.namespaces
                         else d.payload.key == selector.key)
                  || (selector.AtPath? &&
                       exists d :: (IsAncestor(d, from) <==> !IsAncestor(d, to)) &&
                         (if d.payload.Init? then selector.key in d.payload.namespaces
                          else
                            && d.payload.key == selector.key
                            && (d.payload.SetNamespaceKey? ==>
                                  d.payload.path <= selector.path || selector.path <= d.payload.path)
                            && (d.payload.AmendNamespaceKey? && d.payload.target.Some? ==>
                                  d.payload.target.value <= selector.path || selector.path <= d.payload.target.value)))
                  || (selector.Orphans? && IsAncestor(selector.digest, from) && !IsAncestor(selector.digest, to)))
    {
      LeftAloneExactly(small, log, root, from, to, movement, before[id], after[id]);
    }
  }

  lemma StayInformed(genesis: Base, root: Digest, head: Digest, small: Log, log: Log, subscribers: map<nat, Subscriber>,
                     seen: map<nat, Digest>, quiet: map<nat, set<Digest>>)
    requires AllInformed(genesis, root, head, small, subscribers, seen, quiet)
    requires forall x :: x in small ==> x in log && log[x] == small[x]
    ensures AllInformed(genesis, root, head, log, subscribers, seen, quiet)
  {
    hide Informed;
    hide OrphansOff;
    hide Behind;
    forall id | id in subscribers
      ensures OrphansOff(log, root, subscribers[id]) && Behind(log, root, head, subscribers[id])
    {
      StayOrphansOff(small, log, root, subscribers[id]);
      GrownBehind(small, log, root, head, subscribers[id]);
    }
  }

  lemma GrownLog(b: Books, c: Books)
    requires Grows(b, c)
    ensures forall x :: x in Weigh(b.entries) ==> x in Weigh(c.entries) && Weigh(c.entries)[x] == Weigh(b.entries)[x]
  {
  }

  class Core {
    const storage: MemStorage
    const chain: Chain
    const subscriptions: Subscriptions
    var oldest: Digest
    /** How many writes the store had seen when `oldest` was last put on disk. */
    ghost var recorded: nat
    /** Where the chain stood when the core was opened. */
    ghost var genesis: Base
    /** The head each subscriber was last told of. */
    ghost var seen: map<nat, Digest>
    /** The envelopes that passed each subscriber by since its anchor. */
    ghost var quiet: map<nat, set<Digest>>

    ghost predicate Valid()
      reads this, storage, chain, subscriptions
    {
      && chain.Valid(storage) && subscriptions.Valid() && oldest == chain.root
      && Replay(genesis, chain.root) == Some(storage.versions[chain.root])
      && AllInformed(genesis, chain.root, chain.head, storage.Log(), subscriptions.subscribers, seen, quiet)
    }

    /** Nothing an interrupted prune left behind is stored. */
    ghost predicate Tidied()
      reads chain, storage
    {
      Tidy(chain.root, BooksOf(storage))
    }

    constructor (storage: MemStorage, chain: Chain)
      requires chain.Valid(storage)
      ensures Valid() && this.storage == storage && this.chain == chain
      ensures genesis == Base(chain.root, storage.versions[chain.root])
      ensures fresh(subscriptions) && subscriptions.subscribers == map[]
    {
      this.storage, this.chain, oldest, recorded := storage, chain, chain.root, |storage.trail|;
      subscriptions := new Subscriptions();
      genesis := Base(chain.root, storage.versions[chain.root]);
      seen, quiet := map[], map[];
      new;
      ReplayAtRoot(genesis);
    }

    /** Takes in a run, and if the head ends up elsewhere publishes the
        movement, refused or not. Nobody is registered, dropped or given
        another filter by it. */
    method Insert(batch: seq<Envelope>, now: int) returns (r: Result<Insert, Error>)
      requires Valid() && DigestsPin(storage.envelopes.Keys + Offered(batch))
      modifies this`seen, this`quiet, storage, chain`head, subscriptions
      ensures Valid() && seen == old(seen) && (old(Tidied()) ==> Tidied())
      ensures var spec := StoreAll(old(BooksOf(storage)), batch, None, now);
              && BooksOf(storage) == spec.books && Grows(old(BooksOf(storage)), BooksOf(storage))
              && r == Report(old(chain.head), chain.head, IsAncestor(old(chain.head), chain.head), batch, spec)
      ensures SameWatches(old(subscriptions.subscribers), subscriptions.subscribers)
      ensures if chain.head == old(chain.head)
              then subscriptions.subscribers == old(subscriptions.subscribers) && quiet == old(quiet)
              else AllMove(old(chain.head), chain.head, old(subscriptions.subscribers), subscriptions.subscribers,
                           seen, old(quiet), quiet)
      ensures chain.head != old(chain.head) ==>
                OnlyConcerned(old(chain.head), chain.head, old(subscriptions.subscribers), subscriptions.subscribers)
    {
      hide StoreAll;
      hide CachesPath;
      hide ChainSound;
      hide AllInformed;
      hide Tidy;
      hide Grows;
      hide Replay;
      hide MemStorage.Valid;
      hide DigestsPin;
      hide AllMove;
      hide InsertTrail;
      hide Named;
      hide OnlyConcerned;
      var from := chain.head;
      ghost var before := BooksOf(storage);
      SoundChainStores(chain.root, from, before, batch, now);
      r := chain.InsertBatch(storage, batch, now);
      RootGrown(before, BooksOf(storage), chain.root);
      if Tidy(chain.root, before) { StoreAllTidy(chain.root, before, batch, None, now); }
      if chain.head != from {
        Announce(from, before);
      } else {
        GrownLog(before, BooksOf(storage));
        StayInformed(genesis, chain.root, from, Weigh(before.entries), storage.Log(), subscriptions.subscribers, seen,
                     quiet);
      }
    }

    /** Tells every matching subscriber what moving from one head to the next
        changed; the others pass it by undisturbed. */
    method Announce(from: Digest, ghost before: Books)
      requires chain.Valid(storage) && subscriptions.Valid() && chain.head != from
      requires ChainSound(chain.root, from, before) && Grows(before, BooksOf(storage))
      requires Replay(genesis, chain.root) == Some(storage.versions[chain.root])
      requires AllInformed(genesis, chain.root, from, Weigh(before.entries), subscriptions.subscribers, seen, quiet)
      modifies this`quiet, subscriptions
      ensures subscriptions.Valid()
      ensures AllInformed(genesis, chain.root, chain.head, storage.Log(), subscriptions.subscribers, seen, quiet)
      ensures SameWatches(old(subscriptions.subscribers), subscriptions.subscribers)
      ensures AllMove(from, chain.head, old(subscriptions.subscribers), subscriptions.subscribers, seen, old(quiet),
                      quiet)
      ensures OnlyConcerned(from, chain.head, old(subscriptions.subscribers), subscriptions.subscribers)
    {
      hide ChainSound;
      hide AllInformed;
      hide Grows;
      hide Replay;
      hide Leaving;
      hide MemStorage.Valid;
      hide Named;
      hide Matches;
      hide Pushed;
      hide Summarises;
      hide Minimal;
      hide IsHead;
      hide OnlyConcerned;
      ghost var after, subscribers := BooksOf(storage), subscriptions.subscribers;
      AllInformedKeys(genesis, chain.root, from, Weigh(before.entries), subscribers, seen, quiet);
      GrownLog(before, after);
      ChainFacts(chain.root, from, before);
      ChainFacts(chain.root, chain.head, after);
      HeadReplays(genesis, chain.root, chain.head, after);
      HeadsMeet(chain.root, from, chain.head, before, after);
      var movement := Diff(storage, from, chain.head);
      MovementMinimal(from, chain.head, movement.value);
      subscriptions.Publish(from, chain.head, movement.value);
      PublishInforms(genesis, chain.root, from, chain.head, Weigh(before.entries), Weigh(after.entries), movement.value,
                     subscribers, subscriptions.subscribers, seen, quiet);
      PublishMoves(from, chain.head, movement.value, subscribers, subscriptions.subscribers, seen, quiet);
      AllLeftAlone(genesis, chain.root, from, chain.head, Weigh(before.entries), Weigh(after.entries), movement.value,
                   subscribers, subscriptions.subscribers, seen, quiet);
      quiet := QuietAfter(quiet, subscriptions.subscribers, from, chain.head, movement.value);
    }

    /** Prunes what the retention policy lets go: never one of the newest
        `keep`, one stored at or after the cutoff, or anything a pin holds;
        and only when at least `minPrune` would go. Head, state there and
        watchers are untouched. On tidy books what stays is exactly the new
        oldest envelope and all that stands above it, and a pinned root stays
        where it is. What an interrupted prune left below the root counts as
        path: then the cut may be the root itself, or lie below it, and the
        chain is rooted there if the books can carry it. */
    method CompactBefore(cutoff: Option<int>, keep: nat, minPrune: nat, pinned: set<Digest>)
        returns (r: Result<Compacted, Error>, ghost path: seq<Held>)
      requires Valid() && keep >= 1
      modifies this`oldest, this`recorded, chain`root, storage
      ensures r.Ok? && r.value.from == old(oldest) && r.value.to == oldest == chain.root
      ensures IsHeldPath(old(storage.envelopes), chain.head, path)
      ensures r.value.pruned == 0 <==> !Prunable(path, keep, cutoff, minPrune, pinned)
      ensures storage.Valid() && r.value.pruned + |storage.envelopes| == |old(storage.envelopes)|
      ensures if r.value.pruned == 0 then oldest == old(oldest) && BooksOf(storage) == old(BooksOf(storage)) && Valid()
              else CutDown(old(BooksOf(storage)), BooksOf(storage), oldest, chain.head)
      ensures r.value.pruned > 0 ==>
                && ChosenCut(path, keep, cutoff, pinned, oldest)
                && r.value.pruned >= minPrune && Height(chain.head) - Height(oldest) + 1 >= keep
                && (forall pin :: pin in pinned ==> IsAncestor(oldest, pin) && IsAncestor(pin, chain.head))
      ensures r.value.pruned > 0 <==>
                cutoff.Some? &&
                exists i: nat :: FirstLoose(path, keep, cutoff.value, pinned, i) && |path| - i >= minPrune
      ensures r.value.pruned > 0 ==>
                exists i: nat ::
                  0 < i < |path| && FirstLoose(path, keep, cutoff.value, pinned, i) && path[i - 1].digest == oldest
      ensures cutoff.Some? && (forall j, k :: 0 <= j <= k < |path| ==> path[k].storedAt <= path[j].storedAt) ==>
                forall i :: 0 <= i < |path| && path[i].storedAt >= cutoff.value ==>
                  path[i].digest in storage.envelopes
      ensures r.value.pruned > 0 ==>
                && recorded == |old(storage.trail)| <= |storage.trail|
                && (IsAncestor(old(oldest), oldest) ==>
                      forall i :: recorded <= i < |storage.trail| ==> ChainSound(oldest, chain.head, storage.trail[i]))
      ensures IsAncestor(old(oldest), oldest) ==> Valid()
      ensures r.value.pruned > 0 ==> (chain.Valid(storage) <==> Footed(oldest, chain.head, old(BooksOf(storage))))
      ensures old(Tidied()) ==>
                && Valid() && Tidied() && (old(oldest) in pinned ==> oldest == old(oldest))
                && CutTo(old(BooksOf(storage)), BooksOf(storage), old(oldest), oldest, chain.head)
    {
      hide Valid;
      hide IsHeldPath;
      hide FirstLoose;
      hide CutTo;
      hide CutDown;
      hide Keeps;
      hide Tidy;
      hide ChainSound;
      hide Footed;
      hide Named;
      hide Prunable;
      hide ChosenCut;
      hide MemStorage.Valid;
      var from := oldest;
      CoreFacts(this);
      ghost var before := BooksOf(storage);
      if Tidied() { NotCut(from, chain.head, before); }
      var held := HeldPath(storage, chain.head);
      path := held;
      var chosen := ChooseCut(held, keep, cutoff, pinned);
      Chosen(held, keep, cutoff, minPrune, pinned, chosen);
      if chosen.None? || chosen.value.1 < minPrune {
        PathHeld(chain.head, before.entries, held);
        PrunableIs(held, keep, cutoff, minPrune, pinned);
        return Ok(Compacted(from, from, 0)), path;
      }
      var cut := held[chosen.value.0].digest;
      CutOnPath(chain.head, before.entries, held, keep, cutoff.value, pinned, chosen.value.0 + 1);
      if Tidied() { CutAboveRoot(from, chain.head, before, held, chosen.value.0); }
      if Tidied() && from in pinned { AncestorAntisymmetric(from, cut); }
      var pruned := CutAt(cut);
      PathDoomed(before.entries, chain.head, held, chosen.value.0 + 1);
      NewerKept(chain.head, before, BooksOf(storage), held, keep, cutoff.value, pinned, chosen.value.0 + 1);
      PrunableIs(held, keep, cutoff, minPrune, pinned);
      return Ok(Compacted(from, cut, pruned)), path;
    }

    /** Puts the oldest envelope on disk, in one write of its own. */
    method RecordOldest(cut: Digest)
      modifies this`oldest, this`recorded
      ensures oldest == cut && recorded == |storage.trail|
    {
      oldest, recorded := cut, |storage.trail|;
    }

    /** Moves the root to a cut the climb from the head names: recorded before
        the first write of the prune, so that at every write of it the store
        is a chain at the recorded root, with the same head. */
    method CutAt(cut: Digest) returns (pruned: nat)
      requires Valid() && cut in Named(storage.envelopes.Keys, chain.head) && cut in storage.envelopes
      modifies this`oldest, this`recorded, chain`root, storage
      ensures recorded == |old(storage.trail)| <= |storage.trail|
      ensures IsAncestor(old(oldest), cut) ==>
                forall i :: recorded <= i < |storage.trail| ==> ChainSound(oldest, chain.head, storage.trail[i])
      ensures oldest == chain.root == cut && storage.Valid()
      ensures CutDown(old(BooksOf(storage)), BooksOf(storage), cut, chain.head)
      ensures pruned == |Doomed(old(storage.envelopes.Keys), cut)|
      ensures pruned + |storage.envelopes| == |old(storage.envelopes)|
      ensures IsAncestor(old(oldest), cut) ==> Valid()
      ensures chain.Valid(storage) <==> old(Footed(cut, chain.head, BooksOf(storage)))
      ensures old(Tidied()) && IsAncestor(old(oldest), cut) && cut != old(oldest) ==>
                Tidied() && CutTo(old(BooksOf(storage)), BooksOf(storage), old(oldest), cut, chain.head)
    {
      hide AllInformed;
      hide ChainSound;
      hide Footed;
      hide Tidy;
      hide Replay;
      hide Pruned;
      hide Doomed;
      hide OnlyBetween;
      hide Resumable;
      hide Named;
      hide CutTo;
      hide CutDown;
      hide OnPath;
      hide IsHead;
      hide DigestsPin;
      hide Interruptible;
      hide MemStorage.Valid;
      hide Subscriptions.Valid;
      ghost var before, from := BooksOf(storage), oldest;
      ChainFacts(from, chain.head, before);
      HeadReplays(genesis, from, chain.head, before);
      NamedAncestors(before.entries.Keys, cut, chain.head);
      if IsAncestor(from, cut) { CutReplays(genesis, from, chain.head, cut, before); }
      ghost var trail := storage.trail;
      RecordOldest(cut);
      var r := chain.Compact(storage, cut);
      pruned := r.value;
      if IsAncestor(from, cut) {
        CrashPoints(from, chain.head, cut, before, BooksOf(storage), storage.trail, trail);
      }
      TrailGrew(BooksOf(storage), storage.trail, before, cut, trail);
      CutsDown(cut, chain.head, before, BooksOf(storage));
      PrunedCount(before.entries, storage.envelopes, cut);
      if IsAncestor(from, cut) {
        CutKeptEntries(before.entries, storage.envelopes, cut);
        CutInformed(genesis, from, chain.head, cut, before, BooksOf(storage), subscriptions.subscribers, seen, quiet);
        if Tidy(from, before) && cut != from {
          CutTidy(from, chain.head, cut, before, BooksOf(storage));
          CutsTo(from, cut, chain.head, before, BooksOf(storage));
        }
      }
    }

    /** Registers a subscription at the current head. */
    method Subscribe(filter: Filter) returns (id: nat)
      requires Valid()
      modifies this`seen, this`quiet, subscriptions
      ensures Valid() && id !in old(subscriptions.subscribers)
      ensures subscriptions.subscribers ==
              old(subscriptions.subscribers)[id := Subscriber(filter, chain.head, None, false)]
      ensures seen == old(seen)[id := chain.head] && quiet == old(quiet)[id := {}]
    {
      hide AllInformed;
      hide Replay;
      hide ChainSound;
      hide Tidy;
      hide MemStorage.Valid;
      HeadReplays(genesis, chain.root, chain.head, BooksOf(storage));
      id := subscriptions.Register(filter, chain.head);
      OpenedInformed(genesis, chain.root, chain.head, storage.Log(), old(subscriptions.subscribers), seen, quiet, id,
                     filter);
      seen, quiet := seen[id := chain.head], quiet[id := {}];
    }

    /** Hands a subscriber what is pending, if anything is. Nothing pending,
        all it watches reads as it did at the head it was last told of. */
    method Drain(id: nat) returns (r: Option<Notification>)
      requires Valid() && id in subscriptions.subscribers
      modifies this`seen, subscriptions
      ensures Valid() && quiet == old(quiet)
      ensures r == old(subscriptions.subscribers)[id].pending
      ensures subscriptions.subscribers ==
              old(subscriptions.subscribers)[id := old(subscriptions.subscribers)[id].(pending := None)]
      ensures seen == old(seen)[id := if r.Some? then r.value.head else old(seen)[id]]
      ensures var s := old(subscriptions.subscribers)[id];
              && Informed(genesis, chain.head, s, old(seen)[id], quiet[id])
              && (r.Some? && HeadMoves in s.filter ==> r.value.from == old(seen)[id] && r.value.head == chain.head)
              && (r.Some? ==> forall d :: d in r.value.movement.orphaned ==> !IsAncestor(d, chain.head))
    {
      hide AllInformed;
      hide Replay;
      hide ChainSound;
      hide Tidy;
      hide Informed;
      hide MemStorage.Valid;
      ChainFacts(chain.root, chain.head, BooksOf(storage));
      DrainedInformed(genesis, chain.root, chain.head, storage.Log(), subscriptions.subscribers, seen, quiet, id);
      ghost var anchor := Anchor(subscriptions.subscribers[id], seen[id]);
      r := subscriptions.Take(id);
      seen := seen[id := anchor];
    }

    /** A dropped handle is forgotten; every other subscription stays. */
    method Unsubscribe(id: nat)
      requires Valid()
      modifies this`seen, this`quiet, subscriptions
      ensures Valid() && subscriptions.subscribers == old(subscriptions.subscribers) - {id}
      ensures seen == old(seen) - {id} && quiet == old(quiet) - {id}
    {
      hide Replay;
      hide ChainSound;
      hide Informed;
      hide OrphansOff;
      hide MemStorage.Valid;
      subscriptions.Deregister(id);
      seen, quiet := seen - {id}, quiet - {id};
    }
  }

  // ---------------------------------------------------------------------
  // Compaction by policy

  /** What a compaction pass did: where the oldest envelope stood, where it
      stands now, and how many envelopes went. */
  datatype Compacted = Compacted(from: Digest, to: Digest, pruned: nat)

  /** The policy has something to prune: there is a cutoff, not everything is
      held, and enough lies past what is. */
  ghost predicate Prunable(path: seq<Held>, keep: nat, cutoff: Option<int>, minPrune: nat, pinned: set<Digest>) {
    cutoff.Some? && exists i: nat :: FirstLoose(path, keep, cutoff.value, pinned, i) && |path| - i >= minPrune
  }

  /** The cut is the envelope before the first one nothing holds. */
  ghost predicate ChosenCut(path: seq<Held>, keep: nat, cutoff: Option<int>, pinned: set<Digest>, cut: Digest) {
    && cutoff.Some?
    && exists i: nat :: i + 1 < |path| && FirstLoose(path, keep, cutoff.value, pinned, i + 1) && path[i].digest == cut
  }

  lemma Chosen(path: seq<Held>, keep: nat, cutoff: Option<int>, minPrune: nat, pinned: set<Digest>,
               chosen: Option<(nat, nat)>)
    requires keep >= 1
    requires chosen.None? <==>
               cutoff.None? || forall i: nat :: i < |path| ==> Keeps(path, keep, cutoff.value, pinned, i)
    requires chosen.Some? ==>
               && 0 <= chosen.value.0 < |path| - 1
               && FirstLoose(path, keep, cutoff.value, pinned, chosen.value.0 + 1)
               && chosen.value.1 == |path| - (chosen.value.0 + 1)
    ensures Prunable(path, keep, cutoff, minPrune, pinned) <==> chosen.Some? && chosen.value.1 >= minPrune
    ensures chosen.Some? ==> ChosenCut(path, keep, cutoff, pinned, path[chosen.value.0].digest)
  {
    hide Keeps;
    if cutoff.Some? {
      forall i: nat | FirstLoose(path, keep, cutoff.value, pinned, i) ensures chosen.Some? && i == chosen.value.0 + 1 {
      }
    }
  }

  /** What the climb from the head finds stored, in that order. */
  ghost predicate IsHeldPath(entries: Entries, head: Digest, path: seq<Held>) {
    && (forall i :: 0 <= i < |path| ==>
          && path[i].digest in Named(entries.Keys, head) && Distance(head, path[i].digest) == i
          && path[i].digest in entries && path[i].storedAt == entries[path[i].digest].storedAt)
    && (forall d :: d in Named(entries.Keys, head) && d in entries ==> Distance(head, d) < |path|)
  }

  method HeldPath(storage: MemStorage, head: Digest) returns (path: seq<Held>)
    ensures IsHeldPath(storage.envelopes, head, path)
  {
    ghost var keys := storage.envelopes.Keys;
    path := [];
    var next := Some(head);
    assert head in Named(keys, head);
    while next.Some? && next.value in storage.envelopes
      invariant forall i :: 0 <= i < |path| ==>
                  && path[i].digest in Named(keys, head) && Distance(head, path[i].digest) == i
                  && path[i].digest in storage.envelopes
                  && path[i].storedAt == storage.envelopes[path[i].digest].storedAt
      invariant next.Some? ==> next.value in Named(keys, head) && Distance(head, next.value) == |path|
      invariant next.None? ==> forall d :: d in Named(keys, head) ==> Distance(head, d) < |path|
      decreases if next.Some? then Height(next.value) + 1 else 0
    {
      var digest := next.value;
      path := path + [Held(digest, storage.envelopes[digest].storedAt)];
      if digest.Prev().Some? { NextDown(keys, head, digest); } else { EndsAt(keys, head, digest); }
      next := digest.Prev();
    }
    if next.Some? {
      EndsAt(keys, head, next.value);
      forall d | d in Named(keys, head) && d in keys ensures Distance(head, d) < |path| {
        if Distance(head, d) == |path| { SameHeight(keys, head, d, next.value); }
      }
    }
  }

  /** What is on the path, and how far behind the head. */
  lemma OnHeldPath(head: Digest, entries: Entries, path: seq<Held>, i: nat)
    requires IsHeldPath(entries, head, path) && i < |path|
    ensures path[i].digest in Named(entries.Keys, head) && path[i].digest in entries
    ensures IsAncestor(path[i].digest, head) && Height(head) - Height(path[i].digest) == i
  {
    NamedAncestors(entries.Keys, path[i].digest, head);
  }

  lemma PathHeld(head: Digest, entries: Entries, path: seq<Held>)
    requires IsHeldPath(entries, head, path)
    ensures forall i :: 0 <= i < |path| ==> path[i].digest in entries
  {
    hide Named;
  }

  lemma PrunableIs(path: seq<Held>, keep: nat, cutoff: Option<int>, minPrune: nat, pinned: set<Digest>)
    ensures Prunable(path, keep, cutoff, minPrune, pinned) <==>
            cutoff.Some? &&
            exists i: nat :: FirstLoose(path, keep, cutoff.value, pinned, i) && |path| - i >= minPrune
  {
    hide FirstLoose;
  }

  /** A cut keeps all the path at and above it, and so, where arrival times
      fall along the path, all of it that is recent. */
  lemma NewerKept(head: Digest, b: Books, c: Books, path: seq<Held>, keep: nat, cutoff: int, pinned: set<Digest>,
                  index: nat)
    requires IsHeldPath(b.entries, head, path) && FirstLoose(path, keep, cutoff, pinned, index) && 0 < index < |path|
    requires CutDown(b, c, path[index - 1].digest, head)
    ensures forall i :: 0 <= i < index ==> path[i].digest in c.entries
    ensures (forall j, k :: 0 <= j <= k < |path| ==> path[k].storedAt <= path[j].storedAt) ==>
              forall i :: 0 <= i < |path| && path[i].storedAt >= cutoff ==> path[i].digest in c.entries
  {
    hide IsHeldPath;
    hide FirstLoose;
    hide Named;
    var cut := path[index - 1].digest;
    OnHeldPath(head, b.entries, path, index - 1);
    forall i | 0 <= i < index ensures path[i].digest in c.entries {
      OnHeldPath(head, b.entries, path, i);
      AncestorsComparable(cut, path[i].digest, head);
      if IsAncestor(path[i].digest, cut) { AncestorHeight(path[i].digest, cut); }
      PrunedAbove(b.entries, cut, path[i].digest);
    }
    if forall j, k :: 0 <= j <= k < |path| ==> path[k].storedAt <= path[j].storedAt {
      forall i | 0 <= i < |path| && path[i].storedAt >= cutoff ensures path[i].digest in c.entries {
        RecentIsNewer(path, keep, cutoff, pinned, index, i);
      }
    }
  }

  /** On tidy books the path runs from the head to the root. */
  lemma PathToRoot(root: Digest, head: Digest, b: Books, path: seq<Held>, i: nat)
    requires ChainSound(root, head, b) && Tidy(root, b) && IsHeldPath(b.entries, head, path) && i < |path|
    ensures IsAncestor(root, path[i].digest) && IsAncestor(path[i].digest, head)
    ensures path[i].digest == root <==> i == |path| - 1
  {
    hide SoundFrom;
    var keys := b.entries.Keys;
    NamedAncestors(keys, path[i].digest, head);
    RootNamed(root, head, Weigh(b.entries), keys);
    RootStored(root, b);
    assert Distance(head, root) < |path|;
    AncestorHeight(root, path[i].digest);
    NamedAncestors(keys, root, head);
    var last := path[|path| - 1].digest;
    AncestorHeight(root, last);
    SameHeight(keys, head, last, root);
    SameHeight(keys, head, path[i].digest, root);
  }

  lemma CutAboveRoot(root: Digest, head: Digest, b: Books, path: seq<Held>, i: nat)
    requires ChainSound(root, head, b) && Tidy(root, b) && IsHeldPath(b.entries, head, path) && i + 1 < |path|
    ensures IsAncestor(root, path[i].digest) && path[i].digest != root
  {
    hide ChainSound;
    hide Tidy;
    hide IsHeldPath;
    PathToRoot(root, head, b, path, i);
  }

  /** The digests of a path from the `i`th on. */
  ghost function PastOf(path: seq<Held>, i: nat): set<Digest>
    requires i <= |path|
    decreases |path| - i
  {
    if i == |path| then {} else {path[i].digest} + PastOf(path, i + 1)
  }

  lemma {:induction false} PastCounts(head: Digest, entries: Entries, path: seq<Held>, i: nat)
    requires IsHeldPath(entries, head, path) && i <= |path|
    ensures |PastOf(path, i)| == |path| - i
    ensures forall d :: d in PastOf(path, i) ==>
              d in Named(entries.Keys, head) && d in entries && Distance(head, d) >= i
    decreases |path| - i
  {
    if i == |path| {
    } else {
      PastCounts(head, entries, path, i + 1);
    }
  }

  /** Every envelope of the path past the cut goes. */
  lemma PathDoomed(entries: Entries, head: Digest, path: seq<Held>, index: nat)
    requires IsHeldPath(entries, head, path) && 1 <= index < |path|
    ensures |Doomed(entries.Keys, path[index - 1].digest)| >= |path| - index
  {
    hide IsHeldPath;
    var keys, cut := entries.Keys, path[index - 1].digest;
    OnHeldPath(head, entries, path, index - 1);
    PastCounts(head, entries, path, index);
    forall d | d in PastOf(path, index) ensures d in Doomed(keys, cut) { PastIsDoomed(keys, head, cut, d); }
    FewerThan(PastOf(path, index), Doomed(keys, cut));
  }

  lemma PastIsDoomed(keys: set<Digest>, head: Digest, cut: Digest, d: Digest)
    requires cut in Named(keys, head) && d in Named(keys, head) && d in keys && Height(d) < Height(cut)
    ensures d in Doomed(keys, cut)
  {
    NamedAncestors(keys, cut, head);
    NamedAncestors(keys, d, head);
    AncestorsComparable(cut, d, head);
    if IsAncestor(cut, d) { AncestorHeight(cut, d); }
    AncestorHeight(d, cut);
    NamedThrough(keys, d, cut, head);
    assert d in Below(keys, cut) && d in Named(keys, d);
  }

  lemma FewerThan<T>(some: set<T>, all: set<T>)
    requires some <= all
    ensures |some| <= |all|
  {
    SizeWithout(all, some);
  }

  /** Where compaction leaves the books: at a canonical cut, exactly the cut
      and what stands above it stays. */
  lemma CutTidy(root: Digest, head: Digest, cut: Digest, b: Books, c: Books)
    requires ChainSound(root, head, b) && Tidy(root, b) && IsAncestor(root, cut) && cut in b.entries
    requires c.entries == Pruned(b.entries, cut) && c.versions == OnlyBetween(b.versions, cut, head)
    ensures c.entries == map d | d in b.entries && IsAncestor(cut, d) :: b.entries[d]
    ensures Tidy(cut, c)
  {
    hide SoundFrom;
    hide AfterPrune;
    RootStored(root, b);
    forall d | d in b.entries && d != root ensures d.Prev().Some? && d.Prev().value in b.entries {
      AncestorHeight(root, d);
      StoredParent(root, b, d);
    }
    PruneExact(b.entries.Keys, root, cut);
  }

  lemma StoredParent(root: Digest, b: Books, d: Digest)
    requires SoundFrom(root, b) && d in b.entries && IsProperAncestor(root, d)
    ensures d.Prev().value in b.entries
  {
  }

  lemma CutInformed(genesis: Base, root: Digest, head: Digest, cut: Digest, b: Books, c: Books,
                    subscribers: map<nat, Subscriber>, seen: map<nat, Digest>, quiet: map<nat, set<Digest>>)
    requires AllInformed(genesis, root, head, Weigh(b.entries), subscribers, seen, quiet)
    requires OnPath(Weigh(b.entries), root, cut)
    requires forall d :: d in b.entries && IsAncestor(cut, d) ==> d in c.entries && c.entries[d] == b.entries[d]
    ensures AllInformed(genesis, cut, head, Weigh(c.entries), subscribers, seen, quiet)
  {
    hide Informed;
    hide OrphansOff;
    forall x | IsProperAncestor(cut, x) && x in Weigh(b.entries)
      ensures x in Weigh(c.entries) && Weigh(c.entries)[x] == Weigh(b.entries)[x]
    {
      AncestorTransitive(cut, x.Prev().value, x);
    }
    hide Behind;
    forall id | id in subscribers
      ensures OrphansOff(Weigh(c.entries), cut, subscribers[id]) && Behind(Weigh(c.entries), cut, head, subscribers[id])
    {
      CutOrphansOff(Weigh(b.entries), Weigh(c.entries), root, cut, subscribers[id]);
      CutBehind(Weigh(b.entries), Weigh(c.entries), root, cut, head, subscribers[id]);
    }
  }

  /** The books once the root moved from `from` to `to`: exactly `to` and what
      stands above it stays, and the state at the head. */
  ghost predicate CutTo(b: Books, c: Books, from: Digest, to: Digest, head: Digest) {
    && IsAncestor(from, to) && IsAncestor(to, head)
    && c.entries == (map d | d in b.entries && IsAncestor(to, d) :: b.entries[d])
    && head in b.versions && head in c.versions && c.versions[head] == b.versions[head]
    && (from == to ==> c == b)
  }

  /** The books once the root was put at `to`: the prune below it done, and
      just the versions from there to the head. */
  ghost predicate CutDown(b: Books, c: Books, to: Digest, head: Digest) {
    && IsAncestor(to, head)
    && c.entries == Pruned(b.entries, to) && c.versions == OnlyBetween(b.versions, to, head)
    && (head in b.versions ==> head in c.versions && c.versions[head] == b.versions[head])
  }

  lemma CutsDown(to: Digest, head: Digest, b: Books, c: Books)
    requires IsAncestor(to, head) && c.entries == Pruned(b.entries, to)
             && c.versions == OnlyBetween(b.versions, to, head)
    ensures CutDown(b, c, to, head)
    ensures to in b.versions ==> to in c.versions && c.versions[to] == b.versions[to]
  {
  }

  lemma NotCut(root: Digest, head: Digest, b: Books)
    requires Tidy(root, b) && head in b.versions && IsAncestor(root, head)
    ensures CutTo(b, b, root, root, head)
  {
  }

  lemma CutsTo(from: Digest, to: Digest, head: Digest, b: Books, c: Books)
    requires from != to && IsAncestor(from, to) && IsAncestor(to, head)
    requires c.entries == map d | d in b.entries && IsAncestor(to, d) :: b.entries[d]
    requires head in b.versions && to in b.versions && c.versions == OnlyBetween(b.versions, to, head)
    ensures CutTo(b, c, from, to, head) && c.versions[to] == b.versions[to]
  {
  }

  lemma CutKeptEntries(log: Entries, left: Entries, cut: Digest)
    requires left == Pruned(log, cut)
    ensures forall d :: d in log && IsAncestor(cut, d) ==> d in left && left[d] == log[d]
  {
    forall d | d in log && IsAncestor(cut, d) ensures d in left && left[d] == log[d] { PrunedAbove(log, cut, d); }
  }

  lemma CoreFacts(core: Core)
    requires core.Valid()
    ensures core.oldest == core.chain.root && core.storage.Valid()
    ensures ChainSound(core.oldest, core.chain.head, BooksOf(core.storage))
    ensures core.chain.head in core.storage.versions && IsAncestor(core.oldest, core.chain.head)
  {
    hide Replay;
    hide AllInformed;
    hide ChainSound;
    hide Tidy;
    HeadReplays(core.genesis, core.chain.root, core.chain.head, BooksOf(core.storage));
  }

  /** Every point a compaction may be cut off at is a chain at the cut. */
  lemma CrashPoints(root: Digest, head: Digest, cut: Digest, b: Books, done: Books, since: seq<Books>,
                    trail: seq<Books>)
    requires ChainSound(root, head, b) && IsAncestor(root, cut) && IsAncestor(cut, head) && cut in b.entries
    requires Interruptible(done, since, b, cut, trail) && ChainSound(cut, head, done)
    ensures forall i :: |trail| <= i < |since| ==> ChainSound(cut, head, since[i])
  {
    hide ChainSound;
    hide PartWay;
    hide Pruned;
    forall i | |trail| <= i < |since| ensures ChainSound(cut, head, since[i]) {
      if since[i] != done {
        assert Undergoes(b, since[i], cut);
        InterruptedCompaction(root, head, cut, b, since[i].entries);
        assert Books(b.versions, since[i].entries) == since[i];
      }
    }
  }

  lemma TrailGrew(done: Books, since: seq<Books>, b: Books, cut: Digest, trail: seq<Books>)
    requires Interruptible(done, since, b, cut, trail)
    ensures |trail| <= |since|
  {
  }

  lemma PrunedCount(log: Entries, left: Entries, cut: Digest)
    requires left == Pruned(log, cut)
    ensures |Doomed(log.Keys, cut)| == |log| - |left|
  {
    hide IsDoomed;
    assert left.Keys == log.Keys - Doomed(log.Keys, cut);
    SizeWithout(log.Keys, Doomed(log.Keys, cut));
    assert |left| == |left.Keys| && |log| == |log.Keys|;
  }

  /** A cut the policy chooses is stored, is named by the climb, lies at or
      below every pin, and leaves the newest `keep`. */
  lemma CutOnPath(head: Digest, entries: Entries, path: seq<Held>, keep: nat, cutoff: int, pinned: set<Digest>,
                  index: nat)
    requires IsHeldPath(entries, head, path)
    requires FirstLoose(path, keep, cutoff, pinned, index) && 1 <= index < |path|
    ensures var cut := path[index - 1].digest;
            && cut in Named(entries.Keys, head) && cut in entries && IsAncestor(cut, head)
            && (forall pin :: pin in pinned ==> IsAncestor(cut, pin) && IsAncestor(pin, head))
            && Height(head) - Height(cut) + 1 >= keep
  {
    hide IsHeldPath;
    hide FirstLoose;
    hide Named;
    LoosePastKeep(path, keep, cutoff, pinned, index);
    var cut := path[index - 1].digest;
    OnHeldPath(head, entries, path, index - 1);
    forall pin | pin in pinned ensures IsAncestor(cut, pin) && IsAncestor(pin, head) {
      PinsKept(path, keep, cutoff, pinned, index, pin);
      var j :| 0 <= j < index && path[j].digest == pin;
      OnHeldPath(head, entries, path, j);
      AncestorsComparable(cut, pin, head);
      if IsAncestor(pin, cut) { AncestorHeight(pin, cut); }
    }
  }

  lemma CutReplays(genesis: Base, root: Digest, head: Digest, cut: Digest, b: Books)
    requires ChainSound(root, head, b) && Replay(genesis, root) == Some(b.versions[root])
    requires IsAncestor(root, cut) && IsAncestor(cut, head)
    ensures OnPath(Weigh(b.entries), root, cut) && cut in b.versions && cut in b.entries
    ensures Replay(genesis, cut) == Some(b.versions[cut])
    ensures cut in Named(b.entries.Keys, head)
  {
    hide RulesHold;
    hide StatusOn;
    OnPathThrough(Weigh(b.entries), root, cut, head);
    Rebase(genesis, root, cut);
    ClimbIsAncestry(Weigh(b.entries), b.entries.Keys, root, cut, head, Weigh(b.entries));
  }

  lemma OpenedInformed(genesis: Base, root: Digest, head: Digest, log: Log, subscribers: map<nat, Subscriber>,
                       seen: map<nat, Digest>, quiet: map<nat, set<Digest>>, id: nat, filter: Filter)
    requires AllInformed(genesis, root, head, log, subscribers, seen, quiet) && Replay(genesis, head).Some?
    ensures AllInformed(genesis, root, head, log, subscribers[id := Subscriber(filter, head, None, false)],
                        seen[id := head], quiet[id := {}])
  {
    hide Informed;
    hide Replay;
    Opened(genesis, head, filter);
  }

  lemma DrainedInformed(genesis: Base, root: Digest, head: Digest, log: Log, subscribers: map<nat, Subscriber>,
                        seen: map<nat, Digest>, quiet: map<nat, set<Digest>>, id: nat)
    requires AllInformed(genesis, root, head, log, subscribers, seen, quiet) && id in subscribers
             && IsHead(log, root, head)
    ensures id in seen && id in quiet
    ensures var s := subscribers[id];
            && AllInformed(genesis, root, head, log, subscribers[id := s.(pending := None)],
                           seen[id := Anchor(s, seen[id])], quiet)
            && Informed(genesis, head, s, seen[id], quiet[id])
            && (s.pending.Some? && HeadMoves in s.filter ==>
                  s.pending.value.from == seen[id] && s.pending.value.head == head)
            && (s.pending.Some? ==> forall d :: d in s.pending.value.movement.orphaned ==> !IsAncestor(d, head))
  {
    hide Informed;
    hide Replay;
    hide OffForGood;
    hide IsHead;
    var s := subscribers[id];
    OrphansNotCanonical(log, root, head, s);
    DrainInforms(genesis, head, s, seen[id], quiet[id]);
    HeadInformed(genesis, head, s, seen[id], quiet[id]);
  }

  lemma HeadInformed(genesis: Base, head: Digest, s: Subscriber, seen: Digest, quiet: set<Digest>)
    requires Informed(genesis, head, s, seen, quiet)
    ensures s.pending.Some? && HeadMoves in s.filter ==> s.pending.value.from == seen && s.pending.value.head == head
  {
    hide Replay;
    hide ReadAt;
  }

  lemma OrphansNotCanonical(log: Log, root: Digest, head: Digest, s: Subscriber)
    requires OrphansOff(log, root, s) && IsHead(log, root, head)
    ensures s.pending.Some? ==> forall d :: d in s.pending.value.movement.orphaned ==> !IsAncestor(d, head)
  {
    if s.pending.Some? {
      forall d | d in s.pending.value.movement.orphaned ensures !IsAncestor(d, head) {
        OffMeansNotCanonical(log, root, head, d);
      }
    }
  }

  lemma AllInformedKeys(genesis: Base, root: Digest, head: Digest, log: Log, subscribers: map<nat, Subscriber>,
                        seen: map<nat, Digest>, quiet: map<nat, set<Digest>>)
    requires AllInformed(genesis, root, head, log, subscribers, seen, quiet)
    ensures seen.Keys == subscribers.Keys && quiet.Keys == subscribers.Keys
  {
  }

  lemma ChainFacts(root: Digest, head: Digest, b: Books)
    requires ChainSound(root, head, b)
    ensures IsHead(Weigh(b.entries), root, head) && DigestsPin(Weigh(b.entries).Keys) && DigestsPin(b.entries.Keys)
  {
    hide SoundFrom;
    assert Weigh(b.entries).Keys == b.entries.Keys;
  }

  lemma MovementMinimal(from: Digest, to: Digest, movement: Movement)
    requires IsMovement(from, to, movement)
    ensures Minimal(movement.changes)
  {
  }

  // ---------------------------------------------------------------------
  // What a node does over a run

  ghost function StageOf(root: Digest, head: Digest, b: Books): Stage {
    Stage(root, Weigh(b.entries), head)
  }

  /** An insert is a step of the runs over which orphaning is permanent. */
  lemma InsertIsStep(root: Digest, from: Digest, head: Digest, b: Books, c: Books)
    requires ChainSound(root, from, b) && ChainSound(root, head, c) && Grows(b, c)
    ensures Standing(StageOf(root, from, b)) && Standing(StageOf(root, head, c))
    ensures Inserts(StageOf(root, from, b), StageOf(root, head, c))
  {
    hide ChainSound;
    hide IsHead;
    hide Grows;
    ChainFacts(root, from, b);
    ChainFacts(root, head, c);
    GrownLog(b, c);
  }

  /** So is a completed compaction. */
  lemma CutIsStep(from: Digest, to: Digest, head: Digest, b: Books, c: Books)
    requires ChainSound(from, head, b) && ChainSound(to, head, c) && CutTo(b, c, from, to, head)
    ensures Standing(StageOf(from, head, b)) && Standing(StageOf(to, head, c))
    ensures Compacts(StageOf(from, head, b), StageOf(to, head, c))
  {
    hide SoundFrom;
    hide PathCached;
    hide Kids;
    hide IsBest;
    ChainFacts(from, head, b);
    ChainFacts(to, head, c);
    OnPathThrough(Weigh(b.entries), from, to, head);
    forall x | IsProperAncestor(to, x) && x in Weigh(b.entries)
      ensures x in Weigh(c.entries) && Weigh(c.entries)[x] == Weigh(b.entries)[x]
    {
      AncestorTransitive(to, x.Prev().value, x);
    }
  }
}
