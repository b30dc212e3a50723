/** Joining at a checkpoint: a node that adopts a canonical envelope with the
    state standing there and takes in what came after stands where a node
    with the whole history does (crates/state/src/chain.rs, `adopt`). */
module Checkpoint {
  import opened Wire
  import opened Ledger
  import opened Lineage
  import opened ForkChoice
  import opened Storage
  import opened Ingest
  import opened Arrival
  import opened Walks
  import opened Chains
  import opened Cores
  import opened Sync

  ghost function PathBetween(entries: Entries, cut: Digest, head: Digest): set<Digest> {
    set d | d in entries && IsProperAncestor(cut, d) && IsAncestor(d, head)
  }

  lemma CheckpointReplays(root: Digest, cut: Digest, a: Books)
    requires SoundFrom(root, a) && cut in a.versions && IsAncestor(root, cut)
    ensures Replay(Base(root, a.versions[root]), cut) == Some(a.versions[cut]) && RulesHold(a.versions[cut])
  {
    hide Replay;
    hide StatusOn;
    hide RulesHold;
    ReplayKeepsRules(Base(root, a.versions[root]), cut);
  }

  /** Above a checkpoint, books settled there weigh envelopes as the longer
      chain does. */
  lemma TailWeight(root: Digest, cut: Digest, a: Books, c: Books, x: Digest)
    requires SoundFrom(root, a) && cut in a.versions && Settled(Base(cut, a.versions[cut]), c)
    requires IsAncestor(root, cut) && IsProperAncestor(cut, x) && x in a.entries && x in c.entries
    ensures a.entries[x].envelope.status == c.entries[x].envelope.status
  {
    hide Replay;
    hide StatusOn;
    hide RulesHold;
    CheckpointReplays(root, cut, a);
    AncestorTransitive(root, cut, x.Prev().value);
    RebaseStatus(Base(root, a.versions[root]), cut, x);
  }

  /** Above a checkpoint, an envelope the longer chain holds replays. */
  lemma TailReplays(root: Digest, cut: Digest, a: Books, x: Digest)
    requires SoundFrom(root, a) && cut in a.versions && IsAncestor(root, cut)
    requires IsProperAncestor(cut, x) && x in a.entries
    ensures Replay(Base(cut, a.versions[cut]), x).Some?
    ensures x in a.versions ==> Replay(Base(cut, a.versions[cut]), x) == Some(a.versions[x])
  {
    hide Replay;
    hide StatusOn;
    hide RulesHold;
    CheckpointReplays(root, cut, a);
    AncestorTransitive(root, cut, x.Prev().value);
    Rebase(Base(root, a.versions[root]), cut, x);
  }

  /** Settled books from a checkpoint that hold just the path from it to the
      longer chain's head stand at that head, with its state. */
  lemma TailHead(root: Digest, head: Digest, cut: Digest, a: Books, c: Books)
    requires ChainSound(root, head, a) && IsAncestor(root, cut) && IsAncestor(cut, head)
    requires cut in a.versions && Settled(Base(cut, a.versions[cut]), c)
    requires c.entries.Keys == {cut} + PathBetween(a.entries, cut, head)
    ensures IsHead(Weigh(c.entries), cut, head)
  {
    hide SoundFrom;
    hide Settled;
    hide PathCached;
    hide Kids;
    hide IsBest;
    hide DigestsPin;
    OnPathThrough(Weigh(a.entries), root, cut, head);
    forall x | x in Weigh(c.entries) && IsProperAncestor(cut, x)
      ensures x in Weigh(a.entries) && Weigh(a.entries)[x] == Weigh(c.entries)[x]
    {
      AncestorHeight(cut, x.Prev().value);
      TailWeight(root, cut, a, c, x);
    }
    PathStored(Weigh(a.entries), root, cut, head);
    CarryHead(Weigh(a.entries), Weigh(c.entries), root, cut, cut, head);
  }

  /** The run from a checkpoint to the head. */
  ghost predicate IsTail(cut: Digest, head: Digest, tail: seq<Envelope>) {
    exists run :: IsSuffix(cut, head, run) && SameDigests(tail, run)
  }

  ghost predicate SameDigests(tail: seq<Envelope>, run: seq<Digest>) {
    |tail| == |run| && forall i :: 0 <= i < |run| ==> tail[i].digest == run[i]
  }

  /** What a tail offers is the path it runs along. */
  lemma TailOffers(root: Digest, head: Digest, cut: Digest, a: Books, run: seq<Digest>, tail: seq<Envelope>)
    requires ChainSound(root, head, a) && IsAncestor(root, cut) && IsAncestor(cut, head)
    requires IsSuffix(cut, head, run) && SameDigests(tail, run)
    ensures Offered(tail) == PathBetween(a.entries, cut, head)
  {
    hide SoundFrom;
    hide IsBest;
    hide Kids;
    OnPathThrough(Weigh(a.entries), root, cut, head);
    PathStored(Weigh(a.entries), root, cut, head);
    forall d | d in Offered(tail) ensures d in PathBetween(a.entries, cut, head) {
      var i :| 0 <= i < |tail| && tail[i].digest == d;
      RunUnder(cut, run, i);
      RunOver(cut, run, i);
    }
    forall d | d in PathBetween(a.entries, cut, head) ensures d in Offered(tail) {
      RunHas(cut, run, d);
      var i :| 0 <= i < |run| && run[i] == d;
      assert tail[i].digest == d;
    }
  }

  /** Storing the tail on the adopted checkpoint keeps all of it. */
  lemma TailStores(root: Digest, head: Digest, cut: Digest, a: Books, adopted: Books, tail: seq<Envelope>, now: int)
    requires ChainSound(root, head, a) && IsAncestor(root, cut) && IsAncestor(cut, head) && cut in a.versions
    requires Settled(Base(cut, a.versions[cut]), adopted) && adopted.entries.Keys == {cut} && IsTail(cut, head, tail)
    ensures var after := StoreAll(adopted, tail, None, now);
            && after.verdict.Ok? && Settled(Base(cut, a.versions[cut]), after.books)
            && after.books.entries.Keys == {cut} + PathBetween(a.entries, cut, head)
    ensures DigestsPin(adopted.entries.Keys + Offered(tail))
  {
    hide SoundFrom;
    hide Settled;
    hide StoreAll;
    hide IsHead;
    hide Replay;
    hide Linked;
    var base := Base(cut, a.versions[cut]);
    var run :| IsSuffix(cut, head, run) && SameDigests(tail, run);
    TailOffers(root, head, cut, a, run, tail);
    forall i | 0 <= i < |tail| ensures Replay(base, run[i]).Some? {
      assert tail[i].digest in Offered(tail);
      TailReplays(root, cut, a, run[i]);
    }
    RunBuilds(base, {cut}, cut, run, tail, None);
    TakesIn(base, adopted, tail, None, now);
    CutHeld(root, head, cut, a);
  }

  lemma CutHeld(root: Digest, head: Digest, cut: Digest, a: Books)
    requires ChainSound(root, head, a) && IsAncestor(root, cut) && IsAncestor(cut, head)
    ensures cut in a.entries && head in a.versions && head in a.entries
  {
    hide Replay;
    hide StatusOn;
    hide RulesHold;
    OnPathThrough(Weigh(a.entries), root, cut, head);
    OnPathDescends(Weigh(a.entries), root, cut);
    OnPathDescends(Weigh(a.entries), root, head);
  }

  /** The joiner's books once the tail is in. */
  lemma Joined(root: Digest, head: Digest, cut: Digest, a: Books, c: Books, h: Digest)
    requires ChainSound(root, head, a) && IsAncestor(root, cut) && IsAncestor(cut, head)
    requires cut in a.versions && Settled(Base(cut, a.versions[cut]), c)
    requires c.entries.Keys == {cut} + PathBetween(a.entries, cut, head)
    requires IsHead(Weigh(c.entries), cut, h)
    ensures h == head && head in c.versions && head in a.versions && c.versions[head] == a.versions[head]
  {
    TailHead(root, head, cut, a, c);
    HeadUnique(Weigh(c.entries), cut, h, head);
    CutHeld(root, head, cut, a);
    hide IsHead;
    hide ChainSound;
    hide RulesHold;
    hide StatusOn;
    assert SoundFrom(root, a);
    if head != cut {
      AncestorHeight(cut, head);
      hide SoundFrom;
      TailReplays(root, cut, a, head);
    }
    SettledVersion(Base(cut, a.versions[cut]), c, head);
  }

  lemma SettledVersion(base: Base, c: Books, d: Digest)
    requires Settled(base, c) && d in c.entries
    ensures d in c.versions && Replay(base, d) == Some(c.versions[d])
    ensures d == base.root ==> c.versions[d] == base.state
  {
    hide StatusOn;
    hide RulesHold;
  }

  /** Joins a cluster from a canonical envelope of another node's chain, the
      state standing there, and what came after: whatever statuses the tail
      claims, the joiner ends at the same head with the same state. */
  method Join(storage: MemStorage, checkpoint: Envelope, state: State, tail: seq<Envelope>, now: int,
              ghost root: Digest, ghost head: Digest, ghost a: Books)
      returns (r: Result<Chain, Error>)
    requires storage.Valid() && storage.versions == map[] && storage.envelopes == map[]
    requires ChainSound(root, head, a) && IsAncestor(root, checkpoint.digest) && IsAncestor(checkpoint.digest, head)
    requires checkpoint.digest in a.versions && state == a.versions[checkpoint.digest]
    requires IsTail(checkpoint.digest, head, tail)
    modifies storage
    ensures r.Ok? <==> !checkpoint.digest.payload.Init?
    ensures r.Ok? ==>
              && r.value.Valid(storage) && r.value.root == checkpoint.digest && r.value.head == head
              && head in storage.versions && head in a.versions && storage.versions[head] == a.versions[head]
  {
    hide ChainSound;
    hide Settled;
    hide StoreAll;
    hide IsTail;
    hide RulesHold;
    hide CachesPath;
    hide Grows;
    hide SoundFrom;
    hide InsertTrail;
    hide Named;
    hide MemStorage.Valid;
    ghost var cut := checkpoint.digest;
    StartsSound(root, head, cut, a);
    var adopted := AdoptChain(storage, checkpoint, state, now);
    if adopted.Err? {
      return Err(adopted.error);
    }
    var chain := adopted.value;
    ghost var before := BooksOf(storage);
    FirstSettled(Base(cut, state), before.entries[cut]);
    assert before == Books(map[cut := state], map[cut := before.entries[cut]]);
    TailStores(root, head, cut, a, before, tail, now);
    SoundChainStores(cut, cut, before, tail, now);
    var inserted := chain.InsertBatch(storage, tail, now);
    ChainFacts(cut, chain.head, BooksOf(storage));
    Joined(root, head, cut, a, BooksOf(storage), chain.head);
    return Ok(chain);
  }

  lemma StartsSound(root: Digest, head: Digest, cut: Digest, a: Books)
    requires ChainSound(root, head, a) && IsAncestor(root, cut) && cut in a.versions
    ensures RulesHold(a.versions[cut]) && NothingStoredAbove(Books(map[], map[]), cut)
  {
    CheckpointReplays(root, cut, a);
  }
}
