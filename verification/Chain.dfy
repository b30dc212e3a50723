/** The canonical path through the stored envelopes, kept by a cursor over a
    store (crates/state/src/chain.rs). */
module Chains {
  import opened Wire
  import opened Ledger
  import opened Lineage
  import opened ForkChoice
  import opened Pruning
  import opened Storage
  import opened Ingest
  import opened Footing
  import opened Walks
  import opened Compaction

  // ---------------------------------------------------------------------
  // What a chain's books promise

  ghost predicate ChainSound(root: Digest, head: Digest, b: Books) {
    && SoundFrom(root, b)
    && DigestsPin(b.entries.Keys)
    && IsHead(Weigh(b.entries), root, head)
    && PathCached(b, root)
  }

  /** What stands above the cut survives every point of a prune. */
  lemma AboveCutKept(log: Entries, left: Entries, cut: Digest, d: Digest)
    requires PartWay(log, left, cut) && IsAncestor(cut, d)
    ensures d in left <==> d in log
    ensures d in left ==> left[d] == log[d]
  {
    if d in log {
      assert d in AfterPrune(log.Keys, cut);
      assert d in left.Keys;
    }
  }

  lemma RebaseStatus(base: Base, cut: Digest, d: Digest)
    requires Replay(base, cut).Some? && IsProperAncestor(cut, d)
    ensures StatusOn(Base(cut, Replay(base, cut).value), d) == StatusOn(base, d)
  {
    hide Verify;
    hide Replay;
    ReplayDescends(base, cut);
    AncestorTransitive(base.root, cut, d.Prev().value);
    AncestorHeight(base.root, d.Prev().value);
    AncestorHeight(cut, d.Prev().value);
    Rebase(base, cut, d.Prev().value);
  }

  /** At every point of a prune below a canonical cut, whatever versions off
      the path from the cut to the head are gone, the books are those of a
      chain rooted at the cut with the same head. */
  lemma CutSound(root: Digest, head: Digest, cut: Digest, b: Books, c: Books)
    requires ChainSound(root, head, b) && OnPath(Weigh(b.entries), root, cut) && cut in b.entries
    requires PartWay(b.entries, c.entries, cut)
    requires forall d :: d in c.versions ==> d in b.versions && c.versions[d] == b.versions[d]
    requires forall d :: d in b.versions && IsAncestor(cut, d) && IsAncestor(d, head) ==> d in c.versions
    ensures ChainSound(cut, head, c)
    ensures c.versions[head] == b.versions[head]
  {
    var log, base := Weigh(b.entries), Base(root, b.versions[root]);
    CanonicalBelowHead(log, root, head, cut);
    OnPathDescends(log, root, cut);
    CutBooksSound(base, b, c, cut);
    forall x | IsProperAncestor(cut, x) ensures x in Weigh(c.entries) <==> x in log {
      AncestorTransitive(cut, x.Prev().value, x);
      AboveCutKept(b.entries, c.entries, cut, x);
    }
    CutKeepsHead(log, Weigh(c.entries), root, cut, head);
    hide Sound;
    hide SoundFrom;
    forall d | OnPath(Weigh(c.entries), cut, d) ensures d in c.versions {
      CanonicalBelowHead(Weigh(c.entries), cut, head, d);
      OnPathDescends(Weigh(c.entries), cut, d);
      AncestorTransitive(root, cut, d);
      OnPathThrough(log, root, d, head);
    }
  }

  lemma CutBooksSound(base: Base, b: Books, c: Books, cut: Digest)
    requires Sound(base, b) && cut in b.versions && IsAncestor(base.root, cut) && cut in b.entries
    requires PartWay(b.entries, c.entries, cut) && cut in c.versions
    requires forall d :: d in c.versions ==> d in b.versions && c.versions[d] == b.versions[d]
    ensures SoundFrom(cut, c)
  {
    hide Replay;
    hide StatusOn;
    hide RulesHold;
    hide PartWay;
    var base' := Base(cut, c.versions[cut]);
    ReplayKeepsRules(base, cut);
    AboveCutKept(b.entries, c.entries, cut, cut);
    forall d | d in c.entries && IsProperAncestor(cut, d)
      ensures d.Prev().value in c.entries && Replay(base', d).Some?
              && c.entries[d].envelope.status == StatusOn(base', d)
    {
      AboveCutKept(b.entries, c.entries, cut, d);
      AboveCutKept(b.entries, c.entries, cut, d.Prev().value);
      AncestorTransitive(base.root, cut, d.Prev().value);
      Rebase(base, cut, d);
      RebaseStatus(base, cut, d);
    }
    forall d | d in c.versions && IsAncestor(cut, d) ensures d in c.entries && Replay(base', d) == Some(c.versions[d]) {
      AncestorTransitive(base.root, cut, d);
      AboveCutKept(b.entries, c.entries, cut, d);
      Rebase(base, cut, d);
    }
  }

  // ---------------------------------------------------------------------
  // What an interrupted prune leaves behind

  /** A chain can be rooted at `root`: the log above it is sound, `head` is its
      head, and every canonical version is there and true. Versions off the
      path may be of envelopes long gone. */
  ghost predicate Footed(root: Digest, head: Digest, b: Books) {
    && root in b.versions && RulesHold(b.versions[root])
    && LogSound(Base(root, b.versions[root]), b.entries)
    && DigestsPin(b.entries.Keys) && IsHead(Weigh(b.entries), root, head)
    && forall d :: OnPath(Weigh(b.entries), root, d) ==> VersionTrue(Base(root, b.versions[root]), b.versions, d)
  }

  ghost predicate VersionTrue(base: Base, versions: Versions, d: Digest) {
    d in versions && Replay(base, d) == Some(versions[d])
  }

  lemma PrunedAbove(log: Entries, cut: Digest, d: Digest)
    requires IsAncestor(cut, d)
    ensures d in Pruned(log, cut) <==> d in log
    ensures d in log ==> Pruned(log, cut)[d] == log[d]
  {
  }

  /** Pruning below such a root leaves a chain rooted there, head and state at
      the head as they were. */
  lemma FootedPrunes(cut: Digest, head: Digest, b: Books, c: Books)
    requires Footed(cut, head, b)
    requires c.entries == Pruned(b.entries, cut) && c.versions == OnlyBetween(b.versions, cut, head)
    ensures ChainSound(cut, head, c) && head in b.versions && c.versions[head] == b.versions[head]
  {
    var log, kept := Weigh(b.entries), Weigh(c.entries);
    forall x | IsProperAncestor(cut, x) ensures x in kept <==> x in log {
      AncestorTransitive(cut, x.Prev().value, x);
      PrunedAbove(b.entries, cut, x);
    }
    hide AfterPrune;
    CutKeepsHead(log, kept, cut, cut, head);
    FootedSound(cut, head, b, c);
    hide LogSound;
    hide Replay;
    OnPathDescends(log, cut, head);
    forall d | OnPath(kept, cut, d) ensures d in c.versions {
      CanonicalBelowHead(kept, cut, head, d);
      OnPathDescends(kept, cut, d);
      OnPathThrough(log, cut, d, head);
    }
  }

  /** And nothing less does: if the prune leaves a sound chain rooted there, it
      could be rooted there before. */
  lemma OnlyFootedPrunes(cut: Digest, head: Digest, b: Books, c: Books)
    requires ChainSound(cut, head, c) && DigestsPin(b.entries.Keys)
    requires c.entries == Pruned(b.entries, cut) && c.versions == OnlyBetween(b.versions, cut, head)
    ensures Footed(cut, head, b)
  {
    var log, kept := Weigh(b.entries), Weigh(c.entries);
    forall x | IsProperAncestor(cut, x) ensures x in log <==> x in kept {
      AncestorTransitive(cut, x.Prev().value, x);
      PrunedAbove(b.entries, cut, x);
    }
    hide AfterPrune;
    CutKeepsHead(kept, log, cut, cut, head);
    OnlyFootedLog(cut, head, b, c);
    hide LogSound;
    hide Replay;
    OnPathDescends(kept, cut, head);
    forall d | OnPath(log, cut, d) ensures VersionTrue(Base(cut, b.versions[cut]), b.versions, d) {
      CanonicalBelowHead(log, cut, head, d);
      OnPathDescends(log, cut, d);
      OnPathThrough(kept, cut, d, head);
    }
  }

  lemma OnlyFootedLog(cut: Digest, head: Digest, b: Books, c: Books)
    requires ChainSound(cut, head, c)
    requires c.entries == Pruned(b.entries, cut) && c.versions == OnlyBetween(b.versions, cut, head)
    ensures cut in b.versions && RulesHold(b.versions[cut]) && LogSound(Base(cut, b.versions[cut]), b.entries)
  {
    hide AfterPrune;
    hide Replay;
    hide StatusOn;
    hide RulesHold;
    hide IsHead;
    hide PathCached;
    var base := Base(cut, b.versions[cut]);
    forall d | d in b.entries && IsProperAncestor(cut, d)
      ensures d.Prev().value in b.entries && Replay(base, d).Some? && b.entries[d].envelope.status == StatusOn(base, d)
    {
      AncestorTransitive(cut, d.Prev().value, d);
      PrunedAbove(b.entries, cut, d);
    }
  }

  lemma FootedSound(cut: Digest, head: Digest, b: Books, c: Books)
    requires Footed(cut, head, b)
    requires c.entries == Pruned(b.entries, cut) && c.versions == OnlyBetween(b.versions, cut, head)
    ensures SoundFrom(cut, c)
  {
    hide AfterPrune;
    hide Replay;
    hide StatusOn;
    hide RulesHold;
    var log, base := Weigh(b.entries), Base(cut, b.versions[cut]);
    PrunedAbove(b.entries, cut, cut);
    OnPathDescends(log, cut, head);
    forall d | d in c.entries && IsProperAncestor(cut, d)
      ensures d.Prev().value in c.entries && Replay(base, d).Some? && c.entries[d].envelope.status == StatusOn(base, d)
    {
      PrunedAbove(b.entries, cut, d.Prev().value);
    }
    forall d | d in c.versions && IsAncestor(cut, d) ensures d in c.entries && Replay(base, d) == Some(c.versions[d]) {
      OnPathThrough(log, cut, d, head);
      OnPathDescends(log, cut, d);
      PrunedAbove(b.entries, cut, d);
      assert VersionTrue(base, b.versions, d);
    }
  }

  /** After an interruption anywhere, the chain could be rooted at whichever
      of the cut's ancestors the prune has not got to. */
  lemma LeftoverFooted(root: Digest, head: Digest, cut: Digest, b: Books, left: Entries, x: Digest)
    requires ChainSound(root, head, b) && IsAncestor(root, cut) && IsAncestor(cut, head) && cut in b.entries
    requires PartWay(b.entries, left, cut) && x in left && IsAncestor(root, x) && IsAncestor(x, cut)
    ensures Footed(x, head, Books(b.versions, left))
  {
    var log, base := Weigh(b.entries), Base(root, b.versions[root]);
    AncestorTransitive(x, cut, head);
    OnPathThrough(log, root, x, head);
    LeftoverPath(root, head, cut, b, left, x);
    CarryHead(log, Weigh(left), root, x, x, head);
    LeftoverLog(root, head, cut, b, left, x);
    hide LogSound;
    hide Replay;
    hide RulesHold;
    ReplayKeepsRules(base, x);
    forall d | OnPath(Weigh(left), x, d) ensures VersionTrue(Base(x, b.versions[x]), b.versions, d) {
      CanonicalBelowHead(Weigh(left), x, head, d);
      OnPathDescends(Weigh(left), x, d);
      AncestorTransitive(root, x, d);
      OnPathThrough(log, root, d, head);
      Rebase(base, x, d);
    }
  }

  /** The line from such an ancestor up to the head is all there. */
  lemma LeftoverPath(root: Digest, head: Digest, cut: Digest, b: Books, left: Entries, x: Digest)
    requires ChainSound(root, head, b) && IsAncestor(root, cut) && IsAncestor(cut, head) && cut in b.entries
    requires PartWay(b.entries, left, cut) && x in left && IsAncestor(root, x) && IsAncestor(x, cut)
    ensures x in Named(b.entries.Keys, cut)
    ensures forall y :: IsProperAncestor(x, y) && IsAncestor(y, head) ==> y in left
  {
    hide SoundFrom;
    hide PathCached;
    hide PartWay;
    hide IsBest;
    hide Kids;
    var log := Weigh(b.entries);
    OnPathThrough(log, root, cut, head);
    OnPathDescends(log, root, head);
    PathStored(log, root, root, head);
    OnPathThrough(log, root, x, cut);
    ClimbIsAncestry(log, b.entries.Keys, root, x, cut, log);
    hide OnPath;
    forall y | IsProperAncestor(x, y) && IsAncestor(y, head) ensures y in left {
      AncestorTransitive(root, x, y.Prev().value);
      LeftoverHolds(b.entries, left, cut, head, x, y);
    }
  }

  lemma LeftoverHolds(log: Entries, left: Entries, cut: Digest, head: Digest, x: Digest, y: Digest)
    requires PartWay(log, left, cut) && x in left && x in Named(log.Keys, cut) && IsAncestor(cut, head)
    requires IsProperAncestor(x, y) && IsAncestor(y, head) && y in log
    ensures y in left
  {
    AncestorTransitive(x, y.Prev().value, y);
    AncestorsComparable(y, cut, head);
    if IsAncestor(cut, y) { AboveCutKept(log, left, cut, y); }
  }

  lemma LeftoverLog(root: Digest, head: Digest, cut: Digest, b: Books, left: Entries, x: Digest)
    requires ChainSound(root, head, b) && IsAncestor(root, cut) && IsAncestor(cut, head) && cut in b.entries
    requires PartWay(b.entries, left, cut) && x in left && IsAncestor(root, x) && IsAncestor(x, cut)
    requires x in b.versions && x in Named(b.entries.Keys, cut)
    ensures LogSound(Base(x, b.versions[x]), left)
  {
    hide AfterPrune;
    hide Replay;
    hide StatusOn;
    hide RulesHold;
    var base := Base(root, b.versions[root]);
    forall d | d in left && IsProperAncestor(x, d)
      ensures d.Prev().value in left && Replay(Base(x, b.versions[x]), d).Some?
              && left[d].envelope.status == StatusOn(Base(x, b.versions[x]), d)
    {
      var p := d.Prev().value;
      AncestorTransitive(root, x, p);
      Rebase(base, x, d);
      RebaseStatus(base, x, d);
      if p !in left { AncestorTransitive(p, d, cut); }
    }
  }

  // ---------------------------------------------------------------------
  // The chain

  /** What an insert did to the canonical head. */
  datatype Insert = Extended | Reorged(from: Digest) | Unchanged | Duplicate

  /** The report an insert owes; `forward` when the climb from the new head
      comes by the old one. */
  ghost function Report(from: Digest, head: Digest, forward: bool, batch: seq<Envelope>, stored: Stored):
      Result<Insert, Error> {
    if stored.verdict.Err? then Err(stored.verdict.error)
    else if head != from then Ok(if forward then Extended else Reorged(from))
    else Ok(if batch != [] && stored.verdict.value then Duplicate else Unchanged)
  }

  /** What an insert reports: why it was refused; or how its head moved; or,
      where it stayed, whether all of the run was stored before. */
  lemma ReportsExactly(from: Digest, head: Digest, forward: bool, b: Books, batch: seq<Envelope>, now: int)
    ensures var r := Report(from, head, forward, batch, StoreAll(b, batch, None, now));
            var verdict := StoreAll(b, batch, None, now).verdict;
            && (forall error :: r == Err(error) <==> verdict == Err(error))
            && (r == Ok(Extended) <==> verdict.Ok? && head != from && forward)
            && (r == Ok(Reorged(from)) <==> verdict.Ok? && head != from && !forward)
            && (r == Ok(Duplicate) <==>
                  verdict.Ok? && head == from && batch != [] && forall e :: e in batch ==> e.digest in b.entries)
            && (r == Ok(Unchanged) <==>
                  verdict.Ok? && head == from && (batch == [] || exists e :: e in batch && e.digest !in b.entries))
  {
    hide StoreAll;
    if StoreAll(b, batch, None, now).verdict.Ok? { DuplicateExactly(b, batch, None, now); }
  }

  /** Wherever an insert is cut off, the run is part-way stored, or it is
      stored as far as it goes and the walk is under way. */
  ghost predicate InsertTrail(b: Books, root: Digest, batch: seq<Envelope>, now: int, trail: seq<Books>,
                              since: seq<Books>) {
    && Since(trail, since)
    && forall i :: |trail| <= i < |since| ==>
         CutOff(b, batch, now, since[i]) || WalkedTo(StoreAll(b, batch, None, now).books, root, since[i])
  }

  lemma TrailsJoin(b: Books, root: Digest, batch: seq<Envelope>, now: int, trail: seq<Books>, written: seq<Books>,
                   since: seq<Books>)
    requires StoreTrail(b, batch, now, trail, written)
    requires WalkTrail(StoreAll(b, batch, None, now).books, root, written, since)
    ensures InsertTrail(b, root, batch, now, trail, since)
  {
    hide StoreAll;
    hide CutOff;
    hide WalkedTo;
    assert since[..|trail|] == since[..|written|][..|trail|];
    forall i | |trail| <= i < |written| ensures since[i] == written[i] {
      assert since[..|written|][i] == written[i];
    }
  }

  lemma SoundStores(root: Digest, b: Books, batch: seq<Envelope>, now: int)
    requires SoundFrom(root, b)
    ensures SoundFrom(root, StoreAll(b, batch, None, now).books)
  {
    hide Sound;
    hide StoreAll;
    StoreAllSound(Base(root, b.versions[root]), b, batch, None, now);
  }

  /** Storing on a chain's books leaves nothing for the walk to derive: what
      is new has its version, and nothing stored without one can win. */
  lemma NothingUncached(root: Digest, head: Digest, b: Books, batch: seq<Envelope>, now: int)
    requires ChainSound(root, head, b)
    ensures PathCached(StoreAll(b, batch, None, now).books, root)
  {
    hide SoundFrom;
    hide StoreAll;
    hide IsHead;
    hide IsBest;
    hide Kids;
    var c := StoreAll(b, batch, None, now).books;
    StoreAllAdds(b, batch, None, now);
    forall d | OnPath(Weigh(c.entries), root, d) ensures d in c.versions {
      OnPathDescends(Weigh(c.entries), root, d);
      RootCached(root, b);
      if d in b.entries && d != root && !OnPath(Weigh(b.entries), root, d) { StaysOffPath(root, b, c, d); }
    }
  }

  lemma RootCached(root: Digest, b: Books)
    requires SoundFrom(root, b)
    ensures root in b.versions
  {
  }

  /** An envelope stored off the path stays off it however the log grows. */
  lemma StaysOffPath(root: Digest, b: Books, c: Books, d: Digest)
    requires SoundFrom(root, b) && DigestsPin(b.entries.Keys) && Grows(b, c)
    requires d in b.entries && IsAncestor(root, d) && !OnPath(Weigh(b.entries), root, d)
    ensures !OnPath(Weigh(c.entries), root, d)
  {
    var small, log := Weigh(b.entries), Weigh(c.entries);
    SoundHoldsLine(root, b, d);
    hide SoundFrom;
    FindLoss(small, root, d);
    var x, y :| LostTo(small, root, d, x, y);
    assert LostTo(log, root, d, x, y);
    if OnPath(log, root, d) {
      AncestorTransitive(root, x.Prev().value, x);
      OnPathThrough(log, root, x, d);
      ChildOnPath(log, root, x.Prev().value, x);
      LoserNotBest(log, root, d, x, y);
    }
  }

  /** A sound log holds all an envelope of it builds on, down to the root. */
  lemma SoundHoldsLine(root: Digest, b: Books, d: Digest)
    requires SoundFrom(root, b) && d in b.entries && IsAncestor(root, d)
    ensures forall x :: IsProperAncestor(root, x) && IsAncestor(x, d) ==> x in b.entries
  {
    forall x | IsProperAncestor(root, x) && IsAncestor(x, d) ensures x in b.entries { LineHeld(root, b, d, x); }
  }

  lemma {:induction false} LineHeld(root: Digest, b: Books, d: Digest, x: Digest)
    requires SoundFrom(root, b) && d in b.entries && IsProperAncestor(root, x) && IsAncestor(x, d)
    ensures x in b.entries
    decreases d
  {
    hide Replay;
    hide StatusOn;
    hide RulesHold;
    if x == d {
    } else {
      AncestorTransitive(root, x.Prev().value, x);
      AncestorTransitive(root, x, d.Prev().value);
      LineHeld(root, b, d.Prev().value, x);
    }
  }

  /** The log without what a prune below `cut` dooms. */
  ghost function Pruned(log: Entries, cut: Digest): Entries {
    map d | d in log && d in AfterPrune(log.Keys, cut) :: log[d]
  }

  /** Wherever a compaction is cut off, its prune is part-way with no version
      lost, or it is done. */
  ghost predicate Interruptible(done: Books, since: seq<Books>, log: Books, cut: Digest, trail: seq<Books>) {
    && |since| >= |trail| && since[..|trail|] == trail
    && forall i :: |trail| <= i < |since| ==> Undergoes(log, since[i], cut) || since[i] == done
  }

  lemma InterruptibleNext(left: Books, since: seq<Books>, log: Books, cut: Digest, trail: seq<Books>)
    requires Resumable(left, since, log, cut, trail)
    ensures forall done :: Interruptible(done, since + [done], log, cut, trail)
  {
    hide Undergoes;
    forall done ensures Interruptible(done, since + [done], log, cut, trail) {
      assert (since + [done])[..|trail|] == since[..|trail|];
    }
  }

  /** A cursor at the canonical head of the chain rooted at `root`. */
  class Chain {
    var root: Digest
    var head: Digest

    ghost predicate Valid(storage: MemStorage)
      reads this, storage
    {
      storage.Valid() && ChainSound(root, head, BooksOf(storage))
    }

    constructor (root: Digest, head: Digest)
      ensures this.root == root && this.head == head
    {
      this.root, this.head := root, head;
    }

    /** Takes in a run. Refused part-way or not, the head is afterwards the
        one fork choice picks over the whole log, and the report compares it
        with where it stood, which may lag behind what others have stored. All
        it takes is that the books are sound once the run is stored. On a
        chain at its head the walk has nothing to derive. */
    method InsertBatch(storage: MemStorage, batch: seq<Envelope>, now: int) returns (r: Result<Insert, Error>)
      requires storage.Valid() && DigestsPin(storage.envelopes.Keys + Offered(batch))
      requires SoundFrom(root, StoreAll(BooksOf(storage), batch, None, now).books)
      modifies this`head, storage
      ensures Valid(storage)
      ensures var spec := StoreAll(old(BooksOf(storage)), batch, None, now);
              && storage.envelopes == spec.books.entries
              && CachesPath(spec.books.versions, storage.versions, storage.Log(), root)
              && Grows(old(BooksOf(storage)), BooksOf(storage))
              && r == Report(old(head), head, old(head) in Named(storage.envelopes.Keys, head), batch, spec)
              && (old(Valid(storage)) ==> BooksOf(storage) == spec.books)
      ensures old(Valid(storage)) ==>
                (old(head) in Named(storage.envelopes.Keys, head) <==> IsAncestor(old(head), head))
      ensures InsertTrail(old(BooksOf(storage)), root, batch, now, old(storage.trail), storage.trail)
    {
      hide SoundFrom;
      hide CachesPath;
      hide PathCached;
      hide StoreAll;
      hide Grows;
      hide DigestsPin;
      hide IsHead;
      hide Named;
      hide InsertTrail;
      hide StoreTrail;
      hide WalkTrail;
      hide Rooted;
      hide MemStorage.Valid;
      ghost var before, trail := BooksOf(storage), storage.trail;
      ghost var spec := StoreAll(before, batch, None, now);
      StoreAllAdds(before, batch, None, now);
      var stored := StoreBatch(storage, batch, now);
      PinFewer(storage.envelopes.Keys, before.entries.Keys + Offered(batch));
      var from := head;
      ghost var written := storage.trail;
      var walked := Canonicalize(storage, root);
      TrailsJoin(before, root, batch, now, trail, written, storage.trail);
      GrowsOn(before, spec.books, BooksOf(storage), root);
      head := walked.value;
      if ChainSound(root, from, before) {
        NothingUncached(root, from, before, batch, now);
        NothingRederived(spec.books, BooksOf(storage), root);
        HeadsClimb(root, from, before, head, BooksOf(storage));
      }
      if stored.Err? {
        return Err(stored.error);
      }
      if head != from {
        var forward := Descends(storage, head, from);
        return Ok(if forward then Extended else Reorged(from));
      }
      return Ok(if stored.value then Duplicate else Unchanged);
    }

    /** Prunes everything older than `cut` and every dead branch hanging from
        it. Refused only when climbing from the head never names `cut`. The
        log afterwards is exactly what the prune does not doom, the count is
        exact, and an interruption at any write leaves a log from which the
        prune can be finished with the same outcome. On a canonical cut the
        head does not move. */
    method Compact(storage: MemStorage, cut: Digest) returns (r: Result<nat, Error>)
      requires storage.Valid()
      modifies this`root, storage
      ensures storage.Valid()
      ensures r.Ok? <==> cut in Named(old(storage.envelopes.Keys), head)
      ensures r.Err? ==>
                r.error == Diverged(head, cut) && root == old(root) && BooksOf(storage) == old(BooksOf(storage))
      ensures r.Ok? ==>
                && root == cut
                && storage.envelopes == Pruned(old(storage.envelopes), cut)
                && r.value == |Doomed(old(storage.envelopes.Keys), cut)|
                && storage.versions == OnlyBetween(old(storage.versions), cut, head)
                && Interruptible(BooksOf(storage), storage.trail, old(BooksOf(storage)), cut, old(storage.trail))
      ensures r.Ok? && old(Valid(storage)) && cut in old(storage.envelopes) && IsAncestor(old(root), cut) ==>
                Valid(storage) && storage.versions[head] == old(storage.versions[head])
      ensures r.Ok? && old(Footed(cut, head, BooksOf(storage))) ==>
                Valid(storage) && storage.versions[head] == old(storage.versions[head])
      ensures r.Ok? && old(DigestsPin(storage.envelopes.Keys)) && Valid(storage) ==>
              old(Footed(cut, head, BooksOf(storage)))
    {
      hide DigestsPin;
      hide Interruptible;
      hide Footed;
      hide Resumable;
      hide Pruned;
      hide Doomed;
      hide Named;
      hide OnlyBetween;
      hide ChainSound;
      hide PartWay;
      hide MemStorage.Valid;
      ghost var trail, before := storage.trail, BooksOf(storage);
      var keep := PathDown(storage, head, cut);
      if keep.None? {
        return Err(Diverged(head, cut));
      }
      var pruned := PruneLine(storage, cut);
      ResumableFacts(BooksOf(storage), storage.trail, before, cut, trail);
      InterruptibleNext(BooksOf(storage), storage.trail, before, cut, trail);
      storage.Retain(keep.value);
      RetainedBetween(before.versions, keep.value, cut, head);
      NamedAncestors(before.entries.Keys, cut, head);
      root := cut;
      if ChainSound(old(root), head, before) && cut in before.entries && IsAncestor(old(root), cut) {
        CutChain(old(root), head, cut, before, BooksOf(storage));
      }
      if Footed(cut, head, before) {
        FootedPrunes(cut, head, before, BooksOf(storage));
      } else if DigestsPin(before.entries.Keys) && ChainSound(cut, head, BooksOf(storage)) {
        OnlyFootedPrunes(cut, head, before, BooksOf(storage));
      }
      return Ok(pruned);
    }
  }

  /** Removes all that is doomed below `cut`, working up the cut's line from
      its far end. */
  method PruneLine(storage: MemStorage, cut: Digest) returns (pruned: nat)
    requires storage.Valid()
    modifies storage`envelopes, storage`children, storage`trail
    ensures storage.Valid()
    ensures storage.envelopes == Pruned(old(storage.envelopes), cut)
    ensures pruned == |Doomed(old(storage.envelopes.Keys), cut)|
    ensures Resumable(BooksOf(storage), storage.trail, old(BooksOf(storage)), cut, old(storage.trail))
  {
    hide Resumable;
    hide AfterPrune;
    hide IsLine;
    hide LineState;
    hide MemStorage.Valid;
    var line := AncestorLine(storage, cut);
    ghost var log, trail := BooksOf(storage), storage.trail;
    PruneStarts(log, trail, cut, line);
    var k := |line|;
    pruned := 0;
    while k > 0
      invariant 0 <= k <= |line|
      invariant storage.Valid() && Resumable(BooksOf(storage), storage.trail, log, cut, trail)
      invariant LineState(storage.envelopes.Keys, cut, line, k)
      invariant pruned + |storage.envelopes| == |log.entries|
    {
      ResumableFacts(BooksOf(storage), storage.trail, log, cut, trail);
      EndOfLine(log.entries.Keys, storage.envelopes.Keys, cut, line);
      var n := PruneAncestor(storage, cut, line, k, log, trail);
      pruned := pruned + n;
      k := k - 1;
    }
    ResumableFacts(BooksOf(storage), storage.trail, log, cut, trail);
    PruneEnds(log.entries, storage.envelopes, cut, line);
  }

  lemma RetainedBetween(versions: Versions, keep: seq<Digest>, cut: Digest, head: Digest)
    requires forall d :: d in keep <==> IsAncestor(cut, d) && IsAncestor(d, head)
    ensures (map d | d in versions && d in keep :: versions[d]) == OnlyBetween(versions, cut, head)
  {
  }

  /** The versions from `cut` up to `head`. */
  ghost function OnlyBetween(versions: Versions, cut: Digest, head: Digest): Versions {
    map d | d in versions && IsAncestor(cut, d) && IsAncestor(d, head) :: versions[d]
  }

  lemma PruneStarts(log: Books, trail: seq<Books>, cut: Digest, line: seq<Digest>)
    requires IsLine(log.entries.Keys, cut, line)
    ensures Resumable(log, trail, log, cut, trail)
    ensures LineState(log.entries.Keys, cut, line, |line|)
  {
  }

  lemma ResumableFacts(left: Books, since: seq<Books>, log: Books, cut: Digest, trail: seq<Books>)
    requires Resumable(left, since, log, cut, trail)
    ensures PartWay(log.entries, left.entries, cut) && left.versions == log.versions
  {
  }

  lemma EndOfLine(keys: set<Digest>, left: set<Digest>, cut: Digest, line: seq<Digest>)
    requires IsLine(keys, cut, line) && left <= keys
    ensures line != [] ==> line[|line| - 1] !in left || line[|line| - 1].Prev().None?
    ensures line == [] ==> cut !in left || cut.Prev().None?
  {
    assert line != [] ==> LineChild(cut, line, |line|) == line[|line| - 1];
  }

  lemma PruneEnds(log: Entries, left: Entries, cut: Digest, line: seq<Digest>)
    requires IsLine(log.Keys, cut, line) && LineState(left.Keys, cut, line, 0) && PartWay(log, left, cut)
    ensures left == Pruned(log, cut) && |log| - |left| == |Doomed(log.Keys, cut)|
  {
    hide IsLine;
    hide LineState;
    hide IsDoomed;
    EndOfLine(log.Keys, left.Keys, cut, line);
    LineDone(left.Keys, cut, line);
    assert left.Keys == AfterPrune(log.Keys, cut);
    SizeWithout(log.Keys, Doomed(log.Keys, cut));
    assert |left| == |left.Keys| && |log| == |log.Keys|;
  }

  lemma SizeWithout<T>(all: set<T>, some: set<T>)
    requires some <= all
    ensures |all - some| == |all| - |some|
  {
  }

  lemma CutChain(root: Digest, head: Digest, cut: Digest, b: Books, c: Books)
    requires ChainSound(root, head, b) && IsAncestor(root, cut) && IsAncestor(cut, head) && cut in b.entries
    requires PartWay(b.entries, c.entries, cut) && c.versions == OnlyBetween(b.versions, cut, head)
    ensures ChainSound(cut, head, c) && head in b.versions && c.versions[head] == b.versions[head]
  {
    hide SoundFrom;
    OnPathThrough(Weigh(b.entries), root, cut, head);
    CutSound(root, head, cut, b, c);
  }

  lemma PinFewer(fewer: set<Digest>, ds: set<Digest>)
    requires fewer <= ds && DigestsPin(ds)
    ensures DigestsPin(fewer)
  {
  }

  lemma HeadsClimb(root: Digest, from: Digest, b: Books, head: Digest, c: Books)
    requires ChainSound(root, from, b) && IsHead(Weigh(c.entries), root, head)
    ensures from in Named(c.entries.Keys, head) <==> IsAncestor(from, head)
  {
    hide SoundFrom;
    hide Kids;
    hide IsBest;
    ClimbIsAncestry(Weigh(c.entries), c.entries.Keys, root, from, head, Weigh(b.entries));
  }

  lemma GrowsOn(before: Books, stored: Books, after: Books, root: Digest)
    requires Grows(before, stored) && after.entries == stored.entries
    requires CachesPath(stored.versions, after.versions, Weigh(stored.entries), root)
    ensures Grows(before, after)
  {
  }

  /** Between envelopes of one chain, climbing the log decides ancestry. */
  lemma ClimbIsAncestry(log: Log, keys: set<Digest>, root: Digest, from: Digest, head: Digest, earlier: Log)
    requires keys == log.Keys && OnPath(log, root, head) && OnPath(earlier, root, from)
    ensures from in Named(keys, head) <==> IsAncestor(from, head)
  {
    OnPathDescends(earlier, root, from);
    OnPathDescends(log, root, head);
    if IsAncestor(from, head) {
      forall x | IsAncestor(x, head) && IsProperAncestor(from, x) ensures x in keys {
        AncestorTransitive(root, from, x.Prev().value);
        PathStored(log, root, root, head);
      }
      NamedReaches(keys, from, head);
    }
    if from in Named(keys, head) { NamedAncestors(keys, from, head); }
  }

  // ---------------------------------------------------------------------
  // Opening a chain

  ghost predicate NothingStoredAbove(b: Books, root: Digest) {
    && (forall d :: d in b.entries ==> !IsProperAncestor(root, d))
    && (forall d :: d in b.versions ==> !IsProperAncestor(root, d))
  }

  lemma FreshChain(b: Books, c: Books, root: Digest, state: State, entry: LogEntry)
    requires NothingStoredAbove(b, root) && RulesHold(state) && DigestsPin(c.entries.Keys)
    requires c.versions == b.versions[root := state] && c.entries == b.entries[root := entry]
    ensures ChainSound(root, root, c)
  {
    hide Replay;
    hide StatusOn;
    hide RulesHold;
    forall d | d in c.entries && IsProperAncestor(root, d) ensures false { AncestorHeight(root, d.Prev().value); }
    forall d | d in c.versions && IsAncestor(root, d) ensures d == root { AncestorHeight(root, d); }
    assert Replay(Base(root, state), root) == Some(state) by { ReplayAtRoot(Base(root, state)); }
    forall d | OnPath(Weigh(c.entries), root, d) ensures d == root { OnPathDescends(Weigh(c.entries), root, d); }
  }

  /** The first namespace of a checkpoint whose rule refuses its value. */
  method ValidateAll(namespaces: State) returns (r: Option<ApplyError>)
    ensures r.None? <==> RulesHold(namespaces)
    ensures r.Some? ==> exists key :: key in namespaces && ValidateValue(key, namespaces[key]) == r
  {
    var left := namespaces.Keys;
    while left != {}
      invariant left <= namespaces.Keys
      invariant forall key :: key in namespaces && key !in left ==> Broken(key, namespaces[key]).None?
    {
      var key :| key in left;
      var refused := ValidateValue(key, namespaces[key]);
      if refused.Some? {
        return refused;
      }
      left := left - {key};
    }
    return None;
  }

  /** Founds a chain on an `Init`. */
  method InitChain(storage: MemStorage, e: Envelope, now: int) returns (r: Result<Chain, Error>)
    requires storage.Valid() && DigestsPin(storage.envelopes.Keys + {e.digest})
    modifies storage
    ensures storage.Valid()
    ensures r.Ok? <==> e.digest.payload.Init? && RulesHold(e.digest.payload.namespaces)
    ensures r.Err? ==> BooksOf(storage) == old(BooksOf(storage))
    ensures !e.digest.payload.Init? ==> r == Err(NotInit)
    ensures r.Ok? ==>
              && fresh(r.value) && r.value.root == r.value.head == e.digest
              && storage.versions == old(storage.versions)[e.digest := e.digest.payload.namespaces]
              && Verify(e.digest.payload.namespaces, e.digest, e.digest).Ok?
              && storage.envelopes == WithEntry(old(storage.envelopes), e.digest,
                   Envelope(e.digest, Verify(e.digest.payload.namespaces, e.digest, e.digest).value), now)
    ensures r.Ok? && NothingStoredAbove(old(BooksOf(storage)), e.digest) ==> r.value.Valid(storage)
  {
    hide RulesHold;
    hide ChainSound;
    hide NothingStoredAbove;
    if !e.digest.payload.Init? {
      return Err(NotInit);
    }
    ghost var before := BooksOf(storage);
    var root, namespaces := e.digest, e.digest.payload.namespaces;
    var refused := ValidateAll(namespaces);
    if refused.Some? {
      return Err(Rejected(refused.value));
    }
    ConfigReads(namespaces);
    storage.Install(root, namespaces);
    var status := VerifyEnvelope(namespaces, root, root);
    storage.PutEnvelope(root, Envelope(root, status.value), now);
    var chain := new Chain(root, root);
    if NothingStoredAbove(before, root) {
      assert storage.envelopes.Keys == before.entries.Keys + {root};
      FreshChain(before, BooksOf(storage), root, namespaces, storage.envelopes[root]);
    }
    return Ok(chain);
  }

  /** Opens a chain at an envelope and the state standing at it, without what
      came before. */
  method AdoptChain(storage: MemStorage, e: Envelope, state: State, now: int) returns (r: Result<Chain, Error>)
    requires storage.Valid() && DigestsPin(storage.envelopes.Keys + {e.digest})
    modifies storage
    ensures storage.Valid()
    ensures r.Ok? <==> !e.digest.payload.Init? && RulesHold(state)
    ensures r.Err? ==> BooksOf(storage) == old(BooksOf(storage))
    ensures e.digest.payload.Init? ==> r == Err(Rejected(UnexpectedInit))
    ensures r.Ok? ==>
              && fresh(r.value) && r.value.root == r.value.head == e.digest
              && storage.versions == old(storage.versions)[e.digest := state]
              && storage.envelopes == WithEntry(old(storage.envelopes), e.digest, e, now)
    ensures r.Ok? && NothingStoredAbove(old(BooksOf(storage)), e.digest) ==> r.value.Valid(storage)
  {
    hide RulesHold;
    hide ChainSound;
    hide NothingStoredAbove;
    if e.digest.payload.Init? {
      return Err(Rejected(UnexpectedInit));
    }
    ghost var before := BooksOf(storage);
    var refused := ValidateAll(state);
    if refused.Some? {
      return Err(Rejected(refused.value));
    }
    var root := e.digest;
    storage.Install(root, state);
    storage.PutEnvelope(root, e, now);
    var chain := new Chain(root, root);
    if NothingStoredAbove(before, root) {
      assert storage.envelopes.Keys == before.entries.Keys + {root};
      FreshChain(before, BooksOf(storage), root, state, storage.envelopes[root]);
    }
    return Ok(chain);
  }

  /** A replay that has come through the first `i` envelopes after its `Init`:
      they link up, replay, and their versions are held. */
  ghost predicate Replayed(base: Base, run: seq<Digest>, i: nat, versions: Versions)
  {
    && i <= |run| && Linked(base.root, run[..i]) && AllReplay(base, run[..i])
    && forall j: nat :: j <= i ==> VersionTrue(base, versions, Before(base.root, run, j))
  }

  lemma ReplayStarts(base: Base, run: seq<Digest>, versions: Versions)
    ensures Replayed(base, run, 0, versions[base.root := base.state])
  {
    hide Replay;
    LinkedNone(base.root);
    ReplayAtRoot(base);
    assert run[..0] == [];
  }

  lemma ReplayGoesOn(base: Base, run: seq<Digest>, i: nat, versions: Versions, s: State)
    requires i < |run| && Replayed(base, run, i, versions) && run[i].Prev() == Some(Before(base.root, run, i))
    requires Transition(versions[Before(base.root, run, i)], Before(base.root, run, i), run[i]) == Some(s)
    ensures Replayed(base, run, i + 1, versions[run[i] := s])
  {
    hide Transition;
    var p, d := Before(base.root, run, i), run[i];
    assert VersionTrue(base, versions, p);
    ReplayNext(base, d);
    LinkedMore(base.root, run, i);
    assert run[..i + 1] == run[..i] + [d];
    hide Replay;
    forall j: nat | j <= i + 1 ensures VersionTrue(base, versions[d := s], Before(base.root, run, j)) {
      if j <= i {
        assert VersionTrue(base, versions, Before(base.root, run, j));
        NotAgain(base.root, run, i, j);
      }
    }
  }

  lemma {:induction false} NotAgain(root: Digest, run: seq<Digest>, i: nat, j: nat)
    requires j <= i < |run| && Linked(root, run[..i + 1])
    ensures Height(Before(root, run, j)) < Height(run[i])
    decreases i
  {
    LinkedMore(root, run, i);
    assert Follows(root, run, i);
    if j == i {
    } else {
      NotAgain(root, run, i - 1, j);
    }
  }

  /** A refusal at the next envelope: the whole run does not replay. */
  lemma ReplayStops(base: Base, run: seq<Digest>, i: nat, versions: Versions)
    requires i < |run| && Replayed(base, run, i, versions)
    requires var p := Before(base.root, run, i);
             run[i].Prev() != Some(p) || Transition(versions[p], p, run[i]).None?
    ensures !(Linked(base.root, run) && AllReplay(base, run))
  {
    hide Transition;
    var p, d := Before(base.root, run, i), run[i];
    assert VersionTrue(base, versions, p);
    if Linked(base.root, run) {
      assert Follows(base.root, run, i);
      ReplayNext(base, d);
    }
  }

  /** Replays a whole chain into a store, `Init` first. Succeeds exactly on a
      chain that starts with an `Init` whose namespaces keep their rules, links
      up, and replays; every envelope's version is then held. No version of
      anything else changes, and no chain at all is an error of its own. */
  method ReplayInto(storage: MemStorage, envelopes: seq<Digest>) returns (r: Result<Digest, Error>)
    requires storage.Valid()
    modifies storage`versions, storage`trail
    ensures storage.Valid()
    ensures envelopes == [] ==> r == Err(EmptyChain)
    ensures envelopes != [] && !envelopes[0].payload.Init? ==> r == Err(NotInit)
    ensures r.Ok? <==>
              && envelopes != [] && envelopes[0].payload.Init? && RulesHold(envelopes[0].payload.namespaces)
              && Linked(envelopes[0], envelopes[1..])
              && AllReplay(Base(envelopes[0], envelopes[0].payload.namespaces), envelopes[1..])
    ensures r.Ok? ==>
              && r.value == envelopes[|envelopes| - 1]
              && forall i :: 0 <= i < |envelopes| ==>
                   VersionTrue(Base(envelopes[0], envelopes[0].payload.namespaces), storage.versions, envelopes[i])
    ensures forall d :: d !in envelopes ==>
              (d in storage.versions <==> d in old(storage.versions)) &&
              (d in old(storage.versions) ==> storage.versions[d] == old(storage.versions)[d])
  {
    hide RulesHold;
    hide Transition;
    hide Verify;
    hide Apply;
    hide Replayed;
    hide Linked;
    hide AllReplay;
    hide VersionTrue;
    hide MemStorage.Valid;
    if envelopes == [] {
      return Err(EmptyChain);
    }
    var root, run := envelopes[0], envelopes[1..];
    if !root.payload.Init? {
      return Err(NotInit);
    }
    var refused := ValidateAll(root.payload.namespaces);
    if refused.Some? {
      return Err(Rejected(refused.value));
    }
    ghost var base, before := Base(root, root.payload.namespaces), storage.versions;
    storage.Install(root, root.payload.namespaces);
    ReplayStarts(base, run, before);
    for i := 0 to |run|
      invariant storage.Valid() && Replayed(base, run, i, storage.versions)
      invariant forall d :: d !in envelopes ==>
                  (d in storage.versions <==> d in before) && (d in before ==> storage.versions[d] == before[d])
    {
      assert run[i] in envelopes;
      ReplayHolds(base, run, i, storage.versions);
      var head := if i == 0 then root else run[i - 1];
      ghost var versions := storage.versions;
      var applied := VerifyAndApply(storage, head, run[i]);
      if applied.Err? {
        ReplayStops(base, run, i, versions);
        return Err(Rejected(applied.error));
      }
      ReplayGoesOn(base, run, i, versions, storage.versions[run[i]]);
    }
    ReplayDone(base, run, storage.versions, envelopes);
    return Ok(envelopes[|envelopes| - 1]);
  }

  lemma ReplayHolds(base: Base, run: seq<Digest>, i: nat, versions: Versions)
    requires i <= |run| && Replayed(base, run, i, versions)
    ensures Before(base.root, run, i) in versions
  {
    hide Replay;
    assert VersionTrue(base, versions, Before(base.root, run, i));
  }

  lemma ReplayDone(base: Base, run: seq<Digest>, versions: Versions, envelopes: seq<Digest>)
    requires Replayed(base, run, |run|, versions) && envelopes == [base.root] + run
    ensures Linked(base.root, run) && AllReplay(base, run)
    ensures forall i :: 0 <= i < |envelopes| ==> VersionTrue(base, versions, envelopes[i])
  {
    hide VersionTrue;
    assert run[..|run|] == run;
    forall i | 0 <= i < |envelopes| ensures VersionTrue(base, versions, envelopes[i]) {
      assert Before(base.root, run, i) == envelopes[i];
    }
  }

  /** Verifies an envelope against a ledger at `head` and applies it. */
  method VerifyAndApply(storage: MemStorage, head: Digest, d: Digest) returns (r: Result<(), ApplyError>)
    requires storage.Valid() && head in storage.versions
    modifies storage`versions, storage`trail
    ensures storage.Valid()
    ensures r.Ok? <==> d.Prev() == Some(head) && Transition(old(storage.versions)[head], head, d).Some?
    ensures r.Ok? ==>
              storage.versions == old(storage.versions)[d := Transition(old(storage.versions)[head], head, d).value]
    ensures r.Err? ==> storage.versions == old(storage.versions)
  {
    var status := VerifyEnvelope(storage.versions[head], head, d);
    if status.Err? {
      return Err(status.error);
    }
    r := ApplyTo(storage, head, Envelope(d, status.value));
  }

  /** Opens what a store holds above `root` as a chain again. */
  method OpenChain(storage: MemStorage, root: Digest) returns (r: Result<Chain, Error>)
    requires storage.Valid() && DigestsPin(storage.envelopes.Keys)
    modifies storage
    ensures storage.Valid()
    ensures root !in old(storage.envelopes) || root !in old(storage.versions) ==>
              r == Err(UnknownHead(root)) && BooksOf(storage) == old(BooksOf(storage))
    ensures r.Ok? ==>
              && fresh(r.value) && r.value.root == root && storage.envelopes == old(storage.envelopes)
              && IsHead(storage.Log(), root, r.value.head) && PathCached(BooksOf(storage), root)
              && CachesPath(old(storage.versions), storage.versions, storage.Log(), root)
    ensures SoundFrom(root, old(BooksOf(storage))) ==> r.Ok? && r.value.Valid(storage)
    ensures Rooted(root, old(BooksOf(storage))) ==> r.Ok? && Rooted(root, BooksOf(storage))
  {
    hide Rooted;
    hide SoundFrom;
    hide WalkTrail;
    hide Since;
    hide PathCached;
    hide CachesPath;
    hide IsHead;
    if root !in storage.envelopes {
      SoundHoldsRoot(root, BooksOf(storage));
      RootedHoldsRoot(root, BooksOf(storage));
      return Err(UnknownHead(root));
    }
    var walked := Canonicalize(storage, root);
    if walked.Err? {
      return Err(walked.error);
    }
    var chain := new Chain(root, walked.value);
    return Ok(chain);
  }

  lemma RootedHoldsRoot(root: Digest, b: Books)
    ensures Rooted(root, b) ==> root in b.entries
  {
  }

  lemma SoundHoldsRoot(root: Digest, b: Books)
    ensures SoundFrom(root, b) ==> root in b.entries
  {
  }

  // ---------------------------------------------------------------------
  // The version cache agrees with replay

  /** Dropping any versions but the root's loses nothing: the books are still
      those of the chain, short of what a reopening walk re-derives. */
  lemma DroppedVersions(root: Digest, b: Books, versions: Versions)
    requires SoundFrom(root, b) && root in versions
    requires forall d :: d in versions ==> d in b.versions && versions[d] == b.versions[d]
    ensures SoundFrom(root, Books(versions, b.entries))
  {
    hide Replay;
    hide StatusOn;
    hide RulesHold;
  }

  /** Two chains over one log with one root state stand at one head, with one
      state there, whatever else their caches hold. */
  lemma OneHeadOneState(root: Digest, h1: Digest, h2: Digest, b: Books, c: Books)
    requires ChainSound(root, h1, b) && ChainSound(root, h2, c)
    requires Weigh(b.entries) == Weigh(c.entries) && b.versions[root] == c.versions[root]
    ensures h1 == h2 && b.versions[h1] == c.versions[h2]
  {
    hide Replay;
    hide StatusOn;
    hide RulesHold;
    HeadUnique(Weigh(b.entries), root, h1, h2);
    OnPathDescends(Weigh(b.entries), root, h1);
  }

  /** Compaction is safe to interrupt anywhere: from any point of it the chain
      reopens at the cut with the same head and state there, and finishing it
      ends in the same log and versions as the uninterrupted run. */
  lemma InterruptedCompaction(root: Digest, head: Digest, cut: Digest, b: Books, left: Entries)
    requires ChainSound(root, head, b) && IsAncestor(root, cut) && IsAncestor(cut, head) && cut in b.entries
    requires PartWay(b.entries, left, cut)
    ensures ChainSound(cut, head, Books(b.versions, left))
    ensures Pruned(left, cut) == Pruned(b.entries, cut)
  {
    CutOnWay(root, head, cut, b);
    hide ChainSound;
    hide PartWay;
    hide OnPath;
    CutSound(root, head, cut, b, Books(b.versions, left));
    SameOutcome(b.entries, left, cut);
  }

  lemma CutOnWay(root: Digest, head: Digest, cut: Digest, b: Books)
    requires ChainSound(root, head, b) && IsAncestor(root, cut) && IsAncestor(cut, head)
    ensures OnPath(Weigh(b.entries), root, cut)
  {
    hide SoundFrom;
    hide PathCached;
    OnPathThrough(Weigh(b.entries), root, cut, head);
  }

  lemma SameOutcome(log: Entries, left: Entries, cut: Digest)
    requires PartWay(log, left, cut)
    ensures Pruned(left, cut) == Pruned(log, cut)
  {
    hide Doomed;
    hide Upright;
    assert AfterPrune(left.Keys, cut) <= left.Keys;
  }

  /** A restart after an interruption: reopens at the recorded cut and runs
      the compaction again, ending as if it had never been interrupted. */
  method ResumeCompaction(storage: MemStorage, cut: Digest, ghost root: Digest, ghost head: Digest, ghost b: Books)
      returns (chain: Chain)
    requires storage.Valid() && ChainSound(root, head, b)
    requires IsAncestor(root, cut) && IsAncestor(cut, head) && cut in b.entries
    requires storage.versions == b.versions && PartWay(b.entries, storage.envelopes, cut)
    modifies storage
    ensures chain.Valid(storage) && chain.root == cut && chain.head == head
    ensures storage.envelopes == Pruned(b.entries, cut)
    ensures storage.versions == OnlyBetween(b.versions, cut, head)
  {
    hide PartWay;
    hide Pruned;
    hide SoundFrom;
    hide OnlyBetween;
    hide MemStorage.Valid;
    ghost var left := BooksOf(storage);
    InterruptedCompaction(root, head, cut, b, storage.envelopes);
    OnPathDescends(Weigh(left.entries), cut, head);
    var reopened := OpenChain(storage, cut);
    chain := reopened.value;
    HeadUnique(Weigh(left.entries), cut, chain.head, head);
    NothingRederived(left, BooksOf(storage), cut);
    ClimbIsAncestry(Weigh(left.entries), left.entries.Keys, cut, cut, head, Weigh(left.entries));
    RootStored(cut, left);
    var pruned := chain.Compact(storage, cut);
  }

  lemma RootStored(root: Digest, b: Books)
    requires SoundFrom(root, b)
    ensures root in b.entries
  {
  }

  lemma NothingRederived(b: Books, c: Books, root: Digest)
    requires PathCached(b, root) && c.entries == b.entries
    requires CachesPath(b.versions, c.versions, Weigh(b.entries), root)
    ensures c == b
  {
    assert c.versions.Keys == b.versions.Keys;
  }
}
