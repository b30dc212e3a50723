/** Nodes on one root that pull from each other converge, however much of
    their caches compaction has taken (crates/sync/src/lib.rs). */
module Convergence {
  import opened Wire
  import opened Ledger
  import opened Lineage
  import opened ForkChoice
  import opened Storage
  import opened Ingest
  import opened Walks
  import opened Chains
  import opened Differ
  import opened Cores
  import opened Sync
  import opened Pull

  /** The canonical path of a peer above the root, each envelope at the weight
      replay gives it. */
  ghost function PathLog(base: Base, entries: Entries, head: Digest): Log {
    map d | d in entries && IsProperAncestor(base.root, d) && IsAncestor(d, head) :: StatusOn(base, d).Weight()
  }

  /** A log with a peer's path added. */
  ghost function WithPath(base: Base, kept: Entries, entries: Entries, head: Digest): Log {
    Weigh(kept) + PathLog(base, entries, head)
  }

  lemma SoundWeighs(base: Base, b: Books, d: Digest)
    requires Sound(base, b) && d in b.entries && IsProperAncestor(base.root, d)
    ensures Weigh(b.entries)[d] == StatusOn(base, d).Weight()
  {
    hide Replay;
    hide StatusOn;
    hide RulesHold;
  }

  /** What a pull left between a log and the log with the whole path added. */
  ghost predicate Partly(kept: Log, log: Log, path: Log) {
    && (forall x :: x in kept ==> x in log && log[x] == kept[x])
    && (forall x :: x in log ==> x in kept || x in path)
    && (forall x :: x in log && x in path ==> log[x] == path[x])
  }

  ghost function Rest(log: Log, path: Log): Log {
    map x | x in path && x !in log :: path[x]
  }

  lemma PartlyJoins(kept: Log, log: Log, path: Log)
    requires Partly(kept, log, path)
    ensures kept + path == log + Rest(log, path)
  {
    assert (kept + path).Keys == (log + Rest(log, path)).Keys;
  }

  /** What a pull did not take hangs off an envelope off the path. */
  ghost predicate LacksAbove(log: Log, path: Log, root: Digest, d: Digest) {
    && IsAncestor(root, d) && !OnPath(log, root, d)
    && forall x :: x in path && x !in log ==> IsProperAncestor(d, x)
  }

  /** A log that lacks only that of a path has the head of all of it. */
  lemma LackingMovesNothing(kept: Log, log: Log, path: Log, root: Digest, head: Digest, d: Digest)
    requires Partly(kept, log, path) && IsHead(log, root, head)
    requires path.Keys <= log.Keys || LacksAbove(log, path, root, d)
    ensures IsHead(kept + path, root, head)
  {
    hide IsHead;
    PartlyJoins(kept, log, path);
    hide Partly;
    if path.Keys <= log.Keys {
      assert Rest(log, path) == map[] && log + Rest(log, path) == log;
    } else {
      GrowthOffPath(log, Rest(log, path), root, d, head);
    }
  }

  // ---------------------------------------------------------------------
  // One pull

  lemma ChainOffPath(base: Base, h: Digest, a: Books)
    requires ChainSound(base.root, h, a)
    ensures IsHead(Weigh(a.entries), base.root, h)
    ensures forall d :: d !in a.versions ==> !OnPath(Weigh(a.entries), base.root, d)
  {
    hide SoundFrom;
  }

  /** A peer whose head is held has its path held. */
  lemma HeldPathLog(base: Base, kept: Books, b: Books, hb: Digest)
    requires Kept(base, kept) && hb in kept.entries
    ensures PathLog(base, b.entries, hb).Keys <= Weigh(kept.entries).Keys
  {
    hide Sound;
    hide Tidy;
    hide StatusOn;
    forall x | x in PathLog(base, b.entries, hb) ensures x in kept.entries {
      AncestorTransitive(base.root, x.Prev().value, x);
      KeptHolds(base, kept, hb, x);
    }
  }

  lemma NoPathLog(base: Base, b: Books, hb: Digest)
    requires !IsAncestor(base.root, hb)
    ensures PathLog(base, b.entries, hb) == map[]
  {
    hide StatusOn;
    forall x | x in b.entries && IsProperAncestor(base.root, x) ensures !IsAncestor(x, hb) {
      if IsAncestor(x, hb) {
        AncestorTransitive(base.root, x.Prev().value, x);
        AncestorTransitive(base.root, x, hb);
      }
    }
  }

  /** Nothing taken. */
  lemma UnpulledPartly(base: Base, kept: Books, a: Books, b: Books, hb: Digest)
    requires Kept(base, kept) && Kept(base, a) && Grows(kept, a) && a.entries.Keys == kept.entries.Keys
    ensures Partly(Weigh(kept.entries), Weigh(a.entries), PathLog(base, b.entries, hb))
  {
    hide Sound;
    hide Tidy;
    PulledPartly(base, kept, a, b.entries, hb);
  }

  /** The first `k` taken. */
  lemma SyncedPartly(base: Base, kept: Books, a: Books, b: Books, hb: Digest, split: Digest, sent: seq<Digest>, k: nat)
    requires Kept(base, kept) && Kept(base, a) && Grows(kept, a) && k <= |sent|
    requires IsSuffix(split, hb, sent) && split in Named(b.entries.Keys, hb)
    requires (split in kept.entries && IsAncestor(base.root, split)) || base.root.Prev() == Some(split)
    requires a.entries.Keys == kept.entries.Keys + Elements(sent[..k])
    ensures Partly(Weigh(kept.entries), Weigh(a.entries), PathLog(base, b.entries, hb))
    ensures k == |sent| ==> PathLog(base, b.entries, hb).Keys <= Weigh(a.entries).Keys
    ensures 0 < k && !OnPath(Weigh(a.entries), base.root, sent[k - 1]) ==>
              LacksAbove(Weigh(a.entries), PathLog(base, b.entries, hb), base.root, sent[k - 1])
  {
    hide Sound;
    hide Named;
    hide StatusOn;
    hide OnPath;
    forall x | x in a.entries ensures x in kept.entries || x in PathLog(base, b.entries, hb) {
      if x !in kept.entries {
        var i :| 0 <= i < k && sent[..k][i] == x;
        SentOnPath(base, a, b, hb, split, sent, i);
        RootIsKept(base, kept);
      }
    }
    PulledPartly(base, kept, a, b.entries, hb);
    forall j | 0 <= j < k ensures sent[j] in a.entries { assert sent[..k][j] == sent[j]; }
    forall x | x in PathLog(base, b.entries, hb) && x !in a.entries
      ensures k < |sent| && (0 < k ==> IsProperAncestor(sent[k - 1], x))
    {
      PathParts(base, kept, b, hb, split, sent, x);
      var j :| 0 <= j < |sent| && sent[j] == x;
      if 0 < k { RunBetween(split, sent, k - 1, j); }
    }
    if 0 < k { assert sent[..k][k - 1] in a.entries; }
  }

  lemma RootIsKept(base: Base, kept: Books)
    requires Kept(base, kept)
    ensures base.root in kept.entries
  {
    hide Tidy;
  }

  /** Where a pull may leave a puller's books: all the path taken, or up to an
      envelope without a version. */
  lemma PulledPartly(base: Base, kept: Books, a: Books, entries: Entries, hb: Digest)
    requires Sound(base, kept) && Sound(base, a) && Grows(kept, a)
    requires forall x :: x in a.entries ==> x in kept.entries || x in PathLog(base, entries, hb)
    ensures Partly(Weigh(kept.entries), Weigh(a.entries), PathLog(base, entries, hb))
  {
    forall x | x in a.entries && x in PathLog(base, entries, hb)
      ensures Weigh(a.entries)[x] == PathLog(base, entries, hb)[x]
    {
      SoundWeighs(base, a, x);
    }
    hide Sound;
    hide StatusOn;
  }

  /** The path above the root is held up to the split, and past it is what was
      sent. */
  lemma PathParts(base: Base, kept: Books, b: Books, hb: Digest, split: Digest, sent: seq<Digest>, x: Digest)
    requires Kept(base, kept) && IsSuffix(split, hb, sent)
    requires (split in kept.entries && IsAncestor(base.root, split)) || base.root.Prev() == Some(split)
    requires x in b.entries && IsProperAncestor(base.root, x) && IsAncestor(x, hb)
    ensures x in kept.entries || x in sent
  {
    hide Sound;
    AncestorTransitive(base.root, x.Prev().value, x);
    SuffixUnder(split, hb, sent);
    AncestorsComparable(x, split, hb);
    if IsAncestor(x, split) {
      AncestorTransitive(base.root, x, split);
      if base.root.Prev() == Some(split) { AncestorHeight(base.root, split); } else { KeptHolds(base, kept, split, x); }
    } else {
      AncestorHeight(split, x);
      RunHas(split, sent, x);
    }
  }

  lemma SuffixUnder(split: Digest, hb: Digest, sent: seq<Digest>)
    requires IsSuffix(split, hb, sent)
    ensures IsAncestor(split, hb)
  {
    if sent != [] {
      RunOver(split, sent, |sent| - 1);
      AncestorTransitive(split, hb.Prev().value, hb);
    }
  }

  /** What was taken of what was sent lies on the peer's path. */
  lemma SentOnPath(base: Base, a: Books, b: Books, hb: Digest, split: Digest, sent: seq<Digest>, i: nat)
    requires IsSuffix(split, hb, sent) && split in Named(b.entries.Keys, hb) && i < |sent|
    requires Tidy(base.root, a) && sent[i] in a.entries
    ensures sent[i] == base.root || sent[i] in PathLog(base, b.entries, hb)
  {
    hide Named;
    hide StatusOn;
    RunUnder(split, sent, i);
    RunOver(split, sent, i);
    NamedThrough(b.entries.Keys, split, sent[i], hb);
    AncestorHeight(base.root, sent[i]);
  }

  lemma RunBetween(split: Digest, sent: seq<Digest>, i: nat, j: nat)
    requires Linked(split, sent) && i < j < |sent|
    ensures IsProperAncestor(sent[i], sent[j])
  {
    LinkedFrom(split, sent, i + 1);
    assert Before(split, sent, i + 1) == sent[i] && sent[i + 1..][j - i - 1] == sent[j];
    RunOver(sent[i], sent[i + 1..], j - i - 1);
  }

  lemma SplitOnWalk(base: Base, kept: Books, ha: Digest, split: Digest)
    requires Kept(base, kept) && ha in kept.entries && split in Named(kept.entries.Keys, ha)
    ensures (split in kept.entries && IsAncestor(base.root, split)) || base.root.Prev() == Some(split)
  {
    hide Sound;
    hide Named;
    KeptWalk(base, ha, kept);
    assert OnWalk(base.root, ha, split);
    if IsAncestor(base.root, split) { KeptHolds(base, kept, ha, split); }
  }

  /** After any pull but one without common history the puller stands at the
      head of all it held and the whole of the peer's path, also of what it
      refused. */
  lemma PullHead(base: Base, kept: Books, ha: Digest, a: Books, h: Digest, b: Books, hb: Digest,
                 outcome: PullOutcome, split: Digest, sent: seq<Digest>)
    requires Kept(base, kept) && ha in kept.entries && Kept(base, a) && ChainSound(base.root, h, a) && Grows(kept, a)
    requires PullResult(base, kept, ha, a, b, hb, outcome, split, sent) && !outcome.NoCommonHistory?
    ensures IsHead(WithPath(base, kept.entries, b.entries, hb), base.root, h)
    ensures Partly(Weigh(kept.entries), Weigh(a.entries), PathLog(base, b.entries, hb))
  {
    hide Kept;
    hide Partly;
    hide Grows;
    hide Named;
    hide CanTake;
    hide ChainSound;
    hide PathLog;
    hide IsHead;
    hide OnPath;
    var path := PathLog(base, b.entries, hb);
    ChainOffPath(base, h, a);
    match outcome {
      case AlreadyCurrent =>
        HeldPathLog(base, kept, b, hb);
        UnpulledPartly(base, kept, a, b, hb);
        LackingMovesNothing(Weigh(kept.entries), Weigh(a.entries), path, base.root, h, base.root);
      case Synced(_, _) =>
        SplitOnWalk(base, kept, ha, split);
        SyncedPartly(base, kept, a, b, hb, split, sent, |sent|);
        LackingMovesNothing(Weigh(kept.entries), Weigh(a.entries), path, base.root, h, base.root);
      case Refused(error) =>
        var k: nat :|
          && StuckOn(kept, a, split, sent, k, error)
          && (k == 0 ==> base.root.Prev() == Some(split) && !IsAncestor(base.root, hb));
        if k == 0 {
          NoPathLog(base, b, hb);
          assert sent[..0] == [] && Elements([]) == {};
          UnpulledPartly(base, kept, a, b, hb);
          LackingMovesNothing(Weigh(kept.entries), Weigh(a.entries), path, base.root, h, base.root);
        } else {
          SplitOnWalk(base, kept, ha, split);
          SyncedPartly(base, kept, a, b, hb, split, sent, k);
          assert sent[..k][k - 1] == sent[k - 1];
          LackingMovesNothing(Weigh(kept.entries), Weigh(a.entries), path, base.root, h, sent[k - 1]);
        }
    }
  }

  // ---------------------------------------------------------------------
  // Two pulls

  /** Sound books over one base weigh alike what they share. */
  lemma KeptAgree(base: Base, x: Books, y: Books)
    requires Kept(base, x) && Kept(base, y)
    ensures Agree(Weigh(x.entries), Weigh(y.entries), base.root)
  {
    hide StatusOn;
    forall d | d in x.entries && d in y.entries && d != base.root
      ensures Weigh(x.entries)[d] == Weigh(y.entries)[d]
    {
      AncestorHeight(base.root, d);
      SoundWeighs(base, x, d);
      SoundWeighs(base, y, d);
    }
  }

  lemma KeptGrounded(base: Base, b: Books)
    requires Kept(base, b)
    ensures Grounded(Weigh(b.entries), base.root)
  {
    hide Grounded;
    hide Tidy;
    hide Replay;
    SoundIsGrounded(base, b.entries);
  }

  /** What makes a path fit to be added to a log: it is of the other log, the
      two agree on it, and it is all the way to the head. */
  ghost predicate Fits(a: Log, b: Log, path: Log, root: Digest, hb: Digest) {
    && (forall x :: x in path ==> x in b && path[x] == b[x])
    && (forall x :: x in path && x in a ==> path[x] == a[x])
    && (forall x :: IsProperAncestor(root, x) && IsAncestor(x, hb) ==> x in path)
    && (forall x :: x in path && IsProperAncestor(root, x) ==> x.Prev().value in a || x.Prev().value in path)
  }

  lemma FittingMerges(a: Log, b: Log, path: Log, root: Digest, hb: Digest)
    requires Fits(a, b, path, root, hb) && Agree(a, b, root) && Grounded(a, root)
    ensures Merges(a + path, a, b, root, hb) && Grounded(a + path, root)
    ensures forall x :: x in a ==> x in a + path && (a + path)[x] == a[x]
  {
  }

  /** A log with a peer's path added is what gossip of canonical paths needs. */
  lemma WithPathMerges(base: Base, a: Books, b: Books, hb: Digest)
    requires Kept(base, a) && Kept(base, b) && hb in b.entries
    ensures var all := WithPath(base, a.entries, b.entries, hb);
            && Merges(all, Weigh(a.entries), Weigh(b.entries), base.root, hb) && Grounded(all, base.root)
            && forall x :: x in a.entries ==> x in all && all[x] == Weigh(a.entries)[x]
  {
    KeptAgree(base, a, b);
    KeptGrounded(base, a);
    PathFits(base, a, b, hb);
    hide Fits;
    hide Merges;
    hide Agree;
    hide Grounded;
    hide PathLog;
    hide Kept;
    FittingMerges(Weigh(a.entries), Weigh(b.entries), PathLog(base, b.entries, hb), base.root, hb);
  }

  lemma PathFits(base: Base, a: Books, b: Books, hb: Digest)
    requires Kept(base, a) && Kept(base, b) && hb in b.entries
    ensures Fits(Weigh(a.entries), Weigh(b.entries), PathLog(base, b.entries, hb), base.root, hb)
  {
    hide Sound;
    hide Tidy;
    hide StatusOn;
    var path := PathLog(base, b.entries, hb);
    forall x | x in path && x in a.entries ensures path[x] == Weigh(a.entries)[x] { SoundWeighs(base, a, x); }
    forall x | x in path ensures path[x] == Weigh(b.entries)[x] { SoundWeighs(base, b, x); }
    forall x | IsProperAncestor(base.root, x) && IsAncestor(x, hb) ensures x in path {
      AncestorTransitive(base.root, x.Prev().value, x);
      KeptHolds(base, b, hb, x);
    }
    forall x | x in path && IsProperAncestor(base.root, x)
      ensures x.Prev().value in a.entries || x.Prev().value in path
    {
      PathStays(base, a, b, hb, x);
    }
  }

  lemma PathStays(base: Base, a: Books, b: Books, hb: Digest, x: Digest)
    requires Kept(base, a) && Kept(base, b) && hb in b.entries && x in PathLog(base, b.entries, hb)
    ensures x.Prev().value in a.entries || x.Prev().value in PathLog(base, b.entries, hb)
  {
    hide StatusOn;
    hide Sound;
    var p := x.Prev().value;
    RootIsKept(base, a);
    AncestorTransitive(p, x, hb);
    KeptHolds(base, b, hb, p);
    AncestorHeight(base.root, p);
  }

  /** Pulling one way and then back: the first pull already stands where both
      logs together do, and the second arrives there too. */
  lemma PullBack(a: Log, b: Log, root: Digest, ha: Digest, hb: Digest, pulled: Log, hp: Digest, back: Log)
    requires Grounded(a, root) && Grounded(b, root) && Grounded(pulled, root)
    requires Agree(a, b, root) && DigestsPin(a.Keys + b.Keys)
    requires IsHead(a, root, ha) && IsHead(b, root, hb) && IsHead(pulled, root, hp)
    requires Merges(pulled, a, b, root, hb) && (forall x :: x in a ==> x in pulled && pulled[x] == a[x])
    requires Merges(back, b, pulled, root, hp)
    ensures hp == ha || hp == hb
    ensures IsHead(a + b, root, hp) && IsHead(back, root, hp)
  {
    hide Grounded;
    hide IsHead;
    hide Agree;
    hide Merges;
    hide DigestsPin;
    UnionMerges(a, b, root, ha, hb);
    var h := GossipSuffices(a, b, root, ha, hb, pulled, a + b);
    HeadUnique(pulled, root, h, hp);
    PulledAgrees(a, b, pulled, root, hb);
    PinFewer(pulled.Keys + b.Keys, a.Keys + b.Keys);
    UnionMerges(pulled, b, root, hp, hb);
    var h' := GossipSuffices(pulled, b, root, hp, hb, pulled + b, back);
    HeadUnique(a + b, root, hp, h');
  }

  lemma UnionMerges(a: Log, b: Log, root: Digest, ha: Digest, hb: Digest)
    requires IsHead(a, root, ha) && IsHead(b, root, hb) && Agree(a, b, root)
    ensures Merges(a + b, a, b, root, hb) && Merges(a + b, b, a, root, ha)
  {
    hide Kids;
    hide IsBest;
    OnPathDescends(a, root, ha);
    PathStored(a, root, root, ha);
    OnPathDescends(b, root, hb);
    PathStored(b, root, root, hb);
  }

  lemma PulledAgrees(a: Log, b: Log, pulled: Log, root: Digest, hb: Digest)
    requires Merges(pulled, a, b, root, hb) && (forall x :: x in a ==> x in pulled && pulled[x] == a[x])
    ensures Agree(pulled, b, root) && pulled + b == a + b && pulled.Keys + b.Keys == a.Keys + b.Keys
  {
  }

  /** Two nodes on one root, compacted or not, pull from each other: they end
      on one head, with one state there. Fork choice over both logs together
      picks that head, and it was the head of one of them. Neither pull need
      have taken all it was offered. */
  method MutualPull(a: Core, b: Core, size: Digest -> nat, now: int, ghost base: Base)
    requires StandsOn(base, a) && StandsOn(base, b) && Pull.Apart(a, b) && (forall d :: size(d) >= 1)
    requires DigestsPin(a.storage.envelopes.Keys + b.storage.envelopes.Keys)
    modifies a`seen, a`quiet, a.storage, a.chain`head, a.subscriptions
    modifies b`seen, b`quiet, b.storage, b.chain`head, b.subscriptions
    ensures StandsOn(base, a) && StandsOn(base, b)
    ensures a.chain.head == b.chain.head
    ensures a.chain.head == old(a.chain.head) || a.chain.head == old(b.chain.head)
    ensures a.chain.head in a.storage.versions && b.chain.head in b.storage.versions
    ensures a.storage.versions[a.chain.head] == b.storage.versions[b.chain.head]
    ensures IsHead(old(a.storage.Log()) + old(b.storage.Log()), base.root, a.chain.head)
  {
    hide StandsOn;
    hide Kept;
    hide ChainSound;
    hide IsHead;
    hide Replay;
    hide MemStorage.Valid;
    hide Serves;
    hide PullResult;
    hide DigestsPin;
    hide Grows;
    ghost var x, y := BooksOf(a.storage), BooksOf(b.storage);
    NodeFacts(base, a);
    NodeFacts(base, b);
    StandsServes(base, b);
    var first, split, sent := PullFrom(a, b, size, now, base, base);
    NodeFacts(base, a);
    PinPulled(base, x, old(a.chain.head), BooksOf(a.storage), y, b.chain.head, first, split, sent);
    StandsServes(base, a);
    var second, split', sent' := PullFrom(b, a, size, now, base, base);
    NodeFacts(base, b);
    Converged(base, x, y, old(a.chain.head), old(b.chain.head), BooksOf(a.storage), BooksOf(b.storage),
              a.chain.head, b.chain.head, first, split, sent, second, split', sent');
  }

  /** Whatever a pull took, it took from the peer. */
  lemma PulledWithin(base: Base, kept: Books, ha: Digest, a: Books, b: Books, hb: Digest,
                     outcome: PullOutcome, split: Digest, sent: seq<Digest>)
    requires PullResult(base, kept, ha, a, b, hb, outcome, split, sent)
    ensures a.entries.Keys <= kept.entries.Keys + b.entries.Keys
  {
    hide Named;
    hide CanTake;
    if outcome.Synced? || outcome.Refused? {
      forall d | d in Elements(sent) ensures d in b.entries {
        var i :| 0 <= i < |sent| && sent[i] == d;
        RunUnder(split, sent, i);
        RunOver(split, sent, i);
        NamedThrough(b.entries.Keys, split, d, hb);
      }
      forall k: nat | k <= |sent| ensures Elements(sent[..k]) <= Elements(sent) {
      }
    }
  }

  lemma PinPulled(base: Base, x: Books, ha: Digest, pulled: Books, y: Books, hb: Digest,
                  outcome: PullOutcome, split: Digest, sent: seq<Digest>)
    requires DigestsPin(x.entries.Keys + y.entries.Keys) && PullResult(base, x, ha, pulled, y, hb, outcome, split, sent)
    ensures DigestsPin(y.entries.Keys + pulled.entries.Keys)
  {
    hide PullResult;
    PulledWithin(base, x, ha, pulled, y, hb, outcome, split, sent);
    PinFewer(y.entries.Keys + pulled.entries.Keys, x.entries.Keys + y.entries.Keys);
  }

  /** On one root there is always common history. */
  lemma AlwaysShared(base: Base, kept: Books, ha: Digest, a: Books, b: Books, hb: Digest,
                     outcome: PullOutcome, split: Digest, sent: seq<Digest>)
    requires Kept(base, kept) && Kept(base, b) && ha in kept.entries && hb in b.entries
    requires PullResult(base, kept, ha, a, b, hb, outcome, split, sent)
    ensures !outcome.NoCommonHistory?
  {
    hide Kept;
    hide Named;
    hide CanTake;
    hide OnWalk;
    if outcome.NoCommonHistory? {
      KeptWalk(base, ha, kept);
      KeptWalk(base, hb, b);
      OneRoundEnough(base.root, ha, hb, Named(kept.entries.Keys, ha), Named(b.entries.Keys, hb), None);
    }
  }

  lemma PartlyWithin(base: Base, kept: Entries, pulled: Entries, entries: Entries, hb: Digest)
    requires Partly(Weigh(kept), Weigh(pulled), PathLog(base, entries, hb))
    ensures var all := WithPath(base, kept, entries, hb);
            forall d :: d in pulled ==> d in all && all[d] == Weigh(pulled)[d]
  {
    hide PathLog;
  }

  /** What merges a log with what was pulled merges it with all there was to
      pull. */
  lemma BackMerges(a: Log, b: Log, pulled: Log, all: Log, both: Log, root: Digest, hb: Digest, hp: Digest)
    requires Merges(all, a, b, root, hb) && Merges(both, b, pulled, root, hp)
    requires forall d :: d in pulled ==> d in all && all[d] == pulled[d]
    ensures Merges(both, b, all, root, hp)
  {
  }

  /** The books after two pulls, one way and then back. */
  lemma Converged(base: Base, x: Books, y: Books, ha: Digest, hb: Digest, pulled: Books, back: Books, hp: Digest,
                  h: Digest,
                  first: PullOutcome, split: Digest, sent: seq<Digest>,
                  second: PullOutcome, split': Digest, sent': seq<Digest>)
    requires Kept(base, x) && Kept(base, y) && Kept(base, pulled) && Kept(base, back)
    requires ChainSound(base.root, ha, x) && ChainSound(base.root, hb, y) && ha in x.entries && hb in y.entries
    requires ChainSound(base.root, hp, pulled) && ChainSound(base.root, h, back) && hp in pulled.entries
    requires DigestsPin(x.entries.Keys + y.entries.Keys) && Grows(x, pulled) && Grows(y, back)
    requires PullResult(base, x, ha, pulled, y, hb, first, split, sent)
    requires PullResult(base, y, hb, back, pulled, hp, second, split', sent')
    ensures h == hp && (hp == ha || hp == hb)
    ensures IsHead(Weigh(x.entries) + Weigh(y.entries), base.root, hp)
  {
    hide Kept;
    hide Grounded;
    hide Merges;
    hide Agree;
    hide DigestsPin;
    hide PullResult;
    hide WithPath;
    hide Partly;
    hide PathLog;
    hide IsHead;
    AlwaysShared(base, x, ha, pulled, y, hb, first, split, sent);
    PullHead(base, x, ha, pulled, hp, y, hb, first, split, sent);
    AlwaysShared(base, y, hb, back, pulled, hp, second, split', sent');
    PullHead(base, y, hb, back, h, pulled, hp, second, split', sent');
    PulledWithin(base, x, ha, pulled, y, hb, first, split, sent);
    hide Grows;
    WithPathMerges(base, x, y, hb);
    WithPathMerges(base, y, pulled, hp);
    KeptGrounded(base, x);
    KeptGrounded(base, y);
    KeptAgree(base, x, y);
    ChainFacts(base.root, ha, x);
    ChainFacts(base.root, hb, y);
    hide ChainSound;
    var all, both := WithPath(base, x.entries, y.entries, hb), WithPath(base, y.entries, pulled.entries, hp);
    PartlyWithin(base, x.entries, pulled.entries, y.entries, hb);
    BackMerges(Weigh(x.entries), Weigh(y.entries), Weigh(pulled.entries), all, both, base.root, hb, hp);
    assert Weigh(x.entries).Keys == x.entries.Keys && Weigh(y.entries).Keys == y.entries.Keys;
    PullBack(Weigh(x.entries), Weigh(y.entries), base.root, ha, hb, all, hp, both);
    HeadUnique(both, base.root, hp, h);
  }
}
