/** A pull session between two nodes, compacted or not
    (crates/sync/src/puller.rs, crates/sync/src/server.rs). */
module Pull {
  import opened Wire
  import opened Ledger
  import opened Lineage
  import opened ForkChoice
  import opened Storage
  import opened Ingest
  import opened Footing
  import opened Walks
  import opened Chains
  import opened Differ
  import opened Cores
  import opened Sync
  import Locator

  /** How a pull ended for the puller; its driver ends it at a refusal. */
  datatype PullOutcome =
    | AlreadyCurrent
    | Synced(head: Digest, ingested: nat)
    | NoCommonHistory
    | Refused(error: Error)

  // ---------------------------------------------------------------------
  // What a node's walk names

  /** Sound books with nothing below the root. */
  ghost predicate Kept(base: Base, b: Books) {
    Sound(base, b) && Tidy(base.root, b)
  }

  /** On the line from the head to the root, or the one envelope the root
      itself builds on. */
  ghost predicate OnWalk(root: Digest, head: Digest, x: Digest) {
    IsAncestor(x, head) && (IsAncestor(root, x) || root.Prev() == Some(x))
  }

  lemma {:induction false} WalkNames(keys: set<Digest>, root: Digest, head: Digest, x: Digest)
    requires IsAncestor(root, head) && (forall d :: d in keys ==> IsAncestor(root, d))
    requires forall d :: IsAncestor(root, d) && IsAncestor(d, head) ==> d in keys
    ensures x in Named(keys, head) <==> OnWalk(root, head, x)
    decreases head
  {
    if head == root {
      RootNames(keys, root, x);
    } else {
      AncestorHeight(root, head);
      WalkNames(keys, root, head.Prev().value, x);
    }
  }

  lemma RootNames(keys: set<Digest>, root: Digest, x: Digest)
    requires root in keys && forall d :: d in keys ==> IsAncestor(root, d)
    ensures x in Named(keys, root) <==> OnWalk(root, root, x)
  {
    if root.Prev().Some? {
      var prev := root.Prev().value;
      assert prev !in keys by { if IsAncestor(root, prev) { AncestorHeight(root, prev); } }
      assert Named(keys, root) == {root, prev};
      assert IsAncestor(prev, root);
    }
    if IsAncestor(x, root) && IsAncestor(root, x) { AncestorAntisymmetric(x, root); }
  }

  /** Such a log holds all an envelope of it builds on, down to the root. */
  lemma {:induction false} KeptHolds(base: Base, b: Books, d: Digest, x: Digest)
    requires Kept(base, b) && d in b.entries && IsAncestor(base.root, x) && IsAncestor(x, d)
    ensures x in b.entries
    decreases d
  {
    hide Replay;
    hide StatusOn;
    hide RulesHold;
    if x == d {
    } else {
      AncestorHeight(base.root, d);
      if d == base.root { AncestorAntisymmetric(x, d); } else { KeptHolds(base, b, d.Prev().value, x); }
    }
  }

  lemma KeptWalk(base: Base, head: Digest, b: Books)
    requires Kept(base, b) && head in b.entries
    ensures IsAncestor(base.root, head) && base.root in Named(b.entries.Keys, head)
    ensures forall x :: x in Named(b.entries.Keys, head) <==> OnWalk(base.root, head, x)
  {
    hide Sound;
    assert OnWalk(base.root, head, base.root);
    hide OnWalk;
    forall d | IsAncestor(base.root, d) && IsAncestor(d, head) ensures d in b.entries {
      KeptHolds(base, b, head, d);
    }
    forall x ensures x in Named(b.entries.Keys, head) <==> OnWalk(base.root, head, x) {
      WalkNames(b.entries.Keys, base.root, head, x);
    }
  }

  // ---------------------------------------------------------------------
  // Where two paths part

  /** Near behind `x` one walk goes on below where the other ends. */
  ghost predicate PastHorizon(walkA: set<Digest>, walkB: set<Digest>, ha: Digest, x: Digest) {
    exists s :: s in walkA && s !in walkB && Locator.Near(ha, x, s)
  }

  /** A split is on both walks, at most twice as far behind the puller's head
      as anything else on both, unless the server's horizon lies in between. */
  ghost predicate SplitFound(walkA: set<Digest>, walkB: set<Digest>, ha: Digest, at: Option<Digest>) {
    && (at.Some? ==> at.value in walkA && at.value in walkB)
    && forall x :: x in walkA && x in walkB ==>
         (at.Some? && Distance(ha, at.value) <= 2 * Distance(ha, x)) || PastHorizon(walkA, walkB, ha, x)
  }

  /** One round of negotiation, between any two stores. */
  method Negotiate(a: MemStorage, ha: Digest, b: MemStorage, hb: Digest) returns (at: Option<Digest>)
    ensures SplitFound(Named(a.envelopes.Keys, ha), Named(b.envelopes.Keys, hb), ha, at)
  {
    hide Named;
    hide Locator.FitsLocator;
    hide Locator.Near;
    hide IsAncestor;
    hide Distance;
    ghost var walkA, walkB := Named(a.envelopes.Keys, ha), Named(b.envelopes.Keys, hb);
    var samples := Locator.Sample(a, ha);
    at := Locator.Split(samples, b, hb);
    forall x | x in walkA && x in walkB
      ensures (at.Some? && Distance(ha, at.value) <= 2 * Distance(ha, x)) || PastHorizon(walkA, walkB, ha, x)
    {
      var s :| s in samples && Locator.Near(ha, x, s);
      if s in walkB { SplitNear(ha, x, s, at.value); }
    }
  }

  lemma SplitNear(ha: Digest, x: Digest, s: Digest, at: Digest)
    requires Locator.Near(ha, x, s) && IsAncestor(s, at)
    ensures Distance(ha, at) <= 2 * Distance(ha, x)
  {
    AncestorHeight(s, at);
  }

  /** Between nodes on one root that pruned nothing there is no horizon: one
      round is always enough. */
  lemma OneRoundEnough(root: Digest, ha: Digest, hb: Digest, walkA: set<Digest>, walkB: set<Digest>, at: Option<Digest>)
    requires forall x :: x in walkA <==> OnWalk(root, ha, x)
    requires forall x :: x in walkB <==> OnWalk(root, hb, x)
    requires root in walkA && root in walkB && SplitFound(walkA, walkB, ha, at)
    ensures at.Some?
    ensures forall x :: x in walkA && x in walkB ==> Distance(ha, at.value) <= 2 * Distance(ha, x)
  {
    hide OnWalk;
    hide Distance;
    hide Locator.Near;
    forall x | x in walkA && x in walkB ensures !PastHorizon(walkA, walkB, ha, x) {
      if PastHorizon(walkA, walkB, ha, x) {
        var s :| s in walkA && s !in walkB && Locator.Near(ha, x, s);
        OlderOnWalk(root, ha, hb, x, s);
      }
    }
  }

  lemma OlderOnWalk(root: Digest, ha: Digest, hb: Digest, x: Digest, s: Digest)
    requires OnWalk(root, ha, x) && OnWalk(root, hb, x) && OnWalk(root, ha, s) && Locator.Near(ha, x, s)
    ensures OnWalk(root, hb, s)
  {
    AncestorsComparable(s, x, ha);
    if IsAncestor(x, s) { AncestorHeight(x, s); }
    AncestorTransitive(s, x, hb);
  }

  // ---------------------------------------------------------------------
  // The two sides

  /** Two nodes that share nothing in memory. */
  ghost predicate Apart(a: Core, b: Core) {
    a != b && a.storage != b.storage && a.chain != b.chain && a.subscriptions != b.subscriptions
  }

  /** A node rooted at `base`, however many versions compaction has taken. */
  ghost predicate StandsOn(base: Base, node: Core)
    reads node, node.storage, node.chain, node.subscriptions
  {
    && node.Valid() && node.Tidied() && node.chain.root == base.root
    && node.storage.versions[base.root] == base.state
  }

  lemma NodeFacts(base: Base, node: Core)
    requires StandsOn(base, node)
    ensures node.storage.Valid() && ChainSound(base.root, node.chain.head, BooksOf(node.storage))
    ensures Kept(base, BooksOf(node.storage)) && node.chain.head in node.storage.envelopes
    ensures base.root in node.storage.versions && node.storage.versions[base.root] == base.state
    ensures node.chain.head in node.storage.versions
    ensures Replay(base, node.chain.head) == Some(node.storage.versions[node.chain.head])
  {
    hide AllInformed;
    hide Tidy;
    ReplayAtRoot(base);
    HeadReplays(base, base.root, node.chain.head, BooksOf(node.storage));
    hide Sound;
  }

  /** A peer, compacted or not, whose chain tells the same history as `base`:
      replaying from `genesis` arrives at both their roots' states. */
  ghost predicate Serves(base: Base, genesis: Base, b: Core)
    reads b, b.storage, b.chain, b.subscriptions
  {
    && b.Valid() && b.Tidied() && Replay(genesis, base.root) == Some(base.state)
    && Replay(genesis, b.chain.root) == Some(b.storage.versions[b.chain.root])
  }

  /** A node on the same root serves, too. */
  lemma StandsServes(base: Base, b: Core)
    requires StandsOn(base, b)
    ensures Serves(base, base, b)
  {
    hide Core.Valid;
    ReplayAtRoot(base);
    CoreFacts(b);
  }

  lemma ServerFacts(base: Base, genesis: Base, b: Core)
    requires Serves(base, genesis, b)
    ensures b.storage.Valid() && SoundFrom(b.chain.root, BooksOf(b.storage)) && Tidy(b.chain.root, BooksOf(b.storage))
    ensures Replay(genesis, base.root) == Some(base.state)
    ensures b.chain.root in b.storage.versions
            && Replay(genesis, b.chain.root) == Some(b.storage.versions[b.chain.root])
    ensures b.chain.head in b.storage.envelopes
  {
    hide AllInformed;
    hide Replay;
    hide Sound;
    hide Tidy;
    HeadReplays(b.genesis, b.chain.root, b.chain.head, BooksOf(b.storage));
  }

  /** What such a peer stores above the puller's root replays there. */
  lemma ServedReplays(base: Base, genesis: Base, root: Digest, b: Books, d: Digest)
    requires SoundFrom(root, b) && Tidy(root, b) && d in b.entries && IsAncestor(base.root, d)
    requires Replay(genesis, base.root) == Some(base.state) && Replay(genesis, root) == Some(b.versions[root])
    ensures Replay(base, d).Some?
  {
    hide Replay;
    hide StatusOn;
    hide RulesHold;
    AncestorHeight(root, d);
    ReplayAtRoot(Base(root, b.versions[root]));
    Rebase(genesis, root, d);
    Rebase(genesis, base.root, d);
  }

  /** Past a split on the puller's walk a peer's path either all replays there,
      or starts beside the puller's root. */
  lemma RunReadyOrBeside(base: Base, genesis: Base, a: Books, ha: Digest, root: Digest, b: Books, hb: Digest,
                         split: Digest, run: seq<Digest>)
    requires Kept(base, a) && ha in a.entries && split in Named(a.entries.Keys, ha)
    requires SoundFrom(root, b) && Tidy(root, b)
    requires Replay(genesis, base.root) == Some(base.state) && Replay(genesis, root) == Some(b.versions[root])
    requires IsSuffix(split, hb, run) && forall d :: d in run ==> d in b.entries
    ensures (split in a.entries && IsAncestor(base.root, split)) || base.root.Prev() == Some(split)
    ensures AllReplay(base, run) || (run != [] && Beside(base, a, split, run[0]) && !IsAncestor(base.root, hb))
    ensures AllReplay(base, run) && run != [] && !IsAncestor(base.root, split) ==> run[0] == base.root
  {
    hide Sound;
    hide SoundFrom;
    hide Named;
    hide Replay;
    KeptWalk(base, ha, a);
    assert OnWalk(base.root, ha, split);
    if IsAncestor(base.root, split) {
      KeptHolds(base, a, ha, split);
      hide Tidy;
      forall i | 0 <= i < |run| ensures Replay(base, run[i]).Some? {
        RunOver(split, run, i);
        AncestorTransitive(base.root, split, run[i].Prev().value);
        assert run[i] in run;
        ServedReplays(base, genesis, root, b, run[i]);
      }
    } else if run != [] {
      assert Follows(split, run, 0);
      RunUnder(split, run, 0);
      if run[0] == base.root {
        hide Tidy;
        forall i | 0 <= i < |run| ensures Replay(base, run[i]).Some? {
          RunFromFirst(split, run, i);
          assert run[i] in run;
          ServedReplays(base, genesis, root, b, run[i]);
        }
      } else {
        SiblingsPart(run[0], base.root, hb);
        BesideRoot(base, a, split, run[0]);
        hide Tidy;
        assert AllReplay(base, run) ==> Replay(base, run[0]).Some?;
        if Replay(base, run[0]).Some? { NotBeside(base, run[0]); }
      }
    }
  }

  lemma NotBeside(base: Base, d: Digest)
    requires Replay(base, d).Some? && d.Prev() == base.root.Prev() && d.Prev().Some?
    ensures d == base.root
  {
    hide Transition;
    ReplayDescends(base, d);
    AncestorHeight(base.root, d);
  }

  lemma {:induction false} RunFromFirst(at: Digest, run: seq<Digest>, i: nat)
    requires Linked(at, run) && i < |run|
    ensures IsAncestor(run[0], run[i])
  {
    if i == 0 {
    } else {
      assert Follows(at, run, i);
      RunFromFirst(at, run, i - 1);
    }
  }

  /** `d` is another child of what the puller's root builds on: nothing it
      holds. */
  ghost predicate Beside(base: Base, a: Books, split: Digest, d: Digest) {
    d.Prev() == Some(split) && d !in a.entries && d !in a.versions && split !in a.entries && split !in a.versions
  }

  lemma BesideRoot(base: Base, a: Books, split: Digest, d: Digest)
    requires Tidy(base.root, a) && base.root.Prev() == Some(split) && d.Prev() == Some(split) && d != base.root
    ensures Beside(base, a, split, d)
  {
    if IsAncestor(base.root, split) { AncestorHeight(base.root, split); }
    assert !IsAncestor(base.root, d);
  }

  /** Such a run is refused at once. */
  lemma BesideRefused(base: Base, a: Books, split: Digest, segment: seq<Envelope>, now: int)
    requires segment != [] && Beside(base, a, split, segment[0].digest)
    ensures StoreAll(a, segment, None, now) == Stored(a, Err(UnknownParent(split)))
  {
    hide Verify;
    hide Apply;
  }

  // ---------------------------------------------------------------------
  // Feeding

  /** A run as it comes off the wire: no status travels. */
  function Received(run: seq<Digest>): seq<Envelope> {
    seq(|run|, i requires 0 <= i < |run| => Envelope(run[i], Unchecked))
  }

  /** Ingests one batch of what the server sent. */
  method TakeSegment(a: Core, batch: seq<Envelope>, now: int, ghost base: Base) returns (r: Result<Insert, Error>)
    requires StandsOn(base, a) && DigestsPin(a.storage.envelopes.Keys + Offered(batch))
    modifies a`seen, a`quiet, a.storage, a.chain`head, a.subscriptions
    ensures StandsOn(base, a) && Grows(old(BooksOf(a.storage)), BooksOf(a.storage))
    ensures BooksOf(a.storage) == StoreAll(old(BooksOf(a.storage)), batch, None, now).books
    ensures var verdict := StoreAll(old(BooksOf(a.storage)), batch, None, now).verdict;
            (r.Err? <==> verdict.Err?) && (r.Err? ==> r.error == verdict.error)
  {
    hide Core.Tidied;
    hide StoreAll;
    hide Grows;
    hide DigestsPin;
    hide Offered;
    hide AllMove;
    hide SameWatches;
    NodeFacts(base, a);
    hide Core.Valid;
    ghost var before := BooksOf(a.storage);
    r := a.Insert(batch, now);
    RootGrown(before, BooksOf(a.storage), base.root);
  }

  /** The puller has taken the first `n` of the run, as if in one batch. */
  ghost predicate Fed(kept: Books, a: Books, run: seq<Digest>, n: nat, now: int) {
    n <= |run| && StoreAll(kept, Received(run[..n]), None, now).verdict.Ok?
    && a == StoreAll(kept, Received(run[..n]), None, now).books
  }

  lemma NothingFed(kept: Books, run: seq<Digest>, now: int)
    ensures Fed(kept, kept, run, 0, now)
  {
    assert Received(run[..0]) == [];
  }

  lemma OfferedAre(segment: seq<Envelope>)
    ensures Offered(segment) == Elements(DigestsOf(segment))
  {
    forall d | d in Offered(segment) ensures d in Elements(DigestsOf(segment)) {
      var i :| 0 <= i < |segment| && segment[i].digest == d;
      assert DigestsOf(segment)[i] == d;
    }
    forall d | d in Elements(DigestsOf(segment)) ensures d in Offered(segment) {
      var i :| 0 <= i < |segment| && DigestsOf(segment)[i] == d;
    }
  }

  /** What was sent before segment `i`, and that segment, within the whole. */
  lemma {:induction false} SegmentWithin(segments: seq<seq<Envelope>>, i: nat)
    requires i < |segments|
    ensures var n := |Flat(segments[..i])|;
            && n + |segments[i]| == |Flat(segments[..i + 1])| <= |Flat(segments)|
            && DigestsOf(segments[i]) == DigestsOf(Flat(segments))[n..n + |segments[i]|]
    decreases |segments|
  {
    var n, all := |Flat(segments[..i])|, Flat(segments);
    assert segments[..i + 1] == segments[..i] + [segments[i]];
    FlatMore(segments[..i], segments[i]);
    FlatStarts(segments, i + 1);
    assert Flat(segments[..i + 1])[n..] == segments[i];
    assert all[n..n + |segments[i]|] == segments[i];
  }

  lemma {:induction false} FlatStarts(segments: seq<seq<Envelope>>, i: nat)
    requires i <= |segments|
    ensures Flat(segments[..i]) <= Flat(segments)
    decreases |segments|
  {
    if i == |segments| {
      assert segments[..i] == segments;
    } else {
      var fewer := segments[..|segments| - 1];
      assert fewer[..i] == segments[..i];
      FlatStarts(fewer, i);
    }
  }

  /** The next segment of a run: the envelopes from the `n`th on. */
  ghost predicate IsPiece(run: seq<Digest>, n: nat, piece: seq<Digest>) {
    piece != [] && n + |piece| <= |run| && piece == run[n..n + |piece|]
  }

  lemma SegmentIsPiece(segments: seq<seq<Envelope>>, i: nat)
    requires i < |segments| && forall segment :: segment in segments ==> segment != []
    ensures var n := |Flat(segments[..i])|;
            && IsPiece(DigestsOf(Flat(segments)), n, DigestsOf(segments[i]))
            && |Flat(segments[..i + 1])| == n + |segments[i]|
  {
    SegmentWithin(segments, i);
    assert segments[i] in segments;
  }

  lemma NoSegments(segments: seq<seq<Envelope>>)
    ensures Flat(segments[..0]) == [] && (segments == [] ==> DigestsOf(Flat(segments)) == [])
    ensures |DigestsOf(Flat(segments))| == |Flat(segments)|
  {
  }

  /** Taking one more piece comes to taking the run that much further. */
  lemma FeedOn(kept: Books, a: Books, split: Digest, run: seq<Digest>, n: nat, piece: seq<Digest>, now: int)
    requires Fed(kept, a, run, n, now) && IsPiece(run, n, piece) && Linked(split, run)
    ensures var next, all := StoreAll(a, Received(piece), None, now), StoreAll(kept, Received(run), None, now);
            && (next.verdict.Ok? ==> Fed(kept, next.books, run, n + |piece|, now))
            && (next.verdict.Err? ==> all.books == next.books && all.verdict == next.verdict)
  {
    hide StoreAll;
    hide Linked;
    var m := n + |piece|;
    var first, more, rest := Received(run[..n]), Received(piece), Received(run[m..]);
    assert Received(run[..m]) == first + more && Received(run) == (first + more) + rest;
    StoreAllJoin(kept, first, more, None, now);
    StoreAllJoin(kept, first + more, rest, None, now);
    if n > 0 {
      LinkAt(split, run, n);
      assert more[0].digest == run[n] && first[n - 1].digest == run[n - 1];
      LastAgrees(a, more, run[n - 1], now);
    }
  }

  lemma LinkAt(split: Digest, run: seq<Digest>, n: nat)
    requires Linked(split, run) && 0 < n < |run|
    ensures run[n].Prev() == Some(run[n - 1])
  {
    assert Follows(split, run, n);
  }

  lemma FeedPins(kept: Books, a: Books, b: Books, run: seq<Digest>, n: nat, piece: seq<Digest>, now: int)
    requires Fed(kept, a, run, n, now) && IsPiece(run, n, piece)
    requires (forall d :: d in run ==> d in b.entries) && DigestsPin(kept.entries.Keys + b.entries.Keys)
    ensures DigestsPin(a.entries.Keys + Offered(Received(piece)))
  {
    hide DigestsPin;
    hide StoreAll;
    StoreAllAdds(kept, Received(run[..n]), None, now);
    ReceivedOffers(run[..n]);
    ReceivedOffers(piece);
    PinFewer(a.entries.Keys + Offered(Received(piece)), kept.entries.Keys + b.entries.Keys);
  }

  lemma ReceivedOffers(run: seq<Digest>)
    ensures Offered(Received(run)) == Elements(run)
  {
    OfferedAre(Received(run));
    assert DigestsOf(Received(run)) == run;
  }

  /** Feeds everything the server streams past the split: it comes to storing
      the whole run in one batch. */
  method FeedAll(a: Core, segments: seq<seq<Envelope>>, now: int, ghost base: Base, ghost b: Books, ghost split: Digest)
      returns (refusal: Option<Error>)
    requires StandsOn(base, a) && Linked(split, DigestsOf(Flat(segments)))
    requires forall segment :: segment in segments ==> segment != []
    requires forall d :: d in DigestsOf(Flat(segments)) ==> d in b.entries
    requires DigestsPin(a.storage.envelopes.Keys + b.entries.Keys)
    modifies a`seen, a`quiet, a.storage, a.chain`head, a.subscriptions
    ensures StandsOn(base, a)
    ensures var all := StoreAll(old(BooksOf(a.storage)), Received(DigestsOf(Flat(segments))), None, now);
            && BooksOf(a.storage) == all.books
            && refusal == if all.verdict.Err? then Some(all.verdict.error) else None
  {
    hide StandsOn;
    hide DigestsPin;
    hide Grows;
    hide Linked;
    hide StoreAll;
    hide Fed;
    hide DigestsOf;
    hide Flat;
    hide IsPiece;
    hide Received;
    hide Offered;
    ghost var kept, run := BooksOf(a.storage), DigestsOf(Flat(segments));
    ghost var n := 0;
    NothingFed(kept, run, now);
    NoSegments(segments);
    for i := 0 to |segments|
      invariant StandsOn(base, a) && n == |Flat(segments[..i])| && Fed(kept, BooksOf(a.storage), run, n, now)
    {
      SegmentIsPiece(segments, i);
      var piece := DigestsOf(segments[i]);
      DigestsCount(segments[i]);
      FeedPins(kept, BooksOf(a.storage), b, run, n, piece, now);
      FeedOn(kept, BooksOf(a.storage), split, run, n, piece, now);
      var r := TakeSegment(a, Received(piece), now, base);
      if r.Err? {
        return Some(r.error);
      }
      n := n + |segments[i]|;
    }
    assert segments[..|segments|] == segments;
    FedAll(kept, BooksOf(a.storage), run, now);
    return None;
  }

  lemma DigestsCount(segment: seq<Envelope>)
    ensures |DigestsOf(segment)| == |segment|
  {
  }

  lemma FedAll(kept: Books, a: Books, run: seq<Digest>, now: int)
    requires Fed(kept, a, run, |run|, now)
    ensures StoreAll(kept, Received(run), None, now).verdict.Ok? && a == StoreAll(kept, Received(run), None, now).books
  {
    assert run[..|run|] == run;
  }

  // ---------------------------------------------------------------------
  // The session

  /** Refused at the `k`th: all before it is stored, and it is a new envelope
      on one without a version. */
  ghost predicate StuckOn(kept: Books, a: Books, split: Digest, sent: seq<Digest>, k: nat, error: Error) {
    && k < |sent| && a.entries.Keys == kept.entries.Keys + Elements(sent[..k]) && sent[k] !in a.entries
    && Before(split, sent, k) !in a.versions && error == UnknownParent(Before(split, sent, k))
  }

  /** The whole path past the split can be stored: it replays on the puller's
      root, and stands on the versions the puller has. */
  ghost predicate CanTake(base: Base, kept: Books, sent: seq<Digest>) {
    AllReplay(base, sent) && Stands(base, kept, Received(sent), HasFooting(kept, Received(sent)))
  }

  /** How a pull ended, and what it left the puller with. */
  ghost predicate PullResult(base: Base, kept: Books, ha: Digest, a: Books, b: Books, hb: Digest,
                             outcome: PullOutcome, split: Digest, sent: seq<Digest>) {
    var walkA, walkB := Named(kept.entries.Keys, ha), Named(b.entries.Keys, hb);
    match outcome
    case AlreadyCurrent => hb in kept.entries && a == kept
    case NoCommonHistory =>
      && hb !in kept.entries && a == kept
      && forall x :: x in walkA && x in walkB ==> PastHorizon(walkA, walkB, ha, x)
    case Synced(head, ingested) =>
      && hb !in kept.entries && head == hb && ingested == |sent|
      && split in walkA && split in walkB && IsSuffix(split, hb, sent) && CanTake(base, kept, sent)
      && a.entries.Keys == kept.entries.Keys + Elements(sent)
    case Refused(error) =>
      && hb !in kept.entries
      && split in walkA && split in walkB && IsSuffix(split, hb, sent) && !CanTake(base, kept, sent)
      && exists k: nat ::
           && StuckOn(kept, a, split, sent, k, error)
           && (k == 0 ==> base.root.Prev() == Some(split) && !IsAncestor(base.root, hb))
  }

  /** A linked run that replays, as it is received. */
  lemma {:induction false} ReceivedChained(base: Base, split: Digest, run: seq<Digest>, last: Option<Digest>)
    requires Linked(split, run) && AllReplay(base, run) && (last.None? || last == Some(split))
    ensures Chained(base, Received(run), last)
    decreases |run|
  {
    hide Replay;
    if run == [] {
    } else {
      assert Follows(split, run, 0);
      assert Received(run)[1..] == Received(run[1..]);
      LinkedTail(split, run);
      forall i | 0 <= i < |run[1..]| ensures Replay(base, run[1..][i]).Some? { assert run[1..][i] == run[i + 1]; }
      ReceivedChained(base, run[0], run[1..], Some(run[0]));
    }
  }

  /** What storing the path did, told from the books before. */
  lemma PullEnds(base: Base, kept: Books, ha: Digest, a: Books, b: Books, hb: Digest, split: Digest, sent: seq<Digest>,
                 now: int, refusal: Option<Error>)
    requires Kept(base, kept) && PathCached(kept, base.root) && OnPath(Weigh(kept.entries), base.root, ha)
    requires hb !in kept.entries && split in Named(kept.entries.Keys, ha) && split in Named(b.entries.Keys, hb)
    requires IsSuffix(split, hb, sent) && ha in kept.entries
    requires (split in kept.entries && IsAncestor(base.root, split)) || base.root.Prev() == Some(split)
    requires AllReplay(base, sent) || (sent != [] && Beside(base, kept, split, sent[0]) && !IsAncestor(base.root, hb))
    requires AllReplay(base, sent) && sent != [] && !IsAncestor(base.root, split) ==> sent[0] == base.root
    requires var all := StoreAll(kept, Received(sent), None, now);
             a == all.books && refusal == if all.verdict.Err? then Some(all.verdict.error) else None
    ensures PullResult(base, kept, ha, a, b, hb,
                       if refusal.Some? then Refused(refusal.value) else Synced(hb, |sent|), split, sent)
  {
    hide Sound;
    hide Tidy;
    hide Named;
    hide StoreAll;
    hide Replay;
    hide Stands;
    hide PathCached;
    hide OnPath;
    if AllReplay(base, sent) {
      ReceivedChained(base, split, sent, None);
      StoredWhenStanding(base, kept, Received(sent), None, now);
      StoreAllAdds(kept, Received(sent), None, now);
      ReceivedOffers(sent);
      if refusal.None? {
        StoredIsHeld(base, kept, Received(sent), None, now);
      } else {
        var k := StuckAt(base, kept, Received(sent), None, now);
        StuckIsOn(kept, a, split, sent, k, refusal.value);
        if k == 0 { FirstHasFooting(base, kept, ha, split, sent); }
      }
    } else {
      BesideRefused(base, kept, split, Received(sent), now);
      BesideStuck(base, kept, split, sent);
    }
  }

  lemma StuckIsOn(kept: Books, a: Books, split: Digest, sent: seq<Digest>, k: nat, error: Error)
    requires Linked(split, sent) && k < |sent| && sent[k].Prev().Some?
    requires error == UnknownParent(sent[k].Prev().value) && sent[k].Prev().value !in a.versions
             && sent[k] !in a.entries
    requires a.entries.Keys == kept.entries.Keys + Offered(Received(sent)[..k])
    ensures StuckOn(kept, a, split, sent, k, error)
  {
    assert Follows(split, sent, k);
    assert Received(sent)[..k] == Received(sent[..k]);
    ReceivedOffers(sent[..k]);
  }

  lemma BesideStuck(base: Base, kept: Books, split: Digest, sent: seq<Digest>)
    requires sent != [] && Beside(base, kept, split, sent[0])
    ensures StuckOn(kept, kept, split, sent, 0, UnknownParent(split))
  {
    assert sent[..0] == [] && Elements([]) == {};
  }

  /** Past a split on the puller's own path the first envelope has footing. */
  lemma FirstHasFooting(base: Base, kept: Books, ha: Digest, split: Digest, sent: seq<Digest>)
    requires Kept(base, kept) && PathCached(kept, base.root) && OnPath(Weigh(kept.entries), base.root, ha)
    requires split in Named(kept.entries.Keys, ha) && Linked(split, sent) && sent != []
    requires IsAncestor(base.root, split) || sent[0] == base.root
    ensures sent[0].Prev().Some? && (sent[0].Prev().value in kept.versions || sent[0] in kept.entries)
  {
    assert Follows(split, sent, 0);
    NamedAncestors(kept.entries.Keys, split, ha);
    if IsAncestor(base.root, split) { OnPathThrough(Weigh(kept.entries), base.root, split, ha); }
  }

  /** One pull session against any peer that tells the same history. Whatever
      the outcome, nothing the puller held is lost. It ends current when the
      peer's head was held; with no common history only where every digest on
      both walks has the peer's horizon near behind it. Otherwise the peer's
      path from the split to its head is streamed parent first, each envelope
      once, and taken in whole exactly when it replays on the puller's root and
      stands on the versions the puller has; if not, up to the first new
      envelope on one without a version. */
  method PullFrom(a: Core, b: Core, size: Digest -> nat, now: int, ghost base: Base, ghost genesis: Base)
      returns (outcome: PullOutcome, ghost split: Digest, ghost sent: seq<Digest>)
    requires StandsOn(base, a) && Serves(base, genesis, b) && Apart(a, b) && (forall d :: size(d) >= 1)
    requires DigestsPin(a.storage.envelopes.Keys + b.storage.envelopes.Keys)
    modifies a`seen, a`quiet, a.storage, a.chain`head, a.subscriptions
    ensures StandsOn(base, a) && Serves(base, genesis, b)
    ensures Grows(old(BooksOf(a.storage)), BooksOf(a.storage))
    ensures PullResult(base, old(BooksOf(a.storage)), old(a.chain.head), BooksOf(a.storage), BooksOf(b.storage),
                       b.chain.head,
                       outcome, split, sent)
  {
    hide StandsOn;
    hide Serves;
    hide DigestsPin;
    hide Named;
    hide Grows;
    hide SplitFound;
    hide PullResult;
    ghost var kept, served, hb := BooksOf(a.storage), BooksOf(b.storage), b.chain.head;
    split, sent := hb, [];
    GrowsItself(kept);
    if b.chain.head in a.storage.envelopes {
      HeldAlready(base, kept, a.chain.head, served, hb);
      return AlreadyCurrent, split, sent;
    }
    var found := Negotiate(a.storage, a.chain.head, b.storage, b.chain.head);
    if found.None? {
      NothingShared(base, kept, a.chain.head, served, hb, split, sent);
      return NoCommonHistory, split, sent;
    }
    split := found.value;
    SplitNamed(kept, a.chain.head, served, hb, found);
    outcome, sent := PullPast(a, b, found.value, size, now, base, genesis);
  }

  lemma HeldAlready(base: Base, kept: Books, ha: Digest, b: Books, hb: Digest)
    requires hb in kept.entries
    ensures PullResult(base, kept, ha, kept, b, hb, AlreadyCurrent, hb, [])
  {
  }

  lemma NothingShared(base: Base, kept: Books, ha: Digest, b: Books, hb: Digest, split: Digest, sent: seq<Digest>)
    requires hb !in kept.entries && SplitFound(Named(kept.entries.Keys, ha), Named(b.entries.Keys, hb), ha, None)
    ensures PullResult(base, kept, ha, kept, b, hb, NoCommonHistory, split, sent)
  {
    hide Named;
  }

  lemma SplitNamed(kept: Books, ha: Digest, b: Books, hb: Digest, found: Option<Digest>)
    requires found.Some? && SplitFound(Named(kept.entries.Keys, ha), Named(b.entries.Keys, hb), ha, found)
    ensures found.value in Named(kept.entries.Keys, ha) && found.value in Named(b.entries.Keys, hb)
  {
    hide Named;
  }

  /** The streaming half of a session, past the split. */
  method PullPast(a: Core, b: Core, split: Digest, size: Digest -> nat, now: int, ghost base: Base, ghost genesis: Base)
      returns (outcome: PullOutcome, ghost sent: seq<Digest>)
    requires StandsOn(base, a) && Serves(base, genesis, b) && Apart(a, b) && (forall d :: size(d) >= 1)
    requires DigestsPin(a.storage.envelopes.Keys + b.storage.envelopes.Keys) && b.chain.head !in a.storage.envelopes
    requires split in Named(a.storage.envelopes.Keys, a.chain.head)
             && split in Named(b.storage.envelopes.Keys, b.chain.head)
    modifies a`seen, a`quiet, a.storage, a.chain`head, a.subscriptions
    ensures StandsOn(base, a) && Serves(base, genesis, b)
    ensures Grows(old(BooksOf(a.storage)), BooksOf(a.storage))
    ensures PullResult(base, old(BooksOf(a.storage)), old(a.chain.head), BooksOf(a.storage), BooksOf(b.storage),
                       b.chain.head,
                       outcome, split, sent)
  {
    hide StandsOn;
    hide Serves;
    hide DigestsPin;
    hide Kept;
    hide ChainSound;
    hide SoundFrom;
    hide Tidy;
    hide IsSuffix;
    hide Named;
    hide Grows;
    hide Replay;
    hide MemStorage.Valid;
    hide PullResult;
    hide WithinBudgets;
    hide AllReplay;
    hide Beside;
    hide Linked;
    hide DigestsOf;
    hide Flat;
    hide StoreAll;
    hide Received;
    hide PathCached;
    hide OnPath;
    ghost var kept, served, ha, hb := BooksOf(a.storage), BooksOf(b.storage), a.chain.head, b.chain.head;
    NodeFacts(base, a);
    ServerFacts(base, genesis, b);
    var segments := Stream(b.storage, b.chain.head, split, size);
    sent := DigestsOf(Flat(segments));
    NoSegments(segments);
    RunReady(base, genesis, kept, ha, b.chain.root, served, hb, split, segments, size);
    var refusal := FeedAll(a, segments, now, base, served, split);
    StoreAllAdds(kept, Received(sent), None, now);
    AddsGrow(kept, BooksOf(a.storage), Offered(Received(sent)));
    ChainPath(base.root, ha, kept);
    PullEnds(base, kept, ha, BooksOf(a.storage), served, hb, split, sent, now, refusal);
    outcome := if refusal.Some? then Refused(refusal.value) else Synced(b.chain.head, |Flat(segments)|);
  }

  lemma AddsGrow(b: Books, c: Books, ds: set<Digest>)
    requires Adds(b, c, ds)
    ensures Grows(b, c)
  {
  }

  lemma ChainPath(root: Digest, head: Digest, b: Books)
    requires ChainSound(root, head, b)
    ensures PathCached(b, root) && OnPath(Weigh(b.entries), root, head)
  {
    hide SoundFrom;
  }

  /** What the server streams is what the feeding needs. */
  lemma RunReady(base: Base, genesis: Base, kept: Books, ha: Digest, root: Digest, b: Books, hb: Digest, split: Digest,
                 segments: seq<seq<Envelope>>, size: Digest -> nat)
    requires Kept(base, kept) && ha in kept.entries && split in Named(kept.entries.Keys, ha)
    requires SoundFrom(root, b) && Tidy(root, b)
    requires Replay(genesis, base.root) == Some(base.state) && Replay(genesis, root) == Some(b.versions[root])
    requires IsSuffix(split, hb, DigestsOf(Flat(segments)))
    requires forall d :: d in DigestsOf(Flat(segments)) ==> d in b.entries
    requires forall segment :: segment in segments ==> WithinBudgets(size, segment)
    ensures var run := DigestsOf(Flat(segments));
            && Linked(split, run)
            && ((split in kept.entries && IsAncestor(base.root, split)) || base.root.Prev() == Some(split))
            && (AllReplay(base, run) || (run != [] && Beside(base, kept, split, run[0]) && !IsAncestor(base.root, hb)))
            && (AllReplay(base, run) && run != [] && !IsAncestor(base.root, split) ==> run[0] == base.root)
    ensures forall segment :: segment in segments ==> segment != []
  {
    hide Kept;
    hide SoundFrom;
    hide Tidy;
    hide Named;
    hide Replay;
    hide AllReplay;
    hide Beside;
    RunReadyOrBeside(base, genesis, kept, ha, root, b, hb, split, DigestsOf(Flat(segments)));
  }
}
