/** Streaming off a node that goes on working: between one segment and the
    next the node takes in batches, serves subscribers, and compacts
    (crates/lotusd/src/core.rs, `segment`). */
module LiveStream {
  import opened Wire
  import opened Lineage
  import opened Storage
  import opened Ingest
  import opened Footing
  import opened Walks
  import opened Chains
  import opened Cores
  import opened Sync
  import opened Pull
  import opened Life

  /** Every envelope of the segment stood on the node's canonical path. */
  ghost predicate SentFrom(n: Node, segment: seq<Envelope>) {
    forall i :: 0 <= i < |segment| ==>
      var d := segment[i].digest;
      && d in n.books.entries && segment[i] == n.books.entries[d].envelope
      && IsAncestor(n.root, d) && IsAncestor(d, n.roll.head)
  }

  /** What has been sent so far: one linked run from `after` up to `at`, all of
      it replaying from the genesis. */
  ghost predicate SentSoFar(genesis: Base, after: Digest, at: Digest, segments: seq<seq<Envelope>>) {
    var sent := DigestsOf(Flat(segments));
    Linked(after, sent) && Before(after, sent, |sent|) == at && AllReplay(genesis, sent)
  }

  lemma NothingSent(genesis: Base, after: Digest)
    ensures SentSoFar(genesis, after, after, [])
  {
    LinkedNone(after);
  }

  lemma MoreSent(genesis: Base, after: Digest, at: Digest, segments: seq<seq<Envelope>>, segment: seq<Envelope>)
    requires SentSoFar(genesis, after, at, segments)
    requires Linked(at, DigestsOf(segment)) && AllReplay(genesis, DigestsOf(segment))
    ensures SentSoFar(genesis, after, Before(at, DigestsOf(segment), |segment|), segments + [segment])
  {
    hide Linked;
    hide Replay;
    var sent, more := DigestsOf(Flat(segments)), DigestsOf(segment);
    FlatMore(segments, segment);
    LinkedJoin(after, sent, more);
    forall i | 0 <= i < |sent + more| ensures Replay(genesis, (sent + more)[i]).Some? {
      if i < |sent| { assert Replay(genesis, sent[i]).Some?; } else { assert Replay(genesis, more[i - |sent|]).Some?; }
    }
  }

  /** One answer: what it is to the segment that it is a first part of the
      path above `at`. */
  ghost predicate Answers(n: Node, at: Digest, size: Digest -> nat, segment: seq<Envelope>, run: seq<Digest>) {
    if at !in Named(n.books.entries.Keys, n.roll.head) then segment == []
    else
      && IsSuffix(at, n.roll.head, run) && |segment| <= |run| && (segment == [] <==> run == [])
      && (forall i :: 0 <= i < |segment| ==>
            && run[i] in n.books.entries && segment[i] == n.books.entries[run[i]].envelope
            && segment[i].digest == run[i])
      && |segment| <= MAX_BATCH_ENVELOPES
      && (|segment| > 1 ==> Bytes(size, run[..|segment|]) <= SEGMENT_BYTE_BUDGET)
  }

  method Answer(b: Core, at: Digest, size: Digest -> nat) returns (segment: seq<Envelope>, ghost run: seq<Digest>)
    requires b.Valid() && forall d :: size(d) >= 1
    ensures Answers(NodeOf(b), at, size, segment, run)
  {
    hide AllInformed;
    hide ChainSound;
    hide Replay;
    hide MemStorage.Valid;
    hide Bytes;
    hide Named;
    hide IsSuffix;
    segment, run := Segment(b.storage, b.chain.head, at, size);
  }

  /** What an answer moves: the cursor nearer to the head, over envelopes that
      stand on the path and replay. */
  lemma AnswerMoves(genesis: Base, n: Node, at: Digest, size: Digest -> nat, segment: seq<Envelope>, run: seq<Digest>)
    requires Answers(n, at, size, segment, run) && segment != []
    requires SoundFrom(n.root, n.books) && Tidy(n.root, n.books)
             && Replay(genesis, n.root) == Some(n.books.versions[n.root])
    ensures Linked(at, DigestsOf(segment)) && AllReplay(genesis, DigestsOf(segment))
    ensures SentFrom(n, segment) && WithinBudgets(size, segment)
    ensures var last := segment[|segment| - 1].digest;
            last == Before(at, DigestsOf(segment), |segment|) && Height(at) < Height(last) <= Height(n.roll.head)
  {
    hide Named;
    hide Bytes;
    hide SoundFrom;
    hide Replay;
    var taken := DigestsOf(segment);
    assert taken == run[..|segment|];
    LinkedMore(at, run, |segment| - 1);
    BudgetsKept(size, segment, run);
    RunUnder(at, run, |segment| - 1);
    forall i | 0 <= i < |segment|
      ensures IsAncestor(n.root, run[i]) && IsAncestor(run[i], n.roll.head) && Replay(genesis, run[i]).Some?
    {
      RunUnder(at, run, i);
      AncestorReplays(genesis, n.root, n.books, run[i]);
    }
    AncestorHeight(run[|segment| - 1], n.roll.head);
  }

  lemma AncestorReplays(genesis: Base, root: Digest, b: Books, d: Digest)
    requires SoundFrom(root, b) && Tidy(root, b) && d in b.entries && Replay(genesis, root) == Some(b.versions[root])
    ensures Replay(genesis, d).Some? && IsAncestor(root, d)
  {
    hide StatusOn;
    hide Replay;
    AncestorHeight(root, d);
    ReplayAtRoot(Base(root, b.versions[root]));
    Rebase(genesis, root, d);
  }

  lemma RootReplays(b: Core)
    requires b.Valid()
    ensures Replay(b.genesis, b.chain.root) == Some(b.storage.versions[b.chain.root])
  {
    hide AllInformed;
    hide ChainSound;
    hide Replay;
  }

  /** The node the `k`-th answer came from: one action on, after every answer. */
  function Turn(k: nat, turns: nat): nat {
    if k < turns then k else turns
  }

  /** Every segment was on the canonical path of the node as it was then. */
  ghost predicate SentInTurn(nodes: seq<Node>, segments: seq<seq<Envelope>>) {
    nodes != [] && forall k :: 0 <= k < |segments| ==> SentFrom(nodes[Turn(k, |nodes| - 1)], segments[k])
  }

  lemma NextInTurn(nodes: seq<Node>, segments: seq<seq<Envelope>>, segment: seq<Envelope>, n: Node, turns: nat)
    requires SentInTurn(nodes, segments) && SentFrom(nodes[|nodes| - 1], segment)
    requires |nodes| - 1 == Turn(|segments|, turns)
    ensures SentInTurn(nodes, segments + [segment])
    ensures |nodes| - 1 < turns ==> SentInTurn(nodes + [n], segments + [segment])
  {
    hide SentFrom;
  }

  /** Segments off a node that takes an action after each, for as long as there
      are actions. Whatever the node does meanwhile, the stream ends, and it
      ends at the head, or early because the cursor is no longer on the
      canonical path; what was sent is one linked run that replays from the
      genesis, and every segment was on the canonical path when it was sent. */
  method StreamWhile(b: Core, after: Digest, size: Digest -> nat, actions: seq<Action>)
      returns (segments: seq<seq<Envelope>>, ghost at: Digest, ghost nodes: seq<Node>)
    requires b.Valid() && b.Tidied() && AllAllowed(b.storage.envelopes.Keys, actions) && forall d :: size(d) >= 1
    modifies b`seen, b`quiet, b`oldest, b`recorded, b.storage, b.chain, b.subscriptions
    ensures b.Valid() && b.Tidied()
    ensures 1 <= |nodes| <= |actions| + 1 && nodes[0] == old(NodeOf(b)) && nodes[|nodes| - 1] == NodeOf(b)
    ensures Lived(b.genesis, actions[..|nodes| - 1], nodes) && |nodes| - 1 == Turn(|segments|, |actions|)
    ensures SentInTurn(nodes, segments) && (forall segment :: segment in segments ==> WithinBudgets(size, segment))
    ensures SentSoFar(b.genesis, after, at, segments)
    ensures at == b.chain.head || at !in Named(b.storage.envelopes.Keys, b.chain.head)
  {
    hide Core.Valid;
    hide Core.Tidied;
    hide AllAllowed;
    hide Allowed;
    hide OfferedIn;
    hide Lived;
    hide Did;
    hide Sits;
    hide SentFrom;
    hide SentInTurn;
    hide SentSoFar;
    hide WithinBudgets;
    hide Answers;
    hide SoundFrom;
    hide Named;
    hide Height;
    hide Replay;
    LiveSits(b);
    var cursor := after;
    segments, nodes := [], [NodeOf(b)];
    OnlyOne(b.genesis, NodeOf(b));
    NothingSent(b.genesis, after);
    NoneInTurn(nodes);
    var i := 0;
    assert actions[0..] == actions;
    var segment, run := Answer(b, cursor, size);
    while segment != []
      invariant b.Valid() && b.Tidied() && 0 <= i <= |actions| && AllAllowed(b.storage.envelopes.Keys, actions[i..])
      invariant |nodes| == i + 1 && i == Turn(|segments|, |actions|)
      invariant nodes[0] == old(NodeOf(b)) && nodes[i] == NodeOf(b) && Lived(b.genesis, actions[..i], nodes)
      invariant SentInTurn(nodes, segments) && (forall s :: s in segments ==> WithinBudgets(size, s))
      invariant SentSoFar(b.genesis, after, cursor, segments)
      invariant Answers(NodeOf(b), cursor, size, segment, run)
      decreases |actions| - i, Height(b.chain.head) - Height(cursor)
    {
      LiveSits(b);
      TidyNode(b);
      RootReplays(b);
      AnswerMoves(b.genesis, NodeOf(b), cursor, size, segment, run);
      MoreSent(b.genesis, after, cursor, segments, segment);
      cursor := segment[|segment| - 1].digest;
      if i < |actions| {
        ghost var keys, rest := b.storage.envelopes.Keys, actions[i..];
        assert rest[0] == actions[i] && rest[1..] == actions[i + 1..]
          && actions[..i + 1] == actions[..i] + [actions[i]];
        NextAllowed(keys, rest, keys);
        Perform(b, actions[i]);
        LiveSits(b);
        NextAllowed(keys, rest, b.storage.envelopes.Keys);
        LivedMore(b.genesis, actions[..i], nodes, actions[i], NodeOf(b));
        NextInTurn(nodes, segments, segment, NodeOf(b), |actions|);
        nodes, i := nodes + [NodeOf(b)], i + 1;
      } else {
        NextInTurn(nodes, segments, segment, NodeOf(b), |actions|);
      }
      segments := segments + [segment];
      segment, run := Answer(b, cursor, size);
    }
    NoAnswer(NodeOf(b), cursor, size, segment, run);
    at := cursor;
  }

  lemma NoneInTurn(nodes: seq<Node>)
    requires nodes != []
    ensures SentInTurn(nodes, [])
  {
  }

  lemma TidyNode(b: Core)
    requires b.Tidied()
    ensures Tidy(b.chain.root, BooksOf(b.storage))
  {
  }

  lemma NoAnswer(n: Node, at: Digest, size: Digest -> nat, segment: seq<Envelope>, run: seq<Digest>)
    requires Answers(n, at, size, segment, run) && segment == []
    ensures at == n.roll.head || at !in Named(n.books.entries.Keys, n.roll.head)
  {
  }

  /** Early, not wrongly: what a stream sent, whole or not, a puller whose
      chain tells the same history stores whole exactly when it stands on the
      puller's books. */
  lemma EarlyNotWrongly(genesis: Base, after: Digest, at: Digest, segments: seq<seq<Envelope>>, base: Base, kept: Books,
                        now: int)
    requires SentSoFar(genesis, after, at, segments) && Sound(base, kept)
    requires Replay(genesis, base.root) == Some(base.state) && IsAncestor(base.root, after)
    ensures var run := Received(DigestsOf(Flat(segments)));
            StoreAll(kept, run, None, now).verdict.Ok? <==> Stands(base, kept, run, HasFooting(kept, run))
  {
    hide Replay;
    hide Sound;
    hide Stands;
    hide StoreAll;
    var sent := DigestsOf(Flat(segments));
    forall i | 0 <= i < |sent| ensures Replay(base, sent[i]).Some? {
      RunOver(after, sent, i);
      AncestorTransitive(base.root, after, sent[i].Prev().value);
      Rebase(genesis, base.root, sent[i]);
    }
    ReceivedChained(base, after, sent, None);
    StoredWhenStanding(base, kept, Received(sent), None, now);
  }
}
