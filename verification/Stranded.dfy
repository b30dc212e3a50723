/** A sound chain that forgets a version when it compacts, and with it the
    way to store a run it could store before (crates/state/src/chain.rs). */
module Stranded {
  import opened Wire
  import opened Ledger
  import opened Lineage
  import opened ForkChoice
  import opened Storage
  import opened Ingest
  import opened Footing
  import opened Arrival
  import opened Walks
  import opened Compaction
  import opened Chains
  import opened Cores

  /** A signed plain write on a ledger that trusts one key at weight one and
      asks for that much. */
  function Strict(): State {
    map[MIN_ENVELOPE_WEIGHT_KEY := Int(1), TRUSTED_KEYS_KEY := Map(map["k" := KeyLeaf(Key("k", 1, map[]))])]
  }

  function SignedWrite(bits: nat, prev: Digest, key: Name): Digest {
    Digest(bits, SetNamespace(prev, key, Bool(true)), map["k" := Signature({"k"})], bits)
  }

  /** Any state that keeps these two reserved namespaces. */
  ghost predicate AsStrict(s: State) {
    && RulesHold(s)
    && MIN_ENVELOPE_WEIGHT_KEY in s && s[MIN_ENVELOPE_WEIGHT_KEY] == Int(1)
    && TRUSTED_KEYS_KEY in s && s[TRUSTED_KEYS_KEY] == Map(map["k" := KeyLeaf(Key("k", 1, map[]))])
    && MIN_ENVELOPE_SIGNATURES_KEY !in s
  }

  lemma StrictVerifies(s: State, d: Digest)
    requires AsStrict(s) && d.signatures == map["k" := Signature({"k"})] && d.Prev().Some?
    ensures Endorsed(s, d) && Verify(s, d.Prev().value, d) == Ok(AllMatched(1))
  {
    var keys := TrustedKeys(s).value;
    assert d.signatures.Keys == {"k"} && keys == map["k" := Key("k", 1, map[])];
    TotalWeightOf(keys, {"k"}, "k");
    assert {"k"} - {"k"} == {};
    assert FailingSigners(keys, d) == {};
    assert |d.signatures| > 0 by { assert "k" in d.signatures; }
  }

  lemma StrictStays(s: State, key: Name)
    requires AsStrict(s) && !HasRule(key)
    ensures AsStrict(s[key := Bool(true)])
  {
  }

  lemma StrictWrites(s: State, bits: nat, head: Digest, key: Name)
    requires AsStrict(s) && !HasRule(key)
    ensures var d := SignedWrite(bits, head, key);
            && Transition(s, head, d) == Some(s[key := Bool(true)]) && AsStrict(s[key := Bool(true)])
            && Verify(s, head, d) == Ok(AllMatched(1))
  {
    var d := SignedWrite(bits, head, key);
    StrictVerifies(s, d);
    StrictStays(s, key);
    TransitionExactly(s, head, d);
    hide Endorsed;
    hide Verify;
    hide Transition;
    assert Fitting(s, d.payload);
  }

  lemma StrictAsksForWeight(s: State, d: Digest)
    requires AsStrict(s)
    ensures CheckThresholds(s, Envelope(d, Unchecked)).Some?
  {
  }

  ghost predicate Earlier(b: Books, bits: nat) {
    forall x :: x in b.entries ==> x.bits < bits
  }

  /** The books once a signed write was offered. */
  ghost function Wrote(b: Books, bits: nat, p: Digest, key: Name): Books {
    StoreOne(b, Envelope(SignedWrite(bits, p, key), Unchecked), 0).books
  }

  /** A signed write on a held version of a strict ledger is stored. */
  lemma Write(base: Base, b: Books, bits: nat, p: Digest, key: Name, d: Digest, c: Books)
    requires Sound(base, b) && p in b.versions && IsAncestor(base.root, p) && AsStrict(b.versions[p]) && !HasRule(key)
    requires Earlier(b, bits) && d == SignedWrite(bits, p, key) && c == Wrote(b, bits, p, key)
    ensures Earlier(c, bits + 1) && d.Prev() == Some(p) && d.bits == bits && IsAncestor(base.root, d)
    ensures Sound(base, c) && Replay(base, d).Some? && Transition(b.versions[p], p, d).Some?
    ensures c.entries.Keys == b.entries.Keys + {d} && c.versions.Keys == b.versions.Keys + {d}
    ensures Grows(b, c) && AsStrict(c.versions[d]) && c.entries[d].envelope.status == AllMatched(1)
  {
    var e := Envelope(d, Unchecked);
    StrictWrites(b.versions[p], bits, p, key);
    hide HasRule;
    CachedReplays(base, b, p);
    CachedIsStored(base, b, d);
    ReplayNext(base, d);
    StoreOneSound(base, b, e, 0);
    hide Sound;
    hide Replay;
    hide Verify;
    hide Transition;
    hide AsStrict;
    NewStored(b, e, p, 0);
    hide StoreOne;
  }

  lemma AsStrictHolds(s: State)
    requires AsStrict(s)
    ensures RulesHold(s)
  {
  }

  lemma NewStored(b: Books, e: Envelope, p: Digest, now: int)
    requires e.digest !in b.entries && e.digest !in b.versions && p in b.versions && e.digest.Prev() == Some(p)
    requires AsStrict(b.versions[p]) && Transition(b.versions[p], p, e.digest).Some?
    ensures Verify(b.versions[p], p, e.digest).Ok?
    ensures var status := Verify(b.versions[p], p, e.digest).value;
            StoreOne(b, e, now).books == Books(b.versions[e.digest := Transition(b.versions[p], p, e.digest).value],
                                               b.entries[e.digest := LogEntry(Envelope(e.digest, status), now)])
  {
    AsStrictHolds(b.versions[p]);
    VerifiedApplies(b.versions[p], p, e.digest);
    hide AsStrict;
    hide RulesHold;
    hide Verify;
    hide Apply;
    hide Transition;
  }

  /** A chain of four: two writes at one weight contest the place above
      `cut`, and `won` has it. */
  ghost predicate Contested(full: Books, root: Digest, cut: Digest, lost: Digest, won: Digest) {
    && root.Prev().None? && cut.Prev() == Some(root) && lost.Prev() == Some(cut) && won.Prev() == Some(cut)
    && root.bits == 0 && cut.bits == 1 && lost.bits == 2 && won.bits == 3
    && full.entries.Keys == full.versions.Keys == {root, cut, lost, won}
    && full.entries[lost].envelope.status.Weight() == full.entries[won].envelope.status.Weight()
  }

  lemma ContestWon(full: Books, root: Digest, cut: Digest, lost: Digest, won: Digest)
    requires Contested(full, root, cut, lost, won)
    ensures OnPath(Weigh(full.entries), root, cut) && IsHead(Weigh(full.entries), root, won)
    ensures DigestsPin(full.entries.Keys) && Tidy(root, full)
  {
    var log := Weigh(full.entries);
    assert Kids(log, root) == {cut} && Kids(log, cut) == {lost, won} && Kids(log, won) == {};
    assert IsBest(log, root, cut) && IsBest(log, cut, won);
    assert OnPath(log, root, root) && OnPath(log, root, cut) && OnPath(log, root, won);
    assert IsAncestor(root, root) && IsAncestor(root, cut);
  }

  lemma ContestSound(full: Books, root: Digest, cut: Digest, lost: Digest, won: Digest)
    requires Contested(full, root, cut, lost, won) && SoundFrom(root, full)
    ensures ChainSound(root, won, full)
  {
    ContestWon(full, root, cut, lost, won);
    hide SoundFrom;
    hide IsHead;
    forall d | OnPath(Weigh(full.entries), root, d) ensures d in full.versions {
      OnPathDescends(Weigh(full.entries), root, d);
    }
  }

  /** Compacted at `cut`, a chain keeps what builds on it without its version,
      unless the head builds on that. */
  lemma Forgets(full: Books, cut: Digest, won: Digest, b: Books, lost: Digest)
    requires b == Books(OnlyBetween(full.versions, cut, won), Pruned(full.entries, cut))
    requires lost in full.entries && IsAncestor(cut, lost) && !IsAncestor(lost, won)
    ensures lost in b.entries && lost !in b.versions
    ensures b.entries.Keys <= full.entries.Keys && b.versions.Keys <= full.versions.Keys
  {
    hide IsAncestor;
    PrunedAbove(full.entries, cut, lost);
  }

  lemma CutAtFork(full: Books, root: Digest, cut: Digest, won: Digest, b: Books)
    requires ChainSound(root, won, full) && Tidy(root, full) && cut in full.entries
    requires IsAncestor(root, cut) && IsAncestor(cut, won)
    requires b == Books(OnlyBetween(full.versions, cut, won), Pruned(full.entries, cut))
    ensures CutDown(full, b, cut, won) && ChainSound(cut, won, b) && Tidy(cut, b)
    ensures cut in full.versions ==> cut in b.versions && b.versions[cut] == full.versions[cut]
  {
    hide ChainSound;
    hide Footed;
    hide Tidy;
    hide Pruned;
    assert PartWay(full.entries, full.entries, cut);
    hide PartWay;
    assert IsAncestor(cut, cut);
    LeftoverFooted(root, won, cut, full, full.entries, cut);
    assert Books(full.versions, full.entries) == full;
    FootedPrunes(cut, won, full, b);
    CutTidy(root, won, cut, full, b);
    CutsDown(cut, won, full, b);
  }

  /** A run from the loser on. */
  ghost function RunOn(lost: Digest, next: Digest): seq<Envelope> {
    [Envelope(lost, Unchecked), Envelope(next, Unchecked)]
  }

  lemma RunOnChained(base: Base, lost: Digest, next: Digest)
    requires lost.Prev().Some? && next.Prev() == Some(lost) && Replay(base, lost).Some? && Replay(base, next).Some?
    ensures Chained(base, RunOn(lost, next), None)
  {
    hide Replay;
    var run := RunOn(lost, next);
    assert run[1..] == [Envelope(next, Unchecked)] && run[1..][1..] == [];
    assert Chained(base, run[1..][1..], Some(next)) && Chained(base, run[1..], Some(lost));
  }

  lemma RunOnStands(base: Base, b: Books, lost: Digest, next: Digest, now: int)
    requires Sound(base, b) && lost in b.versions && next !in b.entries
    requires lost.Prev().Some? && next.Prev() == Some(lost) && Replay(base, lost).Some? && Replay(base, next).Some?
    ensures StoreAll(b, RunOn(lost, next), None, now).verdict.Ok?
  {
    var run := RunOn(lost, next);
    assert run[1..] == [Envelope(next, Unchecked)] && run[1..][1..] == [];
    hide Replay;
    hide Sound;
    hide Suffices;
    RunOnChained(base, lost, next);
    assert Stands(base, b, run[1..][1..], true) && Stands(base, b, run[1..], true);
    StoredWhenStanding(base, b, run, None, now);
  }

  lemma RunOnStuck(base: Base, b: Books, lost: Digest, next: Digest, now: int)
    requires Sound(base, b) && lost in b.entries && lost !in b.versions && next !in b.entries && next !in b.versions
    requires lost.Prev() == Some(base.root) && next.Prev() == Some(lost) && AsStrict(base.state)
    requires Transition(base.state, base.root, lost).Some?
    ensures StoreAll(b, RunOn(lost, next), None, now) == Stored(b, Err(UnknownParent(lost)))
  {
    var run := RunOn(lost, next);
    assert run[1..] == [Envelope(next, Unchecked)];
    StrictAsksForWeight(base.state, lost);
    OnlyThresholds(base.state, base.root, run[0]);
    ReplayAtRoot(base);
    CachedReplays(base, b, base.root);
    hide Replay;
    hide Apply;
    hide Verify;
    assert StoreOne(b, run[0], now) == Stored(b, Ok(true));
    assert StoreOne(b, run[1], now) == Stored(b, Err(UnknownParent(lost)));
  }

  /** A chain of five writes, the last left out of the books. */
  ghost predicate Whole(base: Base, full: Books, cut: Digest, lost: Digest, won: Digest, next: Digest) {
    && Sound(base, full) && full.versions[base.root] == base.state
    && Contested(full, base.root, cut, lost, won) && next.Prev() == Some(lost) && next.bits == 4
    && Replay(base, lost).Some? && Replay(base, next).Some?
    && AsStrict(full.versions[cut]) && Transition(full.versions[cut], cut, lost).Some?
  }

  ghost function Fresh(base: Base): Books {
    Books(map[base.root := base.state], map[base.root := LogEntry(Envelope(base.root, AllMatched(0)), 0)])
  }

  lemma FreshSound(base: Base)
    requires AsStrict(base.state)
    ensures Sound(base, Fresh(base)) && IsAncestor(base.root, base.root) && Earlier(Fresh(base), base.root.bits + 1)
    ensures Fresh(base).entries.Keys == Fresh(base).versions.Keys == {base.root}
    ensures Fresh(base).versions[base.root] == base.state
  {
    FirstSettled(base, Fresh(base).entries[base.root]);
    hide Sound;
    hide RulesHold;
  }

  lemma WholeChain(base: Base, a: Name, full: Books, cut: Digest, lost: Digest, won: Digest, next: Digest)
    requires base.root.Prev().None? && base.root.bits == 0 && AsStrict(base.state) && !HasRule(a)
    requires cut == SignedWrite(1, base.root, a) && lost == SignedWrite(2, cut, a) && won == SignedWrite(3, cut, a)
    requires next == SignedWrite(4, lost, a)
    requires full == Wrote(Wrote(Wrote(Fresh(base), 1, base.root, a), 2, cut, a), 3, cut, a)
    ensures Whole(base, full, cut, lost, won, next)
  {
    hide AsStrict;
    hide Sound;
    hide Replay;
    hide Transition;
    hide IsAncestor;
    hide HasRule;
    hide Earlier;
    hide SignedWrite;
    hide Wrote;
    hide Fresh;
    var first := Fresh(base);
    var second := Wrote(first, 1, base.root, a);
    var third := Wrote(second, 2, cut, a);
    FreshSound(base);
    Write(base, first, 1, base.root, a, cut, second);
    assert AsStrict(second.versions[cut]) && second.versions[base.root] == base.state;
    Write(base, second, 2, cut, a, lost, third);
    assert third.versions[cut] == second.versions[cut] && third.versions[base.root] == base.state;
    Write(base, third, 3, cut, a, won, full);
    assert full.versions[cut] == second.versions[cut] && full.versions[lost] == third.versions[lost];
    assert full.entries[lost] == third.entries[lost] && full.versions[base.root] == base.state;
    hide Grows;
    AreContested(full, base.root, cut, lost, won);
    hide Contested;
    Write(base, full, 4, lost, a, next, Wrote(full, 4, lost, a));
  }

  lemma AreContested(full: Books, root: Digest, cut: Digest, lost: Digest, won: Digest)
    requires root.Prev().None? && cut.Prev() == Some(root) && lost.Prev() == Some(cut) && won.Prev() == Some(cut)
    requires root.bits == 0 && cut.bits == 1 && lost.bits == 2 && won.bits == 3
    requires full.entries.Keys == {root} + {cut} + {lost} + {won} && full.versions.Keys == full.entries.Keys
    requires full.entries[lost].envelope.status == full.entries[won].envelope.status
    ensures Contested(full, root, cut, lost, won)
  {
  }

  lemma Above(a: Digest, p: Digest, d: Digest)
    requires d.Prev() == Some(p) && IsAncestor(a, p)
    ensures IsAncestor(a, d)
  {
  }

  lemma AboveIsLater(root: Digest, cut: Digest, lost: Digest, won: Digest, next: Digest)
    requires cut.Prev() == Some(root) && lost.Prev() == Some(cut) && won.Prev() == Some(cut)
             && next.Prev() == Some(lost)
    ensures IsAncestor(root, root) && IsAncestor(root, cut) && IsAncestor(root, lost)
    ensures IsAncestor(cut, won) && IsAncestor(cut, lost) && IsAncestor(cut, next)
    ensures lost != won ==> !IsAncestor(lost, won)
  {
    assert IsAncestor(root, root) && IsAncestor(cut, cut) && Height(lost) == Height(won);
    if lost != won && IsAncestor(lost, won) { AncestorHeight(lost, won); }
    hide IsAncestor;
    Above(root, root, cut);
    Above(root, cut, lost);
    Above(cut, cut, lost);
    Above(cut, cut, won);
    Above(cut, lost, next);
  }

  /** What compacting such a chain at its one fork makes of a run. */
  lemma ForkCompacted(base: Base, full: Books, cut: Digest, lost: Digest, won: Digest, next: Digest, b: Books, now: int)
    requires Whole(base, full, cut, lost, won, next)
    requires b == Books(OnlyBetween(full.versions, cut, won), Pruned(full.entries, cut))
    ensures ChainSound(base.root, won, full) && OnPath(Weigh(full.entries), base.root, cut)
    ensures CutDown(full, b, cut, won) && ChainSound(cut, won, b) && Tidy(cut, b)
    ensures Chained(base, RunOn(lost, next), None) && Chained(Base(cut, b.versions[cut]), RunOn(lost, next), None)
    ensures cut in b.versions && StoreAll(full, RunOn(lost, next), None, now).verdict.Ok?
    ensures StoreAll(b, RunOn(lost, next), None, now) == Stored(b, Err(UnknownParent(lost)))
  {
    hide Sound;
    hide Replay;
    hide Transition;
    hide AsStrict;
    hide OnPath;
    hide IsHead;
    hide Tidy;
    hide IsAncestor;
    hide StoreAll;
    hide Chained;
    ContestWon(full, base.root, cut, lost, won);
    ContestSound(full, base.root, cut, lost, won);
    AboveIsLater(base.root, cut, lost, won, next);
    assert lost != won && cut in full.entries && lost in full.entries && cut in full.versions;
    hide Contested;
    hide ChainSound;
    hide Pruned;
    hide OnlyBetween;
    hide CutDown;
    CutAtFork(full, base.root, cut, won, b);
    Forgets(full, cut, won, b, lost);
    RunOnStands(base, full, lost, next, now);
    RunOnChained(base, lost, next);
    var onward := Base(cut, full.versions[cut]);
    CachedReplays(base, full, cut);
    Rebase(base, cut, lost);
    Rebase(base, cut, next);
    RunOnChained(onward, lost, next);
    RunOnStuck(onward, b, lost, next, now);
  }

  ghost function Genesis(): Base {
    Base(Digest(0, Init(Strict()), map[], 0), Strict())
  }

  /** A name no rule is on. */
  function Plain(): Name {
    "a"
  }

  lemma GenesisIsStrict()
    ensures Genesis().root.payload == Init(Genesis().state) && Genesis().root.bits == 0 && AsStrict(Genesis().state)
    ensures !HasRule(Plain())
  {
  }

  /** A chain before and after compacting at `cut`, and a run. */
  datatype Cut = Cut(genesis: Base, cut: Digest, head: Digest, before: Books, after: Books, run: seq<Envelope>)

  /** The chain goes back to its genesis and is sound both before and after. */
  ghost predicate SoundCut(c: Cut) {
    && c.genesis.root.payload == Init(c.genesis.state)
    && ChainSound(c.genesis.root, c.head, c.before) && c.before.versions[c.genesis.root] == c.genesis.state
    && OnPath(Weigh(c.before.entries), c.genesis.root, c.cut) && CutDown(c.before, c.after, c.cut, c.head)
    && ChainSound(c.cut, c.head, c.after) && Tidy(c.cut, c.after)
  }

  /** The run arrives as off the wire, and each envelope of it is valid and
      replays, from the genesis and from the cut. */
  ghost predicate GoodRun(c: Cut) {
    && c.cut in c.after.versions && (forall i :: 0 <= i < |c.run| ==> c.run[i].status == Unchecked)
    && Chained(c.genesis, c.run, None) && Chained(Base(c.cut, c.after.versions[c.cut]), c.run, None)
  }

  /** A chain from its genesis that stores a run of two writes, forgets a
      version of it in a compaction, and then refuses the run for good:
      sent again, the stored envelope comes without the verified weight its
      ledger asks for, so its version is not made again. */
  lemma Strands() returns (c: Cut)
    ensures SoundCut(c) && GoodRun(c) && |c.run| == 2
    ensures forall now: int ::
              && StoreAll(c.before, c.run, None, now).verdict.Ok?
              && StoreAll(c.after, c.run, None, now) == Stored(c.after, Err(UnknownParent(c.run[0].digest)))
  {
    var base, a := Genesis(), Plain();
    GenesisIsStrict();
    hide HasRule;
    hide Genesis;
    hide Plain;
    hide Fresh;
    hide SignedWrite;
    hide Wrote;
    hide AsStrict;
    hide Sound;
    hide Replay;
    hide StoreAll;
    hide Chained;
    hide ChainSound;
    hide OnPath;
    hide CutDown;
    hide Tidy;
    hide IsHead;
    hide Pruned;
    hide OnlyBetween;
    hide IsAncestor;
    var cut := SignedWrite(1, base.root, a);
    var lost, won := SignedWrite(2, cut, a), SignedWrite(3, cut, a);
    var next, full := SignedWrite(4, lost, a), Wrote(Wrote(Wrote(Fresh(base), 1, base.root, a), 2, cut, a), 3, cut, a);
    WholeChain(base, a, full, cut, lost, won, next);
    var b := Books(OnlyBetween(full.versions, cut, won), Pruned(full.entries, cut));
    c := Cut(base, cut, won, full, b, RunOn(lost, next));
    forall now: int
      ensures StoreAll(full, c.run, None, now).verdict.Ok?
      ensures StoreAll(b, c.run, None, now) == Stored(b, Err(UnknownParent(lost)))
    {
      ForkCompacted(base, full, cut, lost, won, next, b, now);
    }
    ForkCompacted(base, full, cut, lost, won, next, b, 0);
  }
}
