/** An insert cut off at any of its writes: the store still opens, and offering
    the run again ends as the insert would have (crates/state/src/chain.rs,
    `insert_batch`). */
module Recovery {
  import opened Wire
  import opened Ledger
  import opened Lineage
  import opened ForkChoice
  import opened Storage
  import opened Ingest
  import opened Footing
  import opened Walks
  import opened Chains
  import opened Cores

  // ---------------------------------------------------------------------
  // Arrival times decide nothing

  /** The same books but for when envelopes arrived. */
  ghost predicate Alike(x: Books, y: Books) {
    && x.versions == y.versions && x.entries.Keys == y.entries.Keys
    && forall d :: d in x.entries ==> x.entries[d].envelope == y.entries[d].envelope
  }

  lemma StoreOneAlike(x: Books, y: Books, e: Envelope, t: int, u: int)
    requires Alike(x, y) && e.digest.Prev().Some?
    ensures Alike(StoreOne(x, e, t).books, StoreOne(y, e, u).books)
    ensures StoreOne(x, e, t).verdict == StoreOne(y, e, u).verdict
  {
    hide Verify;
    hide Apply;
  }

  lemma {:induction false} StoreAllAlike(x: Books, y: Books, batch: seq<Envelope>, last: Option<Digest>, t: int, u: int)
    requires Alike(x, y)
    ensures Alike(StoreAll(x, batch, last, t).books, StoreAll(y, batch, last, u).books)
    ensures StoreAll(x, batch, last, t).verdict == StoreAll(y, batch, last, u).verdict
    decreases |batch|
  {
    hide StoreOne;
    hide Alike;
    if batch == [] || batch[0].digest.Prev().None? || (last.Some? && last != batch[0].digest.Prev()) {
    } else {
      StoreOneAlike(x, y, batch[0], t, u);
      var one, two := StoreOne(x, batch[0], t), StoreOne(y, batch[0], u);
      StoreAllAlike(one.books, two.books, batch[1..], Some(batch[0].digest), t, u);
    }
  }

  lemma AlikeSound(root: Digest, x: Books, y: Books)
    requires Alike(x, y) && SoundFrom(root, x)
    ensures SoundFrom(root, y) && Weigh(x.entries) == Weigh(y.entries)
  {
    hide Replay;
    hide StatusOn;
    hide RulesHold;
  }

  // ---------------------------------------------------------------------
  // Offering a run again

  /** Whatever tidy books took, replays. */
  lemma {:induction false} TakenReplays(base: Base, b: Books, batch: seq<Envelope>, last: Option<Digest>, now: int)
    requires Sound(base, b) && Tidy(base.root, b) && StoreAll(b, batch, last, now).verdict.Ok?
    ensures Chained(base, batch, last)
    decreases |batch|
  {
    hide Sound;
    hide Tidy;
    hide StoreOne;
    hide Replay;
    if batch == [] {
    } else {
      var one := StoreOne(b, batch[0], now);
      OneReplays(base, b, batch[0], now);
      StoreOneSound(base, b, batch[0], now);
      StoreOneTidy(base.root, b, batch[0], now);
      TakenReplays(base, one.books, batch[1..], Some(batch[0].digest), now);
    }
  }

  lemma OneReplays(base: Base, b: Books, e: Envelope, now: int)
    requires Sound(base, b) && Tidy(base.root, b) && e.digest.Prev().Some? && StoreOne(b, e, now).verdict.Ok?
    ensures Replay(base, e.digest).Some?
  {
    hide Transition;
    hide Verify;
    hide Apply;
    hide Replay;
    hide StatusOn;
    hide RulesHold;
    var d, p := e.digest, e.digest.Prev().value;
    StoreOneTrue(base, b, e, now);
    ReplayAtRoot(base);
    if d in b.entries || d in b.versions {
      AncestorHeight(base.root, d);
    } else {
      assert p in b.versions && d in StoreOne(b, e, now).books.entries;
    }
  }

  /** Books that hold all a run left, and beyond that just versions higher up. */
  ghost predicate Exceeds(c: Books, more: Books, height: nat) {
    && Grows(c, more) && more.entries == c.entries
    && forall d :: d in more.versions && d !in c.versions ==> Height(d) > height
  }

  lemma {:induction false} ChainedRises(base: Base, batch: seq<Envelope>, last: Digest, d: Digest)
    requires Chained(base, batch, Some(last)) && d in Offered(batch)
    ensures Height(d) > Height(last)
    decreases |batch|
  {
    hide Replay;
    var i :| 0 <= i < |batch| && batch[i].digest == d;
    assert Height(batch[0].digest) == Height(last) + 1;
    if i == 0 {
    } else {
      assert batch[1..][i - 1].digest == d;
      ChainedRises(base, batch[1..], batch[0].digest, d);
    }
  }

  /** Offered again, an envelope of a run that was taken changes nothing. */
  lemma OneAbsorbed(base: Base, b: Books, e: Envelope, now: int, c: Books, more: Books, height: nat, t: int)
    requires Sound(base, b) && e.digest.Prev().Some? && Replay(base, e.digest).Some?
    requires StoreOne(b, e, now).verdict.Ok? && Grows(StoreOne(b, e, now).books, c)
    requires forall x :: x in c.versions && x !in StoreOne(b, e, now).books.versions ==> Height(x) > Height(e.digest)
    requires Exceeds(c, more, height) && Height(e.digest) <= height
    ensures StoreOne(more, e, t) == Stored(more, Ok(true))
  {
    hide Verify;
    hide Replay;
    hide StatusOn;
    hide RulesHold;
    hide Apply;
    var one, d, p := StoreOne(b, e, now).books, e.digest, e.digest.Prev().value;
    CachedIsStored(base, b, d);
    ReplayDescends(base, d);
    assert Height(p) < Height(d);
    assert d in more.versions <==> d in one.versions;
    assert p in more.versions <==> p in b.versions;
  }

  lemma {:induction false} Absorbed(base: Base, b: Books, batch: seq<Envelope>, last: Option<Digest>, now: int,
                                    more: Books, height: nat, t: int)
    requires Sound(base, b) && Chained(base, batch, last) && StoreAll(b, batch, last, now).verdict.Ok?
    requires Exceeds(StoreAll(b, batch, last, now).books, more, height)
    requires forall d :: d in Offered(batch) ==> Height(d) <= height
    ensures StoreAll(more, batch, last, t) == Stored(more, Ok(true))
    decreases |batch|
  {
    hide Sound;
    hide StoreOne;
    hide Replay;
    hide Exceeds;
    hide Height;
    if batch == [] {
    } else {
      var e, d, rest := batch[0], batch[0].digest, batch[1..];
      var one := StoreOne(b, e, now);
      var c := StoreAll(one.books, rest, Some(d), now).books;
      StoreOneSound(base, b, e, now);
      StoreAllAdds(one.books, rest, Some(d), now);
      forall x | x in c.versions && x !in one.books.versions ensures Height(x) > Height(d) {
        ChainedRises(base, rest, d, x);
      }
      assert d in Offered(batch);
      OneAbsorbed(base, b, e, now, c, more, height, t);
      forall x | x in Offered(rest) ensures x in Offered(batch) {
        var i :| 0 <= i < |rest| && rest[i].digest == x;
        assert batch[i + 1].digest == x;
      }
      Absorbed(base, one.books, rest, Some(d), now, more, height, t);
    }
  }

  /** Cut off anywhere, offering the run again, whenever, leaves what the
      insert would have, with the same verdict. */
  lemma Resumed(base: Base, b: Books, batch: seq<Envelope>, now: int, w: Books, later: int)
    requires Sound(base, b) && Tidy(base.root, b) && CutOff(b, batch, now, w)
    ensures var whole, again := StoreAll(b, batch, None, now), StoreAll(w, batch, None, later);
            && Alike(again.books, whole.books) && (again.verdict.Ok? <==> whole.verdict.Ok?)
            && (whole.verdict.Err? ==> again.verdict == whole.verdict)
  {
    hide Sound;
    hide Tidy;
    hide StoreAll;
    hide Alike;
    hide CutOffAt;
    var k: nat :| k < |batch| && CutOffAt(b, batch, now, k, w);
    CutOffEither(b, batch, now, k, w);
    var before, after := StoreAll(b, batch[..k], None, now).books, StoreAll(b, batch[..k + 1], None, now).books;
    if w == after {
      ResumesAfter(base, b, batch, now, k + 1, w, later);
    } else {
      ResumesDangling(base, b, batch, now, k, w, later);
    }
  }

  lemma CutOffEither(b: Books, batch: seq<Envelope>, now: int, k: nat, w: Books)
    requires k < |batch| && CutOffAt(b, batch, now, k, w)
    ensures StoreAll(b, batch[..k], None, now).verdict.Ok? && StoreAll(b, batch[..k + 1], None, now).verdict.Ok?
    ensures var before, after := StoreAll(b, batch[..k], None, now).books, StoreAll(b, batch[..k + 1], None, now).books;
            w == after || w == Books(after.versions, before.entries)
  {
    hide StoreAll;
  }

  lemma AlikeItself(b: Books)
    ensures Alike(b, b)
  {
  }

  /** Between two envelopes. */
  lemma ResumesAfter(base: Base, b: Books, batch: seq<Envelope>, now: int, k: nat, w: Books, later: int)
    requires Sound(base, b) && Tidy(base.root, b) && k <= |batch|
    requires StoreAll(b, batch[..k], None, now).verdict.Ok? && w == StoreAll(b, batch[..k], None, now).books
    ensures var whole, again := StoreAll(b, batch, None, now), StoreAll(w, batch, None, later);
            && Alike(again.books, whole.books) && (again.verdict.Ok? <==> whole.verdict.Ok?)
            && (whole.verdict.Err? ==> again.verdict == whole.verdict)
  {
    hide Sound;
    hide Tidy;
    hide StoreAll;
    hide Alike;
    hide Chained;
    var part, rest := batch[..k], batch[k..];
    assert batch == part + rest;
    TakenReplays(base, b, part, None, now);
    var height := Highest(Offered(part));
    HighestIs(Offered(part));
    ExceedsItself(w, height);
    Absorbed(base, b, part, None, now, w, height, later);
    StoreAllJoin(b, part, rest, None, now);
    StoreAllJoin(w, part, rest, None, later);
    AlikeItself(w);
    StoreAllAlike(w, w, rest, LastOf(None, part), later, now);
  }

  lemma ExceedsItself(b: Books, height: nat)
    ensures Exceeds(b, b, height)
  {
  }

  /** No envelope of a set is higher. */
  lemma {:induction false} HighestIs(ds: set<Digest>)
    ensures forall d :: d in ds ==> Height(d) <= Highest(ds)
    decreases ds
  {
    if ds == {} {
    } else {
      var x :| x in ds && Highest(ds) == (if Height(x) >= Highest(ds - {x}) then Height(x) else Highest(ds - {x}));
      HighestIs(ds - {x});
    }
  }

  ghost function Highest(ds: set<Digest>): nat {
    if ds == {} then 0
    else
      var x :| x in ds;
      if Height(x) >= Highest(ds - {x}) then Height(x) else Highest(ds - {x})
  }

  lemma {:induction false} ChainedBelow(base: Base, batch: seq<Envelope>, last: Option<Digest>, k: nat, x: Digest)
    requires Chained(base, batch, last) && k < |batch| && x in Offered(batch[..k])
    ensures Height(x) < Height(batch[k].digest)
    decreases k
  {
    hide Replay;
    var i :| 0 <= i < k && batch[..k][i].digest == x;
    if i == 0 {
      assert batch[1..][k - 1].digest in Offered(batch[1..]);
      ChainedRises(base, batch[1..], x, batch[k].digest);
    } else {
      assert batch[1..][..k - 1][i - 1].digest == x;
      ChainedBelow(base, batch[1..], Some(batch[0].digest), k - 1, x);
    }
  }

  /** An envelope whose version was written and whose record was not: offering
      it again writes the record. */
  lemma OneFinishes(base: Base, c: Books, e: Envelope, now: int, later: int)
    requires Sound(base, c) && Tidy(base.root, c) && e.digest.Prev().Some? && e.digest !in c.entries
    requires StoreOne(c, e, now).verdict.Ok?
    ensures var n := StoreOne(c, e, now);
            var again := StoreOne(Books(n.books.versions, c.entries), e, later);
            Alike(again.books, n.books) && again.verdict == n.verdict == Ok(false)
    ensures Exceeds(c, Books(StoreOne(c, e, now).books.versions, c.entries), Height(e.digest) - 1)
  {
    hide Verify;
    hide Apply;
    hide Replay;
    hide StatusOn;
    hide RulesHold;
    CachedIsStored(base, c, e.digest);
  }

  /** Between an envelope's two writes. */
  lemma ResumesDangling(base: Base, b: Books, batch: seq<Envelope>, now: int, k: nat, w: Books, later: int)
    requires Sound(base, b) && Tidy(base.root, b) && k < |batch|
    requires StoreAll(b, batch[..k], None, now).verdict.Ok? && StoreAll(b, batch[..k + 1], None, now).verdict.Ok?
    requires w == Books(StoreAll(b, batch[..k + 1], None, now).books.versions,
                        StoreAll(b, batch[..k], None, now).books.entries)
    ensures var whole, again := StoreAll(b, batch, None, now), StoreAll(w, batch, None, later);
            && Alike(again.books, whole.books) && (again.verdict.Ok? <==> whole.verdict.Ok?)
            && (whole.verdict.Err? ==> again.verdict == whole.verdict)
  {
    hide Sound;
    hide Tidy;
    hide StoreAll;
    hide StoreOne;
    hide Alike;
    hide Chained;
    hide Exceeds;
    var part, e := batch[..k], batch[k];
    var c := StoreAll(b, part, None, now).books;
    NextTaken(base, b, batch, k, now);
    if e.digest in c.entries {
      StoredAgain(c, e, now);
      ResumesAfter(base, b, batch, now, k + 1, w, later);
    } else {
      OneFinishes(base, c, e, now, later);
      Absorbed(base, b, part, None, now, w, Height(e.digest) - 1, later);
      FinishesRest(b, w, batch, k, now, later);
    }
  }

  /** Two parts of a run taken, the second one envelope longer. */
  lemma NextTaken(base: Base, b: Books, batch: seq<Envelope>, k: nat, now: int)
    requires Sound(base, b) && Tidy(base.root, b) && k < |batch|
    requires StoreAll(b, batch[..k], None, now).verdict.Ok? && StoreAll(b, batch[..k + 1], None, now).verdict.Ok?
    ensures var c, d := StoreAll(b, batch[..k], None, now).books, batch[k].digest;
            && Sound(base, c) && Tidy(base.root, c) && Chained(base, batch[..k], None) && d.Prev().Some?
            && (LastOf(None, batch[..k]).None? || LastOf(None, batch[..k]) == d.Prev())
            && StoreOne(c, batch[k], now).verdict.Ok?
            && StoreOne(c, batch[k], now).books == StoreAll(b, batch[..k + 1], None, now).books
            && forall x :: x in Offered(batch[..k]) ==> Height(x) <= Height(d) - 1
  {
    hide Sound;
    hide Tidy;
    hide StoreAll;
    hide StoreOne;
    hide Chained;
    hide Height;
    var part, upTo := batch[..k], batch[..k + 1];
    assert upTo[..k] == part && upTo[k] == batch[k] && upTo[..k + 1] == upTo;
    TakenReplays(base, b, upTo, None, now);
    ChainedAt(base, upTo, None, k);
    AtEnvelope(b, upTo, k, now);
    StoreAllSound(base, b, part, None, now);
    StoreAllTidy(base.root, b, part, None, now);
    forall x | x in Offered(part) ensures Height(x) <= Height(batch[k].digest) - 1 {
      ChainedBelow(base, upTo, None, k, x);
    }
  }

  lemma StoredAgain(c: Books, e: Envelope, now: int)
    requires e.digest.Prev().Some? && e.digest in c.entries
    ensures StoreOne(c, e, now).books.entries == c.entries
  {
    hide Verify;
    hide Apply;
  }

  lemma FinishesRest(b: Books, w: Books, batch: seq<Envelope>, k: nat, now: int, later: int)
    requires k < |batch| && batch[k].digest.Prev().Some?
    requires LastOf(None, batch[..k]).None? || LastOf(None, batch[..k]) == batch[k].digest.Prev()
    requires StoreAll(b, batch[..k], None, now).verdict.Ok?
    requires StoreAll(w, batch[..k], None, later) == Stored(w, Ok(true))
    requires var n := StoreOne(StoreAll(b, batch[..k], None, now).books, batch[k], now);
             var again := StoreOne(w, batch[k], later);
             Alike(again.books, n.books) && again.verdict.Ok? && n.verdict.Ok?
    ensures var whole, again := StoreAll(b, batch, None, now), StoreAll(w, batch, None, later);
            && Alike(again.books, whole.books) && (again.verdict.Ok? <==> whole.verdict.Ok?)
            && (whole.verdict.Err? ==> again.verdict == whole.verdict)
  {
    hide StoreAll;
    hide StoreOne;
    hide Alike;
    AtEnvelope(b, batch, k, now);
    AtEnvelope(w, batch, k, later);
    var upTo, rest := batch[..k + 1], batch[k + 1..];
    assert batch == upTo + rest;
    StoreAllJoin(b, upTo, rest, None, now);
    StoreAllJoin(w, upTo, rest, None, later);
    StoreAllAlike(StoreAll(w, upTo, None, later).books, StoreAll(b, upTo, None, now).books, rest, LastOf(None, upTo),
                  later, now);
  }

  // ---------------------------------------------------------------------
  // Opening again

  /** A cut-off store opens: it is sound but for at most one version whose
      envelope was not yet recorded, and its log's path has its versions. */
  lemma CutOffOpens(root: Digest, head: Digest, b: Books, batch: seq<Envelope>, now: int, w: Books)
    requires ChainSound(root, head, b) && CutOff(b, batch, now, w)
    ensures Rooted(root, w) && PathCached(w, root) && Grows(b, w) && w.entries.Keys <= b.entries.Keys + Offered(batch)
  {
    hide ChainSound;
    hide SoundFrom;
    hide StoreAll;
    hide Rooted;
    hide PathCached;
    hide Grows;
    hide Offered;
    hide CutOffAt;
    var k: nat :| k < |batch| && CutOffAt(b, batch, now, k, w);
    CutOffEither(b, batch, now, k, w);
    var c, n := StoreAll(b, batch[..k], None, now).books, StoreAll(b, batch[..k + 1], None, now).books;
    OfferedPart(batch, k);
    OfferedPart(batch, k + 1);
    PartFacts(root, head, b, batch[..k], now);
    PartFacts(root, head, b, batch[..k + 1], now);
    if w == n {
      GrowsItself(n);
      RootedMixed(root, n, n);
    } else {
      PartGrows(b, batch, k, now);
      RootedMixed(root, c, n);
      CachedMixed(root, b, c, n);
    }
  }

  lemma PartGrows(b: Books, batch: seq<Envelope>, k: nat, now: int)
    requires k < |batch| && StoreAll(b, batch[..k], None, now).verdict.Ok?
    ensures Grows(StoreAll(b, batch[..k], None, now).books, StoreAll(b, batch[..k + 1], None, now).books)
  {
    hide StoreAll;
    var part := batch[..k];
    assert batch[..k + 1] == part + [batch[k]];
    StoreAllJoin(b, part, [batch[k]], None, now);
    StoreAllAdds(StoreAll(b, part, None, now).books, [batch[k]], LastOf(None, part), now);
  }

  lemma OfferedPart(batch: seq<Envelope>, k: nat)
    requires k <= |batch|
    ensures Offered(batch[..k]) <= Offered(batch)
  {
    forall d | d in Offered(batch[..k]) ensures d in Offered(batch) {
      var i :| 0 <= i < k && batch[..k][i].digest == d;
      assert batch[i].digest == d;
    }
  }

  lemma PartFacts(root: Digest, head: Digest, b: Books, part: seq<Envelope>, now: int)
    requires ChainSound(root, head, b)
    ensures var c := StoreAll(b, part, None, now).books;
            SoundFrom(root, c) && PathCached(c, root) && Grows(b, c) && c.entries.Keys <= b.entries.Keys + Offered(part)
  {
    hide StoreAll;
    SoundChainStores(root, head, b, part, now);
    NothingUncached(root, head, b, part, now);
    StoreAllAdds(b, part, None, now);
  }

  /** A sound log under the versions of a sound later one. */
  lemma RootedMixed(root: Digest, c: Books, n: Books)
    requires SoundFrom(root, c) && SoundFrom(root, n) && Grows(c, n)
    ensures Rooted(root, Books(n.versions, c.entries))
  {
    hide Replay;
    hide StatusOn;
    hide RulesHold;
  }

  lemma CachedMixed(root: Digest, b: Books, c: Books, n: Books)
    requires PathCached(c, root) && Grows(b, c) && Grows(c, n)
    ensures PathCached(Books(n.versions, c.entries), root) && Grows(b, Books(n.versions, c.entries))
  {
  }

  /** What an insert may have left when it was cut off. */
  ghost predicate LeftBehind(b: Books, root: Digest, batch: seq<Envelope>, now: int, w: Books) {
    CutOff(b, batch, now, w) || WalkedTo(StoreAll(b, batch, None, now).books, root, w)
  }

  /** Cut off during the walk, everything was done. */
  lemma WalkCutOff(root: Digest, head: Digest, b: Books, batch: seq<Envelope>, now: int, w: Books)
    requires ChainSound(root, head, b) && WalkedTo(StoreAll(b, batch, None, now).books, root, w)
    ensures w == StoreAll(b, batch, None, now).books
  {
    hide ChainSound;
    hide StoreAll;
    hide PathCached;
    hide CachesPath;
    NothingUncached(root, head, b, batch, now);
    NothingRederived(StoreAll(b, batch, None, now).books, w, root);
  }

  /** Wherever it was cut off, the store opens as it is, and offering the run
      once more is bound for sound books. */
  lemma LeftToResume(root: Digest, head: Digest, b: Books, batch: seq<Envelope>, now: int, w: Books, later: int)
    requires ChainSound(root, head, b) && Tidy(root, b) && LeftBehind(b, root, batch, now, w)
    ensures Rooted(root, w) && PathCached(w, root) && w.entries.Keys <= b.entries.Keys + Offered(batch)
    ensures var whole, again := StoreAll(b, batch, None, now), StoreAll(w, batch, None, later);
            && Alike(again.books, whole.books) && SoundFrom(root, again.books) && PathCached(again.books, root)
            && (again.verdict.Ok? <==> whole.verdict.Ok?) && (whole.verdict.Err? ==> again.verdict == whole.verdict)
  {
    hide StoreAll;
    hide Sound;
    hide Tidy;
    hide CutOff;
    hide WalkedTo;
    hide Rooted;
    hide PathCached;
    hide Alike;
    hide Offered;
    hide IsHead;
    var whole := StoreAll(b, batch, None, now).books;
    if CutOff(b, batch, now, w) {
      CutOffOpens(root, head, b, batch, now, w);
      Resumed(Base(root, b.versions[root]), b, batch, now, w, later);
    } else {
      WalkCutOff(root, head, b, batch, now, w);
      WholeOpens(root, head, b, batch, now);
      WholeAgain(Base(root, b.versions[root]), b, batch, now, later);
    }
    PartFacts(root, head, b, batch, now);
    AlikeBack(root, StoreAll(w, batch, None, later).books, whole);
  }

  lemma WholeOpens(root: Digest, head: Digest, b: Books, batch: seq<Envelope>, now: int)
    requires ChainSound(root, head, b)
    ensures var w := StoreAll(b, batch, None, now).books;
            Rooted(root, w) && PathCached(w, root) && w.entries.Keys <= b.entries.Keys + Offered(batch)
  {
    hide ChainSound;
    hide SoundFrom;
    hide StoreAll;
    hide PathCached;
    hide Rooted;
    PartFacts(root, head, b, batch, now);
    GrowsItself(StoreAll(b, batch, None, now).books);
    RootedMixed(root, StoreAll(b, batch, None, now).books, StoreAll(b, batch, None, now).books);
  }

  /** A run offered once more after all that could be taken of it was. */
  lemma WholeAgain(base: Base, b: Books, batch: seq<Envelope>, now: int, later: int)
    requires Sound(base, b) && Tidy(base.root, b)
    ensures var whole := StoreAll(b, batch, None, now);
            var again := StoreAll(whole.books, batch, None, later);
            && Alike(again.books, whole.books) && (again.verdict.Ok? <==> whole.verdict.Ok?)
            && (whole.verdict.Err? ==> again.verdict == whole.verdict)
  {
    hide StoreAll;
    hide Sound;
    hide Tidy;
    hide Alike;
    if StoreAll(b, batch, None, now).verdict.Ok? {
      assert batch[..|batch|] == batch;
      ResumesAfter(base, b, batch, now, |batch|, StoreAll(b, batch, None, now).books, later);
    } else {
      var k := RefusedKeepsPrefix(b, batch, None, now);
      ResumesAfter(base, b, batch, now, k, StoreAll(b, batch, None, now).books, later);
    }
  }

  lemma AlikeBack(root: Digest, x: Books, y: Books)
    requires Alike(x, y) && SoundFrom(root, y) && PathCached(y, root)
    ensures SoundFrom(root, x) && PathCached(x, root)
  {
    hide SoundFrom;
    AlikeSound(root, y, x);
  }

  /** A restart after an insert was cut off at any of its writes: the chain
      opens at its root, and offering the run once more leaves the books, but
      for arrival times, and so the head and the state there, as the insert
      would have. */
  method Recover(storage: MemStorage, root: Digest, batch: seq<Envelope>, later: int, ghost head: Digest,
                 ghost b: Books, ghost now: int)
      returns (chain: Chain)
    requires storage.Valid() && ChainSound(root, head, b) && Tidy(root, b)
    requires LeftBehind(b, root, batch, now, BooksOf(storage)) && DigestsPin(b.entries.Keys + Offered(batch))
    modifies storage
    ensures chain.Valid(storage) && chain.root == root
    ensures Alike(BooksOf(storage), StoreAll(b, batch, None, now).books)
    ensures IsHead(Weigh(StoreAll(b, batch, None, now).books.entries), root, chain.head)
  {
    hide ChainSound;
    hide StoreAll;
    hide Tidy;
    hide LeftBehind;
    hide Rooted;
    hide SoundFrom;
    hide PathCached;
    hide CachesPath;
    hide Alike;
    hide Offered;
    hide DigestsPin;
    hide IsHead;
    hide InsertTrail;
    hide Grows;
    hide Named;
    hide MemStorage.Valid;
    ghost var w := BooksOf(storage);
    LeftToResume(root, head, b, batch, now, w, later);
    PinFewer(w.entries.Keys, b.entries.Keys + Offered(batch));
    PinFewer(w.entries.Keys + Offered(batch), b.entries.Keys + Offered(batch));
    var reopened := OpenChain(storage, root);
    chain := reopened.value;
    NothingRederived(w, BooksOf(storage), root);
    var r := chain.InsertBatch(storage, batch, later);
    NothingRederived(StoreAll(w, batch, None, later).books, BooksOf(storage), root);
    ChainFacts(root, chain.head, BooksOf(storage));
    SoundAfter(root, chain.head, BooksOf(storage));
    AlikeSound(root, BooksOf(storage), StoreAll(b, batch, None, now).books);
  }

  lemma SoundAfter(root: Digest, head: Digest, b: Books)
    requires ChainSound(root, head, b)
    ensures SoundFrom(root, b)
  {
    hide SoundFrom;
  }
}
