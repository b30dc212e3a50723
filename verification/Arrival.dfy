/** Arrival order and batching do not matter: what a node that has pruned
    nothing ends up holding is decided by the set of envelopes it was offered
    (crates/state/src/chain.rs, `insert_batch`). */
module Arrival {
  import opened Wire
  import opened Ledger
  import opened Lineage
  import opened ForkChoice
  import opened Storage
  import opened Ingest

  /** Books of a node that has pruned nothing: sound, everything stored
      stands on the root, and a version for each and nothing else. */
  ghost predicate Settled(base: Base, b: Books) {
    && Sound(base, b)
    && b.versions.Keys == b.entries.Keys
    && forall d :: d in b.entries ==> IsAncestor(base.root, d)
  }

  /** `d` can be built from the root out of `offered` alone: it and all it
      builds on were offered, and each applies in turn. */
  ghost predicate Admissible(base: Base, offered: set<Digest>, d: Digest)
    decreases d
  {
    d == base.root ||
    (d in offered && d.Prev().Some? && Admissible(base, offered, d.Prev().value) && Replay(base, d).Some?)
  }

  /** Everything that can be built out of `offered`. */
  ghost function AllAdmissible(base: Base, offered: set<Digest>): set<Digest> {
    set d | d in offered + {base.root} && Admissible(base, offered, d)
  }

  /** An envelope offered for the first time after anything that builds on it
      would come too late. */
  ghost predicate InTime(offered: set<Digest>, d: Digest) {
    d in offered || forall x :: x in offered ==> x.Prev() != Some(d)
  }

  lemma {:induction false} AdmissibleEarlier(base: Base, offered: set<Digest>, d: Digest, x: Digest)
    requires InTime(offered, d) && x != d && Admissible(base, offered + {d}, x)
    ensures Admissible(base, offered, x)
    decreases x
  {
    hide Replay;
    if d in offered {
      assert offered + {d} == offered;
    } else if x != base.root {
      AdmissibleEarlier(base, offered, d, x.Prev().value);
    }
  }

  lemma {:induction false} AdmissibleLater(base: Base, offered: set<Digest>, more: set<Digest>, x: Digest)
    requires offered <= more && Admissible(base, offered, x)
    ensures Admissible(base, more, x)
    decreases x
  {
    hide Replay;
    if x == base.root {
    } else {
      AdmissibleLater(base, offered, more, x.Prev().value);
    }
  }

  /** One more envelope, in time, adds at most itself. */
  lemma OneMore(base: Base, offered: set<Digest>, d: Digest)
    requires InTime(offered, d) && d.Prev().Some? && (d == base.root || !IsAncestor(d, base.root))
    ensures AllAdmissible(base, offered + {d}) ==
            AllAdmissible(base, offered) +
            if d.Prev().value in AllAdmissible(base, offered) && Replay(base, d).Some? then {d} else {}
  {
    hide Replay;
    hide InTime;
    var p := d.Prev().value;
    assert p != d by { AncestorHeight(p, p); }
    forall x | x in AllAdmissible(base, offered + {d}) && x != d ensures x in AllAdmissible(base, offered) {
      AdmissibleEarlier(base, offered, d, x);
    }
    forall x | x in AllAdmissible(base, offered) ensures x in AllAdmissible(base, offered + {d}) {
      AdmissibleLater(base, offered, offered + {d}, x);
    }
    if Admissible(base, offered + {d}, p) {
      AdmissibleEarlier(base, offered, d, p);
      assert p in offered + {base.root};
    }
    if p in AllAdmissible(base, offered) { AdmissibleLater(base, offered, offered + {d}, p); }
    assert IsAncestor(base.root, base.root);
    if d != base.root {
      assert Admissible(base, offered + {d}, d) <==> p in AllAdmissible(base, offered) && Replay(base, d).Some?;
    }
  }

  /** On settled books, storing accepts exactly an envelope already held or
      one whose parent is held and that applies there. */
  lemma StoreOneSettled(base: Base, b: Books, e: Envelope, now: int)
    requires Settled(base, b) && e.digest.Prev().Some?
    ensures Settled(base, StoreOne(b, e, now).books)
    ensures StoreOne(b, e, now).books.entries.Keys ==
            b.entries.Keys +
            if e.digest.Prev().value in b.entries && Replay(base, e.digest).Some? then {e.digest} else {}
    ensures StoreOne(b, e, now).verdict.Ok? <==> e.digest in StoreOne(b, e, now).books.entries
  {
    var d, p := e.digest, e.digest.Prev().value;
    if d in b.entries {
      StoreHeld(b, e, now);
    } else if p in b.entries {
      CachedParent(base, b, d);
      StoreNew(base, b, e, now);
      StoreOneSound(base, b, e, now);
    }
  }

  lemma StoreHeld(b: Books, e: Envelope, now: int)
    requires e.digest.Prev().Some? && e.digest in b.entries && e.digest in b.versions
    ensures StoreOne(b, e, now) == Stored(b, Ok(true))
  {
  }

  lemma StoreNew(base: Base, b: Books, e: Envelope, now: int)
    requires e.digest.Prev().Some? && e.digest !in b.entries && e.digest !in b.versions
    requires e.digest.Prev().value in b.versions && RulesHold(b.versions[e.digest.Prev().value])
    requires Replay(base, e.digest) == Transition(b.versions[e.digest.Prev().value], e.digest.Prev().value, e.digest)
    ensures var after := StoreOne(b, e, now);
            && (after.verdict.Ok? <==> Replay(base, e.digest).Some?)
            && (after.verdict.Err? ==> after.books == b)
            && (after.verdict.Ok? ==> after.books.entries.Keys == b.entries.Keys + {e.digest}
                                      && after.books.versions.Keys == b.versions.Keys + {e.digest})
  {
    VerifiedApplies(b.versions[e.digest.Prev().value], e.digest.Prev().value, e.digest);
    hide Transition;
    hide Verify;
    hide Apply;
    hide RulesHold;
    hide Replay;
  }

  /** Each envelope of a batch builds on the one before it, none is older than
      the root, and none comes too late. */
  ghost predicate Linear(base: Base, offered: set<Digest>, batch: seq<Envelope>, last: Option<Digest>)
    decreases |batch|
  {
    batch == [] ||
    var d := batch[0].digest;
    && (d == base.root || !IsAncestor(d, base.root)) && InTime(offered, d)
    && d.Prev().Some? && (last.None? || d.Prev() == last)
    && Linear(base, offered + {d}, batch[1..], Some(d))
  }

  lemma OfferedSplit(batch: seq<Envelope>)
    requires batch != []
    ensures Offered(batch) == {batch[0].digest} + Offered(batch[1..])
  {
    forall x | x in Offered(batch) ensures x in {batch[0].digest} + Offered(batch[1..]) {
      var i :| 0 <= i < |batch| && batch[i].digest == x;
      if i > 0 { assert batch[1..][i - 1].digest == x; }
    }
    forall x | x in Offered(batch[1..]) ensures x in Offered(batch) {
      var i :| 0 <= i < |batch[1..]| && batch[1..][i].digest == x;
      assert batch[i + 1].digest == x;
    }
  }

  /** What follows a refused envelope could not have been built anyway. */
  lemma {:induction false} RestIgnored(base: Base, offered: set<Digest>, rest: seq<Envelope>, d: Digest)
    requires Linear(base, offered, rest, Some(d)) && d !in AllAdmissible(base, offered) && !IsAncestor(d, base.root)
    ensures AllAdmissible(base, offered + Offered(rest)) == AllAdmissible(base, offered)
    decreases |rest|
  {
    hide Replay;
    hide InTime;
    if rest == [] {
      assert offered + Offered(rest) == offered;
    } else {
      var r := rest[0].digest;
      OneMore(base, offered, r);
      assert r !in AllAdmissible(base, offered) by {
        assert IsAncestor(base.root, base.root);
        if Admissible(base, offered, r) { AdmissibleIn(base, offered, d); }
      }
      RestIgnored(base, offered + {r}, rest[1..], r);
      OfferedSplit(rest);
      assert offered + Offered(rest) == offered + {r} + Offered(rest[1..]);
    }
  }

  lemma AdmissibleIn(base: Base, offered: set<Digest>, d: Digest)
    requires Admissible(base, offered, d)
    ensures d in AllAdmissible(base, offered)
  {
  }

  /** Storing a batch: the books end up holding all that can be built out of
      what was ever offered, whether or not the batch was refused part-way;
      and the batch is accepted exactly when all of it can be built. */
  lemma {:induction false} BatchStores(base: Base, b: Books, offered: set<Digest>, batch: seq<Envelope>,
                                       last: Option<Digest>, now: int)
    requires Settled(base, b) && b.entries.Keys == AllAdmissible(base, offered)
    requires Linear(base, offered, batch, last)
    ensures var after := StoreAll(b, batch, last, now);
            && Settled(base, after.books)
            && after.books.entries.Keys == AllAdmissible(base, offered + Offered(batch))
            && (after.verdict.Ok? <==> Offered(batch) <= after.books.entries.Keys)
    decreases |batch|
  {
    hide Replay;
    hide StoreOne;
    hide Settled;
    hide InTime;
    if batch == [] {
      assert offered + Offered(batch) == offered;
    } else {
      var d := batch[0].digest;
      var one := StoreOne(b, batch[0], now);
      StoreOneSettled(base, b, batch[0], now);
      OneMore(base, offered, d);
      OfferedSplit(batch);
      assert offered + Offered(batch) == offered + {d} + Offered(batch[1..]);
      if one.verdict.Ok? {
        BatchStores(base, one.books, offered + {d}, batch[1..], Some(d), now);
        assert d in StoreAll(one.books, batch[1..], Some(d), now).books.entries by {
          BatchKeeps(base, one.books, batch[1..], Some(d), now);
        }
      } else {
        RestIgnored(base, offered + {d}, batch[1..], d);
      }
    }
  }

  /** Whatever is offered, in whatever order, settled books stay settled. */
  lemma {:induction false} StoreAllSettled(base: Base, b: Books, batch: seq<Envelope>, last: Option<Digest>, now: int)
    requires Settled(base, b)
    ensures Settled(base, StoreAll(b, batch, last, now).books)
    decreases |batch|
  {
    hide Settled;
    hide StoreOne;
    if batch == [] || batch[0].digest.Prev().None? || (last.Some? && last != batch[0].digest.Prev()) {
    } else {
      StoreOneSettled(base, b, batch[0], now);
      var one := StoreOne(b, batch[0], now);
      if one.verdict.Ok? { StoreAllSettled(base, one.books, batch[1..], Some(batch[0].digest), now); }
    }
  }

  /** A chain's first books are settled. */
  lemma FirstSettled(base: Base, entry: LogEntry)
    requires RulesHold(base.state)
    ensures Settled(base, Books(map[base.root := base.state], map[base.root := entry]))
  {
    hide RulesHold;
    hide StatusOn;
    if base.root.Prev().Some? && IsAncestor(base.root, base.root.Prev().value) {
      AncestorHeight(base.root, base.root.Prev().value);
    }
  }

  lemma BatchKeeps(base: Base, b: Books, batch: seq<Envelope>, last: Option<Digest>, now: int)
    requires Settled(base, b)
    ensures b.entries.Keys <= StoreAll(b, batch, last, now).books.entries.Keys
  {
    StoreAllSound(base, b, batch, last, now);
  }

  // ---------------------------------------------------------------------
  // Whole histories

  datatype Delivery = Delivery(batch: seq<Envelope>, now: int)

  ghost function IngestAll(b: Books, history: seq<Delivery>): Books
    decreases |history|
  {
    if history == [] then b
    else IngestAll(StoreAll(b, history[0].batch, None, history[0].now).books, history[1..])
  }

  /** A batch the very first envelope of which is refused on its looks: one
      without a parent, or one the root builds on. */
  predicate Barred(base: Base, batch: seq<Envelope>) {
    batch != [] &&
    (batch[0].digest.Prev().None? || (batch[0].digest != base.root && IsAncestor(batch[0].digest, base.root)))
  }

  /** What a batch contributes: all it offers, unless it is barred. */
  ghost function Contribution(base: Base, batch: seq<Envelope>): set<Digest> {
    if Barred(base, batch) then {} else Offered(batch)
  }

  ghost function Contributed(base: Base, history: seq<Delivery>): set<Digest>
    decreases |history|
  {
    if history == [] then {} else Contribution(base, history[0].batch) + Contributed(base, history[1..])
  }

  /** Each envelope of a batch builds on the one before it, and none comes
      after something contributed that builds on it. */
  ghost predicate Timely(offered: set<Digest>, batch: seq<Envelope>, last: Option<Digest>)
    decreases |batch|
  {
    batch == [] ||
    var d := batch[0].digest;
    InTime(offered, d) && (last.None? || d.Prev() == last) && Timely(offered + {d}, batch[1..], Some(d))
  }

  /** A parent-first history of linear batches; a barred batch may be anything
      and makes nothing that comes later late. */
  ghost predicate ParentFirst(base: Base, offered: set<Digest>, history: seq<Delivery>)
    decreases |history|
  {
    history == [] ||
    (&& (!Barred(base, history[0].batch) ==> Timely(offered, history[0].batch, None))
     && ParentFirst(base, offered + Contribution(base, history[0].batch), history[1..]))
  }

  /** Past its first envelope a linked batch cannot fall below the root. */
  lemma {:induction false} TimelyIsLinear(base: Base, offered: set<Digest>, batch: seq<Envelope>, last: Option<Digest>)
    requires Timely(offered, batch, last)
    requires last.None? ==> !Barred(base, batch)
    requires last.Some? ==> last.value == base.root || !IsAncestor(last.value, base.root)
    ensures Linear(base, offered, batch, last)
    decreases |batch|
  {
    hide InTime;
    if batch == [] {
    } else {
      var d := batch[0].digest;
      if last.Some? && IsAncestor(d, base.root) {
        AncestorTransitive(last.value, d, base.root);
        if last.value == base.root { AncestorAntisymmetric(d, base.root); }
      }
      TimelyIsLinear(base, offered + {d}, batch[1..], Some(d));
    }
  }

  /** A barred batch is refused whole. */
  lemma BarredRefused(base: Base, b: Books, batch: seq<Envelope>, now: int)
    requires Settled(base, b) && Barred(base, batch)
    ensures StoreAll(b, batch, None, now).books == b && StoreAll(b, batch, None, now).verdict.Err?
  {
    hide Replay;
    hide StatusOn;
    hide RulesHold;
    hide Verify;
    hide Apply;
    var d := batch[0].digest;
    if d.Prev().Some? {
      AncestorHeight(d, base.root);
      assert d !in b.entries && d !in b.versions && d.Prev().value !in b.versions by {
        if IsAncestor(base.root, d) { AncestorHeight(base.root, d); }
        assert !IsAncestor(base.root, d.Prev().value);
      }
    }
  }

  /** What a parent-first history leaves: exactly all that can be built out of
      what its batches contributed. */
  lemma {:induction false} HistoryStores(base: Base, b: Books, offered: set<Digest>, history: seq<Delivery>)
    requires Settled(base, b) && b.entries.Keys == AllAdmissible(base, offered)
    requires ParentFirst(base, offered, history)
    ensures Settled(base, IngestAll(b, history))
    ensures IngestAll(b, history).entries.Keys == AllAdmissible(base, offered + Contributed(base, history))
    decreases |history|
  {
    hide Settled;
    hide StoreAll;
    hide AllAdmissible;
    hide Linear;
    hide Timely;
    hide Barred;
    if history == [] {
      assert offered + Contributed(base, history) == offered;
    } else {
      var first := history[0];
      var more := offered + Contribution(base, first.batch);
      if Barred(base, first.batch) {
        BarredRefused(base, b, first.batch, first.now);
        assert more == offered;
      } else {
        TimelyIsLinear(base, offered, first.batch, None);
        BatchStores(base, b, offered, first.batch, None, first.now);
      }
      HistoryStores(base, StoreAll(b, first.batch, None, first.now).books, more, history[1..]);
      assert offered + Contributed(base, history) == more + Contributed(base, history[1..]);
    }
  }

  /** A settled node's log is what can be built out of it. */
  lemma SettledIsAdmissible(base: Base, b: Books)
    requires Settled(base, b)
    ensures b.entries.Keys == AllAdmissible(base, b.entries.Keys)
  {
    hide Replay;
    hide StatusOn;
    hide RulesHold;
    forall d | d in b.entries ensures Admissible(base, b.entries.Keys, d) {
      HeldIsAdmissible(base, b, d);
    }
  }

  lemma {:induction false} HeldIsAdmissible(base: Base, b: Books, d: Digest)
    requires Settled(base, b) && d in b.entries
    ensures Admissible(base, b.entries.Keys, d)
    decreases d
  {
    hide Replay;
    hide StatusOn;
    hide RulesHold;
    AncestorHeight(base.root, d);
    if d == base.root {
    } else {
      HeldIsAdmissible(base, b, d.Prev().value);
    }
  }

  /** What a parent-first history can build on a node. */
  ghost function Built(base: Base, b: Books, history: seq<Delivery>): set<Digest> {
    AllAdmissible(base, b.entries.Keys + Contributed(base, history))
  }

  /** Two parent-first histories offered to the same settled books, in
      whatever order and batches, leave the same versions and the same log at
      the same weights exactly when the same can be built out of what their
      batches contributed; and then the canonical head is the same. */
  lemma OrderDoesNotMatter(base: Base, b: Books, one: seq<Delivery>, other: seq<Delivery>)
    requires Settled(base, b)
    requires ParentFirst(base, b.entries.Keys, one) && ParentFirst(base, b.entries.Keys, other)
    ensures var x, y := IngestAll(b, one), IngestAll(b, other);
            && (x.versions == y.versions && Weigh(x.entries) == Weigh(y.entries)
                <==> Built(base, b, one) == Built(base, b, other))
            && (Built(base, b, one) == Built(base, b, other) ==>
                  forall h :: IsHead(Weigh(x.entries), base.root, h) <==> IsHead(Weigh(y.entries), base.root, h))
  {
    hide IsHead;
    hide Settled;
    hide ParentFirst;
    hide AllAdmissible;
    hide IngestAll;
    hide Grows;
    SettledIsAdmissible(base, b);
    HistoryStores(base, b, b.entries.Keys, one);
    HistoryStores(base, b, b.entries.Keys, other);
    SettledSound(base, b);
    HistoryGrows(base, b, one);
    HistoryGrows(base, b, other);
    KeysDecide(base, b, IngestAll(b, one), IngestAll(b, other));
  }

  lemma SettledSound(base: Base, b: Books)
    requires Settled(base, b)
    ensures Sound(base, b)
  {
  }

  /** Settled books grown from the same ones agree exactly when they hold the
      same envelopes. */
  lemma KeysDecide(base: Base, b: Books, x: Books, y: Books)
    requires Settled(base, b) && Settled(base, x) && Settled(base, y) && Grows(b, x) && Grows(b, y)
    ensures x.versions == y.versions && Weigh(x.entries) == Weigh(y.entries) <==> x.entries.Keys == y.entries.Keys
  {
    WeighKeys(x.entries);
    WeighKeys(y.entries);
    SettledHoldsRoot(base, b);
    hide Sound;
    hide Weigh;
    if x.entries.Keys == y.entries.Keys { SameBooks(base, x, y); }
  }

  lemma WeighKeys(entries: Entries)
    ensures Weigh(entries).Keys == entries.Keys
  {
  }

  lemma SettledHoldsRoot(base: Base, b: Books)
    requires Settled(base, b)
    ensures base.root in b.entries
  {
  }

  /** In particular when no batch is barred and the same envelopes are
      offered. */
  lemma SameOffersSameBooks(base: Base, b: Books, one: seq<Delivery>, other: seq<Delivery>)
    requires Settled(base, b)
    requires ParentFirst(base, b.entries.Keys, one) && ParentFirst(base, b.entries.Keys, other)
    requires forall i :: 0 <= i < |one| ==> !Barred(base, one[i].batch)
    requires forall i :: 0 <= i < |other| ==> !Barred(base, other[i].batch)
    requires OfferedBy(one) == OfferedBy(other)
    ensures IngestAll(b, one).versions == IngestAll(b, other).versions
    ensures Weigh(IngestAll(b, one).entries) == Weigh(IngestAll(b, other).entries)
  {
    hide Settled;
    hide Barred;
    hide ParentFirst;
    hide AllAdmissible;
    NoneBarred(base, one);
    NoneBarred(base, other);
    OrderDoesNotMatter(base, b, one, other);
  }

  ghost function OfferedBy(history: seq<Delivery>): set<Digest>
    decreases |history|
  {
    if history == [] then {} else Offered(history[0].batch) + OfferedBy(history[1..])
  }

  lemma {:induction false} NoneBarred(base: Base, history: seq<Delivery>)
    requires forall i :: 0 <= i < |history| ==> !Barred(base, history[i].batch)
    ensures Contributed(base, history) == OfferedBy(history)
    decreases |history|
  {
    hide Barred;
    if history == [] {
    } else {
      assert forall i :: 0 <= i < |history[1..]| ==> history[1..][i] == history[i + 1];
      NoneBarred(base, history[1..]);
    }
  }

  /** With a barred batch, batching does matter: an envelope that would be
      stored on its own is lost with the `Init` in front of it. */
  lemma LostBehindInit(base: Base, b: Books, genesis: Envelope, first: Envelope, now: int)
    requires Settled(base, b) && genesis.digest == base.root && base.root.Prev().None?
    requires first.digest.Prev() == Some(base.root) && first.digest !in b.entries && Replay(base, first.digest).Some?
    ensures var together := [Delivery([genesis, first], now)];
            var apart := [Delivery([genesis], now), Delivery([first], now)];
            && OfferedBy(together) == OfferedBy(apart)
            && ParentFirst(base, b.entries.Keys, together) && ParentFirst(base, b.entries.Keys, apart)
            && IngestAll(b, together).entries.Keys == b.entries.Keys
            && IngestAll(b, apart).entries.Keys == b.entries.Keys + {first.digest}
  {
    var together, apart := [Delivery([genesis, first], now)], [Delivery([genesis], now), Delivery([first], now)];
    BarredRefused(base, b, [genesis, first], now);
    BarredRefused(base, b, [genesis], now);
    StoreOneSettled(base, b, first, now);
    NothingHeldAbove(base, b, first.digest);
    hide Settled;
    hide Replay;
    hide StoreOne;
    hide IngestAll;
    hide OfferedBy;
    hide StoreAll;
    hide ParentFirst;
    OneDelivery(base, b, b.entries.Keys, [genesis, first], now);
    TwoDeliveries(base, b, b.entries.Keys, [genesis], [first], now);
    StoreSingle(b, first, now);
    TwoOffered(genesis, first);
    SingleTimely(b.entries.Keys, first);
  }

  lemma OneDelivery(base: Base, b: Books, offered: set<Digest>, batch: seq<Envelope>, now: int)
    ensures IngestAll(b, [Delivery(batch, now)]) == StoreAll(b, batch, None, now).books
    ensures OfferedBy([Delivery(batch, now)]) == Offered(batch)
    ensures Barred(base, batch) ==> ParentFirst(base, offered, [Delivery(batch, now)])
    ensures Timely(offered, batch, None) ==> ParentFirst(base, offered, [Delivery(batch, now)])
  {
    hide StoreAll;
    hide Barred;
    hide Timely;
    assert [Delivery(batch, now)][1..] == [];
  }

  lemma TwoDeliveries(base: Base, b: Books, offered: set<Digest>, x: seq<Envelope>, y: seq<Envelope>, now: int)
    ensures IngestAll(b, [Delivery(x, now), Delivery(y, now)]) ==
            StoreAll(StoreAll(b, x, None, now).books, y, None, now).books
    ensures OfferedBy([Delivery(x, now), Delivery(y, now)]) == Offered(x) + Offered(y)
    ensures Barred(base, x) && Timely(offered, y, None) ==>
              ParentFirst(base, offered, [Delivery(x, now), Delivery(y, now)])
  {
    hide StoreAll;
    hide Barred;
    hide Timely;
    var both := [Delivery(x, now), Delivery(y, now)];
    assert both[1..] == [Delivery(y, now)] && offered + {} == offered;
    OneDelivery(base, StoreAll(b, x, None, now).books, offered, y, now);
  }

  lemma StoreSingle(b: Books, e: Envelope, now: int)
    requires e.digest.Prev().Some?
    ensures StoreAll(b, [e], None, now).books == StoreOne(b, e, now).books
  {
    hide StoreOne;
    assert [e][1..] == [];
  }

  lemma TwoOffered(e: Envelope, f: Envelope)
    ensures Offered([e, f]) == Offered([e]) + Offered([f]) == {e.digest, f.digest}
  {
    assert [e, f][1..] == [f];
    OfferedSplit([e, f]);
    OfferedSplit([e]);
    OfferedSplit([f]);
  }

  lemma SingleTimely(offered: set<Digest>, e: Envelope)
    requires InTime(offered, e.digest)
    ensures Timely(offered, [e], None)
  {
    hide InTime;
    assert [e][1..] == [];
  }

  /** What a settled log does not hold, nothing it holds builds on. */
  lemma NothingHeldAbove(base: Base, b: Books, d: Digest)
    requires Settled(base, b) && d !in b.entries && IsProperAncestor(base.root, d)
    ensures InTime(b.entries.Keys, d) && base.root in b.entries
  {
    hide Replay;
    hide StatusOn;
    hide RulesHold;
    forall x | x in b.entries ensures x.Prev() != Some(d) {
      if x.Prev() == Some(d) { AncestorTransitive(base.root, d.Prev().value, d); }
    }
  }

  /** One such case: an empty `Init` and a plain write on it. */
  lemma BatchingMatters() returns (base: Base, b: Books, together: seq<Delivery>, apart: seq<Delivery>)
    ensures Settled(base, b) && OfferedBy(together) == OfferedBy(apart)
    ensures ParentFirst(base, b.entries.Keys, together) && ParentFirst(base, b.entries.Keys, apart)
    ensures IngestAll(b, together) != IngestAll(b, apart)
  {
    var root := Digest(0, Init(map[]), map[], 0);
    var write := Digest(1, SetNamespace(root, "a", Bool(true)), map[], 0);
    var genesis, first := Envelope(root, AllMatched(0)), Envelope(write, Unchecked);
    base := Base(root, map[]);
    b := Books(map[root := map[]], map[root := LogEntry(genesis, 0)]);
    together, apart := [Delivery([genesis, first], 0)], [Delivery([genesis], 0), Delivery([first], 0)];
    FirstSettled(base, LogEntry(genesis, 0));
    PlainWriteReplays(base, write, "a", Bool(true));
    hide Replay;
    hide Settled;
    hide ParentFirst;
    hide IngestAll;
    hide OfferedBy;
    assert write !in b.entries;
    LostBehindInit(base, b, genesis, first, 0);
    assert write in IngestAll(b, apart).entries.Keys && write !in IngestAll(b, together).entries.Keys;
  }

  /** An unsigned write of a namespace without a rule applies to an empty
      ledger. */
  lemma PlainWriteReplays(base: Base, d: Digest, key: Name, value: Value)
    requires base.state == map[] && d.payload == SetNamespace(base.root, key, value) && d.signatures == map[]
    requires !HasRule(key)
    ensures Replay(base, d).Some?
  {
    TransitionExactly(map[], base.root, d);
    assert d.signatures.Keys == {};
    assert Fitting(map[], d.payload);
    hide Transition;
    ReplayAtRoot(base);
    ReplayNext(base, d);
  }

  lemma {:induction false} HistoryGrows(base: Base, b: Books, history: seq<Delivery>)
    requires Sound(base, b)
    ensures Grows(b, IngestAll(b, history))
    decreases |history|
  {
    hide Sound;
    hide StoreAll;
    if history == [] {
    } else {
      StoreAllSound(base, b, history[0].batch, None, history[0].now);
      HistoryGrows(base, StoreAll(b, history[0].batch, None, history[0].now).books, history[1..]);
    }
  }

  /** Settled books over one base with the same log keys agree. */
  lemma SameBooks(base: Base, x: Books, y: Books)
    requires Settled(base, x) && Settled(base, y) && x.entries.Keys == y.entries.Keys
    requires x.entries[base.root].envelope == y.entries[base.root].envelope
    ensures x.versions == y.versions && Weigh(x.entries) == Weigh(y.entries)
  {
    hide Replay;
    hide StatusOn;
    hide RulesHold;
    forall d | d in x.entries
      ensures x.versions[d] == y.versions[d] && x.entries[d].envelope.status == y.entries[d].envelope.status
    {
      AncestorHeight(base.root, d);
    }
  }

  // ---------------------------------------------------------------------
  // Runs that build on what is held

  /** A run, each built on the one before, the first on something held or
      itself held, all of which replays. */
  ghost predicate Buildable(base: Base, held: set<Digest>, batch: seq<Envelope>, last: Option<Digest>)
    decreases |batch|
  {
    batch == [] ||
    var d := batch[0].digest;
    && d.Prev().Some? && (last.None? || d.Prev() == last)
    && (d in held || (d.Prev().value in held && Replay(base, d).Some?))
    && Buildable(base, held + {d}, batch[1..], Some(d))
  }

  /** A buildable run is stored whole. */
  lemma {:induction false} TakesIn(base: Base, b: Books, batch: seq<Envelope>, last: Option<Digest>, now: int)
    requires Settled(base, b) && Buildable(base, b.entries.Keys, batch, last)
    ensures var after := StoreAll(b, batch, last, now);
            && after.verdict.Ok? && Settled(base, after.books)
            && after.books.entries.Keys == b.entries.Keys + Offered(batch)
    decreases |batch|
  {
    hide Replay;
    hide StoreOne;
    hide Settled;
    if batch == [] {
      assert b.entries.Keys + Offered(batch) == b.entries.Keys;
    } else {
      var d := batch[0].digest;
      var one := StoreOne(b, batch[0], now);
      StoreOneSettled(base, b, batch[0], now);
      assert one.books.entries.Keys == b.entries.Keys + {d} by { StoreOneHolds(base, b, batch[0], now); }
      TakesIn(base, one.books, batch[1..], Some(d), now);
      OfferedSplit(batch);
      assert b.entries.Keys + Offered(batch) == b.entries.Keys + {d} + Offered(batch[1..]);
    }
  }

  lemma StoreOneHolds(base: Base, b: Books, e: Envelope, now: int)
    requires Settled(base, b) && e.digest.Prev().Some?
    ensures b.entries.Keys <= StoreOne(b, e, now).books.entries.Keys
  {
    hide StoreOne;
    StoreOneSettled(base, b, e, now);
  }

  /** A run past something held, all of which replays, is buildable. */
  lemma {:induction false} RunBuilds(base: Base, held: set<Digest>, after: Digest, run: seq<Digest>,
                                     batch: seq<Envelope>,
                                     last: Option<Digest>)
    requires |batch| <= |run| && Linked(after, run) && (last.None? || last == Some(after))
    requires base.root in held && (after in held || base.root.Prev() == Some(after))
    requires forall i :: 0 <= i < |batch| ==> batch[i].digest == run[i] && Replay(base, run[i]).Some?
    ensures Buildable(base, held, batch, last)
    decreases |batch|
  {
    hide Replay;
    if batch == [] {
    } else {
      var d := run[0];
      assert Follows(after, run, 0);
      assert batch[0].digest == d && Replay(base, d).Some?;
      ReplayDescends(base, d);
      if d != base.root {
        AncestorHeight(base.root, d);
        if base.root.Prev() == Some(after) { AncestorHeight(base.root, after); }
      }
      LinkedTail(after, run);
      RunBuilds(base, held + {d}, d, run[1..], batch[1..], Some(d));
    }
  }
}
