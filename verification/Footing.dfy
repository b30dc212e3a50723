/** Exactly when a run is stored on books that have forgotten versions, as a
    compaction makes them (crates/state/src/chain.rs, `store_batch`). */
module Footing {
  import opened Wire
  import opened Ledger
  import opened Lineage
  import opened Storage
  import opened Ingest

  // ---------------------------------------------------------------------
  // Runs and their parts

  function LastOf(last: Option<Digest>, run: seq<Envelope>): Option<Digest> {
    if run == [] then last else Some(run[|run| - 1].digest)
  }

  /** Storing a run is storing its first part and then, unless that was
      refused, the rest. */
  lemma {:induction false} StoreAllJoin(b: Books, x: seq<Envelope>, y: seq<Envelope>, last: Option<Digest>, now: int)
    ensures var first, all := StoreAll(b, x, last, now), StoreAll(b, x + y, last, now);
            if first.verdict.Err? then all == first
            else
              var rest := StoreAll(first.books, y, LastOf(last, x), now);
              && all.books == rest.books
              && (rest.verdict.Err? ==> all.verdict == rest.verdict)
              && (rest.verdict.Ok? ==> all.verdict == Ok(first.verdict.value && rest.verdict.value))
    decreases |x|
  {
    hide StoreOne;
    if x == [] {
      assert x + y == y;
    } else {
      assert (x + y)[1..] == x[1..] + y && (x + y)[0] == x[0];
      var d := x[0].digest;
      if d.Prev().Some? && (last.None? || last == d.Prev()) && StoreOne(b, x[0], now).verdict.Ok? {
        StoreAllJoin(StoreOne(b, x[0], now).books, x[1..], y, Some(d), now);
        assert LastOf(last, x) == LastOf(Some(d), x[1..]);
      }
    }
  }

  /** Why a run is refused: at its first envelope that is an `Init`, or does
      not build on the one before it, or is refused by itself. */
  lemma RunRefused(b: Books, batch: seq<Envelope>, last: Option<Digest>, now: int) returns (k: nat)
    requires StoreAll(b, batch, last, now).verdict.Err?
    ensures k < |batch| && StoreAll(b, batch[..k], last, now).verdict.Ok?
    ensures var error := StoreAll(b, batch, last, now).verdict.error;
            var before, d := if k == 0 then last else Some(batch[k - 1].digest), batch[k].digest;
            if d.Prev().None? then error == Rejected(UnexpectedInit)
            else if before.Some? && before != d.Prev() then
              error == Rejected(ChainMismatch(before.value, d.Prev().value))
            else StoreOne(StoreAll(b, batch[..k], last, now).books, batch[k], now).verdict == Err(error)
  {
    hide StoreOne;
    k := RefusedKeepsPrefix(b, batch, last, now);
    var part, e := batch[..k], batch[k];
    assert batch[..k + 1] == part + [e] && [e][1..] == [];
    StoreAllJoin(b, part, [e], last, now);
    assert LastOf(last, part) == if k == 0 then last else Some(batch[k - 1].digest);
  }

  /** What came before a run that builds on it makes no difference. */
  lemma LastAgrees(b: Books, run: seq<Envelope>, last: Digest, now: int)
    requires run == [] || run[0].digest.Prev() == Some(last)
    ensures StoreAll(b, run, Some(last), now) == StoreAll(b, run, None, now)
  {
    hide StoreOne;
  }

  lemma StoreOneAdds(b: Books, e: Envelope, now: int)
    requires e.digest.Prev().Some?
    ensures Adds(b, StoreOne(b, e, now).books, {e.digest})
  {
    hide Verify;
    hide Apply;
  }

  /** `c` is `b` with more: at most `ds`, all that is new in the log with its
      version. */
  ghost predicate Adds(b: Books, c: Books, ds: set<Digest>) {
    && Grows(b, c) && c.entries.Keys <= b.entries.Keys + ds && c.versions.Keys <= b.versions.Keys + ds
    && forall d :: d in c.entries && d !in b.entries ==> d in c.versions
  }

  lemma AddsBoth(b: Books, c: Books, d: Books, xs: set<Digest>, ys: set<Digest>)
    requires Adds(b, c, xs) && Adds(c, d, ys)
    ensures Adds(b, d, xs + ys)
  {
  }

  lemma AddsNone(b: Books, ds: set<Digest>)
    ensures Adds(b, b, ds)
  {
  }

  lemma AddsWithin(b: Books, c: Books, ds: set<Digest>, more: set<Digest>)
    requires Adds(b, c, ds) && ds <= more
    ensures Adds(b, c, more)
  {
  }

  /** Whatever books a run is stored on, nothing is forgotten, and what is new
      in the log has its version. */
  lemma {:induction false} StoreAllAdds(b: Books, batch: seq<Envelope>, last: Option<Digest>, now: int)
    ensures Adds(b, StoreAll(b, batch, last, now).books, Offered(batch))
    decreases |batch|
  {
    hide StoreOne;
    hide Adds;
    if batch == [] || batch[0].digest.Prev().None? || (last.Some? && last != batch[0].digest.Prev()) {
      AddsNone(b, Offered(batch));
    } else {
      StoreOneAdds(b, batch[0], now);
      var d, one := batch[0].digest, StoreOne(b, batch[0], now);
      assert d in Offered(batch);
      AddsWithin(b, one.books, {d}, Offered(batch));
      if one.verdict.Ok? {
        StoreAllAdds(one.books, batch[1..], Some(d), now);
        assert forall i :: 0 <= i < |batch[1..]| ==> batch[1..][i] == batch[i + 1];
        var all := StoreAll(one.books, batch[1..], Some(d), now).books;
        AddsBoth(b, one.books, all, {d}, Offered(batch[1..]));
        AddsWithin(b, all, {d} + Offered(batch[1..]), Offered(batch));
      }
    }
  }

  // ---------------------------------------------------------------------
  // Footing

  /** Each envelope of a run builds on the one before it and replays. */
  ghost predicate Chained(base: Base, batch: seq<Envelope>, last: Option<Digest>)
    decreases |batch|
  {
    batch == [] ||
    var d := batch[0].digest;
    && d.Prev().Some? && (last.None? || last == d.Prev()) && Replay(base, d).Some?
    && Chained(base, batch[1..], Some(d))
  }

  /** Whether a run can be stored, told from the books before it and the
      statuses its envelopes arrive with. An envelope with a version gives the
      next one footing. Without footing it must be stored already. With
      footing a new one keeps it, and a stored one without a version keeps it
      exactly when the status it arrives with meets its parent's thresholds. */
  ghost predicate Stands(base: Base, b: Books, batch: seq<Envelope>, footing: bool)
    decreases |batch|
  {
    batch == [] ||
    var e, d := batch[0], batch[0].digest;
    if d in b.versions then Stands(base, b, batch[1..], true)
    else if !footing then d in b.entries && Stands(base, b, batch[1..], false)
    else if d !in b.entries then Stands(base, b, batch[1..], true)
    else Stands(base, b, batch[1..], Suffices(base, e))
  }

  /** The status an envelope arrives with meets its parent's thresholds. */
  ghost predicate Suffices(base: Base, e: Envelope) {
    && e.digest.Prev().Some? && Replay(base, e.digest.Prev().value).Some?
    && CheckThresholds(Replay(base, e.digest.Prev().value).value, e).None?
  }

  ghost predicate HasFooting(b: Books, batch: seq<Envelope>) {
    batch != [] && batch[0].digest.Prev().Some? && batch[0].digest.Prev().value in b.versions
  }

  /** Books that differ in one envelope let the same runs above it stand. */
  lemma {:induction false} StandsAlike(base: Base, b: Books, c: Books, d: Digest, batch: seq<Envelope>, last: Digest,
                                       footing: bool)
    requires Chained(base, batch, Some(last)) && Height(d) <= Height(last)
    requires forall x :: x != d ==> (x in b.versions <==> x in c.versions) && (x in b.entries <==> x in c.entries)
    ensures Stands(base, b, batch, footing) <==> Stands(base, c, batch, footing)
    decreases |batch|
  {
    hide Replay;
    hide Suffices;
    if batch == [] {
    } else {
      var x := batch[0].digest;
      assert Height(x) == Height(last) + 1;
      StandsAlike(base, b, c, d, batch[1..], x, true);
      StandsAlike(base, b, c, d, batch[1..], x, false);
    }
  }

  /** What storing one replaying envelope does, by whether it stands. */
  lemma OneStands(base: Base, b: Books, e: Envelope, now: int)
    requires Sound(base, b) && e.digest.Prev().Some? && Replay(base, e.digest).Some?
    ensures var one, d, p := StoreOne(b, e, now), e.digest, e.digest.Prev().value;
            && (d in b.versions ==> one == Stored(b, Ok(true)))
            && (d !in b.versions && p !in b.versions ==>
                  one == Stored(b, if d in b.entries then Ok(true) else Err(UnknownParent(p))))
            && (d !in b.versions && p in b.versions ==>
                  && one.verdict.Ok? && d in one.books.entries
                  && (d in one.books.versions <==> d !in b.entries || Suffices(base, e)))
  {
    hide Transition;
    hide Verify;
    hide Replay;
    hide StatusOn;
    hide RulesHold;
    var d, p := e.digest, e.digest.Prev().value;
    CachedIsStored(base, b, d);
    ReplayDescends(base, d);
    if d !in b.versions && p in b.versions {
      AncestorHeight(base.root, d);
      CachedParent(base, b, d);
      CachedReplays(base, b, p);
      VerifiedApplies(b.versions[p], p, d);
      OnlyThresholds(b.versions[p], p, e);
      hide Apply;
    }
  }

  lemma CachedReplays(base: Base, b: Books, p: Digest)
    requires Sound(base, b) && p in b.versions && IsAncestor(base.root, p)
    ensures Replay(base, p) == Some(b.versions[p])
  {
  }

  /** Of an envelope that applies as verified, any other status is judged by
      the thresholds alone. */
  lemma OnlyThresholds(s: State, head: Digest, e: Envelope)
    requires Transition(s, head, e.digest).Some? && e.digest.Prev() == Some(head)
    ensures Apply(s, head, e).Ok? <==> CheckThresholds(s, e).None?
  {
    hide CheckThresholds;
    hide Verify;
    hide Admit;
    hide ValidateNested;
  }

  /** On sound books, however many versions they have forgotten, a run that
      replays is stored whole exactly when it stands. */
  lemma {:induction false} StoredWhenStanding(base: Base, b: Books, batch: seq<Envelope>, last: Option<Digest>,
                                              now: int)
    requires Sound(base, b) && Chained(base, batch, last)
    ensures StoreAll(b, batch, last, now).verdict.Ok? <==> Stands(base, b, batch, HasFooting(b, batch))
    decreases |batch|
  {
    hide Sound;
    hide StoreOne;
    hide Replay;
    hide Suffices;
    if batch == [] {
    } else {
      var e, d, rest := batch[0], batch[0].digest, batch[1..];
      var one := StoreOne(b, e, now);
      OneStands(base, b, e, now);
      StoreOneSound(base, b, e, now);
      StoreOneAdds(b, e, now);
      if one.verdict.Ok? {
        StoredWhenStanding(base, one.books, rest, Some(d), now);
        assert rest != [] ==> (HasFooting(one.books, rest) <==> d in one.books.versions);
        StandsAlike(base, b, one.books, d, rest, d, d in one.books.versions);
      }
    }
  }

  /** Stored whole, all of it is in the log. */
  lemma {:induction false} StoredIsHeld(base: Base, b: Books, batch: seq<Envelope>, last: Option<Digest>, now: int)
    requires Sound(base, b) && Chained(base, batch, last) && StoreAll(b, batch, last, now).verdict.Ok?
    ensures Offered(batch) <= StoreAll(b, batch, last, now).books.entries.Keys
    decreases |batch|
  {
    hide Sound;
    hide StoreOne;
    hide Replay;
    hide Suffices;
    if batch == [] {
    } else {
      var e, d, rest := batch[0], batch[0].digest, batch[1..];
      var one := StoreOne(b, e, now);
      OneStands(base, b, e, now);
      CachedIsStored(base, b, d);
      ReplayDescends(base, d);
      StoreOneSound(base, b, e, now);
      StoreAllAdds(one.books, rest, Some(d), now);
      StoredIsHeld(base, one.books, rest, Some(d), now);
      forall x | x in Offered(batch) ensures x in StoreAll(one.books, rest, Some(d), now).books.entries {
        var i :| 0 <= i < |batch| && batch[i].digest == x;
        if i > 0 { assert rest[i - 1].digest == x; }
      }
    }
  }

  lemma {:induction false} ChainedAt(base: Base, batch: seq<Envelope>, last: Option<Digest>, k: nat)
    requires Chained(base, batch, last) && k < |batch|
    ensures Chained(base, batch[..k], last)
    ensures batch[k].digest.Prev().Some? && Replay(base, batch[k].digest).Some?
    ensures LastOf(last, batch[..k]).None? || LastOf(last, batch[..k]) == batch[k].digest.Prev()
    decreases k
  {
    hide Replay;
    if k == 0 {
    } else {
      ChainedAt(base, batch[1..], Some(batch[0].digest), k - 1);
      assert batch[1..][..k - 1] == batch[..k][1..];
    }
  }

  /** Refused, a run that replays got stuck: what came before is stored, and
      the refused envelope is a new one on an envelope without a version. */
  lemma StuckAt(base: Base, b: Books, batch: seq<Envelope>, last: Option<Digest>, now: int) returns (k: nat)
    requires Sound(base, b) && Chained(base, batch, last) && StoreAll(b, batch, last, now).verdict.Err?
    ensures k < |batch| && batch[k].digest.Prev().Some?
    ensures var all, p := StoreAll(b, batch, last, now), batch[k].digest.Prev().value;
            && all.verdict == Err(UnknownParent(p)) && p !in all.books.versions && batch[k].digest !in all.books.entries
            && all.books.entries.Keys == b.entries.Keys + Offered(batch[..k])
  {
    hide Sound;
    hide StoreOne;
    hide Replay;
    hide Suffices;
    k := RefusedKeepsPrefix(b, batch, last, now);
    ChainedAt(base, batch, last, k);
    var part, e := batch[..k], batch[k];
    var c := StoreAll(b, part, last, now).books;
    assert batch[..k + 1] == part + [e] && [e][1..] == [];
    StoreAllJoin(b, part, [e], last, now);
    StoreAllSound(base, b, part, last, now);
    StoredIsHeld(base, b, part, last, now);
    StoreAllAdds(b, part, last, now);
    OneStands(base, c, e, now);
    assert StoreAll(c, [e], LastOf(last, part), now).verdict.Err?;
    assert StoreOne(c, e, now).verdict.Err?;
  }
}
