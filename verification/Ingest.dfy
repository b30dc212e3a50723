/** What storing a run of envelopes does to a node's books: the plain form of
    `store_batch` (crates/state/src/chain.rs), and why the books stay true. */
module Ingest {
  import opened Wire
  import opened Ledger
  import opened Lineage
  import opened ForkChoice
  import opened Storage

  datatype Error =
    | EmptyChain
    | NotInit
    | UnknownHead(digest: Digest)
    | UnknownParent(digest: Digest)
    | Diverged(from: Digest, to: Digest)
    | Rejected(reason: ApplyError)

  // ---------------------------------------------------------------------
  // Books that tell the truth about a chain

  /** Every envelope stored above the root has its parent stored, replays, and
      carries the status its signatures earn. */
  ghost predicate LogSound(base: Base, entries: Entries) {
    && base.root in entries
    && forall d :: d in entries && IsProperAncestor(base.root, d) ==>
         && d.Prev().value in entries
         && Replay(base, d).Some?
         && entries[d].envelope.status == StatusOn(base, d)
  }

  /** Every version held from the root up is what replay arrives at. */
  ghost predicate CacheSound(base: Base, versions: Versions, entries: Entries) {
    && base.root in versions
    && forall d :: d in versions && IsAncestor(base.root, d) ==>
         d in entries && Replay(base, d) == Some(versions[d])
  }

  ghost predicate Sound(base: Base, b: Books) {
    RulesHold(base.state) && LogSound(base, b.entries) && CacheSound(base, b.versions, b.entries)
  }

  /** Nothing is forgotten or rewritten. */
  ghost predicate Grows(b: Books, c: Books) {
    && (forall d :: d in b.versions ==> d in c.versions && c.versions[d] == b.versions[d])
    && (forall d :: d in b.entries ==> d in c.entries && c.entries[d] == b.entries[d])
  }

  lemma GrowsItself(b: Books)
    ensures Grows(b, b)
  {
  }

  lemma SoundIsGrounded(base: Base, entries: Entries)
    requires LogSound(base, entries)
    ensures Grounded(Weigh(entries), base.root)
  {
  }

  // ---------------------------------------------------------------------
  // Storing

  /** What storing one envelope, or a run, left behind; on success, whether
      everything was already stored. */
  datatype Stored = Stored(books: Books, verdict: Result<bool, Error>)

  ghost function StoreOne(b: Books, e: Envelope, now: int): Stored
    requires e.digest.Prev().Some?
  {
    var d, p := e.digest, e.digest.Prev().value;
    var stored, footing := d in b.entries, p in b.versions;
    if !stored && footing && Verify(b.versions[p], p, d).Err? then
      Stored(b, Err(Rejected(Verify(b.versions[p], p, d).error)))
    else
      var arrived := if !stored && footing then Envelope(d, Verify(b.versions[p], p, d).value) else e;
      var logged := if !stored && footing then WithEntry(b.entries, d, arrived, now) else b.entries;
      if d in b.versions then Stored(Books(b.versions, logged), Ok(stored))
      else if !footing then Stored(b, if stored then Ok(true) else Err(UnknownParent(p)))
      else match Apply(b.versions[p], p, arrived)
        case Ok(s) => Stored(Books(b.versions[d := s], logged), Ok(stored))
        case Err(err) => Stored(b, if stored then Ok(true) else Err(Rejected(err)))
  }

  /** A linear run, up to its first refusal. */
  ghost function StoreAll(b: Books, batch: seq<Envelope>, last: Option<Digest>, now: int): Stored
    decreases |batch|
  {
    if batch == [] then Stored(b, Ok(true))
    else
      var d := batch[0].digest;
      if d.Prev().None? then Stored(b, Err(Rejected(UnexpectedInit)))
      else if last.Some? && last != d.Prev() then Stored(b, Err(Rejected(ChainMismatch(last.value, d.Prev().value))))
      else
        var one := StoreOne(b, batch[0], now);
        if one.verdict.Err? then one
        else
          var rest := StoreAll(one.books, batch[1..], Some(d), now);
          Stored(rest.books, if rest.verdict.Err? then rest.verdict else Ok(one.verdict.value && rest.verdict.value))
  }

  // ---------------------------------------------------------------------
  // Soundness

  /** An envelope judged against its parent's cached state is judged as
      replay judges it. */
  lemma CachedParent(base: Base, b: Books, d: Digest)
    requires Sound(base, b) && d.Prev().Some? && d.Prev().value in b.versions
    requires IsAncestor(base.root, d.Prev().value)
    ensures var p := d.Prev().value;
            && p in b.entries
            && RulesHold(b.versions[p])
            && d != base.root
            && Replay(base, d) == Transition(b.versions[p], p, d)
            && Verify(b.versions[p], p, d) == Ok(StatusOn(base, d))
  {
    hide Transition;
    hide Verify;
    hide RulesHold;
    var p := d.Prev().value;
    ReplayKeepsRules(base, p);
    ReplayNext(base, d);
    AncestorHeight(base.root, p);
    VerifiedApplies(b.versions[p], p, d);
  }

  /** What one more envelope may add: its log entry, its version, or both,
      true to replay if it stands above the root. */
  ghost predicate AddsTruly(base: Base, b: Books, c: Books, d: Digest) {
    && Grows(b, c)
    && c.versions.Keys <= b.versions.Keys + {d}
    && c.entries.Keys <= b.entries.Keys + {d}
    && (IsAncestor(base.root, d) && d !in b.entries && d in c.entries ==>
          d.Prev().Some? && d.Prev().value in b.entries && Replay(base, d).Some?
          && c.entries[d].envelope.status == StatusOn(base, d))
    && (IsAncestor(base.root, d) && d !in b.versions && d in c.versions ==>
          d in c.entries && Replay(base, d) == Some(c.versions[d]))
  }

  lemma TruthKept(base: Base, b: Books, c: Books, d: Digest)
    requires Sound(base, b) && AddsTruly(base, b, c, d)
    ensures Sound(base, c)
  {
    hide Replay;
    hide StatusOn;
    hide RulesHold;
    forall x | x in c.entries && IsProperAncestor(base.root, x)
      ensures x.Prev().value in c.entries && Replay(base, x).Some? && c.entries[x].envelope.status == StatusOn(base, x)
    {
      if x in b.entries { assert c.entries[x] == b.entries[x]; }
    }
    forall x | x in c.versions && IsAncestor(base.root, x)
      ensures x in c.entries && Replay(base, x) == Some(c.versions[x])
    {
      if x in b.versions { assert c.versions[x] == b.versions[x]; }
    }
  }

  /** Storing an envelope keeps the books sound and forgets nothing. */
  lemma StoreOneSound(base: Base, b: Books, e: Envelope, now: int)
    requires Sound(base, b) && e.digest.Prev().Some?
    ensures Sound(base, StoreOne(b, e, now).books) && Grows(b, StoreOne(b, e, now).books)
    ensures StoreOne(b, e, now).books.entries.Keys <= b.entries.Keys + {e.digest}
  {
    StoreOneTrue(base, b, e, now);
    TruthKept(base, b, StoreOne(b, e, now).books, e.digest);
  }

  lemma CachedIsStored(base: Base, b: Books, d: Digest)
    requires Sound(base, b)
    ensures base.root in b.entries && base.root in b.versions
    ensures d in b.versions && IsAncestor(base.root, d) ==> d in b.entries
  {
  }

  lemma StoredReplays(base: Base, b: Books, d: Digest)
    requires Sound(base, b) && d in b.entries && IsProperAncestor(base.root, d)
    ensures Replay(base, d).Some?
  {
  }

  lemma StoreOneTrue(base: Base, b: Books, e: Envelope, now: int)
    requires Sound(base, b) && e.digest.Prev().Some?
    ensures AddsTruly(base, b, StoreOne(b, e, now).books, e.digest)
  {
    hide Transition;
    hide Verify;
    hide Apply;
    hide RulesHold;
    hide Replay;
    hide StatusOn;
    hide Sound;
    CachedIsStored(base, b, e.digest);
    var d, p := e.digest, e.digest.Prev().value;
    if p in b.versions && d != base.root && IsAncestor(base.root, p) {
      CachedParent(base, b, d);
      VerifiedApplies(b.versions[p], p, d);
      if d in b.entries && Apply(b.versions[p], p, e).Ok? {
        StoredReplays(base, b, d);
        StatusDecidesNothingElse(b.versions[p], p, d, e.status);
      }
    }
  }

  lemma {:induction false} StoreAllSound(base: Base, b: Books, batch: seq<Envelope>, last: Option<Digest>, now: int)
    requires Sound(base, b)
    ensures Sound(base, StoreAll(b, batch, last, now).books) && Grows(b, StoreAll(b, batch, last, now).books)
    ensures StoreAll(b, batch, last, now).books.entries.Keys <= b.entries.Keys + Offered(batch)
    decreases |batch|
  {
    hide Sound;
    hide StoreOne;
    if batch == [] || batch[0].digest.Prev().None? || (last.Some? && last != batch[0].digest.Prev()) {
    } else {
      StoreOneSound(base, b, batch[0], now);
      var one := StoreOne(b, batch[0], now);
      if one.verdict.Ok? {
        StoreAllSound(base, one.books, batch[1..], Some(batch[0].digest), now);
      }
      assert batch[0].digest in Offered(batch);
      assert Offered(batch[1..]) <= Offered(batch);
    }
  }

  /** Everything a sound log holds above the root was signed only by keys its
      parent's state trusts, with the weight and number of signers in force
      there, and carries the weight it was verified at. */
  lemma StoredWasEndorsed(base: Base, b: Books, d: Digest)
    requires Sound(base, b) && d in b.entries && IsProperAncestor(base.root, d)
    ensures Replay(base, d.Prev().value).Some? && RulesHold(Replay(base, d.Prev().value).value)
    ensures var s := Replay(base, d.Prev().value).value;
            && Endorsed(s, d) && TrustedKeys(s).Ok?
            && (forall id :: id in d.signatures ==>
                  id in TrustedKeys(s).value
                  && TrustedKeys(s).value[id].id in d.signatures[id].verifiesUnder)
            && b.entries[d].envelope.status ==
               AllMatched(Saturate(TotalWeight(TrustedKeys(s).value, d.signatures.Keys)))
  {
    hide Transition;
    hide Verify;
    hide RulesHold;
    hide Endorsed;
    var p := d.Prev().value;
    AncestorTransitive(base.root, p, d);
    ReplayThrough(base, p, d);
    ReplayNext(base, d);
    ReplayKeepsRules(base, p);
    AppliedMeansTrusted(Replay(base, p).value, p, d);
    if d == base.root { AncestorHeight(base.root, p); }
  }

  /** A refused run keeps exactly its valid prefix: the books are those after
      the envelopes before the refused one, which alone would be refused for
      the same reason. */
  lemma {:induction false} RefusedKeepsPrefix(b: Books, batch: seq<Envelope>, last: Option<Digest>, now: int)
      returns (k: nat)
    requires StoreAll(b, batch, last, now).verdict.Err?
    ensures k < |batch|
    ensures StoreAll(b, batch[..k], last, now).verdict.Ok?
    ensures StoreAll(b, batch[..k], last, now).books == StoreAll(b, batch, last, now).books
    ensures StoreAll(b, batch[..k + 1], last, now) == StoreAll(b, batch, last, now)
    decreases |batch|
  {
    hide StoreOne;
    hide Verify;
    hide Apply;
    var d := batch[0].digest;
    if d.Prev().None? || (last.Some? && last != d.Prev()) || StoreOne(b, batch[0], now).verdict.Err? {
      k := 0;
      RefusedAtOnce(b, batch[0], now);
    } else {
      var one := StoreOne(b, batch[0], now);
      k := RefusedKeepsPrefix(one.books, batch[1..], Some(d), now);
      k := k + 1;
      assert batch[..k][1..] == batch[1..][..k - 1] && batch[..k + 1][1..] == batch[1..][..k];
    }
  }

  /** A refused envelope leaves the books as they were. */
  lemma RefusedAtOnce(b: Books, e: Envelope, now: int)
    ensures e.digest.Prev().Some? && StoreOne(b, e, now).verdict.Err? ==> StoreOne(b, e, now).books == b
  {
    hide Verify;
    hide Apply;
  }

  /** The digests a run offers. */
  ghost function Offered(batch: seq<Envelope>): set<Digest> {
    set i | 0 <= i < |batch| :: batch[i].digest
  }

  // ---------------------------------------------------------------------
  // What storing leaves, and why it refuses

  /** Fork choice weighs what verified, at its verified weight. */
  lemma WeighedExactly(entries: Entries)
    ensures Weigh(entries).Keys == entries.Keys
    ensures forall d :: d in entries ==>
              Weigh(entries)[d] ==
              if entries[d].envelope.status.AllMatched? then entries[d].envelope.status.total else 0
  {
  }

  lemma OneArrivesNow(b: Books, e: Envelope, now: int)
    requires e.digest.Prev().Some?
    ensures var c := StoreOne(b, e, now).books;
            && (forall d :: d in b.entries ==> d in c.entries && c.entries[d] == b.entries[d])
            && forall d :: d in c.entries && d !in b.entries ==>
                 c.entries[d].storedAt == now && c.entries[d].envelope.digest == d
  {
    hide Verify;
    hide Apply;
  }

  /** What a run adds to the log it files under its digest as arriving now. */
  lemma {:induction false} ArrivesNow(b: Books, batch: seq<Envelope>, last: Option<Digest>, now: int)
    ensures var c := StoreAll(b, batch, last, now).books;
            && (forall d :: d in b.entries ==> d in c.entries && c.entries[d] == b.entries[d])
            && forall d :: d in c.entries && d !in b.entries ==>
                 c.entries[d].storedAt == now && c.entries[d].envelope.digest == d
    decreases |batch|
  {
    hide StoreOne;
    if batch == [] || batch[0].digest.Prev().None? || (last.Some? && last != batch[0].digest.Prev()) {
    } else {
      OneArrivesNow(b, batch[0], now);
      ArrivesNow(StoreOne(b, batch[0], now).books, batch[1..], Some(batch[0].digest), now);
    }
  }

  /** A run reports itself a duplicate when all of it was stored before. */
  lemma {:induction false} DuplicateExactly(b: Books, batch: seq<Envelope>, last: Option<Digest>, now: int)
    requires StoreAll(b, batch, last, now).verdict.Ok?
    ensures StoreAll(b, batch, last, now).verdict.value <==> forall e :: e in batch ==> e.digest in b.entries
    decreases |batch|
  {
    hide Verify;
    hide Apply;
    if batch == [] {
    } else {
      var one := StoreOne(b, batch[0], now);
      DuplicateExactly(one.books, batch[1..], Some(batch[0].digest), now);
      assert forall e :: e in batch <==> e == batch[0] || e in batch[1..];
      if batch[0].digest in b.entries { assert one.books.entries == b.entries; }
      assert batch[0] in batch;
    }
  }

  /** Why one envelope is refused: it is new, and its parent's version is not
      held, or there its signatures cannot be judged or, judged, it does not
      apply. */
  lemma OneRefused(b: Books, e: Envelope, now: int, error: Error)
    requires e.digest.Prev().Some?
    ensures var d, p := e.digest, e.digest.Prev().value;
            StoreOne(b, e, now).verdict == Err(error) <==>
              && d !in b.entries
              && if p !in b.versions then d !in b.versions && error == UnknownParent(p)
                 else match Verify(b.versions[p], p, d)
                   case Err(why) => error == Rejected(why)
                   case Ok(status) =>
                     && d !in b.versions && Apply(b.versions[p], p, Envelope(d, status)).Err?
                     && error == Rejected(Apply(b.versions[p], p, Envelope(d, status)).error)
  {
    hide Verify;
    hide Apply;
  }
}
