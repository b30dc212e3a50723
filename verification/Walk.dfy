/** Storing a run of envelopes, and the walk down from the root that finds the
    canonical head (crates/state/src/chain.rs, `store_batch` to `step`). */
module Walks {
  import opened Wire
  import opened Ledger
  import opened Lineage
  import opened ForkChoice
  import opened Storage
  import opened Ingest
  import opened Footing

  /** The trail has only grown. */
  ghost predicate Since(trail: seq<Books>, since: seq<Books>) {
    |since| >= |trail| && since[..|trail|] == trail
  }

  /** What storing a run may leave when it is cut off: the first envelopes of
      it stored, and of the next one perhaps just its version. */
  ghost predicate CutOffAt(b: Books, batch: seq<Envelope>, now: int, k: nat, w: Books)
    requires k < |batch|
  {
    var before, after := StoreAll(b, batch[..k], None, now), StoreAll(b, batch[..k + 1], None, now);
    && before.verdict.Ok? && after.verdict.Ok?
    && (w == after.books || w == Books(after.books.versions, before.books.entries))
  }

  ghost predicate CutOff(b: Books, batch: seq<Envelope>, now: int, w: Books) {
    exists k: nat :: k < |batch| && CutOffAt(b, batch, now, k, w)
  }

  ghost predicate StoreTrail(b: Books, batch: seq<Envelope>, now: int, trail: seq<Books>, since: seq<Books>) {
    Since(trail, since) && forall i :: |trail| <= i < |since| ==> CutOff(b, batch, now, since[i])
  }

  lemma NoTrail(b: Books, batch: seq<Envelope>, now: int, trail: seq<Books>)
    ensures StoreTrail(b, batch, now, trail, trail)
  {
  }

  lemma TrailFurther(b: Books, batch: seq<Envelope>, now: int, k: nat, trail: seq<Books>, written: seq<Books>,
                     since: seq<Books>)
    requires StoreTrail(b, batch, now, trail, written) && Since(written, since) && k < |batch|
    requires StoreAll(b, batch[..k], None, now).verdict.Ok? && StoreAll(b, batch[..k + 1], None, now).verdict.Ok?
    requires var before, after := StoreAll(b, batch[..k], None, now), StoreAll(b, batch[..k + 1], None, now);
             forall i :: |written| <= i < |since| ==>
               since[i] == after.books || since[i] == Books(after.books.versions, before.books.entries)
    ensures StoreTrail(b, batch, now, trail, since)
  {
    hide StoreAll;
    hide CutOff;
    forall i | |trail| <= i < |since| ensures CutOff(b, batch, now, since[i]) {
      if i < |written| {
        assert since[..|written|][i] == written[i];
      } else {
        CutsOff(b, batch, now, k, since[i]);
      }
    }
    assert since[..|trail|] == since[..|written|][..|trail|];
  }

  ghost predicate WalkTrail(before: Books, root: Digest, trail: seq<Books>, since: seq<Books>) {
    Since(trail, since) && forall i :: |trail| <= i < |since| ==> WalkedTo(before, root, since[i])
  }

  lemma NoWalkTrail(before: Books, root: Digest, trail: seq<Books>)
    ensures WalkTrail(before, root, trail, trail)
  {
  }

  lemma WalkTrailFurther(before: Books, root: Digest, trail: seq<Books>, written: seq<Books>, since: seq<Books>,
                         at: Books)
    requires WalkTrail(before, root, trail, written) && Since(written, since)
    requires forall i :: |written| <= i < |since| ==> since[i] == at
    ensures WalkedTo(before, root, at) ==> WalkTrail(before, root, trail, since)
    ensures Since(trail, since)
    ensures forall i :: |trail| <= i < |since| ==> WalkedTo(before, root, since[i]) || since[i] == at
  {
    hide WalkedTo;
    forall i | |trail| <= i < |since| ensures WalkedTo(before, root, since[i]) || since[i] == at {
      if i < |written| { assert since[..|written|][i] == written[i]; }
    }
    assert since[..|trail|] == since[..|written|][..|trail|];
  }

  /** Applies one envelope on top of the version at `head`. A refused one
      leaves no trace. */
  method ApplyTo(storage: MemStorage, head: Digest, e: Envelope) returns (r: Result<(), ApplyError>)
    requires head in storage.versions
    modifies storage`versions, storage`trail
    ensures match Apply(old(storage.versions)[head], head, e)
            case Ok(s) => r == Ok(()) && storage.versions == old(storage.versions)[e.digest := s]
            case Err(err) => r == Err(err) && storage.versions == old(storage.versions)
    ensures old(storage.Valid()) ==> storage.Valid()
    ensures storage.trail == old(storage.trail) + if r.Ok? then [BooksOf(storage)] else []
  {
    hide MemStorage.Valid;
    var judged := Judge(storage.versions[head], head, e);
    match judged
    case Err(err) => r := Err(err);
    case Ok(op) =>
      AdmittedCommits(storage.versions[head], e.digest.payload);
      storage.Commit(head, e.digest, op);
      r := Ok(());
  }

  /** Judges and stores one envelope of a run, whose parent's ledger the run
      stands on when `footing`. Yields whether it was already stored, and
      whether the run can stand on it. */
  method StoreEnvelope(storage: MemStorage, offered: Envelope, footing: bool, now: int)
      returns (r: Result<bool, Error>, standing: bool)
    requires storage.Valid() && offered.digest.Prev().Some?
    requires footing <==> offered.digest.Prev().value in storage.versions
    modifies storage
    ensures storage.Valid()
    ensures var spec := StoreOne(old(BooksOf(storage)), offered, now);
            BooksOf(storage) == spec.books && r == spec.verdict
    ensures r.Ok? ==> (standing <==> offered.digest in storage.versions)
    ensures Since(old(storage.trail), storage.trail) && (r.Err? ==> storage.trail == old(storage.trail))
    ensures forall i :: |old(storage.trail)| <= i < |storage.trail| ==>
              storage.trail[i] == BooksOf(storage)
                || storage.trail[i] == Books(storage.versions, old(storage.envelopes))
  {
    hide Verify;
    hide Apply;
    standing := false;
    var envelope, digest, prev := offered, offered.digest, offered.digest.Prev().value;
    var stored := digest in storage.envelopes;
    if !stored && footing {
      var status := VerifyEnvelope(storage.versions[prev], prev, digest);
      if status.Err? {
        return Err(Rejected(status.error)), false;
      }
      envelope := Envelope(digest, status.value);
    }
    if digest in storage.versions {
      if !stored && footing {
        storage.PutEnvelope(digest, envelope, now);
      }
      return Ok(stored), true;
    }
    if !footing {
      if stored {
        return Ok(true), false;
      }
      return Err(UnknownParent(prev)), false;
    }
    var applied := ApplyTo(storage, prev, envelope);
    if applied.Ok? {
      if !stored {
        storage.PutEnvelope(digest, envelope, now);
      }
      return Ok(stored), true;
    }
    if stored {
      return Ok(true), false;
    }
    return Err(Rejected(applied.error)), false;
  }

  /** The loop over a run, with the footing carried from one envelope to the
      next: it comes to storing them one by one until one is refused. True
      for a run of nothing but known envelopes. */
  method StoreBatch(storage: MemStorage, batch: seq<Envelope>, now: int) returns (r: Result<bool, Error>)
    requires storage.Valid()
    modifies storage
    ensures storage.Valid()
    ensures var spec := StoreAll(old(BooksOf(storage)), batch, None, now);
            && BooksOf(storage) == spec.books
            && r == if spec.verdict.Ok? then Ok(batch != [] && spec.verdict.value) else spec.verdict
    ensures StoreTrail(old(BooksOf(storage)), batch, now, old(storage.trail), storage.trail)
  {
    hide StoreOne;
    hide StoreTrail;
    hide Since;
    ghost var before, trail := BooksOf(storage), storage.trail;
    NoTrail(before, batch, now, trail);
    var trial: Option<Digest> := None;
    var last: Option<Digest> := None;
    var allDuplicates := true;
    assert batch[..0] == [];
    for i := 0 to |batch|
      invariant storage.Valid()
      invariant trial.Some? ==> trial == last
      invariant last.Some? ==> (trial.Some? <==> last.value in storage.versions)
      invariant last == LastOf(None, batch[..i])
      invariant StoreAll(before, batch[..i], None, now) == Stored(BooksOf(storage), Ok(allDuplicates))
      invariant StoreTrail(before, batch, now, trail, storage.trail)
    {
      hide StoreAll;
      var digest := batch[i].digest;
      AtEnvelope(before, batch, i, now);
      if digest.Prev().None? {
        return Err(Rejected(UnexpectedInit));
      }
      var prev := digest.Prev().value;
      if last.Some? && last.value != prev {
        return Err(Rejected(ChainMismatch(last.value, prev)));
      }
      var footing := trial.Some? || prev in storage.versions;
      ghost var written := storage.trail;
      var stored, standing := StoreEnvelope(storage, batch[i], footing, now);
      if stored.Err? {
        return stored;
      }
      TrailFurther(before, batch, now, i, trail, written, storage.trail);
      last := Some(digest);
      trial := if standing then Some(digest) else None;
      allDuplicates := allDuplicates && stored.value;
    }
    assert batch[..|batch|] == batch;
    return Ok(last.Some? && allDuplicates);
  }

  /** The first `i` of a run stored, how it goes on. */
  lemma AtEnvelope(b: Books, batch: seq<Envelope>, i: nat, now: int)
    requires i < |batch| && StoreAll(b, batch[..i], None, now).verdict.Ok?
    ensures var part, all := StoreAll(b, batch[..i], None, now), StoreAll(b, batch, None, now);
            var last, prev := LastOf(None, batch[..i]), batch[i].digest.Prev();
            if prev.None? then all == Stored(part.books, Err(Rejected(UnexpectedInit)))
            else if last.Some? && last != prev then
              all == Stored(part.books, Err(Rejected(ChainMismatch(last.value, prev.value))))
            else
              var one := StoreOne(part.books, batch[i], now);
              if one.verdict.Err? then all == one
              else StoreAll(b, batch[..i + 1], None, now) ==
                   Stored(one.books, Ok(part.verdict.value && one.verdict.value))
    ensures LastOf(None, batch[..i + 1]) == Some(batch[i].digest)
  {
    hide StoreOne;
    assert batch == batch[..i] + batch[i..];
    StoreAllJoin(b, batch[..i], batch[i..], None, now);
    assert batch[..i + 1] == batch[..i] + [batch[i]] && [batch[i]][1..] == [];
    StoreAllJoin(b, batch[..i], [batch[i]], None, now);
  }

  lemma CutsOff(b: Books, batch: seq<Envelope>, now: int, k: nat, w: Books)
    requires k < |batch| && CutOffAt(b, batch, now, k, w)
    ensures CutOff(b, batch, now, w)
  {
  }

  /** Whether `ancestor` is named climbing from `digest` through the log. */
  method Descends(storage: MemStorage, digest: Digest, ancestor: Digest) returns (r: bool)
    ensures r == (ancestor in Named(storage.envelopes.Keys, digest))
  {
    var cursor := Some(digest);
    while cursor.Some?
      invariant cursor.Some? ==> (ancestor in Named(storage.envelopes.Keys, digest) <==>
                                  ancestor in Named(storage.envelopes.Keys, cursor.value))
      invariant cursor.None? ==> ancestor !in Named(storage.envelopes.Keys, digest)
      decreases if cursor.Some? then Height(cursor.value) + 1 else 0
    {
      var current := cursor.value;
      if current == ancestor {
        return true;
      }
      cursor := storage.Parent(current);
    }
    return false;
  }

  // ---------------------------------------------------------------------
  // The walk

  /** The winner among the stored children of `at`. */
  method BestChild(storage: MemStorage, at: Digest) returns (best: Option<Digest>)
    requires storage.Valid() && DigestsPin(storage.envelopes.Keys)
    ensures best.None? <==> Kids(storage.Log(), at) == {}
    ensures best.Some? ==> IsBest(storage.Log(), at, best.value)
  {
    ghost var log := storage.Log();
    var kids := storage.Children(at);
    var left := kids;
    best := None;
    while left != {}
      invariant left <= kids
      invariant best.None? <==> left == kids
      invariant best.Some? ==> Tops(log, kids - left, best.value)
    {
      var child :| child in left;
      assert kids - (left - {child}) == kids - left + {child};
      left := left - {child};
      if best.None? {
        best := Some(child);
      } else {
        NextContender(log, kids - left - {child}, best.value, child);
        assert kids - left - {child} + {child} == kids - left;
        var held, found := storage.envelopes[best.value].envelope.status.Weight(),
                           storage.envelopes[child].envelope.status.Weight();
        if found > held || (found == held && child.bits > best.value.bits) {
          best := Some(child);
        }
      }
    }
  }

  /** One canonical step down from `at`: the winning child, its version taken
      from the cache or derived; a winner that cannot apply is dropped. */
  method Step(storage: MemStorage, at: Digest) returns (r: Result<Option<Digest>, ApplyError>)
    requires storage.Valid() && DigestsPin(storage.envelopes.Keys) && at in storage.versions
    modifies storage
    ensures storage.Valid()
    ensures r == Ok(None) ==> Kids(old(storage.Log()), at) == {} && BooksOf(storage) == old(BooksOf(storage))
    ensures r != Ok(None) ==>
              exists c :: IsBest(old(storage.Log()), at, c)
                && StepOutcome(old(BooksOf(storage)), BooksOf(storage), at, c, r)
    ensures Since(old(storage.trail), storage.trail)
    ensures forall i :: |old(storage.trail)| <= i < |storage.trail| ==> storage.trail[i] == BooksOf(storage)
  {
    hide Apply;
    var best := BestChild(storage, at);
    if best.None? {
      return Ok(None);
    }
    var child := best.value;
    if child in storage.versions {
      return Ok(Some(child));
    }
    var envelope := storage.envelopes[child].envelope;
    var applied := ApplyTo(storage, at, envelope);
    if applied.Ok? {
      return Ok(Some(child));
    }
    storage.RemoveEnvelope(child);
    return Err(applied.error);
  }

  ghost predicate StepOutcome(b: Books, c: Books, at: Digest, child: Digest, r: Result<Option<Digest>, ApplyError>) {
    && at in b.versions && child in b.entries
    && if child in b.versions then r == Ok(Some(child)) && c == b
       else match Apply(b.versions[at], at, b.entries[child].envelope)
         case Ok(s) => r == Ok(Some(child)) && c == Books(b.versions[child := s], b.entries)
         case Err(err) => r == Err(err) && c == Books(b.versions, b.entries - {child})
  }

  lemma StepChanges(b: Books, c: Books, at: Digest, child: Digest, r: Result<Option<Digest>, ApplyError>)
    requires StepOutcome(b, c, at, child, r)
    ensures r.Ok? ==> r == Ok(Some(child)) && c.entries == b.entries && child in c.versions
    ensures r.Err? ==> c.entries == b.entries - {child}
    ensures forall d :: d in b.versions ==> d in c.versions && c.versions[d] == b.versions[d]
    ensures c.versions.Keys <= b.versions.Keys + {child}
  {
    hide Apply;
  }

  /** On sound books the winner always applies, to the state replay gives it. */
  lemma StepSound(base: Base, b: Books, c: Books, at: Digest, child: Digest, r: Result<Option<Digest>, ApplyError>)
    requires Sound(base, b) && IsAncestor(base.root, at) && at in b.versions
    requires child in Kids(Weigh(b.entries), at) && b.entries[child].envelope.digest == child
    requires StepOutcome(b, c, at, child, r)
    ensures r == Ok(Some(child)) && Sound(base, c) && Grows(b, c) && c.entries == b.entries
  {
    hide Transition;
    hide Verify;
    hide Apply;
    hide Replay;
    hide RulesHold;
    CachedParent(base, b, child);
    VerifiedApplies(b.versions[at], at, child);
    hide StatusOn;
    TruthKept(base, b, c, child);
  }

  /** Every canonical envelope's version is held. */
  ghost predicate PathCached(b: Books, root: Digest) {
    forall d :: OnPath(Weigh(b.entries), root, d) ==> d in b.versions
  }

  ghost predicate SoundFrom(root: Digest, b: Books) {
    root in b.versions && Sound(Base(root, b.versions[root]), b)
  }

  /** Books without the versions of envelopes the log does not hold. */
  ghost function Trim(b: Books): Books {
    Books(map d | d in b.versions && d in b.entries :: b.versions[d], b.entries)
  }

  /** Sound but for versions of envelopes the log does not hold. */
  ghost predicate Rooted(root: Digest, b: Books) {
    root in b.versions && SoundFrom(root, Trim(b))
  }

  lemma StepTrims(b: Books, c: Books, at: Digest, child: Digest, r: Result<Option<Digest>, ApplyError>)
    requires StepOutcome(b, c, at, child, r) && at in b.entries
    ensures r.Ok? ==> StepOutcome(Trim(b), Trim(c), at, child, r)
    ensures r.Err? ==> child !in b.versions && Apply(b.versions[at], at, b.entries[child].envelope).Err?
  {
    hide Apply;
  }

  /** On rooted books the winner always applies. */
  lemma StepRooted(root: Digest, b: Books, c: Books, at: Digest, child: Digest, r: Result<Option<Digest>, ApplyError>)
    requires Rooted(root, b) && IsAncestor(root, at) && at in b.versions && at in b.entries
    requires child in Kids(Weigh(b.entries), at) && b.entries[child].envelope.digest == child
    requires StepOutcome(b, c, at, child, r)
    ensures r.Ok? && Rooted(root, c)
  {
    hide Sound;
    hide Apply;
    StepTrims(b, c, at, child, r);
    var base, t := Base(root, b.versions[root]), Trim(b);
    var outcome := if child in t.versions then (t, Ok(Some(child)))
                   else match Apply(t.versions[at], at, t.entries[child].envelope)
                     case Ok(s) => (Books(t.versions[child := s], t.entries), Ok(Some(child)))
                     case Err(err) => (Books(t.versions, t.entries - {child}), Err(err));
    StepSound(base, t, outcome.0, at, child, outcome.1);
  }

  /** Versions are only added, and only for canonical envelopes. */
  ghost predicate CachesPath(before: Versions, after: Versions, log: Log, root: Digest) {
    && (forall d :: d in before ==> d in after && after[d] == before[d])
    && (forall d :: d in after ==> d in before || OnPath(log, root, d))
  }

  /** What a walk may leave when it is cut off. */
  ghost predicate WalkedTo(before: Books, root: Digest, w: Books) {
    w.entries == before.entries && CachesPath(before.versions, w.versions, Weigh(before.entries), root)
  }

  /** A walk from the root that has come as far as `at`. */
  ghost predicate Walking(before: Books, b: Books, root: Digest, at: Digest) {
    var log := Weigh(before.entries);
    && b.entries == before.entries
    && OnPath(log, root, at) && at in b.versions
    && (forall d :: OnPath(log, root, d) && IsAncestor(d, at) ==> d in b.versions)
    && CachesPath(before.versions, b.versions, log, root)
    && (SoundFrom(root, before) ==> SoundFrom(root, b))
    && (Rooted(root, before) ==> Rooted(root, b))
  }

  lemma WalkStarts(b: Books, root: Digest)
    requires root in b.versions
    ensures Walking(b, b, root, root)
  {
    hide Rooted;
    hide SoundFrom;
    var log := Weigh(b.entries);
    forall d | OnPath(log, root, d) && IsAncestor(d, root) ensures d == root {
      OnPathDescends(log, root, d);
      AncestorAntisymmetric(d, root);
    }
  }

  lemma WalkSteps(before: Books, b: Books, c: Books, root: Digest, at: Digest, child: Digest,
                  r: Result<Option<Digest>, ApplyError>)
    requires Walking(before, b, root, at) && IsBest(Weigh(b.entries), at, child)
    requires b.entries[child].envelope.digest == child && StepOutcome(b, c, at, child, r)
    ensures r.Ok? ==> r == Ok(Some(child)) && Walking(before, c, root, child) && WalkedTo(before, root, c)
    ensures r.Err? ==> c.entries == before.entries - {child} && OnPath(Weigh(before.entries), root, child)
    ensures CachesPath(before.versions, c.versions, Weigh(before.entries), root)
    ensures SoundFrom(root, before) || Rooted(root, before) ==> r.Ok?
  {
    hide Sound;
    hide StepOutcome;
    hide Rooted;
    hide Trim;
    var log := Weigh(before.entries);
    StepChanges(b, c, at, child, r);
    assert OnPath(log, root, child);
    OnPathDescends(log, root, at);
    if SoundFrom(root, before) {
      StepSound(Base(root, b.versions[root]), b, c, at, child, r);
    }
    if Rooted(root, before) {
      RootedHolds(root, b, at);
      StepRooted(root, b, c, at, child, r);
    }
  }

  lemma RootedHolds(root: Digest, b: Books, at: Digest)
    requires Rooted(root, b) && OnPath(Weigh(b.entries), root, at)
    ensures at in b.entries
  {
    OnPathDescends(Weigh(b.entries), root, at);
  }

  lemma WalkEnds(before: Books, b: Books, root: Digest, at: Digest)
    requires Walking(before, b, root, at) && Kids(Weigh(b.entries), at) == {}
    ensures IsHead(Weigh(b.entries), root, at) && PathCached(b, root)
  {
    hide Rooted;
    hide SoundFrom;
    forall d | OnPath(Weigh(b.entries), root, d) ensures d in b.versions {
      CanonicalBelowHead(Weigh(b.entries), root, at, d);
    }
  }

  /** Follows the winners from the root to the head. Sound books always allow
      it; on others the walk may end at a winner that does not apply, which
      then leaves the log. */
  method Canonicalize(storage: MemStorage, root: Digest) returns (r: Result<Digest, Error>)
    requires storage.Valid() && DigestsPin(storage.envelopes.Keys)
    modifies storage
    ensures storage.Valid()
    ensures CachesPath(old(storage.versions), storage.versions, old(storage.Log()), root)
    ensures root !in old(storage.versions) ==> r == Err(UnknownHead(root)) && BooksOf(storage) == old(BooksOf(storage))
    ensures r.Ok? ==>
              && storage.envelopes == old(storage.envelopes)
              && IsHead(storage.Log(), root, r.value) && PathCached(BooksOf(storage), root)
    ensures r.Err? && root in old(storage.versions) ==>
              exists c :: OnPath(old(storage.Log()), root, c) && storage.envelopes == old(storage.envelopes) - {c}
    ensures SoundFrom(root, old(BooksOf(storage))) ==> r.Ok? && SoundFrom(root, BooksOf(storage))
    ensures Rooted(root, old(BooksOf(storage))) ==> r.Ok? && Rooted(root, BooksOf(storage))
    ensures r.Ok? ==> WalkTrail(old(BooksOf(storage)), root, old(storage.trail), storage.trail)
    ensures Since(old(storage.trail), storage.trail)
    ensures r.Err? ==> forall i :: |old(storage.trail)| <= i < |storage.trail| ==>
              WalkedTo(old(BooksOf(storage)), root, storage.trail[i]) || storage.trail[i] == BooksOf(storage)
  {
    if root !in storage.versions {
      return Err(UnknownHead(root));
    }
    hide Walking;
    hide Rooted;
    hide SoundFrom;
    hide CachesPath;
    hide PathCached;
    hide IsHead;
    hide WalkTrail;
    hide WalkedTo;
    hide Since;
    hide Kids;
    hide Above;
    hide OnPath;
    hide MemStorage.Valid;
    ghost var before, trail := BooksOf(storage), storage.trail;
    NoWalkTrail(before, root, trail);
    WalkStarts(before, root);
    WalkFacts(before, before, root, root);
    var at := root;
    while true
      invariant storage.Valid() && Walking(before, BooksOf(storage), root, at)
      invariant storage.envelopes == before.entries && at in storage.versions
      invariant WalkTrail(before, root, trail, storage.trail)
      decreases Above(Weigh(before.entries), at)
    {
      var step := WalkOn(storage, root, at, before, trail);
      if step == Ok(None) {
        WalkEnds(before, BooksOf(storage), root, at);
        WalkFacts(before, BooksOf(storage), root, at);
        TrailSince(before, root, trail, storage.trail);
        return Ok(at);
      }
      if step.Err? {
        return Err(Rejected(step.error));
      }
      at := step.value.value;
    }
  }

  lemma TrailSince(before: Books, root: Digest, trail: seq<Books>, since: seq<Books>)
    requires WalkTrail(before, root, trail, since)
    ensures Since(trail, since)
  {
  }

  /** One step of a walk that has come as far as `at`. */
  method WalkOn(storage: MemStorage, root: Digest, at: Digest, ghost before: Books, ghost trail: seq<Books>)
      returns (step: Result<Option<Digest>, ApplyError>)
    requires storage.Valid() && DigestsPin(storage.envelopes.Keys) && storage.envelopes == before.entries
    requires Walking(before, BooksOf(storage), root, at) && at in storage.versions
    requires WalkTrail(before, root, trail, storage.trail)
    modifies storage
    ensures storage.Valid() && CachesPath(before.versions, storage.versions, Weigh(before.entries), root)
    ensures step == Ok(None) ==>
              && BooksOf(storage) == old(BooksOf(storage)) && Kids(Weigh(before.entries), at) == {}
              && WalkTrail(before, root, trail, storage.trail)
    ensures step.Ok? && step.value.Some? ==>
              && Walking(before, BooksOf(storage), root, step.value.value) && step.value.value in storage.versions
              && storage.envelopes == before.entries && WalkTrail(before, root, trail, storage.trail)
              && Above(Weigh(before.entries), step.value.value) < Above(Weigh(before.entries), at)
    ensures step.Err? ==>
              && !SoundFrom(root, before) && !Rooted(root, before) && Since(trail, storage.trail)
              && (exists c :: OnPath(Weigh(before.entries), root, c) && storage.envelopes == before.entries - {c})
              && forall i :: |trail| <= i < |storage.trail| ==>
                   WalkedTo(before, root, storage.trail[i]) || storage.trail[i] == BooksOf(storage)
  {
    hide Walking;
    hide Rooted;
    hide SoundFrom;
    hide CachesPath;
    hide StepOutcome;
    hide WalkTrail;
    hide WalkedTo;
    hide Since;
    hide Kids;
    hide IsBest;
    hide Above;
    hide OnPath;
    hide MemStorage.Valid;
    ghost var b, written := BooksOf(storage), storage.trail;
    WalkFacts(before, b, root, at);
    FiledByDigest(storage);
    step := Step(storage, at);
    WalkTrailFurther(before, root, trail, written, storage.trail, BooksOf(storage));
    if step == Ok(None) {
      WalkTrailFurther(before, root, trail, written, storage.trail, b);
      WalkedHere(before, b, root, at);
    } else {
      ghost var child :| IsBest(Weigh(b.entries), at, child) && StepOutcome(b, BooksOf(storage), at, child, step);
      BestIsKid(Weigh(b.entries), at, child);
      assert child in b.entries by { KidStored(b.entries, at, child); }
      WalkSteps(before, b, BooksOf(storage), root, at, child, step);
      AboveShrinks(Weigh(before.entries), at, child);
      if step.Ok? { WalkFacts(before, BooksOf(storage), root, child); }
    }
  }

  lemma FiledByDigest(storage: MemStorage)
    requires storage.Valid()
    ensures forall d :: d in storage.envelopes ==> storage.envelopes[d].envelope.digest == d
  {
  }

  lemma KidStored(entries: Entries, at: Digest, child: Digest)
    requires child in Kids(Weigh(entries), at)
    ensures child in entries
  {
  }

  lemma WalkedHere(before: Books, b: Books, root: Digest, at: Digest)
    requires Walking(before, b, root, at)
    ensures WalkedTo(before, root, b)
  {
    hide SoundFrom;
    hide Rooted;
  }

  lemma BestIsKid(log: Log, at: Digest, child: Digest)
    requires IsBest(log, at, child)
    ensures child in Kids(log, at)
  {
  }

  lemma WalkFacts(before: Books, b: Books, root: Digest, at: Digest)
    requires Walking(before, b, root, at)
    ensures b.entries == before.entries && at in b.versions
    ensures CachesPath(before.versions, b.versions, Weigh(before.entries), root)
    ensures SoundFrom(root, before) ==> SoundFrom(root, b)
    ensures Rooted(root, before) ==> Rooted(root, b)
  {
    hide Rooted;
    hide SoundFrom;
  }
}
