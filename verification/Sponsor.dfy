/** A node that hands out invites and compacts: over every run, an invite that
    can still be redeemed is redeemed for the root it promised
    (crates/lotusd/src/server.rs, crates/lotusd/src/bootstrap.rs). */
module Sponsors {
  import opened Wire
  import opened Ledger
  import opened Lineage
  import opened Ingest
  import opened Storage
  import opened Chains
  import opened Cores
  import opened Invites

  /** What a run shows of a sponsor: its root, its book, and its clock. */
  datatype Desk = Desk(root: Digest, pending: seq<Pending>, clock: int)

  datatype Event =
    | Issues(token: Token, weight: u32, expires: int, now: int)
    | Redeemed(token: Token, now: int, outcome: Result<u32, RedeemError>, handed: Digest)
    | Compacts(now: int)
    | Inserts(now: int)

  ghost predicate Happens(s: Desk, e: Event, t: Desk) {
    && s.clock <= e.now == t.clock
    && match e
       case Issues(token, weight, expires, now) =>
         t.root == s.root && t.pending == Live(s.pending, now) + [Pending(token, weight, expires, s.root)]
       case Redeemed(token, now, outcome, handed) =>
         t.root == s.root && handed == s.root && Redeems(s.pending, token, now, outcome, t.pending)
       case Compacts(now) =>
         t.pending == s.pending && (s.root in PinnedAt(s.pending, now) ==> t.root == s.root)
       case Inserts(_) =>
         t.root == s.root && t.pending == s.pending
  }

  /** A run from an empty book on. */
  ghost predicate IsRun(desks: seq<Desk>, events: seq<Event>) {
    && |desks| == |events| + 1 && desks[0].pending == []
    && forall i: nat :: i < |events| ==> Happens(desks[i], events[i], desks[i + 1])
  }

  /** The `i`th event issued the invite, and while it can still be redeemed
      the root has not moved since. */
  ghost predicate Promised(desks: seq<Desk>, events: seq<Event>, i: nat, j: nat, p: Pending)
    requires |desks| == |events| + 1 && j < |desks|
  {
    && i < j && events[i].Issues? && desks[i].root == p.root
    && p == Pending(events[i].token, events[i].weight, events[i].expires, desks[i].root)
    && (p.expires > desks[j].clock ==> forall k :: i <= k <= j ==> desks[k].root == p.root)
  }

  lemma {:induction false} KeptIn(before: seq<Pending>, token: Token, now: int, r: Result<u32, RedeemError>,
                                  after: seq<Pending>, p: Pending)
    requires Redeems(before, token, now, r, after) && p in after
    ensures p in before
  {
    if !(forall i :: 0 <= i < |before| ==> before[i].token != token) {
      var i: nat :| IsLast(before, token, i) && after == Live(before[..i] + before[i + 1..], now);
      assert p in before[..i] + before[i + 1..];
    }
  }

  /** One more event keeps an outstanding promise. */
  lemma PromiseStands(desks: seq<Desk>, events: seq<Event>, i: nat, j: nat, p: Pending)
    requires IsRun(desks, events) && j < |events|
    requires p in desks[j].pending && Promised(desks, events, i, j, p)
    ensures Promised(desks, events, i, j + 1, p)
  {
    assert Happens(desks[j], events[j], desks[j + 1]);
    if p.expires > desks[j + 1].clock {
      assert desks[j].root == p.root;
      if events[j].Compacts? { assert p.root in PinnedAt(desks[j].pending, events[j].now); }
    }
  }

  /** While an invite is outstanding, the event that issued it stands behind
      it, and if it can still be redeemed no compaction moved the root. */
  lemma {:induction false} PromiseKept(desks: seq<Desk>, events: seq<Event>, j: nat, p: Pending) returns (i: nat)
    requires IsRun(desks, events) && j < |desks| && p in desks[j].pending
    ensures Promised(desks, events, i, j, p)
    decreases j
  {
    assert j > 0;
    var s, e, t := desks[j - 1], events[j - 1], desks[j];
    assert Happens(s, e, t);
    if p in s.pending {
      i := PromiseKept(desks, events, j - 1, p);
      PromiseStands(desks, events, i, j - 1, p);
    } else {
      i := j - 1;
      assert e.Issues? by { if e.Redeemed? { KeptIn(s.pending, e.token, e.now, e.outcome, t.pending, p); } }
    }
  }

  /** Every successful redeem consumes an invite issued earlier, before it
      expires, at the weight it was issued for, and hands over the very root
      it promised, which no compaction moved meanwhile. */
  lemma RedeemHonoured(desks: seq<Desk>, events: seq<Event>, j: nat) returns (i: nat)
    requires IsRun(desks, events) && j < |events| && events[j].Redeemed? && events[j].outcome.Ok?
    ensures i < j && events[i].Issues? && events[i].token == events[j].token
    ensures events[j].outcome == Ok(events[i].weight) && events[j].now < events[i].expires
    ensures events[j].handed == desks[i].root
    ensures forall k :: i <= k <= j + 1 ==> desks[k].root == desks[i].root
  {
    var s, e := desks[j], events[j];
    assert Happens(s, e, desks[j + 1]);
    var l: nat :| IsLast(s.pending, e.token, l)
      && e.outcome == (if s.pending[l].expires <= e.now then Err(Expired) else Ok(s.pending[l].weight));
    i := PromiseKept(desks, events, j, s.pending[l]);
  }

  // ---------------------------------------------------------------------
  // Each invite is redeemed at most once

  function TimesIssued(events: seq<Event>, token: Token): nat {
    if events == [] then 0
    else
      var last := events[|events| - 1];
      TimesIssued(events[..|events| - 1], token) + if last.Issues? && last.token == token then 1 else 0
  }

  function TimesRedeemed(events: seq<Event>, token: Token): nat {
    if events == [] then 0
    else
      var last := events[|events| - 1];
      TimesRedeemed(events[..|events| - 1], token) +
      if last.Redeemed? && last.token == token && last.outcome.Ok? then 1 else 0
  }

  lemma {:induction false} LiveBearing(pending: seq<Pending>, now: int, token: Token)
    ensures Bearing(Live(pending, now), token) <= Bearing(pending, token)
  {
    if pending == [] {
    } else {
      var rest, last := pending[..|pending| - 1], pending[|pending| - 1];
      LiveBearing(rest, now, token);
      assert (Live(rest, now) + [last])[..|Live(rest, now)|] == Live(rest, now);
    }
  }

  lemma {:induction false} BearingJoin(a: seq<Pending>, b: seq<Pending>, token: Token)
    ensures Bearing(a + b, token) == Bearing(a, token) + Bearing(b, token)
    decreases |b|
  {
    if b == [] {
      assert a + b == a;
    } else {
      assert (a + b)[..|a + b| - 1] == a + b[..|b| - 1];
      BearingJoin(a, b[..|b| - 1], token);
    }
  }

  lemma WithoutOne(pending: seq<Pending>, i: nat, token: Token)
    requires i < |pending|
    ensures Bearing(pending[..i] + pending[i + 1..], token) + (if pending[i].token == token then 1 else 0) ==
            Bearing(pending, token)
  {
    assert pending == pending[..i] + ([pending[i]] + pending[i + 1..]);
    BearingJoin(pending[..i], [pending[i]] + pending[i + 1..], token);
    BearingJoin([pending[i]], pending[i + 1..], token);
    BearingJoin(pending[..i], pending[i + 1..], token);
  }

  lemma RedeemSpends(before: seq<Pending>, token: Token, now: int, r: Result<u32, RedeemError>, after: seq<Pending>,
                     other: Token)
    requires Redeems(before, token, now, r, after)
    ensures Bearing(after, other) + (if r.Ok? && token == other then 1 else 0) <= Bearing(before, other)
  {
    if forall i :: 0 <= i < |before| ==> before[i].token != token {
      LiveBearing(before, now, other);
    } else {
      var i: nat :|
        && IsLast(before, token, i)
        && r == (if before[i].expires <= now then Err(Expired) else Ok(before[i].weight))
        && after == Live(before[..i] + before[i + 1..], now);
      LiveBearing(before[..i] + before[i + 1..], now, other);
      WithoutOne(before, i, other);
    }
  }

  lemma StepSpends(s: Desk, e: Event, t: Desk, token: Token)
    requires Happens(s, e, t)
    ensures Bearing(t.pending, token) + (if e.Redeemed? && e.token == token && e.outcome.Ok? then 1 else 0) <=
            Bearing(s.pending, token) + if e.Issues? && e.token == token then 1 else 0
  {
    match e {
      case Issues(_, _, _, now) =>
        LiveBearing(s.pending, now, token);
        var live := Live(s.pending, now);
        assert t.pending[..|live|] == live;
      case Redeemed(t', now, outcome, _) =>
        RedeemSpends(s.pending, t', now, outcome, t.pending, token);
      case _ =>
    }
  }

  /** Redeemed or still outstanding, a token never counts for more invites
      than were issued under it: one issued once is redeemed at most once. */
  lemma {:induction false} RedeemedAtMostOnce(desks: seq<Desk>, events: seq<Event>, token: Token)
    requires IsRun(desks, events)
    ensures TimesRedeemed(events, token) + Bearing(desks[|desks| - 1].pending, token) <= TimesIssued(events, token)
    decreases |events|
  {
    if events == [] {
    } else {
      var n := |events| - 1;
      assert Happens(desks[n], events[n], desks[n + 1]);
      StepSpends(desks[n], events[n], desks[n + 1], token);
      RunBefore(desks, events, n);
      RedeemedAtMostOnce(desks[..n + 1], events[..n], token);
    }
  }

  lemma RunBefore(desks: seq<Desk>, events: seq<Event>, n: nat)
    requires IsRun(desks, events) && n <= |events|
    ensures IsRun(desks[..n + 1], events[..n])
  {
    forall i: nat | i < n ensures Happens(desks[..n + 1][i], events[..n][i], desks[..n + 1][i + 1]) {
      assert Happens(desks[i], events[i], desks[i + 1]);
    }
  }

  // ---------------------------------------------------------------------
  // The node behind the desk

  const MAX_INVITE_TTL: nat := 24 * 60 * 60

  /** What a joiner is handed: the root envelope, the state standing there
      unless the root is the `Init` itself, and the weight promised. */
  datatype Welcomed = Welcomed(root: Envelope, state: Option<State>, weight: u32)

  class Sponsor {
    const core: Core
    const invites: Invites
    ghost var clock: int

    ghost predicate Valid()
      reads this, core, core.storage, core.chain, core.subscriptions, invites
    {
      core.Valid() && forall p :: p in invites.pending && p.expires > clock ==> p.root == core.oldest
    }

    ghost function AtDesk(): Desk
      reads this, core, invites
    {
      Desk(core.oldest, invites.pending, clock)
    }

    constructor (core: Core, horizon: int, ghost now: int)
      requires core.Valid()
      ensures Valid() && this.core == core && fresh(invites) && AtDesk() == Desk(core.oldest, [], now)
    {
      this.core, clock := core, now;
      invites := new Invites(horizon);
    }

    /** Issues an invite onto the chain as it is rooted now. */
    method CreateInvite(token: Token, weight: u32, ttl: nat, now: int) returns (root: Digest)
      requires Valid() && clock <= now
      modifies this, invites
      ensures Valid() && root == core.oldest
      ensures Happens(old(AtDesk()),
                   Issues(token, weight,
                          Expiry(now, if ttl <= MAX_INVITE_TTL then ttl else MAX_INVITE_TTL, invites.horizon), now),
                   AtDesk())
      ensures var lasts, pending := if ttl <= 86_400 then ttl else 86_400, invites.pending;
              pending != [] && pending[|pending| - 1] ==
              Pending(token, weight, if now + lasts > invites.horizon then now else now + lasts, root)
    {
      hide Core.Valid;
      invites.Issue(token, weight, if ttl <= MAX_INVITE_TTL then ttl else MAX_INVITE_TTL, now, core.oldest);
      clock := now;
      return core.oldest;
    }

    /** Redeems a token. A joiner welcomed is handed the envelope its invite
        pinned and the state standing there. */
    method RedeemInvite(token: Token, now: int) returns (r: Result<Welcomed, RedeemError>)
      requires Valid() && clock <= now
      modifies this, invites
      ensures Valid()
      ensures Happens(old(AtDesk()),
                      Redeemed(token, now, if r.Ok? then Ok(r.value.weight) else Err(r.error), core.oldest), AtDesk())
      ensures r.Ok? ==>
                && (exists p :: p in old(invites.pending) && p.token == token && now < p.expires
                                && p.root == r.value.root.digest && p.weight == r.value.weight)
                && r.value.root.digest in core.storage.versions
                && r.value.state == (if r.value.root.digest.payload.Init? then None
                                     else Some(core.storage.versions[r.value.root.digest]))
    {
      hide Core.Valid;
      hide Redeems;
      ghost var before := invites.pending;
      var redeemed := invites.Redeem(token, now);
      forall p | p in invites.pending ensures p in before { KeptIn(before, token, now, redeemed, invites.pending, p); }
      clock := now;
      if redeemed.Err? {
        return Err(redeemed.error);
      }
      RedeemedWas(before, token, now, redeemed, invites.pending);
      RootHeld(core);
      var root := core.storage.envelopes[core.oldest].envelope;
      var state := if root.digest.payload.Init? then None else Some(core.storage.versions[core.oldest]);
      return Ok(Welcomed(root, state, redeemed.value));
    }

    /** Compacts, keeping back to every root an outstanding invite promised. On
        tidy books no such root moves. On what an interrupted prune left the
        root may be put further back, and what was promised is still held. */
    method Compact(cutoff: Option<int>, keep: nat, minPrune: nat, now: int) returns (r: Result<Compacted, Error>)
      requires Valid() && clock <= now && keep >= 1
      modifies this, core`oldest, core`recorded, core.chain`root, core.storage
      ensures invites.pending == old(invites.pending) && clock == now
      ensures forall p :: p in invites.pending && p.expires > now ==>
                IsAncestor(core.oldest, p.root) && p.root in core.storage.envelopes
      ensures old(core.Tidied()) ==> Valid() && core.Tidied() && Happens(old(AtDesk()), Compacts(now), AtDesk())
      ensures old(core.Tidied()) && (exists p :: p in invites.pending && p.expires > now) ==>
                core.oldest == old(core.oldest)
    {
      hide Core.Valid;
      hide Core.Tidied;
      hide CutTo;
      hide CutDown;
      hide Footed;
      hide IsHeldPath;
      hide Prunable;
      hide ChosenCut;
      hide MemStorage.Valid;
      RootHeld(core);
      ghost var before, oldest := BooksOf(core.storage), core.oldest;
      var pinned := invites.PinnedRoots(now);
      ghost var path;
      r, path := core.CompactBefore(cutoff, keep, minPrune, pinned);
      clock := now;
      forall p | p in invites.pending && p.expires > now
        ensures p.root == oldest && p.root in pinned
        ensures IsAncestor(core.oldest, p.root) && p.root in core.storage.envelopes
      {
        if r.value.pruned > 0 { PromiseHeld(before, BooksOf(core.storage), core.oldest, core.chain.head, p.root); }
      }
    }

    method Insert(batch: seq<Envelope>, now: int, storedAt: int) returns (r: Result<Chains.Insert, Error>)
      requires Valid() && clock <= now && DigestsPin(core.storage.envelopes.Keys + Offered(batch))
      modifies this, core`seen, core`quiet, core.storage, core.chain`head, core.subscriptions
      ensures Valid() && (old(core.Tidied()) ==> core.Tidied())
      ensures Happens(old(AtDesk()), Inserts(now), AtDesk())
    {
      hide Core.Valid;
      hide Core.Tidied;
      hide StoreAll;
      hide AllMove;
      r := core.Insert(batch, storedAt);
      clock := now;
    }
  }

  lemma PromiseHeld(b: Books, c: Books, to: Digest, head: Digest, d: Digest)
    requires CutDown(b, c, to, head) && d in b.entries && IsAncestor(to, d)
    ensures d in c.entries
  {
    PrunedAbove(b.entries, to, d);
  }

  lemma RedeemedWas(before: seq<Pending>, token: Token, now: int, r: Result<u32, RedeemError>, after: seq<Pending>)
    requires Redeems(before, token, now, r, after) && r.Ok?
    ensures exists p :: p in before && p.token == token && now < p.expires && p.weight == r.value
  {
    var i: nat :| IsLast(before, token, i)
      && r == (if before[i].expires <= now then Err(Expired) else Ok(before[i].weight));
    assert before[i] in before;
  }

  lemma RootHeld(core: Core)
    requires core.Valid()
    ensures core.oldest in core.storage.envelopes && core.storage.envelopes[core.oldest].envelope.digest == core.oldest
    ensures core.oldest in core.storage.versions
  {
    hide Core.Valid;
    hide Replay;
    hide StatusOn;
    hide RulesHold;
    CoreFacts(core);
  }
}
