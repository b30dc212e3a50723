/** A sponsor's book of invites (crates/lotusd/src/bootstrap.rs), and why what
    an invite promises is still there when it is redeemed. */
module Invites {
  import opened Wire

  const TOKEN_LEN: nat := 32

  type Token = t: seq<bv8> | |t| == TOKEN_LEN witness seq(TOKEN_LEN, _ => 0)

  /** Every bit in which two byte strings differ, folded into one byte. */
  function Differences(a: seq<bv8>, b: seq<bv8>): bv8
    requires |a| == |b|
  {
    if a == [] then 0
    else Differences(a[..|a| - 1], b[..|b| - 1]) | (a[|a| - 1] ^ b[|b| - 1])
  }

  /** Nothing differs exactly when the two are equal: no difference cancels
      another. */
  lemma {:induction false} NoDifference(a: seq<bv8>, b: seq<bv8>)
    requires |a| == |b|
    ensures Differences(a, b) == 0 <==> a == b
  {
    if a == [] {
    } else {
      var x, y, rest := a[|a| - 1], b[|b| - 1], Differences(a[..|a| - 1], b[..|b| - 1]);
      NoDifference(a[..|a| - 1], b[..|b| - 1]);
      BitsDiffer(rest, x, y);
      assert a == a[..|a| - 1] + [x] && b == b[..|b| - 1] + [y];
    }
  }

  lemma BitsDiffer(rest: bv8, x: bv8, y: bv8)
    ensures rest | (x ^ y) == 0 <==> rest == 0 && x == y
  {
  }

  predicate TokensMatch(a: Token, b: Token) {
    Differences(a, b) == 0
  }

  /** An invite nobody has come with yet. */
  datatype Pending = Pending(token: Token, weight: u32, expires: int, root: Digest)

  datatype RedeemError = Unknown | Expired

  /** Those not expired at `now`. */
  function Live(pending: seq<Pending>, now: int): (live: seq<Pending>)
    ensures forall p :: p in live <==> p in pending && p.expires > now
  {
    if pending == [] then []
    else
      var rest := Live(pending[..|pending| - 1], now);
      var last := pending[|pending| - 1];
      if last.expires > now then rest + [last] else rest
  }

  /** How many invites bear a token. */
  function Bearing(pending: seq<Pending>, token: Token): nat {
    if pending == [] then 0
    else Bearing(pending[..|pending| - 1], token) + if pending[|pending| - 1].token == token then 1 else 0
  }

  /** `i` is the last invite bearing the token. */
  ghost predicate IsLast(pending: seq<Pending>, token: Token, i: nat) {
    && i < |pending| && pending[i].token == token
    && forall j :: i < j < |pending| ==> pending[j].token != token
  }

  /** What redeeming does to the book: the last invite bearing the token goes,
      and then whatever has expired. */
  ghost predicate Redeems(before: seq<Pending>, token: Token, now: int, r: Result<u32, RedeemError>,
                          after: seq<Pending>) {
    if forall i :: 0 <= i < |before| ==> before[i].token != token then
      r == Err(Unknown) && after == Live(before, now)
    else
      exists i: nat ::
        && IsLast(before, token, i)
        && r == (if before[i].expires <= now then Err(Expired) else Ok(before[i].weight))
        && after == Live(before[..i] + before[i + 1..], now)
  }

  /** The roots that invites not expired at `now` promise. */
  function PinnedAt(pending: seq<Pending>, now: int): set<Digest> {
    set p | p in pending && p.expires > now :: p.root
  }

  /** When an invite lapses; one whose lifetime the clock cannot name has
      lapsed already. */
  function Expiry(now: int, ttl: nat, horizon: int): int {
    if now + ttl <= horizon then now + ttl else now
  }

  class Invites {
    var pending: seq<Pending>
    /** The last instant the clock can name. */
    const horizon: int

    constructor (horizon: int)
      ensures pending == [] && this.horizon == horizon
    {
      pending := [];
      this.horizon := horizon;
    }

    /** Records a fresh invite. */
    method Issue(token: Token, weight: u32, ttl: nat, now: int, root: Digest)
      modifies this
      ensures pending == Live(old(pending), now) +
                         [Pending(token, weight, Expiry(now, ttl, horizon), root)]
      ensures pending != [] && pending[|pending| - 1] ==
              Pending(token, weight, if now + ttl > horizon then now else now + ttl, root)
    {
      Prune(now);
      pending := pending + [Pending(token, weight, Expiry(now, ttl, horizon), root)];
    }

    /** Consumes the invite a token names. */
    method Redeem(token: Token, now: int) returns (r: Result<u32, RedeemError>)
      modifies this
      ensures Redeems(old(pending), token, now, r, pending)
    {
      ghost var before := pending;
      var found: Option<nat> := None;
      for i := 0 to |pending|
        invariant pending == before
        invariant match found
                  case None => forall j :: 0 <= j < i ==> before[j].token != token
                  case Some(k) =>
                    k < i && before[k].token == token && forall j :: k < j < i ==> before[j].token != token
      {
        NoDifference(pending[i].token, token);
        if TokensMatch(pending[i].token, token) {
          found := Some(i);
        }
      }
      match found {
        case None =>
          r := Err(Unknown);
        case Some(i) =>
          assert IsLast(before, token, i);
          var invite := pending[i];
          pending := pending[..i] + pending[i + 1..];
          r := if invite.expires <= now then Err(Expired) else Ok(invite.weight);
      }
      Prune(now);
    }

    method Prune(now: int)
      modifies this
      ensures pending == Live(old(pending), now)
    {
      var kept: seq<Pending> := [];
      for i := 0 to |pending|
        invariant pending == old(pending) && kept == Live(pending[..i], now)
      {
        assert pending[..i + 1][..i] == pending[..i];
        if pending[i].expires > now {
          kept := kept + [pending[i]];
        }
      }
      assert pending[..|pending|] == pending;
      pending := kept;
    }

    /** What compaction has to leave in place at `now`. */
    function PinnedRoots(now: int): set<Digest>
      reads this
    {
      PinnedAt(pending, now)
    }
  }

  /** The places of the unexpired. */
  function LivePlaces(pending: seq<Pending>, now: int): seq<nat> {
    if pending == [] then []
    else
      var rest, last := LivePlaces(pending[..|pending| - 1], now), |pending| - 1;
      if pending[last].expires > now then rest + [last] else rest
  }

  lemma {:induction false} LivePlacesAre(pending: seq<Pending>, now: int)
    ensures var at := LivePlaces(pending, now);
            && (forall k :: 0 <= k < |at| ==> at[k] < |pending|)
            && (forall j, k :: 0 <= j < k < |at| ==> at[j] < at[k])
            && (forall i: nat :: i < |pending| ==> (i in at <==> pending[i].expires > now))
    decreases |pending|
  {
    if pending == [] {
    } else {
      var first, n := pending[..|pending| - 1], |pending| - 1;
      LivePlacesAre(first, now);
      var rest, at := LivePlaces(first, now), LivePlaces(pending, now);
      assert at == if pending[n].expires > now then rest + [n] else rest;
      hide LivePlaces;
      forall i: nat | i < |pending| ensures i in at <==> pending[i].expires > now {
        if i < n {
          assert pending[i] == first[i];
          assert i in rest + [n] <==> i in rest;
        } else {
          assert i in rest + [n] && i !in rest;
        }
      }
    }
  }

  lemma {:induction false} LiveAt(pending: seq<Pending>, now: int)
    ensures var at, live := LivePlaces(pending, now), Live(pending, now);
            |at| == |live| && forall k :: 0 <= k < |at| ==> at[k] < |pending| && live[k] == pending[at[k]]
    decreases |pending|
  {
    if pending == [] {
    } else {
      LiveAt(pending[..|pending| - 1], now);
    }
  }

  /** What pruning keeps: every invite not yet expired, in order, once each. */
  lemma LiveInOrder(pending: seq<Pending>, now: int, live: seq<Pending>)
    requires live == Live(pending, now)
    ensures exists at: seq<nat> ::
              && |at| == |live|
              && (forall k :: 0 <= k < |at| ==> at[k] < |pending| && live[k] == pending[at[k]])
              && (forall j, k :: 0 <= j < k < |at| ==> at[j] < at[k])
              && (forall i: nat :: i < |pending| ==> (i in at <==> pending[i].expires > now))
  {
    LivePlacesAre(pending, now);
    LiveAt(pending, now);
    hide Live;
    hide LivePlaces;
    assert |LivePlaces(pending, now)| == |live|;
  }

  lemma OneLast(pending: seq<Pending>, token: Token, i: nat, k: nat)
    requires IsLast(pending, token, i) && IsLast(pending, token, k)
    ensures i == k
  {
  }

  /** A redeem looks at the last invite that bears the token, and at no other:
      unknown if there is none, expired or honoured by its own end. */
  lemma RedeemExactly(before: seq<Pending>, token: Token, now: int, r: Result<u32, RedeemError>, after: seq<Pending>)
    requires Redeems(before, token, now, r, after)
    ensures r == Err(Unknown) <==> forall i :: 0 <= i < |before| ==> before[i].token != token
    ensures forall i :: 0 <= i < |before| && before[i].token == token
                        && (forall j :: i < j < |before| ==> before[j].token != token) ==>
              && r == (if before[i].expires <= now then Err(Expired) else Ok(before[i].weight))
              && after == Live(before[..i] + before[i + 1..], now)
  {
    hide Live;
    if !forall i :: 0 <= i < |before| ==> before[i].token != token {
      var k: nat :|
        && IsLast(before, token, k)
        && r == (if before[k].expires <= now then Err(Expired) else Ok(before[k].weight))
        && after == Live(before[..k] + before[k + 1..], now);
      forall i | 0 <= i < |before| && before[i].token == token
                 && forall j :: i < j < |before| ==> before[j].token != token
        ensures r == (if before[i].expires <= now then Err(Expired) else Ok(before[i].weight))
        ensures after == Live(before[..i] + before[i + 1..], now)
      {
        assert IsLast(before, token, i);
        OneLast(before, token, i, k);
      }
    }
  }
}
