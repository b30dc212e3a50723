/** Node-to-node sync: a node streams its canonical path in bounded segments
    from a point its peer already holds, and the peer stores what applies
    (crates/lotusd/src/core.rs, crates/sync). */
module Sync {
  import opened Wire
  import opened Lineage
  import opened Storage

  const MAX_BATCH_ENVELOPES: nat := 256
  const SEGMENT_BYTE_BUDGET: nat := 0x100_0000 - 1024

  /** The envelopes built on `after` one by one up to `head`, parent first. */
  ghost predicate IsSuffix(after: Digest, head: Digest, run: seq<Digest>) {
    Linked(after, run) && Before(after, run, |run|) == head
  }

  function Bytes(size: Digest -> nat, run: seq<Digest>): nat {
    if run == [] then 0 else Bytes(size, run[..|run| - 1]) + size(run[|run| - 1])
  }

  /** All that lies between `after` and the head, parent first; none where the
      climb never gets to `after`. */
  method Newer(storage: MemStorage, head: Digest, after: Digest) returns (run: Option<seq<Digest>>)
    ensures run.Some? <==> after in Named(storage.envelopes.Keys, head)
    ensures run.Some? ==> IsSuffix(after, head, run.value)
    ensures run.Some? ==> forall d :: d in run.value ==> d in storage.envelopes
  {
    ghost var keys := storage.envelopes.Keys;
    var up: seq<Digest>, at := [], head;
    LinkedNone(head);
    while at != after
      invariant after in Named(keys, head) <==> after in Named(keys, at)
      invariant IsSuffix(at, head, up)
      invariant forall d :: d in up ==> d in storage.envelopes
      decreases at
    {
      var parent := storage.Parent(at);
      if parent.None? {
        return None;
      }
      SuffixDown(parent.value, at, head, up);
      up := [at] + up;
      at := parent.value;
    }
    return Some(up);
  }

  lemma SuffixDown(parent: Digest, at: Digest, head: Digest, up: seq<Digest>)
    requires at.Prev() == Some(parent) && IsSuffix(at, head, up)
    ensures IsSuffix(parent, head, [at] + up)
  {
    var more := [at] + up;
    forall i: nat | i < |more| ensures Follows(parent, more, i) {
      if i > 0 {
        assert Follows(at, up, i - 1);
        assert Before(parent, more, i) == Before(at, up, i - 1);
      }
    }
  }

  /** The first `i` of a run are within the budget, or just one; `left` of it
      is left. */
  ghost predicate Within(size: Digest -> nat, run: seq<Digest>, i: nat, left: nat)
    requires i <= |run|
  {
    var used := Bytes(size, run[..i]);
    && left == (if used <= SEGMENT_BYTE_BUDGET then SEGMENT_BYTE_BUDGET - used else 0)
    && (i > 1 ==> used <= SEGMENT_BYTE_BUDGET)
  }

  lemma OneMoreWithin(size: Digest -> nat, run: seq<Digest>, i: nat, left: nat)
    requires i < |run| && Within(size, run, i, left) && size(run[i]) >= 1
    ensures i == 0 || size(run[i]) <= left ==>
              Within(size, run, i + 1, if size(run[i]) <= left then left - size(run[i]) else 0)
    ensures i > 0 && size(run[i]) > left ==> Bytes(size, run[..i + 1]) > SEGMENT_BYTE_BUDGET
  {
    assert run[..i + 1][..i] == run[..i];
  }

  lemma NoneWithin(size: Digest -> nat, run: seq<Digest>)
    ensures Within(size, run, 0, SEGMENT_BYTE_BUDGET)
  {
  }

  lemma WithinFacts(size: Digest -> nat, run: seq<Digest>, i: nat, left: nat)
    requires i <= |run| && Within(size, run, i, left)
    ensures i > 1 ==> Bytes(size, run[..i]) <= SEGMENT_BYTE_BUDGET
  {
  }

  /** One answer to a puller at `after`: a prefix of what is newer, empty only
      when nothing is, within the bytes unless it is a single envelope, and
      ending only at the head or where a budget is used up. A cursor off the
      path gets nothing. */
  method Segment(storage: MemStorage, head: Digest, after: Digest, size: Digest -> nat)
      returns (segment: seq<Envelope>, ghost run: seq<Digest>)
    requires storage.Valid() && forall d :: size(d) >= 1
    ensures after !in Named(storage.envelopes.Keys, head) ==> segment == []
    ensures after in Named(storage.envelopes.Keys, head) ==>
              && IsSuffix(after, head, run)
              && |segment| <= |run| && |segment| <= MAX_BATCH_ENVELOPES
              && (segment == [] <==> run == [])
              && (forall i :: 0 <= i < |segment| ==>
                    && run[i] in storage.envelopes && segment[i] == storage.envelopes[run[i]].envelope
                    && segment[i].digest == run[i])
              && (|segment| > 1 ==> Bytes(size, run[..|segment|]) <= SEGMENT_BYTE_BUDGET)
              && (|segment| < |run| && |segment| < MAX_BATCH_ENVELOPES ==>
                    Bytes(size, run[..|segment| + 1]) > SEGMENT_BYTE_BUDGET)
  {
    hide Within;
    hide Bytes;
    hide Named;
    hide IsSuffix;
    segment, run := [], [];
    var newer := Newer(storage, head, after);
    if newer.None? {
      return;
    }
    run := newer.value;
    var up := newer.value;
    var budget := SEGMENT_BYTE_BUDGET;
    var i := 0;
    NoneWithin(size, up);
    while i < |up| && i < MAX_BATCH_ENVELOPES
      invariant 0 <= i <= |up| && i <= MAX_BATCH_ENVELOPES && |segment| == i
      invariant forall j :: 0 <= j < i ==>
                  segment[j] == storage.envelopes[up[j]].envelope && segment[j].digest == up[j]
      invariant Within(size, up, i, budget)
    {
      assert up[i] in up;
      var envelope := storage.envelopes[up[i]].envelope;
      var cost := size(up[i]);
      OneMoreWithin(size, up, i, budget);
      WithinFacts(size, up, i, budget);
      if segment != [] && cost > budget {
        return;
      }
      budget := if cost <= budget then budget - cost else 0;
      segment := segment + [envelope];
      i := i + 1;
    }
    WithinFacts(size, up, i, budget);
  }

  // ---------------------------------------------------------------------
  // Streaming

  function DigestsOf(batch: seq<Envelope>): seq<Digest> {
    seq(|batch|, i requires 0 <= i < |batch| => batch[i].digest)
  }

  function Flat(segments: seq<seq<Envelope>>): seq<Envelope> {
    if segments == [] then [] else Flat(segments[..|segments| - 1]) + segments[|segments| - 1]
  }

  lemma FlatMore(segments: seq<seq<Envelope>>, segment: seq<Envelope>)
    ensures Flat(segments + [segment]) == Flat(segments) + segment
    ensures DigestsOf(Flat(segments + [segment])) == DigestsOf(Flat(segments)) + DigestsOf(segment)
  {
    assert (segments + [segment])[..|segments|] == segments;
  }

  /** Not empty, of at most 256 envelopes, and within the bytes unless of one. */
  ghost predicate WithinBudgets(size: Digest -> nat, segment: seq<Envelope>) {
    && segment != [] && |segment| <= MAX_BATCH_ENVELOPES
    && (|segment| > 1 ==> Bytes(size, DigestsOf(segment)) <= SEGMENT_BYTE_BUDGET)
  }

  /** What was sent so far, up to `at`. */
  ghost predicate Streamed(entries: Entries, head: Digest, after: Digest, at: Digest, segments: seq<seq<Envelope>>) {
    var sent := DigestsOf(Flat(segments));
    && Linked(after, sent) && Before(after, sent, |sent|) == at && at in Named(entries.Keys, head)
    && forall d :: d in sent ==> d in entries
  }

  /** One more segment moves the cursor to its last envelope, nearer to the
      head. */
  lemma StreamGoesOn(entries: Entries, head: Digest, after: Digest, at: Digest, segments: seq<seq<Envelope>>,
                     segment: seq<Envelope>, run: seq<Digest>)
    requires Streamed(entries, head, after, at, segments) && IsSuffix(at, head, run)
    requires segment != [] && |segment| <= |run|
    requires forall i :: 0 <= i < |segment| ==> run[i] in entries && segment[i].digest == run[i]
    ensures var last := segment[|segment| - 1].digest;
            && Streamed(entries, head, after, last, segments + [segment])
            && Height(at) < Height(last) <= Height(head)
    ensures DigestsOf(segment) == run[..|segment|]
  {
    hide Named;
    hide IsAncestor;
    hide Height;
    var sent, taken, last := DigestsOf(Flat(segments)), DigestsOf(segment), segment[|segment| - 1].digest;
    assert taken == run[..|segment|];
    LinkedMore(at, run, |segment| - 1);
    LinkedJoin(after, sent, taken);
    FlatMore(segments, segment);
    RunUnder(at, run, |segment| - 1);
    RunOver(at, run, |segment| - 1);
    AncestorHeight(last, head);
    NamedThrough(entries.Keys, at, last, head);
  }

  /** Asking again after the last envelope sent, until there is nothing more:
      on any store, from any digest the climb from the head names, that ends,
      and what was sent is the canonical path from there to the head, parent
      first, each envelope once, in segments within the budgets. */
  method Stream(storage: MemStorage, head: Digest, after: Digest, size: Digest -> nat)
      returns (segments: seq<seq<Envelope>>)
    requires storage.Valid() && after in Named(storage.envelopes.Keys, head) && forall d :: size(d) >= 1
    ensures IsSuffix(after, head, DigestsOf(Flat(segments)))
    ensures forall d :: d in DigestsOf(Flat(segments)) ==> d in storage.envelopes
    ensures forall segment :: segment in segments ==> WithinBudgets(size, segment)
    ensures forall segment :: segment in segments ==>
              0 < |segment| <= 256 && (|segment| > 1 ==> Bytes(size, DigestsOf(segment)) <= 16_776_192)
  {
    hide Named;
    hide Streamed;
    hide WithinBudgets;
    hide Bytes;
    hide Height;
    hide MemStorage.Valid;
    ghost var entries := storage.envelopes;
    var at := after;
    segments := [];
    NoneStreamed(entries, head, after);
    var segment, run := Segment(storage, head, at, size);
    while segment != []
      invariant Streamed(entries, head, after, at, segments)
      invariant IsSuffix(at, head, run) && |segment| <= |run| && (segment == [] <==> run == [])
      invariant forall i :: 0 <= i < |segment| ==> run[i] in entries && segment[i].digest == run[i]
      invariant |segment| <= MAX_BATCH_ENVELOPES
      invariant |segment| > 1 ==> Bytes(size, run[..|segment|]) <= SEGMENT_BYTE_BUDGET
      invariant forall s :: s in segments ==> WithinBudgets(size, s)
      decreases Height(head) - Height(at)
    {
      StreamGoesOn(entries, head, after, at, segments, segment, run);
      BudgetsKept(size, segment, run);
      at := segment[|segment| - 1].digest;
      segments := segments + [segment];
      StreamNames(entries, head, after, at, segments);
      segment, run := Segment(storage, head, at, size);
    }
    StreamEnds(entries, head, after, at, segments);
    forall s | s in segments
      ensures 0 < |s| <= 256 && (|s| > 1 ==> Bytes(size, DigestsOf(s)) <= 16_776_192)
    {
      BudgetsExactly(size, s);
    }
  }

  lemma BudgetsExactly(size: Digest -> nat, segment: seq<Envelope>)
    ensures WithinBudgets(size, segment) <==>
            0 < |segment| <= 256 && (|segment| > 1 ==> Bytes(size, DigestsOf(segment)) <= 16_776_192)
  {
  }

  /** The bytes of a run are those of its envelopes, added up. */
  lemma {:induction false} BytesSum(size: Digest -> nat, run: seq<Digest>)
    ensures exists sums: seq<nat> ::
              && |sums| == |run| + 1 && sums[0] == 0 && sums[|run|] == Bytes(size, run)
              && forall i :: 0 <= i < |run| ==> sums[i + 1] == sums[i] + size(run[i])
    decreases |run|
  {
    if run == [] {
      var sums: seq<nat> := [0];
      assert |sums| == |run| + 1;
    } else {
      var first := run[..|run| - 1];
      BytesSum(size, first);
      var upTo: seq<nat> :|
        && |upTo| == |first| + 1 && upTo[0] == 0 && upTo[|first|] == Bytes(size, first)
        && forall i :: 0 <= i < |first| ==> upTo[i + 1] == upTo[i] + size(first[i]);
      var sums := upTo + [Bytes(size, run)];
      assert |sums| == |run| + 1 && sums[|run|] == Bytes(size, run);
      forall i | 0 <= i < |run| ensures sums[i + 1] == sums[i] + size(run[i]) {
        if i < |first| { assert run[i] == first[i]; }
      }
    }
  }

  /** The suffix above a digest: each builds on the one before it, the first on
      that digest, and the last is the head. */
  lemma SuffixExactly(after: Digest, head: Digest, run: seq<Digest>)
    ensures IsSuffix(after, head, run) <==>
            && head == (if run == [] then after else run[|run| - 1])
            && forall i :: 0 <= i < |run| ==> run[i].Prev() == Some(if i == 0 then after else run[i - 1])
  {
    if forall i :: 0 <= i < |run| ==> run[i].Prev() == Some(if i == 0 then after else run[i - 1]) {
      forall i: nat | i < |run| ensures Follows(after, run, i) {
        assert run[i].Prev() == Some(if i == 0 then after else run[i - 1]);
      }
    }
    if Linked(after, run) {
      forall i | 0 <= i < |run| ensures run[i].Prev() == Some(if i == 0 then after else run[i - 1]) {
        assert Follows(after, run, i);
      }
    }
  }

  lemma NoneStreamed(entries: Entries, head: Digest, after: Digest)
    requires after in Named(entries.Keys, head)
    ensures Streamed(entries, head, after, after, [])
  {
    LinkedNone(after);
  }

  lemma BudgetsKept(size: Digest -> nat, segment: seq<Envelope>, run: seq<Digest>)
    requires segment != [] && |segment| <= |run| && |segment| <= MAX_BATCH_ENVELOPES
             && DigestsOf(segment) == run[..|segment|]
    requires |segment| > 1 ==> Bytes(size, run[..|segment|]) <= SEGMENT_BYTE_BUDGET
    ensures WithinBudgets(size, segment)
  {
  }

  lemma StreamNames(entries: Entries, head: Digest, after: Digest, at: Digest, segments: seq<seq<Envelope>>)
    requires Streamed(entries, head, after, at, segments)
    ensures at in Named(entries.Keys, head)
  {
  }

  lemma StreamEnds(entries: Entries, head: Digest, after: Digest, at: Digest, segments: seq<seq<Envelope>>)
    requires Streamed(entries, head, after, at, segments) && IsSuffix(at, head, [])
    ensures IsSuffix(after, head, DigestsOf(Flat(segments)))
    ensures forall d :: d in DigestsOf(Flat(segments)) ==> d in entries
  {
  }
}
