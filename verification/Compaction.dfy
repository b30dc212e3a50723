/** Pruning below a cut, one removal at a time, so that an interruption
    anywhere loses nothing (crates/state/src/chain.rs, `compact`). */
module Compaction {
  import opened Wire
  import opened Lineage
  import opened Pruning
  import opened Storage

  method Unvisited(kids: set<Digest>) returns (visits: seq<Visit>)
    ensures ListsKids(visits, kids)
  {
    visits := [];
    var left := kids;
    while left != {}
      invariant left <= kids && ListsKids(visits, kids - left)
    {
      var child :| child in left;
      ghost var before := visits;
      left := left - {child};
      visits := visits + [Visit(child, false)];
      assert visits[|before|] == Visit(child, false);
      assert forall v :: v in before ==> v in visits;
    }
    assert kids - left == kids;
  }

  /** What is left of a log still stands on what it stood on: only the cut's
      own line loses parents, and that from the oldest end. */
  ghost predicate Upright(log: set<Digest>, left: set<Digest>, cut: Digest) {
    && (forall d :: d in left && d.Prev().Some? && d.Prev().value in log ==>
          d.Prev().value in left || IsAncestor(d, cut))
    && (forall a, p :: a in left && a in Named(log, cut) && p in log && IsAncestor(a, p) && IsAncestor(p, cut) ==>
          p in left)
  }

  /** Removing what only the cut's line builds on, and on that line only the
      oldest, leaves the rest standing. */
  lemma UprightWithout(log: set<Digest>, left: set<Digest>, cut: Digest, x: Digest)
    requires Upright(log, left, cut)
    requires forall y :: y in KidsIn(left, x) ==> IsAncestor(y, cut)
    requires IsAncestor(x, cut) && x.Prev().Some? ==> x.Prev().value !in left
    ensures Upright(log, left - {x}, cut)
  {
    forall d | d in left - {x} && d.Prev().Some? && d.Prev().value in log
      ensures d.Prev().value in left - {x} || IsAncestor(d, cut)
    {
      if d.Prev().value == x { assert d in KidsIn(left, x); }
    }
    forall a, p | a in left - {x} && a in Named(log, cut) && p in log && IsAncestor(a, p) && IsAncestor(p, cut)
      ensures p in left - {x}
    {
      if p == x { NothingOlder(log, left, cut, a, x); }
    }
  }

  lemma NothingOlder(log: set<Digest>, left: set<Digest>, cut: Digest, a: Digest, x: Digest)
    requires Upright(log, left, cut) && a in left && a in Named(log, cut) && IsAncestor(a, x) && IsAncestor(x, cut)
    requires x.Prev().Some? ==> x.Prev().value !in left
    ensures a == x
  {
    if a != x {
      AncestorHeight(a, x);
      var p := x.Prev().value;
      AncestorTransitive(p, x, cut);
      if a != p {
        AncestorHeight(a, p);
        NamedThrough(log, a, p, cut);
      }
    }
  }

  /** A log part-way through pruning `log` below `cut`: nothing is altered,
      what is left stands upright, and finishing from here ends where
      finishing from `log` does. */
  ghost predicate PartWay(log: Entries, left: Entries, cut: Digest) {
    && left.Keys <= log.Keys
    && (forall d :: d in left ==> left[d] == log[d])
    && Upright(log.Keys, left.Keys, cut)
    && AfterPrune(left.Keys, cut) == AfterPrune(log.Keys, cut)
  }

  /** The store is part-way through pruning what `log` holds, no version lost
      yet, and so it was at every write since the trail was `trail`. */
  ghost predicate Resumable(left: Books, since: seq<Books>, log: Books, cut: Digest, trail: seq<Books>) {
    && Undergoes(log, left, cut)
    && |since| >= |trail| && since[..|trail|] == trail
    && forall i :: |trail| <= i < |since| ==> Undergoes(log, since[i], cut)
  }

  ghost predicate Undergoes(log: Books, left: Books, cut: Digest) {
    left.versions == log.versions && PartWay(log.entries, left.entries, cut)
  }

  /** One more removal that leaves the outcome alone. */
  method Drop(storage: MemStorage, digest: Digest, ghost log: Books, ghost cut: Digest, ghost trail: seq<Books>)
    requires storage.Valid() && Resumable(BooksOf(storage), storage.trail, log, cut, trail)
    requires AfterPrune(storage.envelopes.Keys - {digest}, cut) == AfterPrune(storage.envelopes.Keys, cut)
    requires forall y :: y in KidsIn(storage.envelopes.Keys, digest) ==> IsAncestor(y, cut)
    requires IsAncestor(digest, cut) && digest.Prev().Some? ==> digest.Prev().value !in storage.envelopes
    modifies storage`envelopes, storage`children, storage`trail
    ensures storage.Valid() && storage.envelopes == old(storage.envelopes) - {digest}
    ensures Resumable(BooksOf(storage), storage.trail, log, cut, trail)
  {
    hide AfterPrune;
    hide Upright;
    UprightWithout(log.entries.Keys, storage.envelopes.Keys, cut, digest);
    storage.RemoveEnvelope(digest);
    assert storage.envelopes.Keys == old(storage.envelopes.Keys) - {digest};
  }

  /** Removes a dead branch, children before their parent. At every removal
      along the way, finishing the compaction from there ends in the same
      log. */
  method RemoveSubtree(storage: MemStorage, top: Digest, ghost log: Books, ghost cut: Digest, ghost trail: seq<Books>)
      returns (removed: nat)
    requires storage.Valid() && DeadBranch(storage.envelopes.Keys, cut, top)
             && Resumable(BooksOf(storage), storage.trail, log, cut, trail)
    modifies storage`envelopes, storage`children, storage`trail
    ensures storage.Valid() && Resumable(BooksOf(storage), storage.trail, log, cut, trail)
    ensures storage.envelopes == old(storage.envelopes) - Branch(old(storage.envelopes.Keys), top)
    ensures removed == |Branch(old(storage.envelopes.Keys), top)|
  {
    hide Sweep;
    hide Thinned;
    hide Resumable;
    hide DeadBranch;
    hide Branch;
    hide KidsIn;
    hide AfterPrune;
    hide MemStorage.Valid;
    ghost var keys, log0 := storage.envelopes.Keys, storage.envelopes;
    ghost var expanded: set<Digest>, gone: set<Digest> := {}, {};
    removed := 0;
    var stack := [Visit(top, false)];
    BranchHolds(keys, cut, top);
    SweepStarts(keys, top);
    ThinnedStart(keys, cut);
    assert log0 - gone == log0;
    while stack != []
      invariant storage.Valid() && storage.envelopes == log0 - gone && removed == |gone|
      invariant Sweep(keys, top, stack, expanded, gone)
      invariant Thinned(keys, storage.envelopes.Keys, cut)
      invariant Resumable(BooksOf(storage), storage.trail, log, cut, trail)
      decreases Branch(keys, top) - gone, Branch(keys, top) - expanded
    {
      var visit := stack[|stack| - 1];
      var rest := stack[..|stack| - 1];
      assert stack == rest + [visit];
      assert storage.envelopes.Keys == keys - gone;
      var at := visit.at;
      if visit.expanded {
        SweepRemoves(keys, top, rest, at, expanded, gone);
        KidsGone(keys, gone, at);
        ThinnedByTip(keys, keys - gone, cut, top, at);
        Drop(storage, at, log, cut, trail);
        assert log0 - gone - {at} == log0 - (gone + {at});
        assert storage.envelopes.Keys == keys - gone - {at};
        gone := gone + {at};
        removed := removed + 1;
        stack := rest;
      } else {
        var children := storage.Children(at);
        KidsUntouched(keys, top, stack, expanded, gone, rest, at);
        var visits := Unvisited(children);
        SweepExpands(keys, top, rest, at, visits, expanded, gone);
        expanded := expanded + {at};
        stack := rest + [Visit(at, true)] + visits;
      }
    }
    SweepEnds(keys, top, expanded, gone);
  }

  lemma KidsGone(keys: set<Digest>, gone: set<Digest>, at: Digest)
    requires KidsIn(keys, at) <= gone
    ensures KidsIn(keys - gone, at) == {}
  {
    assert forall y :: y in KidsIn(keys - gone, at) ==> y in KidsIn(keys, at);
  }

  lemma BranchHolds(keys: set<Digest>, cut: Digest, top: Digest)
    requires DeadBranch(keys, cut, top)
    ensures top in keys
  {
  }

  lemma ThinnedStart(keys: set<Digest>, cut: Digest)
    ensures Thinned(keys, keys, cut)
  {
  }

  /** Nothing that builds on an unexpanded envelope has been removed. */
  lemma KidsUntouched(keys: set<Digest>, top: Digest, stack: seq<Visit>, expanded: set<Digest>, gone: set<Digest>,
                      rest: seq<Visit>, at: Digest)
    requires Sweep(keys, top, stack, expanded, gone) && stack == rest + [Visit(at, false)]
    ensures KidsIn(keys - gone, at) == KidsIn(keys, at)
  {
    assert stack[|rest|] == Visit(at, false);
    forall y | y in KidsIn(keys, at) ensures y !in gone {
      BranchKids(keys, top, at, y);
    }
  }

  /** The envelopes from `head` down to `cut`, as the log links them; none if
      the climb ends without naming `cut`. */
  method PathDown(storage: MemStorage, head: Digest, cut: Digest) returns (keep: Option<seq<Digest>>)
    ensures keep.Some? <==> cut in Named(storage.envelopes.Keys, head)
    ensures keep.Some? ==> forall d :: d in keep.value <==> IsAncestor(cut, d) && IsAncestor(d, head)
  {
    ghost var keys := storage.envelopes.Keys;
    var path, at := [head], head;
    forall d ensures d in path <==> IsAncestor(at, d) && IsAncestor(d, head) {
      if IsAncestor(at, d) && IsAncestor(d, head) { AncestorAntisymmetric(d, head); }
    }
    while at != cut
      invariant cut in Named(keys, head) <==> cut in Named(keys, at)
      invariant IsAncestor(at, head)
      invariant forall d :: d in path <==> IsAncestor(at, d) && IsAncestor(d, head)
      decreases at
    {
      var parent := storage.Parent(at);
      if parent.None? {
        return None;
      }
      forall d ensures d in path + [parent.value] <==> IsAncestor(parent.value, d) && IsAncestor(d, head) {
        PathDownStep(parent.value, at, d, head);
      }
      at := parent.value;
      path := path + [at];
    }
    return Some(path);
  }

  lemma PathDownStep(parent: Digest, at: Digest, d: Digest, head: Digest)
    requires at.Prev() == Some(parent) && IsAncestor(at, head)
    ensures IsAncestor(parent, d) && IsAncestor(d, head) <==>
            d == parent || (IsAncestor(at, d) && IsAncestor(d, head))
    ensures IsAncestor(parent, head)
  {
    AncestorTransitive(parent, at, head);
    if IsAncestor(at, d) { AncestorTransitive(parent, at, d); }
    if IsAncestor(parent, d) && IsAncestor(d, head) && d != parent {
      AncestorsComparable(at, d, head);
      if IsAncestor(d, at) && d != at {
        AncestorHeight(parent, d);
        AncestorHeight(d, at);
        AncestorHeight(d, parent);
      }
    }
  }

  /** The line under the cut, parent by parent, ending with the first digest
      nothing is stored for. */
  method AncestorLine(storage: MemStorage, cut: Digest) returns (line: seq<Digest>)
    ensures IsLine(storage.envelopes.Keys, cut, line)
  {
    line := [];
    var at := cut;
    while true
      invariant at == LineChild(cut, line, |line|)
      invariant LinkedLine(cut, line)
      invariant forall i :: 0 <= i < |line| ==> LineChild(cut, line, i) in storage.envelopes
      decreases at
    {
      var parent := storage.Parent(at);
      if parent.None? {
        return;
      }
      ghost var before := line;
      line := line + [parent.value];
      assert forall i :: 0 <= i <= |before| ==> LineChild(cut, line, i) == LineChild(cut, before, i);
      forall i: nat | i < |line| ensures Links(cut, line, i) {
        if i < |before| { assert Links(cut, before, i); }
      }
      at := parent.value;
    }
  }

  lemma BranchCounts(keys: set<Digest>, top: Digest)
    ensures |keys - Branch(keys, top)| + |Branch(keys, top)| == |keys|
  {
    assert keys == (keys - Branch(keys, top)) + Branch(keys, top);
  }

  /** Removes every branch that hangs from an ancestor beside the line. */
  method ClearBranches(storage: MemStorage, cut: Digest, line: seq<Digest>, k: nat, ghost log: Books,
                       ghost trail: seq<Books>)
      returns (pruned: nat)
    requires storage.Valid() && Resumable(BooksOf(storage), storage.trail, log, cut, trail)
    requires LineState(storage.envelopes.Keys, cut, line, k) && k > 0
    modifies storage`envelopes, storage`children, storage`trail
    ensures storage.Valid() && Resumable(BooksOf(storage), storage.trail, log, cut, trail)
    ensures LineState(storage.envelopes.Keys, cut, line, k)
    ensures KidsIn(storage.envelopes.Keys, line[k - 1]) <= {LineChild(cut, line, k - 1)}
    ensures line[k - 1] in storage.envelopes <==> line[k - 1] in old(storage.envelopes)
    ensures pruned + |storage.envelopes.Keys| == |old(storage.envelopes.Keys)|
  {
    hide Resumable;
    hide AfterPrune;
    hide DeadBranch;
    hide Branch;
    hide Cleared;
    hide MemStorage.Valid;
    var ancestor := line[k - 1];
    var left := storage.Children(ancestor);
    ghost var onLine := LineChild(cut, line, k - 1);
    pruned := 0;
    while left != {}
      invariant storage.Valid() && Resumable(BooksOf(storage), storage.trail, log, cut, trail)
      invariant LineState(storage.envelopes.Keys, cut, line, k)
      invariant left <= KidsIn(storage.envelopes.Keys, ancestor) <= left + {onLine}
      invariant ancestor in old(storage.envelopes) <==> ancestor in storage.envelopes
      invariant pruned + |storage.envelopes.Keys| == |old(storage.envelopes.Keys)|
    {
      var child :| child in left;
      if child != cut && child !in line {
        ghost var keys := storage.envelopes.Keys;
        DeadHead(keys, cut, line, k, child);
        BranchSwept(keys, cut, line, k, child);
        BranchCounts(keys, child);
        var removed := RemoveSubtree(storage, child, log, cut, trail);
        assert storage.envelopes.Keys == keys - Branch(keys, child);
        pruned := pruned + removed;
      } else {
        OnlyLineChild(cut, line, k - 1, child);
      }
      left := left - {child};
    }
  }

  /** Prunes the oldest standing ancestor: its dead branches, then itself. */
  method PruneAncestor(storage: MemStorage, cut: Digest, line: seq<Digest>, k: nat, ghost log: Books,
                       ghost trail: seq<Books>)
      returns (pruned: nat)
    requires storage.Valid() && Resumable(BooksOf(storage), storage.trail, log, cut, trail)
    requires LineState(storage.envelopes.Keys, cut, line, k) && k > 0
    requires k == |line| ==> line[k - 1] !in storage.envelopes || line[k - 1].Prev().None?
    modifies storage`envelopes, storage`children, storage`trail
    ensures storage.Valid() && Resumable(BooksOf(storage), storage.trail, log, cut, trail)
    ensures LineState(storage.envelopes.Keys, cut, line, k - 1)
    ensures pruned + |storage.envelopes| == |old(storage.envelopes)|
  {
    hide Resumable;
    hide AfterPrune;
    hide KidsIn;
    hide MemStorage.Valid;
    var ancestor := line[k - 1];
    pruned := ClearBranches(storage, cut, line, k, log, trail);
    ghost var keys := storage.envelopes.Keys;
    AncestorDropped(keys, cut, line, k);
    if k < |line| || ancestor in storage.envelopes {
      assert ancestor == LineChild(cut, line, k);
      Drop(storage, ancestor, log, cut, trail);
      assert storage.envelopes.Keys == keys - {ancestor};
      pruned := pruned + 1;
    } else {
      assert keys - {ancestor} == keys;
    }
    assert |storage.envelopes| == |storage.envelopes.Keys|;
  }
}
