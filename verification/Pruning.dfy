/** What compaction dooms, and which single removals leave the outcome of
    the rest of it unchanged (crates/state/src/chain.rs, `compact`). */
module Pruning {
  import opened Wire
  import opened Lineage

  /** What the climb from the cut names, short of the cut itself. */
  ghost function Below(keys: set<Digest>, cut: Digest): set<Digest> {
    Named(keys, cut) - {cut}
  }

  /** `d` is stored, is neither the cut nor above it, and climbs through
      stored envelopes to one of the cut's ancestors. */
  ghost predicate IsDoomed(keys: set<Digest>, cut: Digest, d: Digest) {
    d in keys && !IsAncestor(cut, d) && exists a :: a in Below(keys, cut) && a in Named(keys, d)
  }

  ghost function Doomed(keys: set<Digest>, cut: Digest): set<Digest> {
    set d | d in keys && IsDoomed(keys, cut, d)
  }

  /** What the log holds once everything doomed is gone. */
  ghost function AfterPrune(keys: set<Digest>, cut: Digest): set<Digest> {
    keys - Doomed(keys, cut)
  }

  lemma {:induction false} NamedShrinks(keys: set<Digest>, fewer: set<Digest>, d: Digest)
    requires fewer <= keys
    ensures Named(fewer, d) <= Named(keys, d)
    decreases d
  {
    if d !in fewer || d.Prev().None? {
    } else {
      NamedShrinks(keys, fewer, d.Prev().value);
    }
  }

  /** A climb that starts elsewhere never meets an envelope nothing stored
      builds on. */
  lemma {:induction false} NamedWithoutTip(keys: set<Digest>, tip: Digest, d: Digest)
    requires d != tip && KidsIn(keys, tip) == {}
    ensures Named(keys - {tip}, d) == Named(keys, d)
    decreases d
  {
    if d !in keys || d.Prev().None? {
    } else {
      assert d.Prev().value != tip by { assert d !in KidsIn(keys, tip); }
      NamedWithoutTip(keys, tip, d.Prev().value);
    }
  }

  /** Removing a doomed tip off the cut's line leaves the outcome alone. */
  lemma RemoveTip(keys: set<Digest>, cut: Digest, tip: Digest)
    requires IsDoomed(keys, cut, tip) && !IsAncestor(tip, cut) && KidsIn(keys, tip) == {}
    ensures AfterPrune(keys - {tip}, cut) == AfterPrune(keys, cut)
    ensures forall d :: d in keys - {tip} ==> (IsDoomed(keys - {tip}, cut, d) <==> IsDoomed(keys, cut, d))
  {
    NamedWithoutTip(keys, tip, cut);
    forall d | d in keys - {tip} ensures IsDoomed(keys - {tip}, cut, d) <==> IsDoomed(keys, cut, d) {
      NamedWithoutTip(keys, tip, d);
    }
  }

  /** Removing the oldest stored ancestor, once nothing but the cut's line
      hangs from it or from the parent it names, leaves the outcome alone. */
  lemma RemoveOldest(keys: set<Digest>, cut: Digest, oldest: Digest)
    requires oldest in keys && oldest in Below(keys, cut)
    requires oldest.Prev().Some? ==> oldest.Prev().value !in keys && KidsIn(keys, oldest.Prev().value) == {oldest}
    requires forall y :: y in KidsIn(keys, oldest) ==> IsAncestor(y, cut)
    ensures AfterPrune(keys - {oldest}, cut) == AfterPrune(keys, cut)
  {
    NamedAncestors(keys, oldest, cut);
    if IsAncestor(cut, oldest) { AncestorAntisymmetric(cut, oldest); }
    assert IsDoomed(keys, cut, oldest) by { assert oldest in Named(keys, oldest); }
    forall d | d in keys - {oldest} ensures IsDoomed(keys - {oldest}, cut, d) <==> IsDoomed(keys, cut, d) {
      NamedShrinks(keys, keys - {oldest}, cut);
      NamedShrinks(keys, keys - {oldest}, d);
      if IsDoomed(keys, cut, d) { StillDoomed(keys, cut, oldest, d); }
    }
  }

  /** The last step of a climb to `a` is from a stored child of it. */
  lemma {:induction false} NamedVia(keys: set<Digest>, a: Digest, d: Digest) returns (y: Digest)
    requires a in Named(keys, d) && a != d
    ensures y in KidsIn(keys, a) && y in Named(keys, d)
    decreases d
  {
    if d.Prev().value == a { y := d; } else { y := NamedVia(keys, a, d.Prev().value); }
  }

  lemma StillDoomed(keys: set<Digest>, cut: Digest, oldest: Digest, d: Digest)
    requires oldest in keys && oldest in Below(keys, cut)
    requires oldest.Prev().Some? ==> oldest.Prev().value !in keys && KidsIn(keys, oldest.Prev().value) == {oldest}
    requires forall y :: y in KidsIn(keys, oldest) ==> IsAncestor(y, cut)
    requires IsDoomed(keys, cut, d) && d != oldest
    ensures IsDoomed(keys - {oldest}, cut, d)
  {
    var a :| a in Below(keys, cut) && a in Named(keys, d);
    if Some(a) == oldest.Prev() {
      var y := NamedVia(keys, a, d);
      a := oldest;
    }
    if a == oldest {
      a := NamedVia(keys, oldest, d);
      NamedAncestors(keys, a, d);
      NamedOnLine(keys, cut, oldest, a);
    }
    LineKept(keys, cut, oldest, a);
    NamedAncestors(keys, a, cut);
    ClimbKept(keys, oldest, a, d);
    ClimbKept(keys, oldest, a, cut);
  }

  /** A stored child of a named ancestor on the cut's line is named too. */
  lemma NamedOnLine(keys: set<Digest>, cut: Digest, oldest: Digest, y: Digest)
    requires oldest in Named(keys, cut) && y in KidsIn(keys, oldest) && IsAncestor(y, cut)
    ensures y in Named(keys, cut)
  {
    NamedThrough(keys, oldest, y, cut);
  }

  /** The cut's named ancestors other than the oldest stored one and the
      parent it names lie above it. */
  lemma LineKept(keys: set<Digest>, cut: Digest, oldest: Digest, a: Digest)
    requires oldest in keys && oldest in Named(keys, cut) && a in Named(keys, cut)
    requires oldest.Prev().Some? ==> oldest.Prev().value !in keys
    requires a != oldest && Some(a) != oldest.Prev()
    ensures IsProperAncestor(oldest, a)
  {
    NamedAncestors(keys, oldest, cut);
    NamedAncestors(keys, a, cut);
    AncestorsComparable(oldest, a, cut);
    if IsAncestor(a, oldest) {
      AncestorHeight(a, oldest);
      NamedThrough(keys, a, oldest, cut);
      var p := oldest.Prev().value;
      AncestorHeight(a, p);
      NamedAncestors(keys, a, p);
    } else {
      AncestorHeight(oldest, a);
    }
  }

  /** A climb to an envelope above `oldest` does not need `oldest`. */
  lemma ClimbKept(keys: set<Digest>, oldest: Digest, a: Digest, d: Digest)
    requires a in Named(keys, d) && IsProperAncestor(oldest, a)
    ensures a in Named(keys - {oldest}, d)
  {
    NamedAncestors(keys, a, d);
    forall x | IsAncestor(x, d) && IsProperAncestor(a, x) ensures x in keys - {oldest} {
      NamedThrough(keys, a, x, d);
      AncestorHeight(oldest, a.Prev().value);
      AncestorHeight(a, x.Prev().value);
    }
    NamedReaches(keys - {oldest}, a, d);
  }

  /** Once the cut's parent is gone with every other child of it, nothing
      doomed is left. */
  lemma NothingDoomed(keys: set<Digest>, cut: Digest)
    requires cut.Prev().Some? ==> cut.Prev().value !in keys && KidsIn(keys, cut.Prev().value) <= {cut}
    ensures Doomed(keys, cut) == {}
  {
    forall d | d in keys ensures !IsDoomed(keys, cut, d) {
      if IsDoomed(keys, cut, d) {
        var a :| a in Below(keys, cut) && a in Named(keys, d);
        assert Named(keys, cut.Prev().value) == {cut.Prev().value};
        var y := NamedVia(keys, a, d);
        NamedAncestors(keys, y, d);
      }
    }
  }

  /** In a log in which everything but the root has its parent, pruning keeps
      exactly the cut and what stands above it. */
  lemma PruneExact(keys: set<Digest>, root: Digest, cut: Digest)
    requires root in keys && cut in keys && IsAncestor(root, cut)
    requires forall d :: d in keys && d != root ==> d.Prev().Some? && d.Prev().value in keys
    ensures AfterPrune(keys, cut) == set d | d in keys && IsAncestor(cut, d)
  {
    forall d | d in keys && !IsAncestor(cut, d) ensures IsDoomed(keys, cut, d) {
      ClimbsToRoot(keys, root, d);
      ClimbsToRoot(keys, root, cut);
      if cut == root { NamedAncestors(keys, root, d); }
      assert root in Below(keys, cut);
    }
  }

  /** A finished prune leaves nothing for a second one. */
  lemma PruneTwice(keys: set<Digest>, cut: Digest)
    ensures Doomed(AfterPrune(keys, cut), cut) == {}
  {
    var left := AfterPrune(keys, cut);
    NamedShrinks(keys, left, cut);
    forall d | d in left ensures !IsDoomed(left, cut, d) {
      NamedShrinks(keys, left, d);
    }
  }

  lemma {:induction false} ClimbsToRoot(keys: set<Digest>, root: Digest, d: Digest)
    requires d in keys && forall x :: x in keys && x != root ==> x.Prev().Some? && x.Prev().value in keys
    ensures root in Named(keys, d)
    decreases d
  {
    if d == root {
    } else {
      ClimbsToRoot(keys, root, d.Prev().value);
    }
  }

  // ---------------------------------------------------------------------
  // Sweeping a dead branch, children before their parent

  /** `top` and every stored envelope that climbs to it. */
  ghost function Branch(keys: set<Digest>, top: Digest): set<Digest> {
    set y | y in keys && top in Named(keys, y)
  }

  /** An entry of the sweep's stack: an envelope, and whether its children
      were already pushed above it. */
  datatype Visit = Visit(at: Digest, expanded: bool)

  predicate Later(stack: seq<Visit>, i: int, y: Digest) {
    exists j :: 0 <= i < j < |stack| && stack[j].at == y
  }

  /** The sweep of the branch at `top`: `expanded` envelopes have had their
      children pushed, `removed` ones are gone with all that built on them,
      and everything left is on the stack or above something that is. */
  ghost predicate Sweep(keys: set<Digest>, top: Digest, stack: seq<Visit>, expanded: set<Digest>,
                        removed: set<Digest>) {
    && removed <= expanded <= Branch(keys, top)
    && OnStack(keys, top, stack, expanded, removed)
    && Accounted(keys, top, stack, expanded, removed)
    && ChildrenAbove(keys, stack, removed)
    && (forall y :: y in expanded && y != top ==> y.Prev().Some? && y.Prev().value in expanded)
    && (forall y :: y in removed ==> KidsIn(keys, y) <= removed)
  }

  ghost predicate Accounted(keys: set<Digest>, top: Digest, stack: seq<Visit>, expanded: set<Digest>,
                            removed: set<Digest>) {
    && (forall y :: y in expanded - removed ==> Visit(y, true) in stack)
    && (forall y :: y in Branch(keys, top) - expanded ==>
          Visit(y, false) in stack || (y.Prev().Some? && y.Prev().value in Branch(keys, top) - expanded))
  }

  /** What builds on an expanded envelope goes before it does. */
  ghost predicate ChildrenAbove(keys: set<Digest>, stack: seq<Visit>, removed: set<Digest>) {
    forall i, y :: 0 <= i < |stack| && stack[i].expanded && y in KidsIn(keys, stack[i].at) ==>
      y in removed || Later(stack, i, y)
  }

  ghost predicate OnStack(keys: set<Digest>, top: Digest, stack: seq<Visit>, expanded: set<Digest>,
                          removed: set<Digest>) {
    && (forall i :: 0 <= i < |stack| ==>
          stack[i].at in if stack[i].expanded then expanded - removed else Branch(keys, top) - expanded)
    && (forall i :: 0 <= i < |stack| && !stack[i].expanded ==>
          stack[i].at == top || (stack[i].at.Prev().Some? && stack[i].at.Prev().value in expanded))
    && (forall i, j :: 0 <= i < j < |stack| ==> stack[i].at != stack[j].at)
  }

  lemma SweepStarts(keys: set<Digest>, top: Digest)
    requires top in keys
    ensures Sweep(keys, top, [Visit(top, false)], {}, {})
  {
    forall y | y in Branch(keys, top) && y != top ensures y.Prev().Some? && y.Prev().value in Branch(keys, top) {
      var z := NamedVia(keys, top, y);
      NamedAncestors(keys, z, y);
      NamedInside(keys, top, y);
    }
  }

  /** Whatever climbs to `top` climbs through the branch. */
  lemma NamedInside(keys: set<Digest>, top: Digest, y: Digest)
    requires top in keys && y in keys && top in Named(keys, y) && y != top
    ensures y.Prev().Some? && y.Prev().value in keys && top in Named(keys, y.Prev().value)
  {
  }

  /** Children are never named from below. */
  lemma BranchKids(keys: set<Digest>, top: Digest, x: Digest, y: Digest)
    requires x in Branch(keys, top) && y in KidsIn(keys, x)
    ensures y in Branch(keys, top) && y != top
  {
    NamedAncestors(keys, top, x);
    AncestorHeight(top, x);
  }

  ghost predicate ListsKids(visits: seq<Visit>, kids: set<Digest>) {
    && (forall i :: 0 <= i < |visits| ==> !visits[i].expanded && visits[i].at in kids)
    && (forall i, j :: 0 <= i < j < |visits| ==> visits[i].at != visits[j].at)
    && (forall y :: y in kids ==> Visit(y, false) in visits)
  }

  lemma SweepExpands(keys: set<Digest>, top: Digest, rest: seq<Visit>, x: Digest, visits: seq<Visit>,
                     expanded: set<Digest>, removed: set<Digest>)
    requires Sweep(keys, top, rest + [Visit(x, false)], expanded, removed)
    requires ListsKids(visits, KidsIn(keys, x))
    ensures x in Branch(keys, top) - expanded
    ensures Sweep(keys, top, rest + [Visit(x, true)] + visits, expanded + {x}, removed)
  {
    assert (rest + [Visit(x, false)])[|rest|] == Visit(x, false);
    hide Accounted;
    hide ChildrenAbove;
    hide ListsKids;
    forall y | y in KidsIn(keys, x) ensures y in Branch(keys, top) - expanded - {x} && y != top {
      BranchKids(keys, top, x, y);
      AncestorHeight(x, x);
    }
    assert x != top ==> x.Prev().Some? && x.Prev().value in expanded;
    ExpandedOnStack(keys, top, rest, x, visits, expanded, removed);
    ExpandedAccounted(keys, top, rest, x, visits, expanded, removed);
    ExpandedAbove(keys, rest, x, visits, removed);
  }

  lemma ExpandedAccounted(keys: set<Digest>, top: Digest, rest: seq<Visit>, x: Digest, visits: seq<Visit>,
                          expanded: set<Digest>, removed: set<Digest>)
    requires Accounted(keys, top, rest + [Visit(x, false)], expanded, removed)
    requires ListsKids(visits, KidsIn(keys, x)) && x in Branch(keys, top)
    ensures Accounted(keys, top, rest + [Visit(x, true)] + visits, expanded + {x}, removed)
  {
    var old' := rest + [Visit(x, false)];
    var new' := rest + [Visit(x, true)] + visits;
    assert new'[|rest|] == Visit(x, true);
    forall v | v in old' && v != Visit(x, false) ensures v in new' {
      var i :| 0 <= i < |old'| && old'[i] == v;
      assert new'[i] == v;
    }
    forall y | y in Branch(keys, top) && y.Prev() == Some(x) ensures Visit(y, false) in new' {
      assert y in KidsIn(keys, x);
    }
  }

  lemma ExpandedAbove(keys: set<Digest>, rest: seq<Visit>, x: Digest, visits: seq<Visit>, removed: set<Digest>)
    requires ChildrenAbove(keys, rest + [Visit(x, false)], removed) && ListsKids(visits, KidsIn(keys, x))
    ensures ChildrenAbove(keys, rest + [Visit(x, true)] + visits, removed)
  {
    var old' := rest + [Visit(x, false)];
    var new' := rest + [Visit(x, true)] + visits;
    forall i, y | 0 <= i < |new'| && new'[i].expanded && y in KidsIn(keys, new'[i].at)
      ensures y in removed || Later(new', i, y)
    {
      if i < |rest| {
        assert old'[i] == new'[i];
        if y !in removed {
          var j :| i < j < |old'| && old'[j].at == y;
          assert new'[j].at == y;
        }
      } else {
        assert i == |rest|;
        var k :| 0 <= k < |visits| && visits[k] == Visit(y, false);
        assert new'[|rest| + 1 + k].at == y;
      }
    }
  }

  lemma ExpandedOnStack(keys: set<Digest>, top: Digest, rest: seq<Visit>, x: Digest, visits: seq<Visit>,
                        expanded: set<Digest>, removed: set<Digest>)
    requires removed <= expanded && x !in expanded
    requires OnStack(keys, top, rest + [Visit(x, false)], expanded, removed)
    requires ListsKids(visits, KidsIn(keys, x))
    requires forall y :: y in KidsIn(keys, x) ==> y in Branch(keys, top) - expanded - {x} && y != top
    ensures OnStack(keys, top, rest + [Visit(x, true)] + visits, expanded + {x}, removed)
  {
    var old' := rest + [Visit(x, false)];
    var new' := rest + [Visit(x, true)] + visits;
    forall i | 0 <= i < |rest| ensures new'[i] == old'[i] && new'[i].at != x && new'[i].at !in KidsIn(keys, x) {
      assert old'[i].at != old'[|rest|].at;
    }
    forall i | |rest| < i < |new'| ensures new'[i] == visits[i - |rest| - 1] && new'[i].at in KidsIn(keys, x) {
    }
  }

  lemma SweepRemoves(keys: set<Digest>, top: Digest, rest: seq<Visit>, x: Digest,
                     expanded: set<Digest>, removed: set<Digest>)
    requires Sweep(keys, top, rest + [Visit(x, true)], expanded, removed)
    ensures x in keys && x in Branch(keys, top) - removed && KidsIn(keys, x) <= removed
    ensures Sweep(keys, top, rest, expanded, removed + {x})
  {
    var old' := rest + [Visit(x, true)];
    assert old'[|rest|] == Visit(x, true);
    forall y | y in KidsIn(keys, x) ensures y in removed {
      assert !Later(old', |rest|, y);
    }
    forall y, e | Visit(y, e) in old' && y != x ensures Visit(y, e) in rest {
      var i :| 0 <= i < |old'| && old'[i] == Visit(y, e);
      assert rest[i] == Visit(y, e);
    }
    forall i | 0 <= i < |rest| ensures rest[i].at != x && rest[i] == old'[i] {
      assert old'[i].at != old'[|rest|].at;
    }
    forall i, y | 0 <= i < |rest| && rest[i].expanded && y in KidsIn(keys, rest[i].at)
      ensures y in removed + {x} || Later(rest, i, y)
    {
      if y !in removed && y != x {
        assert Later(old', i, y);
        var j :| i < j < |old'| && old'[j].at == y;
        assert rest[j].at == y;
      }
    }
  }

  lemma SweepEnds(keys: set<Digest>, top: Digest, expanded: set<Digest>, removed: set<Digest>)
    requires Sweep(keys, top, [], expanded, removed)
    ensures removed == Branch(keys, top)
  {
    forall y | y in Branch(keys, top) ensures y in removed {
      NoneLeft(keys, top, expanded, removed, y);
      assert Visit(y, true) !in [];
    }
  }

  lemma {:induction false} NoneLeft(keys: set<Digest>, top: Digest, expanded: set<Digest>, removed: set<Digest>,
                                    y: Digest)
    requires Sweep(keys, top, [], expanded, removed)
    ensures y !in Branch(keys, top) - expanded
    decreases y
  {
    if y.Prev().Some? { NoneLeft(keys, top, expanded, removed, y.Prev().value); }
  }

  /** What removing doomed tips one by one keeps: the outcome of pruning and
      every climb from what is left. */
  ghost predicate Thinned(keys: set<Digest>, left: set<Digest>, cut: Digest) {
    && left <= keys
    && AfterPrune(left, cut) == AfterPrune(keys, cut)
    && (forall y :: y in left ==> Named(left, y) == Named(keys, y))
    && Named(left, cut) == Named(keys, cut)
  }

  /** Removing a swept-out tip of a dead branch keeps all that. */
  lemma ThinnedByTip(keys: set<Digest>, left: set<Digest>, cut: Digest, top: Digest, tip: Digest)
    requires Thinned(keys, left, cut) && DeadBranch(keys, cut, top)
    requires tip in left && tip in Branch(keys, top) && KidsIn(left, tip) == {}
    ensures Thinned(keys, left - {tip}, cut)
    ensures AfterPrune(left - {tip}, cut) == AfterPrune(left, cut)
    ensures !IsAncestor(tip, cut)
  {
    NamedAncestors(keys, top, tip);
    if IsAncestor(tip, cut) { AncestorTransitive(top, tip, cut); }
    if IsAncestor(cut, tip) { AncestorsComparable(cut, top, tip); }
    NamedOn(keys, top, tip);
    assert IsDoomed(left, cut, tip);
    RemoveTip(left, cut, tip);
    NamedWithoutTip(left, tip, cut);
    forall y | y in left - {tip} ensures Named(left - {tip}, y) == Named(keys, y) {
      NamedWithoutTip(left, tip, y);
    }
  }

  /** `top` is a stored child of one of the cut's ancestors, off its line. */
  ghost predicate DeadBranch(keys: set<Digest>, cut: Digest, top: Digest) {
    && top in keys && top.Prev().Some? && top.Prev().value in Below(keys, cut)
    && !IsAncestor(top, cut) && !IsAncestor(cut, top)
  }

  lemma {:induction false} NamedOn(keys: set<Digest>, top: Digest, d: Digest)
    requires top in Named(keys, d) && top in keys && top.Prev().Some?
    ensures top.Prev().value in Named(keys, d)
    decreases d
  {
    if d == top {
    } else {
      NamedOn(keys, top, d.Prev().value);
    }
  }

  // ---------------------------------------------------------------------
  // The cut's line, pruned oldest first

  /** The line's `i`th ancestor is the parent of the envelope before it. */
  predicate Links(cut: Digest, line: seq<Digest>, i: nat)
    requires i < |line|
  {
    LineChild(cut, line, i).Prev() == Some(line[i])
  }

  predicate LinkedLine(cut: Digest, line: seq<Digest>) {
    forall i: nat :: i < |line| ==> Links(cut, line, i)
  }

  /** The cut's ancestors as the log names them, nearest first. */
  ghost predicate IsLine(keys: set<Digest>, cut: Digest, line: seq<Digest>) {
    && LinkedLine(cut, line)
    && (forall i :: 0 <= i < |line| ==> LineChild(cut, line, i) in keys)
    && (var last := LineChild(cut, line, |line|); last !in keys || last.Prev().None?)
  }

  /** The envelope of the line that builds on the `i`th ancestor. */
  function LineChild(cut: Digest, line: seq<Digest>, i: nat): Digest
    requires i <= |line|
  {
    if i == 0 then cut else line[i - 1]
  }

  lemma {:induction false} LineAncestors(cut: Digest, line: seq<Digest>, i: nat)
    requires LinkedLine(cut, line)
    requires i <= |line|
    ensures IsAncestor(LineChild(cut, line, i), cut)
    ensures Height(LineChild(cut, line, i)) + i == Height(cut)
    decreases i
  {
    if i == 0 {
    } else {
      LineAncestors(cut, line, i - 1);
      assert Links(cut, line, i - 1);
      var child := LineChild(cut, line, i - 1);
      AncestorTransitive(line[i - 1], child, cut);
    }
  }

  /** How far the prune has come: ancestors from the `k`th on are gone, with
      everything off the line that hung from them; nearer ones still stand. */
  ghost predicate LineState(left: set<Digest>, cut: Digest, line: seq<Digest>, k: nat)
  {
    && k <= |line|
    && (forall j :: 0 <= j <= k && j < |line| ==> LineChild(cut, line, j) in left)
    && LinkedLine(cut, line)
    && (forall j: nat :: k <= j < |line| ==> Cleared(left, cut, line, j))
  }

  /** The `i`th ancestor is gone, and nothing but the line builds on it. */
  ghost predicate Cleared(left: set<Digest>, cut: Digest, line: seq<Digest>, i: nat)
    requires i < |line|
  {
    line[i] !in left && KidsIn(left, line[i]) <= {LineChild(cut, line, i)}
  }

  /** Any ancestor up to the last that stands is still named. */
  lemma {:induction false} StillNamed(left: set<Digest>, cut: Digest, line: seq<Digest>, k: nat, i: nat)
    requires LineState(left, cut, line, k) && i <= k
    ensures LineChild(cut, line, i) in Named(left, cut)
    decreases i
  {
    if i == 0 {
    } else {
      StillNamed(left, cut, line, k, i - 1);
      assert Links(cut, line, i - 1);
      NamedOn(left, LineChild(cut, line, i - 1), cut);
    }
  }

  /** The only envelope of the line that builds on the `i`th ancestor. */
  lemma OnlyLineChild(cut: Digest, line: seq<Digest>, i: nat, y: Digest)
    requires LinkedLine(cut, line)
    requires i < |line| && y.Prev() == Some(line[i]) && (y == cut || y in line)
    ensures y == LineChild(cut, line, i)
  {
    var j := 0;
    if y != cut {
      var m :| 0 <= m < |line| && line[m] == y;
      j := m + 1;
    }
    assert y == LineChild(cut, line, j);
    LineAncestors(cut, line, j);
    LineAncestors(cut, line, i + 1);
  }

  /** A stored child of the oldest standing ancestor, other than the line's,
      heads a dead branch. */
  lemma DeadHead(left: set<Digest>, cut: Digest, line: seq<Digest>, k: nat, child: Digest)
    requires LineState(left, cut, line, k) && k > 0
    requires child in KidsIn(left, line[k - 1]) && child != LineChild(cut, line, k - 1)
    ensures DeadBranch(left, cut, child)
  {
    StillNamed(left, cut, line, k, k);
    LineAncestors(cut, line, k);
    LineAncestors(cut, line, k - 1);
    assert Links(cut, line, k - 1);
    var onLine := LineChild(cut, line, k - 1);
    SiblingsPart(onLine, child, cut);
    if IsAncestor(cut, child) { AncestorHeight(cut, child); }
  }

  /** Sweeping a dead branch off the oldest standing ancestor disturbs
      neither the line nor the ancestor's other children. */
  lemma BranchSwept(left: set<Digest>, cut: Digest, line: seq<Digest>, k: nat, child: Digest)
    requires LineState(left, cut, line, k) && k > 0
    requires child in KidsIn(left, line[k - 1]) && child != LineChild(cut, line, k - 1)
    ensures LineState(left - Branch(left, child), cut, line, k)
    ensures line[k - 1] !in Branch(left, child) && child in Branch(left, child)
    ensures KidsIn(left - Branch(left, child), line[k - 1]) == KidsIn(left, line[k - 1]) - {child}
  {
    DeadHead(left, cut, line, k, child);
    forall j | 0 <= j <= k ensures LineChild(cut, line, j) !in Branch(left, child) {
      if child in Named(left, LineChild(cut, line, j)) {
        NamedAncestors(left, child, LineChild(cut, line, j));
        LineAncestors(cut, line, j);
        AncestorTransitive(child, LineChild(cut, line, j), cut);
      }
    }
    assert line[k - 1] == LineChild(cut, line, k);
    forall j: nat | k <= j < |line| ensures Cleared(left - Branch(left, child), cut, line, j) {
      assert Cleared(left, cut, line, j);
    }
    forall y | y in KidsIn(left, line[k - 1]) && y != child ensures y !in Branch(left, child) {
      if child in Named(left, y) {
        NamedAncestors(left, child, y);
        AncestorHeight(child, y);
      }
    }
  }

  /** With its dead branches gone, the oldest standing ancestor can go. */
  lemma AncestorDropped(left: set<Digest>, cut: Digest, line: seq<Digest>, k: nat)
    requires LineState(left, cut, line, k) && k > 0
    requires KidsIn(left, line[k - 1]) <= {LineChild(cut, line, k - 1)}
    requires line[k - 1].Prev().Some? && line[k - 1] in left ==> k < |line|
    ensures LineState(left - {line[k - 1]}, cut, line, k - 1)
    ensures AfterPrune(left - {line[k - 1]}, cut) == AfterPrune(left, cut)
    ensures forall y :: y in KidsIn(left, line[k - 1]) ==> IsAncestor(y, cut)
    ensures line[k - 1] in left && line[k - 1].Prev().Some? ==> line[k - 1].Prev().value !in left
  {
    var oldest := line[k - 1];
    LineAncestors(cut, line, k);
    LineAncestors(cut, line, k - 1);
    forall j | 0 <= j < k ensures LineChild(cut, line, j) != oldest { LineAncestors(cut, line, j); }
    forall j: nat | k - 1 <= j < |line| ensures Cleared(left - {oldest}, cut, line, j) {
      if j >= k { assert Cleared(left, cut, line, j); }
    }
    if oldest in left {
      StillNamed(left, cut, line, k, k);
      LineAncestors(cut, line, k - 1);
      if k < |line| {
        assert LineChild(cut, line, k) == oldest && Links(cut, line, k) && Cleared(left, cut, line, k);
        assert oldest in KidsIn(left, line[k]);
      }
      RemoveOldest(left, cut, oldest);
    } else {
      assert left - {oldest} == left;
    }
  }

  /** A line every ancestor of which is gone leaves nothing doomed. */
  lemma LineDone(left: set<Digest>, cut: Digest, line: seq<Digest>)
    requires LineState(left, cut, line, 0)
    requires line == [] ==> cut !in left || cut.Prev().None?
    ensures Doomed(left, cut) == {}
  {
    if line == [] {
      assert Named(left, cut) == {cut};
    } else {
      assert Links(cut, line, 0) && Cleared(left, cut, line, 0);
      NothingDoomed(left, cut);
    }
  }
}
