/** The parentage of envelopes, and the state replaying it folds down to. */
module Lineage {
  import opened Wire
  import opened Ledger

  /** Whether `a` is `d` or an envelope `d` builds on. */
  predicate IsAncestor(a: Digest, d: Digest)
    decreases d
  {
    a == d || (d.Prev().Some? && IsAncestor(a, d.Prev().value))
  }

  predicate IsProperAncestor(a: Digest, d: Digest) {
    d.Prev().Some? && IsAncestor(a, d.Prev().value)
  }

  function Height(d: Digest): nat
    decreases d
  {
    if d.Prev().None? then 0 else 1 + Height(d.Prev().value)
  }

  lemma {:induction false} AncestorHeight(a: Digest, d: Digest)
    requires IsAncestor(a, d)
    ensures Height(a) <= Height(d)
    ensures Height(a) == Height(d) ==> a == d
    ensures a != d ==> IsProperAncestor(a, d)
    decreases d
  {
    if a == d {
    } else {
      AncestorHeight(a, d.Prev().value);
    }
  }

  lemma {:induction false} AncestorTransitive(a: Digest, b: Digest, c: Digest)
    requires IsAncestor(a, b) && IsAncestor(b, c)
    ensures IsAncestor(a, c)
    decreases c
  {
    if b == c {
    } else {
      AncestorTransitive(a, b, c.Prev().value);
    }
  }

  /** Two ancestors of one envelope lie on one line. */
  lemma {:induction false} AncestorsComparable(a: Digest, b: Digest, d: Digest)
    requires IsAncestor(a, d) && IsAncestor(b, d)
    ensures IsAncestor(a, b) || IsAncestor(b, a)
    decreases d
  {
    if a == d || b == d {
    } else {
      AncestorsComparable(a, b, d.Prev().value);
    }
  }

  lemma AncestorAntisymmetric(a: Digest, b: Digest)
    requires IsAncestor(a, b) && IsAncestor(b, a)
    ensures a == b
  {
    AncestorHeight(a, b);
    AncestorHeight(b, a);
  }

  /** The child of `a` on the way up to `d`. */
  function Toward(a: Digest, d: Digest): (c: Digest)
    requires IsAncestor(a, d) && a != d
    ensures c.Prev() == Some(a) && IsAncestor(c, d)
    decreases d
  {
    if d.Prev().value == a then d else Toward(a, d.Prev().value)
  }

  /** Siblings part for good: no envelope descends from both. */
  lemma SiblingsPart(x: Digest, y: Digest, d: Digest)
    requires x.Prev().Some? && x.Prev() == y.Prev() && x != y
    requires IsAncestor(x, d)
    ensures !IsAncestor(y, d)
  {
    if IsAncestor(y, d) {
      AncestorsComparable(x, y, d);
      if IsAncestor(x, y) { AncestorHeight(x, y); } else { AncestorHeight(y, x); }
    }
  }

  /** Which of the envelopes build directly on `p`. */
  ghost function KidsIn(keys: set<Digest>, p: Digest): set<Digest> {
    set d | d in keys && d.Prev() == Some(p)
  }

  // ---------------------------------------------------------------------
  // Replay

  /** Where a chain starts: its oldest envelope and the state standing there. */
  datatype Base = Base(root: Digest, state: State)

  /** The state at `d`: every envelope from the base to it verified against
      its parent's state and applied, in order. None where `d` does not build
      on the base, or some envelope on the way is refused. */
  ghost function Replay(base: Base, d: Digest): Option<State>
    decreases d
  {
    if d == base.root then Some(base.state)
    else match d.Prev()
      case None => None
      case Some(prev) =>
        match Replay(base, prev)
        case None => None
        case Some(s) => Transition(s, prev, d)
  }

  lemma {:induction false} ReplayDescends(base: Base, d: Digest)
    requires Replay(base, d).Some?
    ensures IsAncestor(base.root, d)
    decreases d
  {
    hide Transition;
    if d == base.root {
    } else {
      ReplayDescends(base, d.Prev().value);
    }
  }

  /** Whatever replays has every envelope on the way replaying. */
  lemma {:induction false} ReplayThrough(base: Base, a: Digest, d: Digest)
    requires Replay(base, d).Some? && IsAncestor(base.root, a) && IsAncestor(a, d)
    ensures Replay(base, a).Some?
    decreases d
  {
    hide Transition;
    if a == d {
    } else {
      if d == base.root {
        AncestorAntisymmetric(a, d);
      } else {
        ReplayThrough(base, a, d.Prev().value);
      }
    }
  }

  /** A checkpoint stands in for everything it folded down: replaying from an
      envelope's own state agrees with replaying from further back. */
  lemma {:induction false} Rebase(base: Base, cut: Digest, d: Digest)
    requires Replay(base, cut).Some? && IsAncestor(cut, d)
    ensures Replay(Base(cut, Replay(base, cut).value), d) == Replay(base, d)
    decreases d
  {
    hide Transition;
    if cut == d {
    } else {
      Rebase(base, cut, d.Prev().value);
      if d == base.root {
        ReplayDescends(base, cut);
        AncestorAntisymmetric(cut, d);
      }
    }
  }

  /** Every state a chain reaches keeps the reserved-namespace rules. */
  lemma {:induction false} ReplayKeepsRules(base: Base, d: Digest)
    requires RulesHold(base.state) && Replay(base, d).Some?
    ensures RulesHold(Replay(base, d).value)
    decreases d
  {
    hide Transition;
    hide RulesHold;
    if d == base.root {
    } else {
      var prev := d.Prev().value;
      ReplayKeepsRules(base, prev);
      TransitionKeepsRules(Replay(base, prev).value, prev, d);
    }
  }

  /** The status an envelope above the base earns: that of its signatures
      against its parent's state. */
  ghost function StatusOn(base: Base, d: Digest): Status
  {
    if d == base.root || d.Prev().None? || Replay(base, d.Prev().value).None? then Unchecked
    else match Verify(Replay(base, d.Prev().value).value, d.Prev().value, d)
      case Ok(status) => status
      case Err(_) => Unchecked
  }

  // ---------------------------------------------------------------------
  // Climbing through stored envelopes

  /** The digests a climb from `d` names: `d`, and while the envelope is among
      `keys` its parent, and so on. The last may be one `keys` lacks. */
  ghost function Named(keys: set<Digest>, d: Digest): set<Digest>
    decreases d
  {
    if d in keys && d.Prev().Some? then {d} + Named(keys, d.Prev().value) else {d}
  }

  lemma {:induction false} NamedAncestors(keys: set<Digest>, a: Digest, d: Digest)
    requires a in Named(keys, d)
    ensures IsAncestor(a, d)
    ensures a != d ==> d in keys
    decreases d
  {
    if a == d {
    } else {
      NamedAncestors(keys, a, d.Prev().value);
    }
  }

  /** A climb names `a` when every envelope from `d` down to it is there. */
  lemma {:induction false} NamedReaches(keys: set<Digest>, a: Digest, d: Digest)
    requires IsAncestor(a, d)
    requires forall x :: IsAncestor(x, d) && IsProperAncestor(a, x) ==> x in keys
    ensures a in Named(keys, d)
    decreases d
  {
    if a == d {
    } else {
      AncestorHeight(a, d);
      NamedReaches(keys, a, d.Prev().value);
    }
  }

  /** Everything a climb passes before `a` is there. */
  lemma {:induction false} NamedThrough(keys: set<Digest>, a: Digest, x: Digest, d: Digest)
    requires a in Named(keys, d) && IsAncestor(x, d) && IsProperAncestor(a, x)
    ensures x in keys && x in Named(keys, d) && a in Named(keys, x)
    decreases d
  {
    AncestorHeight(a, x.Prev().value);
    AncestorHeight(x, d);
    NamedAncestors(keys, a, d);
    if x == d {
    } else {
      NamedThrough(keys, a, x, d.Prev().value);
    }
  }

  /** The envelope the `i`th of a run must build on. */
  function Before(root: Digest, run: seq<Digest>, i: nat): Digest
    requires i <= |run|
  {
    if i == 0 then root else run[i - 1]
  }

  predicate Follows(root: Digest, run: seq<Digest>, i: nat)
    requires i < |run|
  {
    run[i].Prev() == Some(Before(root, run, i))
  }

  /** Each envelope of a run builds on the one before it. */
  predicate Linked(root: Digest, run: seq<Digest>) {
    forall i: nat :: i < |run| ==> Follows(root, run, i)
  }

  lemma LinkedNone(root: Digest)
    ensures Linked(root, [])
  {
  }

  lemma LinkedMore(root: Digest, run: seq<Digest>, i: nat)
    requires i < |run|
    ensures Linked(root, run[..i + 1]) <==> Linked(root, run[..i]) && Follows(root, run, i)
    ensures Linked(root, run) ==> Linked(root, run[..i + 1])
  {
    var upTo, next := run[..i], run[..i + 1];
    forall j: nat | j <= i
      ensures Follows(root, next, j) == Follows(root, run, j)
      ensures j < i ==> Follows(root, upTo, j) == Follows(root, next, j)
    {
    }
    if Linked(root, upTo) && Follows(root, run, i) {
      forall j: nat | j < |next| ensures Follows(root, next, j) {
        if j < i { assert Follows(root, upTo, j); }
      }
    }
    if Linked(root, next) {
      forall j: nat | j < |upTo| ensures Follows(root, upTo, j) { assert Follows(root, next, j); }
      assert Follows(root, next, i);
    }
    if Linked(root, run) {
      forall j: nat | j < |next| ensures Follows(root, next, j) { assert Follows(root, run, j); }
    }
  }

  lemma LinkedTail(after: Digest, run: seq<Digest>)
    requires Linked(after, run) && run != []
    ensures Linked(run[0], run[1..])
  {
    forall i: nat | i < |run[1..]| ensures Follows(run[0], run[1..], i) {
      assert Follows(after, run, i + 1);
    }
  }

  lemma LinkedFrom(after: Digest, run: seq<Digest>, k: nat)
    requires Linked(after, run) && k <= |run|
    ensures Linked(Before(after, run, k), run[k..])
  {
    forall i: nat | i < |run[k..]| ensures Follows(Before(after, run, k), run[k..], i) {
      assert Follows(after, run, k + i);
    }
  }

  lemma LinkedJoin(after: Digest, xs: seq<Digest>, ys: seq<Digest>)
    requires Linked(after, xs) && Linked(Before(after, xs, |xs|), ys)
    ensures Linked(after, xs + ys) && Before(after, xs + ys, |xs + ys|) == Before(Before(after, xs, |xs|), ys, |ys|)
  {
    var all := xs + ys;
    forall i: nat | i < |all| ensures Follows(after, all, i) {
      if i < |xs| {
        assert Follows(after, xs, i);
      } else {
        assert Follows(Before(after, xs, |xs|), ys, i - |xs|);
      }
    }
  }

  /** Everything in a run lies above its start and under its end. */
  lemma {:induction false} RunUnder(at: Digest, run: seq<Digest>, i: nat)
    requires Linked(at, run) && i < |run|
    ensures IsAncestor(run[i], Before(at, run, |run|)) && Height(run[i]) > Height(at)
    decreases |run|
  {
    if i == |run| - 1 {
      RunAbove(at, run, i);
    } else {
      var shorter := run[..|run| - 1];
      LinkedMore(at, run, |run| - 2);
      assert Linked(at, shorter);
      RunUnder(at, shorter, i);
      assert Follows(at, run, |run| - 1);
    }
  }

  lemma {:induction false} RunAbove(at: Digest, run: seq<Digest>, i: nat)
    requires Linked(at, run) && i < |run|
    ensures Height(run[i]) > Height(at)
  {
    assert Follows(at, run, i);
    if i == 0 {
    } else {
      RunAbove(at, run, i - 1);
    }
  }

  lemma {:induction false} RunHas(at: Digest, run: seq<Digest>, d: Digest)
    requires Linked(at, run) && IsProperAncestor(at, d) && IsAncestor(d, Before(at, run, |run|))
    ensures d in run
    decreases |run|
  {
    if run == [] {
      AncestorHeight(d, at);
      AncestorHeight(at, d.Prev().value);
    } else {
      var shorter := run[..|run| - 1];
      assert Follows(at, run, |run| - 1);
      if d != run[|run| - 1] {
        assert Linked(at, shorter) by {
          assert run[..|run| - 1 + 1] == run;
          LinkedMore(at, run, |run| - 1);
        }
        RunHas(at, shorter, d);
      }
    }
  }

  lemma {:induction false} RunOver(at: Digest, run: seq<Digest>, i: nat)
    requires Linked(at, run) && i < |run|
    ensures IsProperAncestor(at, run[i])
  {
    assert Follows(at, run, i);
    if i == 0 {
    } else {
      RunOver(at, run, i - 1);
    }
  }

  ghost predicate AllReplay(base: Base, run: seq<Digest>) {
    forall i :: 0 <= i < |run| ==> Replay(base, run[i]).Some?
  }

  lemma ReplayAtRoot(base: Base)
    ensures Replay(base, base.root) == Some(base.state)
  {
    hide Transition;
  }

  lemma ReplayNext(base: Base, d: Digest)
    requires d.Prev().Some? && Replay(base, d.Prev().value).Some?
    ensures Replay(base, d) == Transition(Replay(base, d.Prev().value).value, d.Prev().value, d)
  {
    hide Transition;
    ReplayDescends(base, d.Prev().value);
    if d == base.root { AncestorHeight(d, d.Prev().value); }
  }

  // ---------------------------------------------------------------------
  // Ancestry and climbs, as lines of envelopes

  /** One envelope is another's ancestor when a line of envelopes leads from it
      to the other, each building on the one before. */
  lemma {:induction false} AncestorExactly(a: Digest, d: Digest)
    ensures IsAncestor(a, d) <==>
            exists line: seq<Digest> ::
              && line != [] && line[0] == a && line[|line| - 1] == d
              && forall i :: 0 < i < |line| ==> line[i].Prev() == Some(line[i - 1])
    decreases d
  {
    if IsAncestor(a, d) {
      if a == d {
        assert [d][0] == a;
      } else {
        var p := d.Prev().value;
        AncestorExactly(a, p);
        var line: seq<Digest> :|
          && line != [] && line[0] == a && line[|line| - 1] == p
          && forall i :: 0 < i < |line| ==> line[i].Prev() == Some(line[i - 1]);
        var more := line + [d];
        assert more[0] == a && more[|more| - 1] == d;
      }
    } else if line: seq<Digest> :|
      && line != [] && line[0] == a && line[|line| - 1] == d
      && forall i :: 0 < i < |line| ==> line[i].Prev() == Some(line[i - 1])
    {
      LineClimbs(a, line, |line| - 1);
    }
  }

  lemma {:induction false} LineClimbs(a: Digest, line: seq<Digest>, k: nat)
    requires k < |line| && line[0] == a && forall i :: 0 < i < |line| ==> line[i].Prev() == Some(line[i - 1])
    ensures IsAncestor(a, line[k])
    decreases k
  {
    if k == 0 {
    } else {
      LineClimbs(a, line, k - 1);
    }
  }

  /** A climb names what it can reach through stored envelopes. */
  lemma {:induction false} NamedExactly(keys: set<Digest>, x: Digest, d: Digest)
    ensures x in Named(keys, d) <==>
            exists line: seq<Digest> ::
              && line != [] && line[0] == x && line[|line| - 1] == d
              && forall i :: 0 < i < |line| ==> line[i] in keys && line[i].Prev() == Some(line[i - 1])
    decreases d
  {
    if x in Named(keys, d) {
      if x == d {
        assert [d][0] == x;
      } else {
        var p := d.Prev().value;
        NamedExactly(keys, x, p);
        var line: seq<Digest> :|
          && line != [] && line[0] == x && line[|line| - 1] == p
          && forall i :: 0 < i < |line| ==> line[i] in keys && line[i].Prev() == Some(line[i - 1]);
        var more := line + [d];
        assert more[0] == x && more[|more| - 1] == d;
      }
    } else if line: seq<Digest> :|
      && line != [] && line[0] == x && line[|line| - 1] == d
      && forall i :: 0 < i < |line| ==> line[i] in keys && line[i].Prev() == Some(line[i - 1])
    {
      LineNamed(keys, x, line, |line| - 1);
    }
  }

  lemma {:induction false} LineNamed(keys: set<Digest>, x: Digest, line: seq<Digest>, k: nat)
    requires k < |line| && line[0] == x
    requires forall i :: 0 < i < |line| ==> line[i] in keys && line[i].Prev() == Some(line[i - 1])
    ensures x in Named(keys, line[k])
    decreases k
  {
    if k == 0 {
    } else {
      LineNamed(keys, x, line, k - 1);
    }
  }
}
