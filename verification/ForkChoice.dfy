/** Fork choice over a node's log: which envelopes are canonical, and why
    nodes that trade canonical paths agree
    (crates/state/src/chain.rs, crates/sync/src/lib.rs). */
module ForkChoice {
  import opened Wire
  import opened Lineage

  /** The stored envelopes, each with its verified weight. */
  type Log = map<Digest, u32>

  /** The contenders at a fork. */
  ghost function Kids(log: Log, p: Digest): set<Digest> {
    KidsIn(log.Keys, p)
  }

  /** `x` outranks `y` at a fork: by weight, ties by digest. */
  predicate Beats(log: Log, x: Digest, y: Digest)
    requires x in log && y in log
  {
    log[x] > log[y] || (log[x] == log[y] && x.bits > y.bits)
  }

  /** `w` wins the fork at `p`. */
  ghost predicate IsBest(log: Log, p: Digest, w: Digest) {
    w in Kids(log, p) && forall x :: x in Kids(log, p) ==> x == w || Beats(log, w, x)
  }

  /** `d` is canonical: every fork on the way from the root to it is won. */
  ghost predicate OnPath(log: Log, root: Digest, d: Digest)
    decreases d
  {
    d == root || (d.Prev().Some? && OnPath(log, root, d.Prev().value) && IsBest(log, d.Prev().value, d))
  }

  /** The canonical head: the canonical envelope nothing builds on. */
  ghost predicate IsHead(log: Log, root: Digest, h: Digest) {
    OnPath(log, root, h) && Kids(log, h) == {}
  }

  /** Everything stored above the root has its parent stored. */
  ghost predicate Grounded(log: Log, root: Digest) {
    root in log && forall d :: d in log && IsProperAncestor(root, d) ==> d.Prev().value in log
  }

  // ---------------------------------------------------------------------
  // The head, as the end of a line of winners

  /** The head is where a line of envelopes from the root ends that nothing
      stored builds on, each of them stored on the one before and ahead of
      every other stored there: heavier, or as heavy with a greater digest. */
  lemma HeadExactly(log: Log, root: Digest, h: Digest)
    ensures IsHead(log, root, h) <==>
            && (forall x :: x in log ==> x.Prev() != Some(h))
            && exists line: seq<Digest> ::
                 && line != [] && line[0] == root && line[|line| - 1] == h
                 && forall i :: 0 < i < |line| ==>
                      && line[i] in log && line[i].Prev() == Some(line[i - 1])
                      && forall x :: x in log && x.Prev() == Some(line[i - 1]) && x != line[i] ==>
                           log[line[i]] > log[x] || (log[line[i]] == log[x] && line[i].bits > x.bits)
  {
    assert Kids(log, h) == {} <==> forall x :: x in log ==> x.Prev() != Some(h) by {
      if x :| x in log && x.Prev() == Some(h) { assert x in Kids(log, h); }
    }
    hide Kids;
    PathExactly(log, root, h);
    hide OnPath;
  }

  /** So it is with each envelope of the canonical path. */
  lemma PathExactly(log: Log, root: Digest, d: Digest)
    ensures OnPath(log, root, d) <==>
            exists line: seq<Digest> ::
              && line != [] && line[0] == root && line[|line| - 1] == d
              && forall i :: 0 < i < |line| ==>
                   && line[i] in log && line[i].Prev() == Some(line[i - 1])
                   && forall x :: x in log && x.Prev() == Some(line[i - 1]) && x != line[i] ==>
                        log[line[i]] > log[x] || (log[line[i]] == log[x] && line[i].bits > x.bits)
  {
    LinesExactly(log, root, d);
    hide OnPath;
    if OnPath(log, root, d) {
      var line: seq<Digest> :| IsLineUp(log, root, line) && line[|line| - 1] == d;
      LineReads(log, root, line);
    } else if line: seq<Digest> :|
      && line != [] && line[0] == root && line[|line| - 1] == d
      && forall i :: 0 < i < |line| ==>
           && line[i] in log && line[i].Prev() == Some(line[i - 1])
           && forall x :: x in log && x.Prev() == Some(line[i - 1]) && x != line[i] ==>
                log[line[i]] > log[x] || (log[line[i]] == log[x] && line[i].bits > x.bits)
    {
      LineReads(log, root, line);
    }
  }

  lemma LinesExactly(log: Log, root: Digest, d: Digest)
    ensures OnPath(log, root, d) <==> exists line: seq<Digest> :: IsLineUp(log, root, line) && line[|line| - 1] == d
  {
    if OnPath(log, root, d) { LineOfWinners(log, root, d); }
    hide OnPath;
    if line: seq<Digest> :| IsLineUp(log, root, line) && line[|line| - 1] == d {
      WinnersOnPath(log, root, line, |line| - 1);
    }
  }

  lemma LineReads(log: Log, root: Digest, line: seq<Digest>)
    ensures IsLineUp(log, root, line) <==>
            && line != [] && line[0] == root
            && forall i :: 0 < i < |line| ==>
                 && line[i] in log && line[i].Prev() == Some(line[i - 1])
                 && forall x :: x in log && x.Prev() == Some(line[i - 1]) && x != line[i] ==>
                      log[line[i]] > log[x] || (log[line[i]] == log[x] && line[i].bits > x.bits)
  {
    if line != [] && line[0] == root {
      if forall i :: 0 < i < |line| ==> Leads(log, line[i - 1], line[i]) {
        forall i | 0 < i < |line|
          ensures line[i] in log && line[i].Prev() == Some(line[i - 1])
          ensures forall x :: x in log && x.Prev() == Some(line[i - 1]) && x != line[i] ==>
                    log[line[i]] > log[x] || (log[line[i]] == log[x] && line[i].bits > x.bits)
        {
          assert Leads(log, line[i - 1], line[i]);
        }
      } else {
        var i :| 0 < i < |line| && !Leads(log, line[i - 1], line[i]);
        assert !(line[i] in log && line[i].Prev() == Some(line[i - 1])
                 && forall x :: x in log && x.Prev() == Some(line[i - 1]) && x != line[i] ==>
                      log[line[i]] > log[x] || (log[line[i]] == log[x] && line[i].bits > x.bits));
      }
    }
  }

  /** `w` is stored on `p` and ahead of every other stored there. */
  ghost predicate Leads(log: Log, p: Digest, w: Digest) {
    && w in log && w.Prev() == Some(p)
    && forall x :: x in log && x.Prev() == Some(p) && x != w ==>
         log[w] > log[x] || (log[w] == log[x] && w.bits > x.bits)
  }

  lemma LeadsWhenBest(log: Log, p: Digest, w: Digest)
    ensures Leads(log, p, w) <==> IsBest(log, p, w)
  {
    assert forall x :: x in Kids(log, p) <==> x in log && x.Prev() == Some(p);
  }

  ghost predicate IsLineUp(log: Log, root: Digest, line: seq<Digest>) {
    line != [] && line[0] == root && forall i :: 0 < i < |line| ==> Leads(log, line[i - 1], line[i])
  }

  lemma {:induction false} LineOfWinners(log: Log, root: Digest, d: Digest)
    requires OnPath(log, root, d)
    ensures exists line: seq<Digest> :: IsLineUp(log, root, line) && line[|line| - 1] == d
    decreases d
  {
    hide IsBest;
    hide Leads;
    if d == root {
      assert IsLineUp(log, root, [d]);
    } else {
      var p := d.Prev().value;
      LineOfWinners(log, root, p);
      var line: seq<Digest> :| IsLineUp(log, root, line) && line[|line| - 1] == p;
      LeadsWhenBest(log, p, d);
      assert IsLineUp(log, root, line + [d]);
    }
  }

  lemma {:induction false} WinnersOnPath(log: Log, root: Digest, line: seq<Digest>, k: nat)
    requires k < |line| && IsLineUp(log, root, line)
    ensures OnPath(log, root, line[k])
    decreases k
  {
    hide IsBest;
    if k == 0 {
    } else {
      WinnersOnPath(log, root, line, k - 1);
      LeadsWhenBest(log, line[k - 1], line[k]);
    }
  }

  // ---------------------------------------------------------------------
  // The canonical path is one path, ending in one head

  lemma {:induction false} OnPathDescends(log: Log, root: Digest, d: Digest)
    requires OnPath(log, root, d)
    ensures IsAncestor(root, d)
    ensures d != root ==> d in log && IsProperAncestor(root, d)
    decreases d
  {
    if d == root {
    } else {
      OnPathDescends(log, root, d.Prev().value);
    }
  }

  lemma {:induction false} OnPathThrough(log: Log, root: Digest, a: Digest, d: Digest)
    requires OnPath(log, root, d) && IsAncestor(root, a) && IsAncestor(a, d)
    ensures OnPath(log, root, a) && OnPath(log, a, d)
    decreases d
  {
    if a == d {
    } else {
      if d == root {
        AncestorAntisymmetric(a, d);
      } else {
        OnPathThrough(log, root, a, d.Prev().value);
      }
    }
  }

  lemma {:induction false} OnPathJoin(log: Log, root: Digest, a: Digest, d: Digest)
    requires OnPath(log, root, a) && OnPath(log, a, d)
    ensures OnPath(log, root, d)
    decreases d
  {
    if a == d {
    } else {
      OnPathJoin(log, root, a, d.Prev().value);
    }
  }

  lemma {:induction false} OnPathComparable(log: Log, root: Digest, x: Digest, y: Digest)
    requires OnPath(log, root, x) && OnPath(log, root, y)
    ensures IsAncestor(x, y) || IsAncestor(y, x)
    decreases Height(x) + Height(y)
  {
    OnPathDescends(log, root, x);
    OnPathDescends(log, root, y);
    if x == root || y == root {
    } else {
      if Height(x) > Height(y) {
        OnPathComparable(log, root, x.Prev().value, y);
        if IsAncestor(x.Prev().value, y) { AncestorHeight(x.Prev().value, y); }
      } else if Height(y) > Height(x) {
        OnPathComparable(log, root, x, y.Prev().value);
        if IsAncestor(y.Prev().value, x) { AncestorHeight(y.Prev().value, x); }
      } else {
        var p, q := x.Prev().value, y.Prev().value;
        OnPathComparable(log, root, p, q);
        if IsAncestor(p, q) { AncestorHeight(p, q); } else { AncestorHeight(q, p); }
      }
    }
  }

  /** Nothing canonical lies past the head. */
  lemma CanonicalBelowHead(log: Log, root: Digest, h: Digest, d: Digest)
    requires IsHead(log, root, h) && OnPath(log, root, d)
    ensures IsAncestor(d, h)
  {
    OnPathComparable(log, root, d, h);
    if !IsAncestor(d, h) {
      var next := Toward(h, d);
      OnPathDescends(log, root, h);
      AncestorTransitive(root, h, next);
      OnPathThrough(log, root, next, d);
      AncestorHeight(h, next);
      if next == root { AncestorAntisymmetric(h, next); }
    }
  }

  lemma HeadUnique(log: Log, root: Digest, h1: Digest, h2: Digest)
    requires IsHead(log, root, h1) && IsHead(log, root, h2)
    ensures h1 == h2
  {
    CanonicalBelowHead(log, root, h1, h2);
    CanonicalBelowHead(log, root, h2, h1);
    AncestorAntisymmetric(h1, h2);
  }

  /** `w` outranks all else in `s`. */
  ghost predicate Tops(log: Log, s: set<Digest>, w: Digest)
    requires s <= log.Keys
  {
    w in s && forall x :: x in s ==> x == w || Beats(log, w, x)
  }

  /** One more contender: it or the old winner tops them all. */
  lemma NextContender(log: Log, s: set<Digest>, w: Digest, c: Digest)
    requires s <= log.Keys && c in log && DigestsPin(log.Keys) && Tops(log, s, w) && c !in s
    ensures Tops(log, s + {c}, if Beats(log, c, w) then c else w)
  {
  }

  lemma {:induction false} BestExists(log: Log, s: set<Digest>) returns (w: Digest)
    requires s != {} && s <= log.Keys && DigestsPin(log.Keys)
    ensures Tops(log, s, w)
    decreases s
  {
    w :| w in s;
    if s == {w} {
    } else {
      var rest := s - {w};
      assert s == rest + {w} && rest != {};
      var v := BestExists(log, rest);
      NextContender(log, rest, v, w);
      w := if Beats(log, w, v) then w else v;
    }
  }

  /** Stored envelopes strictly above `d`. */
  ghost function Above(log: Log, d: Digest): set<Digest> {
    set x | x in log && IsProperAncestor(d, x)
  }

  lemma AboveShrinks(log: Log, d: Digest, kid: Digest)
    requires kid in Kids(log, d)
    ensures Above(log, kid) < Above(log, d)
  {
    forall x | x in Above(log, kid) ensures x in Above(log, d) {
      AncestorTransitive(d, kid, x.Prev().value);
    }
    assert kid in Above(log, d);
    if kid in Above(log, kid) { AncestorHeight(kid, kid.Prev().value); }
  }

  /** The walk down from any canonical envelope reaches a head. */
  lemma {:induction false} HeadExists(log: Log, root: Digest, at: Digest) returns (h: Digest)
    requires DigestsPin(log.Keys) && OnPath(log, root, at)
    ensures IsHead(log, root, h) && IsAncestor(at, h)
    decreases Above(log, at)
  {
    if Kids(log, at) == {} {
      h := at;
    } else {
      var next := BestExists(log, Kids(log, at));
      assert IsBest(log, at, next);
      AboveShrinks(log, at, next);
      h := HeadExists(log, root, next);
      AncestorTransitive(at, next, h);
    }
  }

  // ---------------------------------------------------------------------
  // Canonicity is decided by what is stored above a point

  /** Above `p`, `b` stores nothing `a` does not, at the same weights. */
  ghost predicate WithinAbove(b: Log, a: Log, p: Digest) {
    forall x :: x in b && IsProperAncestor(p, x) ==> x in a && a[x] == b[x]
  }

  /** A log that keeps the canonical path above `p` and adds nothing there
      keeps it canonical. */
  lemma {:induction false} CarryOver(a: Log, b: Log, ra: Digest, rb: Digest, p: Digest, d: Digest)
    requires OnPath(a, ra, p) && OnPath(a, ra, d) && IsAncestor(p, d)
    requires OnPath(b, rb, p) && WithinAbove(b, a, p)
    requires forall x :: IsProperAncestor(p, x) && IsAncestor(x, d) ==> x in b
    ensures OnPath(b, rb, d)
    decreases d
  {
    if d == p {
    } else {
      var q := d.Prev().value;
      AncestorHeight(p, d);
      assert IsAncestor(p, q);
      if d == ra {
        OnPathDescends(a, ra, p);
        AncestorAntisymmetric(p, d);
      } else {
        CarryOver(a, b, ra, rb, p, q);
        assert IsBest(a, q, d);
        forall x | x in Kids(b, q) ensures x == d || Beats(b, d, x) {
          assert IsProperAncestor(p, x);
          assert x in Kids(a, q);
        }
      }
    }
  }

  lemma CarryHead(a: Log, b: Log, ra: Digest, rb: Digest, p: Digest, h: Digest)
    requires OnPath(a, ra, p) && IsHead(a, ra, h) && OnPath(b, rb, p) && WithinAbove(b, a, p)
    requires forall x :: IsProperAncestor(p, x) && IsAncestor(x, h) ==> x in b
    ensures IsHead(b, rb, h)
  {
    CanonicalBelowHead(a, ra, h, p);
    CarryOver(a, b, ra, rb, p, h);
    KidsWithin(a, b, p, h);
  }

  lemma KidsWithin(a: Log, b: Log, p: Digest, q: Digest)
    requires WithinAbove(b, a, p) && IsAncestor(p, q)
    ensures Kids(b, q) <= Kids(a, q)
  {
    forall x | x in Kids(b, q) ensures x in Kids(a, q) {
      assert IsProperAncestor(p, x);
    }
  }

  /** Keeping just what descends from a canonical envelope and starting there
      reaches the same head. */
  lemma CutKeepsHead(log: Log, kept: Log, root: Digest, cut: Digest, h: Digest)
    requires IsHead(log, root, h) && OnPath(log, root, cut)
    requires forall x :: IsProperAncestor(cut, x) ==> (x in kept <==> x in log)
    requires forall x :: x in kept && x in log ==> kept[x] == log[x]
    ensures IsHead(kept, cut, h)
  {
    forall x | IsProperAncestor(cut, x) && IsAncestor(x, h) ensures x in kept {
      OnPathDescends(log, root, cut);
      AncestorTransitive(root, cut, x.Prev().value);
      AncestorTransitive(root, x.Prev().value, x);
      OnPathThrough(log, root, x, h);
      OnPathDescends(log, root, x);
      if x == root { AncestorHeight(root, x.Prev().value); }
    }
    CarryHead(log, kept, root, cut, cut, h);
  }

  // ---------------------------------------------------------------------
  // Gossip of canonical paths suffices

  /** Two logs weigh every envelope they share alike, but for the root, which
      competes with nothing. */
  ghost predicate Agree(a: Log, b: Log, root: Digest) {
    forall d :: d in a && d in b && d != root ==> a[d] == b[d]
  }

  /** A log between `a` and the union that holds `b`'s path to `hb`. */
  ghost predicate Merges(c: Log, a: Log, b: Log, root: Digest, hb: Digest) {
    && a.Keys <= c.Keys <= a.Keys + b.Keys
    && Agree(c, a, root) && Agree(c, b, root)
    && forall x :: IsProperAncestor(root, x) && IsAncestor(x, hb) ==> x in c
  }

  lemma AboveRoot(root: Digest, p: Digest, x: Digest)
    requires IsAncestor(root, p) && IsProperAncestor(p, x)
    ensures IsProperAncestor(root, x) && x != root
  {
    AncestorTransitive(root, p, x.Prev().value);
    AncestorHeight(root, x.Prev().value);
  }

  /** Above an envelope a grounded log does not hold, it holds nothing. */
  lemma {:induction false} NothingAbove(log: Log, root: Digest, p: Digest, x: Digest)
    requires Grounded(log, root) && IsProperAncestor(root, p) && p !in log
    requires IsAncestor(p, x)
    ensures x !in log
    decreases x
  {
    if x == p {
    } else {
      NothingAbove(log, root, p, x.Prev().value);
      AncestorTransitive(root, p.Prev().value, p);
      AncestorTransitive(root, p, x.Prev().value);
    }
  }

  /** Above an envelope nothing builds on, a grounded log holds nothing. */
  lemma {:induction false} NothingAboveTip(log: Log, root: Digest, tip: Digest, x: Digest)
    requires Grounded(log, root) && IsAncestor(root, tip) && Kids(log, tip) == {}
    requires IsProperAncestor(tip, x)
    ensures x !in log
  {
    AncestorHeight(tip, x.Prev().value);
    var kid := Toward(tip, x);
    assert kid !in Kids(log, tip);
    NothingAbove(log, root, kid, x);
  }

  /** Where both paths stand at `p` together: `c`'s head is `hA` or `hB`,
      whichever the two logs' next contest favours. */
  lemma {:induction false} MergeFrom(a: Log, b: Log, c: Log, root: Digest, ha: Digest, hb: Digest, p: Digest)
    requires Grounded(a, root) && Grounded(b, root) && Agree(a, b, root)
    requires DigestsPin(a.Keys + b.Keys)
    requires IsHead(a, root, ha) && IsHead(b, root, hb) && Merges(c, a, b, root, hb)
    requires OnPath(a, root, p) && OnPath(b, root, p) && OnPath(c, root, p)
    requires IsAncestor(p, ha) && IsAncestor(p, hb)
    ensures IsHead(c, root, if FirstPrevails(a, b, p, ha, hb) then ha else hb)
    decreases Height(ha) - Height(p)
  {
    AncestorHeight(p, ha);
    OnPathDescends(a, root, p);
    PathStored(b, root, p, hb);
    PathStored(a, root, p, ha);
    if p == ha {
      forall x | x in c && IsProperAncestor(p, x) ensures x in b && b[x] == c[x] {
        AboveRoot(root, p, x);
        NothingAboveTip(a, root, p, x);
      }
      StepsAbove(root, p, hb);
      CarryHead(b, c, root, root, p, hb);
    } else if p == hb {
      forall x | x in c && IsProperAncestor(p, x) ensures x in a && a[x] == c[x] {
        AboveRoot(root, p, x);
        NothingAboveTip(b, root, p, x);
      }
      CarryHead(a, c, root, root, p, ha);
    } else {
      MergeFork(a, b, c, root, ha, hb, p);
    }
  }

  /** Whether the first path's next step from `p` outranks the second's. */
  ghost predicate FirstPrevails(a: Log, b: Log, p: Digest, ha: Digest, hb: Digest)
    requires IsAncestor(p, ha) && IsAncestor(p, hb)
    decreases Height(ha) - Height(p)
  {
    if p == ha then false
    else if p == hb then true
    else
      var x, y := Toward(p, ha), Toward(p, hb);
      AncestorHeight(x, ha);
      if x == y then FirstPrevails(a, b, x, ha, hb)
      else x in a && y in b && (a[x] > b[y] || (a[x] == b[y] && x.bits > y.bits))
  }

  lemma PathStored(log: Log, root: Digest, p: Digest, h: Digest)
    requires OnPath(log, root, h) && OnPath(log, root, p) && IsAncestor(p, h)
    ensures forall x :: IsProperAncestor(p, x) && IsAncestor(x, h) ==> x in log && OnPath(log, root, x)
  {
    forall x | IsProperAncestor(p, x) && IsAncestor(x, h) ensures x in log && OnPath(log, root, x) {
      OnPathDescends(log, root, p);
      AncestorTransitive(root, p, x.Prev().value);
      AncestorTransitive(root, x.Prev().value, x);
      OnPathThrough(log, root, x, h);
      OnPathDescends(log, root, x);
      if x == root { AncestorHeight(root, x.Prev().value); }
    }
  }

  lemma StepsAbove(root: Digest, p: Digest, h: Digest)
    requires IsAncestor(root, p)
    ensures forall x :: IsProperAncestor(p, x) ==> IsProperAncestor(root, x)
  {
    forall x | IsProperAncestor(p, x) ensures IsProperAncestor(root, x) {
      AncestorTransitive(root, p, x.Prev().value);
    }
  }

  /** The better of two logs' winners wins among anything made of the two. */
  lemma BestOfBoth(a: Log, b: Log, c: Log, root: Digest, p: Digest, x: Digest, y: Digest)
    requires IsBest(a, p, x) && IsBest(b, p, y) && x in c && IsAncestor(root, p)
    requires c.Keys <= a.Keys + b.Keys && Agree(c, a, root) && Agree(c, b, root)
    requires x == y || a[x] > b[y] || (a[x] == b[y] && x.bits > y.bits)
    ensures IsBest(c, p, x)
  {
    AncestorHeight(root, p);
    forall z | z in Kids(c, p) ensures z == x || Beats(c, x, z) {
      if z in a {
        assert z in Kids(a, p);
      } else {
        assert z in Kids(b, p);
      }
    }
  }

  /** The log whose step from `p` outranks the other's carries its head into
      any log made of the two that holds its path. */
  lemma ForkWon(a: Log, b: Log, c: Log, root: Digest, ha: Digest, p: Digest, x: Digest, y: Digest)
    requires Grounded(b, root) && IsHead(a, root, ha)
    requires c.Keys <= a.Keys + b.Keys && Agree(c, a, root) && Agree(c, b, root) && OnPath(c, root, p)
    requires forall z :: IsProperAncestor(p, z) && IsAncestor(z, ha) ==> z in c
    requires IsAncestor(root, p) && OnPath(a, root, x) && IsAncestor(x, ha) && IsBest(a, p, x) && IsBest(b, p, y)
    requires x !in b
    requires a[x] > b[y] || (a[x] == b[y] && x.bits > y.bits)
    ensures IsHead(c, root, ha)
  {
    BestOfBoth(a, b, c, root, p, x, y);
    hide IsBest;
    hide Kids;
    forall z | z in c && IsProperAncestor(x, z) ensures z in a && a[z] == c[z] {
      AboveRoot(root, x, z);
      NothingAbove(b, root, x, z);
    }
    StepsAbove(p, x, ha);
    CarryHead(a, c, root, root, x, ha);
  }

  lemma {:induction false} MergeFork(a: Log, b: Log, c: Log, root: Digest, ha: Digest, hb: Digest, p: Digest)
    requires Grounded(a, root) && Grounded(b, root) && Agree(a, b, root)
    requires DigestsPin(a.Keys + b.Keys)
    requires IsHead(a, root, ha) && IsHead(b, root, hb) && Merges(c, a, b, root, hb)
    requires OnPath(a, root, p) && OnPath(b, root, p) && OnPath(c, root, p)
    requires IsAncestor(p, ha) && IsAncestor(p, hb) && p != ha && p != hb
    ensures IsHead(c, root, if FirstPrevails(a, b, p, ha, hb) then ha else hb)
    decreases Height(ha) - Height(p), 0
  {
    hide Kids;
    hide IsBest;
    hide Grounded;
    hide DigestsPin;
    var x, y := Toward(p, ha), Toward(p, hb);
    OnPathDescends(a, root, p);
    PathStored(a, root, p, ha);
    PathStored(b, root, p, hb);
    StepsAbove(root, p, hb);
    assert IsBest(a, p, x) && IsBest(b, p, y) by { ChildOnPath(a, root, p, x); ChildOnPath(b, root, p, y); }
    if x == y {
      BestOfBoth(a, b, c, root, p, x, y);
      AncestorHeight(x, ha);
      MergeFrom(a, b, c, root, ha, hb, x);
    } else if FirstPrevails(a, b, p, ha, hb) {
      LoserLacksWinner(a, b, root, p, x, y);
      ForkWon(a, b, c, root, ha, p, x, y);
    } else {
      Outranks(a, b, p, x, y);
      LoserLacksWinner(b, a, root, p, y, x);
      ForkWon(b, a, c, root, hb, p, y, x);
    }
  }

  lemma ChildOnPath(log: Log, root: Digest, p: Digest, x: Digest)
    requires OnPath(log, root, x) && x.Prev() == Some(p) && IsAncestor(root, p)
    ensures IsBest(log, p, x)
  {
    if x == root { AncestorHeight(root, p); }
  }

  lemma LoserLacksWinner(a: Log, b: Log, root: Digest, p: Digest, x: Digest, y: Digest)
    requires IsAncestor(root, p)
    requires IsBest(a, p, x) && IsBest(b, p, y) && x != y && Agree(a, b, root)
    requires a[x] > b[y] || (a[x] == b[y] && x.bits > y.bits)
    ensures x !in b
  {
    AncestorHeight(root, p);
    assert x in b ==> x in Kids(b, p);
  }

  lemma Outranks(a: Log, b: Log, p: Digest, x: Digest, y: Digest)
    requires IsBest(a, p, x) && IsBest(b, p, y) && x != y && DigestsPin(a.Keys + b.Keys)
    requires !(a[x] > b[y] || (a[x] == b[y] && x.bits > y.bits))
    ensures b[y] > a[x] || (b[y] == a[x] && y.bits > x.bits)
  {
  }

  /** Trading canonical paths is enough. Two nodes on one root, weighing what
      they share alike: the head of everything both know is one of their two
      heads, and it is also the head of what either knows after taking in
      just the other's canonical path. */
  lemma GossipSuffices(a: Log, b: Log, root: Digest, ha: Digest, hb: Digest, pulledA: Log, pulledB: Log)
      returns (h: Digest)
    requires Grounded(a, root) && Grounded(b, root) && Agree(a, b, root) && DigestsPin(a.Keys + b.Keys)
    requires IsHead(a, root, ha) && IsHead(b, root, hb)
    requires Merges(pulledA, a, b, root, hb) && Merges(pulledB, b, a, root, ha)
    ensures h == ha || h == hb
    ensures IsHead(a + b, root, h) && IsHead(pulledA, root, h) && IsHead(pulledB, root, h)
  {
    hide Kids;
    hide IsBest;
    hide Grounded;
    OnPathDescends(a, root, ha);
    OnPathDescends(b, root, hb);
    assert a.Keys + b.Keys == b.Keys + a.Keys;
    var union := a + b;
    assert Merges(union, a, b, root, hb) by { PathStored(b, root, root, hb); }
    assert Merges(union, b, a, root, ha) by { PathStored(a, root, root, ha); }
    h := if FirstPrevails(a, b, root, ha, hb) then ha else hb;
    MergeFrom(a, b, pulledA, root, ha, hb, root);
    MergeFrom(a, b, union, root, ha, hb, root);
    MergeFrom(b, a, union, root, hb, ha, root);
    MergeFrom(b, a, pulledB, root, hb, ha, root);
    HeadUnique(union, root, h, if FirstPrevails(b, a, root, hb, ha) then hb else ha);
  }

  /** What is added strictly above an envelope off the path moves no head. */
  lemma GrowthOffPath(log: Log, more: Log, root: Digest, d: Digest, h: Digest)
    requires IsHead(log, root, h) && IsAncestor(root, d) && !OnPath(log, root, d)
    requires more.Keys !! log.Keys && forall x :: x in more ==> IsProperAncestor(d, x)
    ensures IsHead(log + more, root, h)
  {
    OnPathDescends(log, root, h);
    PathGrowsOff(log, more, root, d, h);
    forall x ensures x !in Kids(log + more, h) {
      assert x in log && x.Prev() == Some(h) ==> x in Kids(log, h);
      if x in more && x.Prev() == Some(h) { OnPathThrough(log, root, d, h); }
    }
  }

  lemma {:induction false} PathGrowsOff(log: Log, more: Log, root: Digest, d: Digest, y: Digest)
    requires OnPath(log, root, y) && IsAncestor(root, d) && !OnPath(log, root, d)
    requires more.Keys !! log.Keys && forall x :: x in more ==> IsProperAncestor(d, x)
    ensures OnPath(log + more, root, y)
    decreases y
  {
    if y == root {
    } else {
      var p := y.Prev().value;
      PathGrowsOff(log, more, root, d, p);
      OnPathDescends(log, root, p);
      forall x | x in Kids(log + more, p) ensures x == y || Beats(log + more, y, x) {
        if x in more { OnPathThrough(log, root, d, p); } else { assert x in Kids(log, p); }
      }
    }
  }

  // ---------------------------------------------------------------------
  // Orphaning is permanent

  /** `d` sits on no line through the root. */
  ghost predicate Aside(root: Digest, d: Digest) {
    !IsAncestor(d, root) && !IsAncestor(root, d)
  }

  /** Some envelope `d` builds on, or `d`, lost its fork to `y`. */
  ghost predicate LostTo(log: Log, root: Digest, d: Digest, x: Digest, y: Digest) {
    && IsAncestor(x, d) && IsProperAncestor(root, x) && x.Prev() == y.Prev()
    && x in log && y in log && Beats(log, y, x)
  }

  ghost predicate OffForGood(log: Log, root: Digest, d: Digest) {
    Aside(root, d) || exists x, y :: LostTo(log, root, d, x, y)
  }

  lemma OffMeansNotCanonical(log: Log, root: Digest, h: Digest, d: Digest)
    requires IsHead(log, root, h) && OffForGood(log, root, d)
    ensures !IsAncestor(d, h)
  {
    OnPathDescends(log, root, h);
    if IsAncestor(d, h) {
      AncestorsComparable(d, root, h);
      var x, y :| LostTo(log, root, d, x, y);
      AncestorTransitive(x, d, h);
      AncestorTransitive(root, x.Prev().value, x);
      OnPathThrough(log, root, x, h);
      ChildOnPath(log, root, x.Prev().value, x);
      LoserNotBest(log, root, d, x, y);
    }
  }

  lemma LoserNotBest(log: Log, root: Digest, d: Digest, x: Digest, y: Digest)
    requires LostTo(log, root, d, x, y)
    ensures !IsBest(log, x.Prev().value, x)
  {
    assert y in Kids(log, x.Prev().value);
  }

  /** A stored line that is not canonical lost a fork somewhere. */
  lemma {:induction false} FindLoss(log: Log, root: Digest, d: Digest)
    requires DigestsPin(log.Keys) && !OnPath(log, root, d) && IsAncestor(root, d)
    requires forall x :: IsProperAncestor(root, x) && IsAncestor(x, d) ==> x in log
    ensures exists x, y :: LostTo(log, root, d, x, y)
    decreases d
  {
    AncestorHeight(root, d);
    var p := d.Prev().value;
    if !OnPath(log, root, p) {
      FindLoss(log, root, p);
      var x, y :| LostTo(log, root, p, x, y);
      assert LostTo(log, root, d, x, y);
    } else {
      assert d in Kids(log, p);
      var y :| y in Kids(log, p) && y != d && !Beats(log, d, y);
      assert LostTo(log, root, d, d, y);
    }
  }

  /** What was canonical over a smaller log and is not over a larger one has
      lost a fork in the larger one. */
  lemma LeavingMeansOff(small: Log, log: Log, root: Digest, h0: Digest, h: Digest, d: Digest)
    requires DigestsPin(log.Keys) && small.Keys <= log.Keys
    requires IsHead(small, root, h0) && IsHead(log, root, h)
    requires IsAncestor(d, h0) && !IsAncestor(d, h)
    ensures OffForGood(log, root, d)
  {
    OnPathDescends(small, root, h0);
    OnPathDescends(log, root, h);
    AncestorsComparable(d, root, h0);
    if IsAncestor(d, root) { AncestorTransitive(d, root, h); }
    OnPathThrough(small, root, d, h0);
    PathStored(small, root, root, d);
    if OnPath(log, root, d) { CanonicalBelowHead(log, root, h, d); }
    FindLoss(log, root, d);
  }

  lemma OffKeptByGrowth(small: Log, log: Log, root: Digest, d: Digest)
    requires OffForGood(small, root, d)
    requires forall x :: x in small ==> x in log && log[x] == small[x]
    ensures OffForGood(log, root, d)
  {
    if !Aside(root, d) {
      var x, y :| LostTo(small, root, d, x, y);
      assert LostTo(log, root, d, x, y);
    }
  }

  lemma OffKeptByCut(log: Log, kept: Log, root: Digest, cut: Digest, d: Digest)
    requires OffForGood(log, root, d) && OnPath(log, root, cut)
    requires forall x :: IsProperAncestor(cut, x) && x in log ==> x in kept && kept[x] == log[x]
    ensures OffForGood(kept, cut, d)
  {
    OnPathDescends(log, root, cut);
    if !Aside(cut, d) {
      if Aside(root, d) {
        if IsAncestor(cut, d) { AncestorTransitive(root, cut, d); } else { AncestorsComparable(root, d, cut); }
      }
      var x, y :| LostTo(log, root, d, x, y);
      LossAboveCut(log, root, cut, d, x, y);
      assert LostTo(kept, cut, d, x, y);
    }
  }

  /** A fork lost under a canonical envelope's line was lost above it. */
  lemma LossAboveCut(log: Log, root: Digest, cut: Digest, d: Digest, x: Digest, y: Digest)
    requires LostTo(log, root, d, x, y) && OnPath(log, root, cut) && !Aside(cut, d)
    ensures IsProperAncestor(cut, x) && IsProperAncestor(cut, y)
  {
    OnPathDescends(log, root, cut);
    if IsAncestor(d, cut) { AncestorTransitive(x, d, cut); } else { AncestorsComparable(x, cut, d); }
    if IsAncestor(x, cut) {
      AncestorTransitive(root, x.Prev().value, x);
      OnPathThrough(log, root, x, cut);
      ChildOnPath(log, root, x.Prev().value, x);
      LoserNotBest(log, root, d, x, y);
    } else {
      AncestorHeight(cut, x);
    }
  }

  /** A moment in a node's life: its root, what it stores, its head. */
  datatype Stage = Stage(root: Digest, log: Log, head: Digest)

  ghost predicate Standing(s: Stage) {
    DigestsPin(s.log.Keys) && IsHead(s.log, s.root, s.head)
  }

  /** Inserting: the log only grows, weights stay. */
  ghost predicate Inserts(s: Stage, t: Stage) {
    t.root == s.root && forall x :: x in s.log ==> x in t.log && t.log[x] == s.log[x]
  }

  /** A completed compaction: the root moves to a canonical cut, the head
      stays, and whatever stands above the cut stays. */
  ghost predicate Compacts(s: Stage, t: Stage) {
    && t.head == s.head && OnPath(s.log, s.root, t.root)
    && forall x :: IsProperAncestor(t.root, x) && x in s.log ==> x in t.log && t.log[x] == s.log[x]
  }

  ghost predicate IsRun(run: seq<Stage>) {
    && (forall i :: 0 <= i < |run| ==> Standing(run[i]))
    && (forall i :: 0 < i < |run| ==> Inserts(run[i - 1], run[i]) || Compacts(run[i - 1], run[i]))
  }

  lemma {:induction false} StaysOff(run: seq<Stage>, j: nat, k: nat, d: Digest)
    requires IsRun(run) && j <= k < |run| && OffForGood(run[j].log, run[j].root, d)
    ensures OffForGood(run[k].log, run[k].root, d)
    decreases k
  {
    if j == k {
    } else {
      StaysOff(run, j, k - 1, d);
      var s, t := run[k - 1], run[k];
      if Inserts(s, t) {
        OffKeptByGrowth(s.log, t.log, s.root, d);
      } else {
        OffKeptByCut(s.log, t.log, s.root, t.root, d);
      }
    }
  }

  /** The step at which `d` left the canonical chain puts it off for good. */
  lemma {:induction false} LeftOnce(run: seq<Stage>, i: nat, j: nat, d: Digest)
    requires IsRun(run) && i <= j < |run|
    requires IsAncestor(d, run[i].head) && !IsAncestor(d, run[j].head)
    ensures OffForGood(run[j].log, run[j].root, d)
    decreases j
  {
    var s, t := run[j - 1], run[j];
    if IsAncestor(d, s.head) {
      LeavingMeansOff(s.log, t.log, t.root, s.head, t.head, d);
    } else {
      LeftOnce(run, i, j - 1, d);
      StaysOff(run, j - 1, j, d);
    }
  }

  /** Orphaning is permanent: over every run of inserts and completed
      compactions, an envelope that stood on the canonical path once and left
      it is never back on it. */
  lemma OrphanedForGood(run: seq<Stage>, i: nat, j: nat, k: nat, d: Digest)
    requires IsRun(run) && i <= j <= k < |run|
    requires IsAncestor(d, run[i].head) && !IsAncestor(d, run[j].head)
    ensures !IsAncestor(d, run[k].head)
  {
    LeftOnce(run, i, j, d);
    StaysOff(run, j, k, d);
    OffMeansNotCanonical(run[k].log, run[k].root, run[k].head, d);
  }
}
