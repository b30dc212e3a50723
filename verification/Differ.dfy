/** What moving between two heads did: a walk back from both at once to where
    they last agreed (crates/state/src/change.rs, `ChangeDiffer`). */
module Differ {
  import opened Wire
  import opened Ledger
  import opened Lineage
  import opened Ingest
  import opened Storage
  import opened ChangeSets

  /** The envelopes `a` builds on, itself included, that `b` does not. */
  ghost function Leaving(a: Digest, b: Digest): set<Digest>
    decreases a
  {
    if IsAncestor(a, b) then {}
    else if a.Prev().None? then {a}
    else {a} + Leaving(a.Prev().value, b)
  }

  lemma {:induction false} LeavingIs(a: Digest, b: Digest, d: Digest)
    ensures d in Leaving(a, b) <==> IsAncestor(d, a) && !IsAncestor(d, b)
    decreases a
  {
    if IsAncestor(a, b) {
      if IsAncestor(d, a) { AncestorTransitive(d, a, b); }
    } else if a.Prev().Some? {
      LeavingIs(a.Prev().value, b, d);
    }
  }

  /** How many hops down from `head` an ancestor lies. */
  function Distance(head: Digest, d: Digest): int { Height(head) - Height(d) }

  /** `meet` is named from both heads, and nothing nearer is. */
  ghost predicate NearestCommon(keys: set<Digest>, from: Digest, to: Digest, meet: Digest) {
    && meet in Named(keys, from) && meet in Named(keys, to)
    && forall x :: x in Named(keys, from) && x in Named(keys, to) ==> Height(x) <= Height(meet)
  }

  datatype Cursor = At(next: Digest) | End(stopped: Option<Digest>)

  /** One side of the walk, head first. */
  class Branch {
    const head: Digest
    var walked: seq<Digest>
    var cursor: Cursor
    var reached: set<Digest>

    /** The branch has reached exactly what a climb from its head names within
        as many hops as it has walked: what it walked, and its cursor. */
    ghost predicate Valid(keys: set<Digest>)
      reads this
    {
      && (forall i :: 0 <= i < |walked| ==>
            walked[i] in keys && walked[i] in Named(keys, head) && Distance(head, walked[i]) == i)
      && (forall d :: d in reached <==> d in Named(keys, head) && Distance(head, d) <= |walked|)
      && (forall d :: d in reached <==> d in walked || cursor == At(d) || cursor == End(Some(d)))
      && (cursor.At? ==> Distance(head, cursor.next) == |walked|)
      && (cursor.End? && cursor.stopped.Some? ==> Distance(head, cursor.stopped.value) == |walked|)
      && (cursor.End? ==> forall d :: d in Named(keys, head) ==> d in reached)
    }

    constructor (head: Digest, ghost keys: set<Digest>)
      ensures this.head == head && Valid(keys) && walked == [] && cursor.At?
    {
      this.head := head;
      walked, cursor, reached := [], At(head), {head};
      new;
      forall d | d in Named(keys, head) && Distance(head, d) <= 0 ensures d == head {
        NamedAncestors(keys, d, head);
        AncestorHeight(d, head);
      }
      assert head in Named(keys, head);
    }

    /** Of the digests on both sides so far, the one closest to the heads. */
    method Meet(other: Branch, ghost keys: set<Digest>) returns (r: Option<Digest>)
      requires Valid(keys)
      ensures r.None? <==> reached !! other.reached
      ensures r.Some? ==> r.value in reached && r.value in other.reached
      ensures r.Some? ==> forall x :: x in reached && x in other.reached ==> Height(x) <= Height(r.value)
    {
      for i := 0 to |walked|
        invariant forall j :: 0 <= j < i ==> walked[j] !in other.reached
      {
        if walked[i] in other.reached {
          return Some(walked[i]);
        }
      }
      var last := match cursor case At(d) => Some(d) case End(d) => d;
      if last.Some? && last.value in other.reached {
        return last;
      }
      return None;
    }

    /** One hop down the log; false where there is no next hop to take. */
    method Step(storage: MemStorage) returns (moved: bool)
      requires Valid(storage.envelopes.Keys)
      modifies this
      ensures Valid(storage.envelopes.Keys)
      ensures old(reached) <= reached
      ensures moved <==> cursor.At?
      ensures old(cursor).End? ==> !moved
      ensures |walked| >= |old(walked)|
      ensures moved ==> |walked| == |old(walked)| + 1
      ensures !moved ==> reached == old(reached)
    {
      ghost var keys := storage.envelopes.Keys;
      if cursor.End? {
        return false;
      }
      var digest := cursor.next;
      if digest !in storage.envelopes {
        EndsAt(keys, head, digest);
        cursor := End(Some(digest));
        return false;
      }
      if digest.Prev().Some? {
        var prev := digest.Prev().value;
        NextDown(keys, head, digest);
        cursor := At(prev);
        reached := reached + {prev};
        walked := walked + [digest];
        return true;
      }
      EndsAt(keys, head, digest);
      cursor := End(None);
      walked := walked + [digest];
      return false;
    }

    /** The envelopes walked above `meet`. */
    method Above(meet: Digest, ghost keys: set<Digest>) returns (above: seq<Digest>)
      requires Valid(keys) && meet in reached
      ensures forall d :: d in above <==> IsAncestor(d, head) && IsProperAncestor(meet, d)
    {
      var i := 0;
      while i < |walked| && walked[i] != meet
        invariant i <= |walked|
        invariant forall j :: 0 <= j < i ==> walked[j] != meet
      {
        i := i + 1;
      }
      above := walked[..i];
      AboveMeet(keys, head, walked, meet, i);
    }
  }

  /** A climb goes no further than an envelope that is missing or parentless. */
  lemma EndsAt(keys: set<Digest>, head: Digest, at: Digest)
    requires at in Named(keys, head) && (at !in keys || at.Prev().None?)
    ensures forall d :: d in Named(keys, head) ==> Distance(head, d) <= Distance(head, at)
  {
    forall d | d in Named(keys, head) ensures Height(at) <= Height(d) {
      NamedAncestors(keys, d, head);
      NamedAncestors(keys, at, head);
      AncestorsComparable(d, at, head);
      if IsAncestor(d, at) {
        AncestorHeight(d, at);
        if d != at { NamedThrough(keys, d, at, head); }
      } else {
        AncestorHeight(at, d);
      }
    }
  }

  /** One hop below `at` a climb names `at`'s parent and nothing else. */
  lemma NextDown(keys: set<Digest>, head: Digest, at: Digest)
    requires at in Named(keys, head) && at in keys && at.Prev().Some?
    ensures at.Prev().value in Named(keys, head) && Distance(head, at.Prev().value) == Distance(head, at) + 1
    ensures forall d :: d in Named(keys, head) && Distance(head, d) == Distance(head, at) + 1 ==> d == at.Prev().value
    ensures forall d :: d in Named(keys, head) && Distance(head, d) == Distance(head, at) ==> d == at
  {
    var prev := at.Prev().value;
    NamedDown(keys, head, at);
    forall d | d in Named(keys, head)
      ensures Height(d) == Height(prev) ==> d == prev
      ensures Height(d) == Height(at) ==> d == at
    {
      SameHeight(keys, head, d, prev);
      SameHeight(keys, head, d, at);
    }
  }

  lemma {:induction false} NamedDown(keys: set<Digest>, head: Digest, at: Digest)
    requires at in Named(keys, head) && at in keys && at.Prev().Some?
    ensures at.Prev().value in Named(keys, head)
    decreases head
  {
    if at == head {
    } else {
      NamedDown(keys, head.Prev().value, at);
    }
  }

  lemma SameHeight(keys: set<Digest>, head: Digest, d: Digest, e: Digest)
    requires d in Named(keys, head) && e in Named(keys, head)
    ensures Height(d) == Height(e) ==> d == e
  {
    NamedAncestors(keys, d, head);
    NamedAncestors(keys, e, head);
    AncestorsComparable(d, e, head);
    if IsAncestor(d, e) { AncestorHeight(d, e); } else { AncestorHeight(e, d); }
  }

  lemma AboveMeet(keys: set<Digest>, head: Digest, walked: seq<Digest>, meet: Digest, i: nat)
    requires forall j :: 0 <= j < |walked| ==>
               walked[j] in keys && walked[j] in Named(keys, head) && Distance(head, walked[j]) == j
    requires meet in Named(keys, head) && Distance(head, meet) <= |walked|
    requires i <= |walked| && (forall j :: 0 <= j < i ==> walked[j] != meet) && (i < |walked| ==> walked[i] == meet)
    ensures forall d :: d in walked[..i] <==> IsAncestor(d, head) && IsProperAncestor(meet, d)
  {
    NamedAncestors(keys, meet, head);
    AncestorHeight(meet, head);
    if i == |walked| && Distance(head, meet) < |walked| {
      SameHeight(keys, head, walked[Distance(head, meet)], meet);
    }
    assert Distance(head, meet) == i;
    forall d | d in walked[..i] ensures IsAncestor(d, head) && IsProperAncestor(meet, d) {
      NamedAncestors(keys, d, head);
      AncestorsComparable(d, meet, head);
      if IsAncestor(d, meet) { AncestorHeight(d, meet); } else { AncestorHeight(meet, d); }
    }
    forall d | IsAncestor(d, head) && IsProperAncestor(meet, d) ensures d in walked[..i] {
      AncestorHeight(meet, d.Prev().value);
      AncestorHeight(d, head);
      NamedThrough(keys, meet, d, head);
      SameHeight(keys, head, walked[Distance(head, d)], d);
      assert walked[..i][Distance(head, d)] == d;
    }
  }

  function Max(a: int, b: int): int { if a >= b then a else b }

  function Elements(run: seq<Digest>): set<Digest> { set x | x in run }

  /** Records every envelope of a run. */
  method RecordAll(c: Changes, run: seq<Digest>, ghost ds: set<Digest>) returns (d: Changes)
    requires Summarises(c, ds)
    ensures Summarises(d, ds + Elements(run))
  {
    d := c;
    for i := 0 to |run|
      invariant Summarises(d, ds + Elements(run[..i]))
    {
      ghost var before := ds + Elements(run[..i]);
      d := Record(d, run[i].payload);
      assert Elements(run[..i + 1]) == Elements(run[..i]) + {run[i]};
      assert ds + Elements(run[..i + 1]) == before + {run[i]};
    }
    assert run[..|run|] == run;
  }

  /** Steps two branches down the log until they meet. They do at the nearest
      envelope both heads name, within as many rounds as the further head is
      hops away from it; or never, when nothing is named from both. */
  method FindMeeting(storage: MemStorage, undone: Branch, made: Branch) returns (met: Option<Digest>, ghost rounds: nat)
    requires undone != made && undone.walked == [] && made.walked == [] && undone.cursor.At? && made.cursor.At?
    requires undone.Valid(storage.envelopes.Keys) && made.Valid(storage.envelopes.Keys)
    modifies undone, made
    ensures undone.Valid(storage.envelopes.Keys) && made.Valid(storage.envelopes.Keys)
    ensures met.None? <==> Named(storage.envelopes.Keys, undone.head) !! Named(storage.envelopes.Keys, made.head)
    ensures met.Some? ==>
              && met.value in undone.reached && met.value in made.reached
              && NearestCommon(storage.envelopes.Keys, undone.head, made.head, met.value)
              && rounds <= Max(Distance(undone.head, met.value), Distance(made.head, met.value))
  {
    ghost var keys, from, to := storage.envelopes.Keys, undone.head, made.head;
    hide Branch.Valid;
    hide Named;
    hide Apart;
    hide NearestCommon;
    hide Height;
    hide Distance;
    hide Max;
    rounds := 0;
    NotYetApart(keys, from, to);
    while true
      invariant undone.Valid(keys) && made.Valid(keys)
      invariant undone.cursor.At? ==> |undone.walked| == rounds
      invariant made.cursor.At? ==> |made.walked| == rounds
      invariant Apart(keys, from, to, rounds)
      decreases Height(from) + 1 - |undone.walked| + Height(to) + 1 - |made.walked|
    {
      met := undone.Meet(made, keys);
      if met.Some? {
        MetNearest(keys, from, to, undone, made, met.value);
        MetInTime(keys, from, to, met.value, rounds);
        return;
      }
      StillApart(keys, from, to, undone, made, rounds);
      var moved := StepBoth(storage, undone, made, rounds);
      if !moved {
        return;
      }
      rounds := rounds + 1;
    }
  }

  /** One round: each branch takes a step. Two that have not met and can go no
      further have nothing in common. */
  method StepBoth(storage: MemStorage, undone: Branch, made: Branch, ghost rounds: nat) returns (moved: bool)
    requires undone != made && undone.reached !! made.reached
    requires undone.Valid(storage.envelopes.Keys) && made.Valid(storage.envelopes.Keys)
    requires (undone.cursor.At? ==> |undone.walked| == rounds) && (made.cursor.At? ==> |made.walked| == rounds)
    modifies undone, made
    ensures undone.Valid(storage.envelopes.Keys) && made.Valid(storage.envelopes.Keys)
    ensures (undone.cursor.At? ==> |undone.walked| == rounds + 1) && (made.cursor.At? ==> |made.walked| == rounds + 1)
    ensures |undone.walked| <= Height(undone.head) + 1 && |made.walked| <= Height(made.head) + 1
    ensures moved ==> |undone.walked| + |made.walked| > |old(undone.walked)| + |old(made.walked)|
    ensures !moved ==> Named(storage.envelopes.Keys, undone.head) !! Named(storage.envelopes.Keys, made.head)
  {
    hide Branch.Valid;
    hide Named;
    hide Height;
    var undoneMoved := undone.Step(storage);
    var madeMoved := made.Step(storage);
    BranchFacts(undone, storage.envelopes.Keys);
    BranchFacts(made, storage.envelopes.Keys);
    return undoneMoved || madeMoved;
  }

  /** Nothing named from both heads is within fewer hops of each. */
  ghost predicate Apart(keys: set<Digest>, from: Digest, to: Digest, rounds: nat) {
    forall x :: x in Named(keys, from) && x in Named(keys, to) ==>
      Distance(from, x) >= rounds || Distance(to, x) >= rounds
  }

  lemma StillApart(keys: set<Digest>, from: Digest, to: Digest, undone: Branch, made: Branch, rounds: nat)
    requires undone.Valid(keys) && made.Valid(keys) && undone.head == from && made.head == to
    requires undone.reached !! made.reached
    requires undone.cursor.At? ==> |undone.walked| == rounds
    requires made.cursor.At? ==> |made.walked| == rounds
    ensures Apart(keys, from, to, rounds + 1)
  {
    forall x | x in Named(keys, from) && x in Named(keys, to)
      ensures Distance(from, x) >= rounds + 1 || Distance(to, x) >= rounds + 1
    {
      assert x !in undone.reached || x !in made.reached;
    }
  }

  /** What moving from one head to another did: what was orphaned is exactly
      the old line without the new, and what changed is exactly what either
      branch recorded. The heads diverge exactly when what the log names from
      them is disjoint. */
  method Diff(storage: MemStorage, from: Digest, to: Digest) returns (r: Result<Movement, Error>)
    ensures r.Err? <==> Named(storage.envelopes.Keys, from) !! Named(storage.envelopes.Keys, to)
    ensures r.Err? ==> r.error == Diverged(from, to)
    ensures r.Ok? ==>
              && r.value.orphaned == Leaving(from, to)
              && Summarises(r.value.changes, Leaving(from, to) + Leaving(to, from))
  {
    hide Summarises;
    hide Named;
    hide Leaving;
    hide NearestCommon;
    ghost var keys := storage.envelopes.Keys;
    var undone := new Branch(from, keys);
    var made := new Branch(to, keys);
    var met, rounds := FindMeeting(storage, undone, made);
    if met.None? {
      return Err(Diverged(from, to));
    }
    var left := undone.Above(met.value, keys);
    var taken := made.Above(met.value, keys);
    AboveIsLeaving(keys, from, to, met.value, left);
    AboveIsLeaving(keys, to, from, met.value, taken);
    NothingSummarised();
    var changes := RecordAll(map[], left, {});
    assert {} + Elements(left) == Elements(left);
    changes := RecordAll(changes, taken, Elements(left));
    return Ok(Movement(Elements(left), changes));
  }

  lemma NothingSummarised()
    ensures Summarises(map[], {})
  {
  }

  lemma DistancesPositive(keys: set<Digest>, head: Digest)
    ensures forall x :: x in Named(keys, head) ==> Distance(head, x) >= 0
  {
    forall x | x in Named(keys, head) ensures Distance(head, x) >= 0 {
      NamedAncestors(keys, x, head);
      AncestorHeight(x, head);
    }
  }

  lemma NotYetApart(keys: set<Digest>, from: Digest, to: Digest)
    ensures Apart(keys, from, to, 0)
  {
    DistancesPositive(keys, from);
  }

  lemma MetInTime(keys: set<Digest>, from: Digest, to: Digest, meet: Digest, rounds: nat)
    requires Apart(keys, from, to, rounds) && NearestCommon(keys, from, to, meet)
    ensures rounds <= Max(Distance(from, meet), Distance(to, meet))
    ensures !(Named(keys, from) !! Named(keys, to))
  {
    assert meet in Named(keys, from) && meet in Named(keys, to);
  }

  lemma BranchFacts(branch: Branch, keys: set<Digest>)
    requires branch.Valid(keys)
    ensures |branch.walked| <= Height(branch.head) + 1
    ensures branch.reached <= Named(keys, branch.head)
    ensures branch.cursor.End? ==> branch.reached == Named(keys, branch.head)
  {
    var walked := branch.walked;
    if walked != [] { assert Distance(branch.head, walked[|walked| - 1]) == |walked| - 1; }
  }

  /** The nearest of what both branches have reached is nearest outright. */
  lemma MetNearest(keys: set<Digest>, from: Digest, to: Digest, undone: Branch, made: Branch, meet: Digest)
    requires undone.Valid(keys) && made.Valid(keys) && undone.head == from && made.head == to
    requires meet in undone.reached && meet in made.reached
    requires forall x :: x in undone.reached && x in made.reached ==> Height(x) <= Height(meet)
    ensures NearestCommon(keys, from, to, meet)
  {
    var us, ms := undone.reached, made.reached;
    forall x | x in Named(keys, from) && x in Named(keys, to) ensures Height(x) <= Height(meet) {
      assert Height(x) > Height(meet) ==> x in us && x in ms;
    }
  }

  /** Above the nearest common envelope lies exactly what the other head does
      not build on. */
  lemma AboveIsLeaving(keys: set<Digest>, from: Digest, to: Digest, meet: Digest, above: seq<Digest>)
    requires NearestCommon(keys, from, to, meet) || NearestCommon(keys, to, from, meet)
    requires forall d :: d in above <==> IsAncestor(d, from) && IsProperAncestor(meet, d)
    ensures Elements(above) == Leaving(from, to)
  {
    NamedAncestors(keys, meet, from);
    NamedAncestors(keys, meet, to);
    forall d ensures d in above <==> d in Leaving(from, to) {
      LeavingIs(from, to, d);
      if IsAncestor(d, from) {
        AncestorsComparable(d, meet, from);
        if IsAncestor(d, meet) {
          AncestorTransitive(d, meet, to);
          AncestorHeight(d, meet);
          if IsProperAncestor(meet, d) { AncestorHeight(meet, d.Prev().value); }
        } else {
          AncestorHeight(meet, d);
          if IsAncestor(d, to) {
            NamedThrough(keys, meet, d, to);
            NamedThrough(keys, meet, d, from);
            AncestorHeight(meet, d.Prev().value);
          }
        }
      }
    }
  }

  // ---------------------------------------------------------------------
  // Change sets are sound across reorgs

  lemma TransitionFrame(s: State, head: Digest, d: Digest, key: Name, path: Option<Path>)
    requires Transition(s, head, d).Some?
    requires !MsgTouches(d.payload, key, path) && !Shifts(d.payload, key, path)
    ensures Read(Transition(s, head, d).value, key, SegmentsOf(path)) == Read(s, key, SegmentsOf(path))
  {
    ApplyFrame(s, head, Envelope(d, Verify(s, head, d).value), key, path);
  }

  /** What a path reads at an envelope of a chain, if it reads anything. */
  ghost function ReadAt(base: Base, d: Digest, key: Name, path: Option<Path>): Option<Value>
    requires Replay(base, d).Some?
  {
    Read(Replay(base, d).value, key, SegmentsOf(path))
  }

  /** A line of envelopes none of which touches or shifts a path leaves what
      it reads alone. */
  lemma {:induction false} ReadDown(base: Base, low: Digest, high: Digest, key: Name, path: Option<Path>)
    requires Replay(base, high).Some? && IsAncestor(base.root, low) && IsAncestor(low, high)
    requires forall d :: IsAncestor(d, high) && IsProperAncestor(low, d) ==>
               !MsgTouches(d.payload, key, path) && !Shifts(d.payload, key, path)
    ensures Replay(base, low).Some? && ReadAt(base, high, key, path) == ReadAt(base, low, key, path)
    decreases high
  {
    hide Transition;
    hide MsgTouches;
    hide Shifts;
    hide Read;
    ReplayThrough(base, low, high);
    if low == high {
    } else {
      AncestorHeight(low, high);
      var prev := high.Prev().value;
      if high == base.root { AncestorAntisymmetric(low, high); }
      AncestorTransitive(base.root, low, prev);
      ReplayThrough(base, prev, high);
      ReplayNext(base, high);
      TransitionFrame(Replay(base, prev).value, prev, high, key, path);
      ReadDown(base, low, prev, key, path);
    }
  }

  /** The nearest envelope both lines share. */
  ghost function Fork(a: Digest, b: Digest, root: Digest): (m: Digest)
    requires IsAncestor(root, a) && IsAncestor(root, b)
    ensures IsAncestor(m, a) && IsAncestor(m, b) && IsAncestor(root, m)
    ensures forall d :: IsAncestor(d, a) && IsAncestor(d, b) ==> IsAncestor(d, m)
    decreases a
  {
    if IsAncestor(a, b) then a
    else
      assert a != root;
      Fork(a.Prev().value, b, root)
  }

  /** A movement that touches neither a path nor anything that shifts it, on
      the branch left or the branch taken, leaves what the path reads. */
  lemma MovementSound(base: Base, from: Digest, to: Digest, changes: Changes, key: Name, path: Option<Path>)
    requires Replay(base, from).Some? && Replay(base, to).Some?
    requires Summarises(changes, Leaving(from, to) + Leaving(to, from))
    requires !Touches(changes, key, path)
    requires forall d :: d in Leaving(from, to) + Leaving(to, from) ==> !Shifts(d.payload, key, path)
    ensures ReadAt(base, from, key, path) == ReadAt(base, to, key, path)
  {
    hide Transition;
    hide MsgTouches;
    hide Shifts;
    hide Read;
    hide Replay;
    SummaryTouches(changes, Leaving(from, to) + Leaving(to, from), key, path);
    hide Summarises;
    hide Touches;
    ReplayDescends(base, from);
    ReplayDescends(base, to);
    var m := Fork(from, to, base.root);
    ForkLeaves(from, to, m);
    ForkLeaves(to, from, m);
    ReadDown(base, m, from, key, path);
    ReadDown(base, m, to, key, path);
  }

  lemma ForkLeaves(a: Digest, b: Digest, m: Digest)
    requires IsAncestor(m, a) && forall d :: IsAncestor(d, a) && IsAncestor(d, b) ==> IsAncestor(d, m)
    ensures forall d :: IsAncestor(d, a) && IsProperAncestor(m, d) ==> d in Leaving(a, b)
  {
    forall d | IsAncestor(d, a) && IsProperAncestor(m, d) ensures d in Leaving(a, b) {
      LeavingIs(a, b, d);
      AncestorHeight(m, d.Prev().value);
      if IsAncestor(d, m) { AncestorHeight(d, m); }
    }
  }

  /** The exclusion is needed: for every clear of an array element and every
      path through a later element of that array, there is a chain and an
      envelope on it that applies, whose movement no summary shows to touch
      the path, and across which the path reads differently. */
  lemma ShiftGoesUnrecorded(path: Path, other: Path) returns (base: Base, d: Digest, key: Name)
    requires ValueTree.ShiftedBy(path, None, other)
    ensures d.Prev() == Some(base.root) && Replay(base, base.root).Some? && Replay(base, d).Some?
    ensures base.root.payload == Init(base.state) && RulesHold(base.state)
    ensures d.payload == SetNamespaceKey(base.root, key, path, None)
    ensures forall changes :: Summarises(changes, Leaving(base.root, d) + Leaving(d, base.root)) ==>
              !Touches(changes, key, Some(other))
    ensures ReadAt(base, base.root, key, Some(other)) != ReadAt(base, d, key, Some(other))
  {
    key := "a";
    var tree := ValueTree.Trunk(other, Bool(true));
    var root := Digest(0, Init(map[key := tree]), map[], 0);
    base := Base(root, map[key := tree]);
    d := Digest(1, SetNamespaceKey(root, key, path, None), map[], 0);
    ValueTree.ShiftShows(path, other);
    ShiftApplies(base, d, key, path);
    ShiftedApart(path, other);
    hide Replay;
    hide ValueTree.Trunk;
    forall changes | Summarises(changes, Leaving(root, d) + Leaving(d, root))
      ensures !Touches(changes, key, Some(other))
    {
      OnlyLeaver(root, d);
      SummaryTouches(changes, {d}, key, Some(other));
    }
  }

  lemma ShiftedApart(path: Path, other: Path)
    requires ValueTree.ShiftedBy(path, None, other)
    ensures !Overlaps(path, other)
  {
    assert path[|path| - 1] != other[|path| - 1];
  }

  lemma OnlyLeaver(root: Digest, d: Digest)
    requires d.Prev() == Some(root)
    ensures Leaving(root, d) + Leaving(d, root) == {d}
  {
    forall x ensures x in Leaving(root, d) + Leaving(d, root) <==> x == d {
      LeavingIs(root, d, x);
      LeavingIs(d, root, x);
      if IsAncestor(d, root) { AncestorHeight(d, root); }
    }
  }

  lemma ShiftApplies(base: Base, d: Digest, key: Name, path: Path)
    requires d.payload == SetNamespaceKey(base.root, key, path, None) && d.signatures == map[]
    requires base.state.Keys == {key} && !HasRule(key) && ValueTree.CanSet(base.state[key], path, None)
    ensures Replay(base, base.root) == Some(base.state)
    ensures Replay(base, d) == Some(base.state[key := ValueTree.SetAt(base.state[key], path, None)])
  {
    TransitionExactly(base.state, base.root, d);
    assert d.signatures.Keys == {};
    assert Endorsed(base.state, d) && Fitting(base.state, d.payload);
    hide Transition;
    ReplayAtRoot(base);
    ReplayNext(base, d);
  }
}
