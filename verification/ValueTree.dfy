/** Reading and writing values by path (crates/storage/src/value.rs).
    Changing the node a path leads to is a `Graft` of its successor. */
module ValueTree {
  import opened Wire

  datatype NodeKind = MapNode | ArrayNode | LeafNode

  /** What became of following a path. */
  datatype Resolution =
    | Node(kind: NodeKind)
    | Missing(depth: nat, at: NodeKind)
    | Mismatch(depth: nat)

  function Kind(v: Value): NodeKind {
    match v
    case Map(_) => MapNode
    case Array(_) => ArrayNode
    case _ => LeafNode
  }

  function Deeper(r: Resolution): Resolution {
    match r
    case Node(_) => r
    case Missing(depth, at) => Missing(depth + 1, at)
    case Mismatch(depth) => Mismatch(depth + 1)
  }

  /** One step of a walk. */
  function Child(v: Value, seg: Subkey): Option<Value> {
    match (v, seg)
    case (Map(m), Field(k)) => if k in m then Some(m[k]) else None
    case (Array(a), Index(i)) => if i < |a| then Some(a[i]) else None
    case _ => None
  }

  /** Whether a segment's shape fits a node. */
  predicate Fits(v: Value, seg: Subkey) {
    (v.Map? && seg.Field?) || (v.Array? && seg.Index?)
  }

  function Walk(root: Value, path: Segments): Option<Value>
    decreases |path|
  {
    if path == [] then Some(root)
    else match Child(root, path[0])
      case None => None
      case Some(child) => Walk(child, path[1..])
  }

  function Resolve(root: Value, path: Segments): Resolution
    decreases |path|
  {
    if path == [] then Node(Kind(root))
    else if !Fits(root, path[0]) then Mismatch(0)
    else match Child(root, path[0])
      case None => Missing(0, Kind(root))
      case Some(child) => Deeper(Resolve(child, path[1..]))
  }

  /** A path whose walk finds a node, resolves to that node's kind, and only
      such a path; one that stops short stops inside the path. */
  lemma {:induction false} WalkMeetsResolve(root: Value, path: Segments)
    ensures Resolve(root, path).Node? <==> Walk(root, path).Some?
    ensures Walk(root, path).Some? ==> Resolve(root, path) == Node(Kind(Walk(root, path).value))
    ensures !Resolve(root, path).Node? ==> Resolve(root, path).depth < |path|
    decreases |path|
  {
    if path == [] || Child(root, path[0]).None? {
    } else {
      WalkMeetsResolve(Child(root, path[0]).value, path[1..]);
    }
  }

  /** A path that resolves to `Missing` at its last segment has its parent. */
  lemma {:induction false} MissingLeaf(root: Value, path: Path)
    requires Resolve(root, path).Missing? && Resolve(root, path).depth == |path| - 1
    ensures Walk(root, Parents(path)).Some?
    ensures var parent := Walk(root, Parents(path)).value;
            && Kind(parent) == Resolve(root, path).at
            && Fits(parent, Last(path)) && Child(parent, Last(path)).None?
    decreases |path|
  {
    if |path| == 1 {
    } else {
      var child := Child(root, path[0]).value;
      MissingLeaf(child, path[1..]);
      assert Parents(path)[1..] == Parents(path[1..]);
    }
  }

  /** A path that resolves to a node has its parent, and a child there. */
  lemma {:induction false} NodeHasParent(root: Value, path: Path)
    requires Walk(root, path).Some?
    ensures Walk(root, Parents(path)).Some?
    ensures var parent := Walk(root, Parents(path)).value;
            Fits(parent, Last(path)) && Child(parent, Last(path)) == Walk(root, path)
    decreases |path|
  {
    if |path| == 1 {
    } else {
      NodeHasParent(Child(root, path[0]).value, path[1..]);
      assert Parents(path)[1..] == Parents(path[1..]);
    }
  }

  function Parents(path: Path): Segments { path[..|path| - 1] }

  function Last(path: Path): Subkey { path[|path| - 1] }

  // ---------------------------------------------------------------------
  // Mutation

  /** The node `v` with its existing child at `seg` replaced. */
  function WithChild(v: Value, seg: Subkey, child: Value): Value
    requires Child(v, seg).Some?
  {
    match v
    case Map(m) => Map(m[seg.name := child])
    case Array(a) => Array(a[seg.index := child])
  }

  /** The tree with the node at `path` replaced by `node`. */
  function Graft(root: Value, path: Segments, node: Value): Value
    requires Walk(root, path).Some?
    decreases |path|
  {
    if path == [] then node
    else WithChild(root, path[0], Graft(Child(root, path[0]).value, path[1..], node))
  }

  /** What the caller of `SetAt` must have resolved: the path addresses a
      value, or a fresh field of an existing map is being set. */
  predicate CanSet(root: Value, path: Path, value: Option<Value>) {
    match Resolve(root, path)
    case Node(_) => true
    case Missing(depth, at) => at == MapNode && depth == |path| - 1 && value.Some?
    case Mismatch(_) => false
  }

  lemma CanSetHasParent(root: Value, path: Path, value: Option<Value>)
    requires CanSet(root, path, value)
    ensures Walk(root, Parents(path)).Some?
    ensures var parent := Walk(root, Parents(path)).value;
            && Fits(parent, Last(path))
            && (Child(parent, Last(path)).None? ==> parent.Map? && value.Some? && Walk(root, path).None?)
            && (Child(parent, Last(path)).Some? ==> Child(parent, Last(path)) == Walk(root, path))
  {
    WalkMeetsResolve(root, path);
    if Resolve(root, path).Node? { NodeHasParent(root, path); } else { MissingLeaf(root, path); }
  }

  /** Sets or clears one child of a container. */
  function SetChild(parent: Value, seg: Subkey, value: Option<Value>): Value
    requires Fits(parent, seg)
    requires Child(parent, seg).None? ==> parent.Map? && value.Some?
  {
    match (parent, value)
    case (Map(m), Some(v)) => Map(m[seg.name := v])
    case (Map(m), None) => Map(m - {seg.name})
    case (Array(a), Some(v)) => Array(a[seg.index := v])
    case (Array(a), None) => Array(a[..seg.index] + a[seg.index + 1..])
  }

  /** Applies a pre-validated set or clear: the parent the path names is
      found, its shape fits, and what is cleared exists. */
  function SetAt(root: Value, path: Path, value: Option<Value>): Value
    requires CanSet(root, path, value)
  {
    CanSetHasParent(root, path, value);
    var parent := Walk(root, Parents(path)).value;
    Graft(root, Parents(path), SetChild(parent, Last(path), value))
  }

  /** Whether an entry meets one condition, or every one. */
  predicate Meets(m: Match, entry: Value) {
    Walk(entry, if m.path.Some? then m.path.value else []) == Some(m.value)
  }

  predicate Matches(condition: Predicate, entry: Value) {
    forall m :: m in condition ==> Meets(m, entry)
  }

  /** The entries no condition deletes, in order. */
  function Unmatched(condition: Predicate, items: seq<Value>): seq<Value> {
    if items == [] then []
    else if Matches(condition, items[0]) then Unmatched(condition, items[1..])
    else [items[0]] + Unmatched(condition, items[1..])
  }

  /** Deleting matches keeps every other entry as often as it stood there, in
      order, and deleting them again finds nothing. */
  lemma {:induction false} DeletesExactly(condition: Predicate, items: seq<Value>, entry: Value)
    ensures multiset(Unmatched(condition, items))[entry] ==
            if Matches(condition, entry) then 0 else multiset(items)[entry]
    ensures Unmatched(condition, Unmatched(condition, items)) == Unmatched(condition, items)
  {
    hide Matches;
    if items == [] {
    } else {
      DeletesExactly(condition, items[1..], entry);
      assert items == [items[0]] + items[1..];
      var rest := Unmatched(condition, items[1..]);
      assert ([items[0]] + rest)[1..] == rest;
    }
  }

  lemma {:induction false} DeletesInOrder(condition: Predicate, first: seq<Value>, rest: seq<Value>)
    ensures Unmatched(condition, first + rest) == Unmatched(condition, first) + Unmatched(condition, rest)
    decreases |first|
  {
    hide Matches;
    if first == [] {
      assert first + rest == rest;
    } else {
      assert (first + rest)[1..] == first[1..] + rest;
      DeletesInOrder(condition, first[1..], rest);
    }
  }

  predicate CanAmendNode(node: Value, op: AmendOp) {
    match op
    case AppendEntry(_) => node.Array?
    case IncrementDecrement(inc) => node.Int? && ApplyIncrement(inc, node.n).Some?
    case DeleteMatching(_) => node.Map? || node.Array?
  }

  /** What the caller of `AmendAt` must have resolved: the path addresses a
      value the op can amend, or an append creates its array as a fresh field
      of an existing map. */
  predicate CanAmend(root: Value, path: Segments, op: AmendOp) {
    match Walk(root, path)
    case Some(node) => CanAmendNode(node, op)
    case None => op.AppendEntry? && Resolve(root, path) == Missing(|path| - 1, MapNode)
  }

  function AmendNode(node: Value, op: AmendOp): Value
    requires CanAmendNode(node, op)
  {
    match op
    case AppendEntry(entry) => Array(node.items + [entry])
    case IncrementDecrement(inc) => Int(ApplyIncrement(inc, node.n).value)
    case DeleteMatching(condition) =>
      match node
      case Map(m) => Map(map k | k in m && !Matches(condition, m[k]) :: m[k])
      case Array(items) => Array(Unmatched(condition, items))
  }

  function AmendAt(root: Value, path: Segments, op: AmendOp): Value
    requires CanAmend(root, path, op)
  {
    if Walk(root, path).Some? then
      WalkMeetsResolve(root, path);
      Graft(root, path, AmendNode(Walk(root, path).value, op))
    else
      WalkMeetsResolve(root, path);
      MissingLeaf(root, path);
      var parent := Walk(root, Parents(path)).value;
      Graft(root, Parents(path), Map(parent.fields[Last(path).name := Array([op.entry])]))
  }

  // ---------------------------------------------------------------------
  // What a graft leaves alone

  lemma {:induction false} GraftReads(root: Value, path: Segments, node: Value, below: Segments)
    requires Walk(root, path).Some?
    ensures Walk(Graft(root, path, node), path + below) == Walk(node, below)
    decreases |path|
  {
    if path == [] {
      assert path + below == below;
    } else {
      GraftReads(Child(root, path[0]).value, path[1..], node, below);
      assert (path + below)[1..] == path[1..] + below;
    }
  }

  lemma {:induction false} GraftFrame(root: Value, path: Segments, node: Value, other: Segments)
    requires Walk(root, path).Some?
    requires !Overlaps(path, other)
    ensures Walk(Graft(root, path, node), other) == Walk(root, other)
    decreases |path|
  {
    var child := Child(root, path[0]).value;
    if path[0] == other[0] {
      assert !Overlaps(path[1..], other[1..]) by {
        var i :| 0 <= i < |path| && i < |other| && path[i] != other[i];
        assert path[1..][i - 1] != other[1..][i - 1];
      }
      GraftFrame(child, path[1..], node, other[1..]);
    }
  }

  lemma {:induction false} WalkSplit(root: Value, path: Segments, below: Segments)
    ensures Walk(root, path + below) ==
            if Walk(root, path).None? then None else Walk(Walk(root, path).value, below)
    decreases |path|
  {
    if path == [] {
      assert path + below == below;
    } else if Child(root, path[0]).Some? {
      WalkSplit(Child(root, path[0]).value, path[1..], below);
      assert (path + below)[1..] == path[1..] + below;
    }
  }

  /** Either two paths part inside the first's parents, or the second steps
      from those parents to a sibling of the first. */
  lemma Siblings(path: Path, other: Segments)
    requires !Overlaps(path, other)
    ensures !Overlaps(Parents(path), other)
         || (|other| >= |path| && other[..|path| - 1] == Parents(path) && other[|path| - 1] != Last(path))
  {
    if Overlaps(Parents(path), other) {
      assert forall j :: 0 <= j < |path| - 1 && j < |other| ==> Parents(path)[j] == path[j] == other[j];
    }
  }

  /** A set reads back, and a cleared field reads as absent. */
  lemma SetReadsBack(root: Value, path: Path, value: Option<Value>)
    requires CanSet(root, path, value)
    requires value.Some? || Last(path).Field?
    ensures Walk(SetAt(root, path, value), path) == value
  {
    CanSetHasParent(root, path, value);
    var node := SetChild(Walk(root, Parents(path)).value, Last(path), value);
    GraftReads(root, Parents(path), node, [Last(path)]);
    assert path == Parents(path) + [Last(path)];
    assert Child(node, Last(path)) == value;
    assert [Last(path)][1..] == [];
  }

  /** A cleared array element leaves its array closed up around it. */
  lemma ClearCloses(root: Value, path: Path)
    requires CanSet(root, path, None) && Last(path).Index?
    ensures Walk(root, Parents(path)).Some? && Walk(root, Parents(path)).value.Array?
    ensures var items, i := Walk(root, Parents(path)).value.items, Last(path).index;
            && i < |items|
            && Walk(SetAt(root, path, None), Parents(path)) == Some(Array(items[..i] + items[i + 1..]))
  {
    CanSetHasParent(root, path, None);
    GraftReads(root, Parents(path), SetChild(Walk(root, Parents(path)).value, Last(path), None), []);
    assert Parents(path) + [] == Parents(path);
  }

  /** `path` clears an array element that stands before the one `other` walks
      through, so that `other` addresses a different element afterwards. */
  predicate ShiftedBy(path: Path, value: Option<Value>, other: Segments) {
    && value.None?
    && |other| >= |path|
    && other[..|path| - 1] == Parents(path)
    && Last(path).Index? && other[|path| - 1].Index?
    && Last(path).index < other[|path| - 1].index
  }

  /** A graft changes nothing on a path through a child the new node shares
      with the old one. */
  lemma GraftSibling(root: Value, parents: Segments, node: Value, other: Segments)
    requires Walk(root, parents).Some?
    requires |parents| < |other| && other[..|parents|] == parents
    requires Child(node, other[|parents|]) == Child(Walk(root, parents).value, other[|parents|])
    ensures Walk(Graft(root, parents, node), other) == Walk(root, other)
  {
    var below := other[|parents|..];
    assert other == parents + below;
    GraftReads(root, parents, node, below);
    WalkSplit(root, parents, below);
  }

  /** A set changes nothing on paths it does not overlap or shift. */
  lemma SetFrame(root: Value, path: Path, value: Option<Value>, other: Segments)
    requires CanSet(root, path, value)
    requires !Overlaps(path, other) && !ShiftedBy(path, value, other)
    ensures Walk(SetAt(root, path, value), other) == Walk(root, other)
  {
    CanSetHasParent(root, path, value);
    var parents, last := Parents(path), Last(path);
    var parent := Walk(root, parents).value;
    var node := SetChild(parent, last, value);
    Siblings(path, other);
    if !Overlaps(parents, other) {
      GraftFrame(root, parents, node, other);
    } else {
      SetChildFrame(parent, last, value, other[|parents|]);
      GraftSibling(root, parents, node, other);
    }
  }

  lemma SetChildFrame(parent: Value, seg: Subkey, value: Option<Value>, other: Subkey)
    requires Fits(parent, seg) && (Child(parent, seg).None? ==> parent.Map? && value.Some?)
    requires seg != other && !(value.None? && seg.Index? && other.Index? && seg.index < other.index)
    ensures Child(SetChild(parent, seg, value), other) == Child(parent, other)
  {
  }

  /** An amend changes nothing on paths it does not overlap. */
  lemma AmendFrame(root: Value, path: Segments, op: AmendOp, other: Segments)
    requires CanAmend(root, path, op)
    requires !Overlaps(path, other)
    ensures Walk(AmendAt(root, path, op), other) == Walk(root, other)
  {
    WalkMeetsResolve(root, path);
    if Walk(root, path).Some? {
      GraftFrame(root, path, AmendNode(Walk(root, path).value, op), other);
    } else {
      MissingLeaf(root, path);
      var parents, last := Parents(path), Last(path);
      var parent := Walk(root, parents).value;
      var node := Map(parent.fields[last.name := Array([op.entry])]);
      Siblings(path, other);
      if !Overlaps(parents, other) {
        GraftFrame(root, parents, node, other);
      } else {
        GraftSibling(root, parents, node, other);
      }
    }
  }

  /** What an amend leaves at its path: the amended node, or the one-entry
      array an append creates. */
  lemma AmendReadsBack(root: Value, path: Segments, op: AmendOp)
    requires CanAmend(root, path, op)
    ensures Walk(AmendAt(root, path, op), path) ==
            Some(if Walk(root, path).Some? then AmendNode(Walk(root, path).value, op) else Array([op.entry]))
  {
    WalkMeetsResolve(root, path);
    if Walk(root, path).Some? {
      GraftReads(root, path, AmendNode(Walk(root, path).value, op), []);
      assert path + [] == path;
    } else {
      MissingLeaf(root, path);
      var parent := Walk(root, Parents(path)).value;
      GraftReads(root, Parents(path), Map(parent.fields[Last(path).name := Array([op.entry])]), [Last(path)]);
      assert path == Parents(path) + [Last(path)];
    }
  }

  // ---------------------------------------------------------------------
  // What is read, and what a write leaves, in terms of reads alone

  /** A walk goes down maps by field and arrays by index, and nowhere else. */
  lemma WalkSteps(root: Value, path: Segments)
    ensures Walk(root, []) == Some(root)
    ensures path != [] ==>
              Walk(root, path) ==
              match (root, path[0])
              case (Map(m), Field(name)) => if name in m then Walk(m[name], path[1..]) else None
              case (Array(items), Index(i)) => if i < |items| then Walk(items[i], path[1..]) else None
              case _ => None
  {
  }

  lemma WalkToChild(root: Value, path: Path)
    ensures Walk(root, path) ==
            if Walk(root, Parents(path)).None? then None else Child(Walk(root, Parents(path)).value, Last(path))
  {
    assert path == Parents(path) + [Last(path)];
    WalkSplit(root, Parents(path), [Last(path)]);
    assert [Last(path)][1..] == [];
  }

  /** Where a walk that finds nothing stops: at a container of the right shape
      without that child, or at a node the segment does not fit. */
  lemma {:induction false} ResolveStops(root: Value, path: Segments)
    ensures var r := Resolve(root, path);
            !r.Node? ==>
              && r.depth < |path| && Walk(root, path[..r.depth]).Some?
              && match (Walk(root, path[..r.depth]).value, path[r.depth])
                 case (Map(m), Field(name)) => r == Missing(r.depth, MapNode) && name !in m
                 case (Array(items), Index(i)) => r == Missing(r.depth, ArrayNode) && i >= |items|
                 case _ => r == Mismatch(r.depth)
    decreases |path|
  {
    if path == [] || !Fits(root, path[0]) || Child(root, path[0]).None? {
    } else {
      var child, r := Child(root, path[0]).value, Resolve(root, path);
      ResolveStops(child, path[1..]);
      if !r.Node? {
        assert path[..r.depth][1..] == path[1..][..r.depth - 1];
      }
    }
  }

  /** What can be set: whatever is there, or a fresh field of a map that is.
      What can be cleared: whatever is there. */
  lemma SettableExactly(root: Value, path: Path, value: Option<Value>)
    ensures CanSet(root, path, value) <==>
            || Walk(root, path).Some?
            || (&& value.Some? && path[|path| - 1].Field?
                && Walk(root, path[..|path| - 1]).Some? && Walk(root, path[..|path| - 1]).value.Map?)
  {
    WalkMeetsResolve(root, path);
    ResolveStops(root, path);
    WalkToChild(root, path);
    if !Resolve(root, path).Node? { StopsAbove(root, path); }
  }

  /** A walk that finds nothing misses the parent, too, unless it stops at the
      last segment. */
  lemma {:induction false} StopsAbove(root: Value, path: Path)
    requires !Resolve(root, path).Node?
    ensures Walk(root, Parents(path)).Some? <==> Resolve(root, path).depth == |path| - 1
    decreases |path|
  {
    if |path| == 1 {
    } else if !Fits(root, path[0]) || Child(root, path[0]).None? {
      assert Parents(path)[0] == path[0];
    } else {
      StopsAbove(Child(root, path[0]).value, path[1..]);
      assert Parents(path)[1..] == Parents(path[1..]);
    }
  }

  /** What can be amended: arrays and missing fields of maps by an append,
      maps and arrays by a delete, and integers by an increment whose bounds
      are in order and whose bounded sum is an `i64`. */
  lemma AmendableExactly(root: Value, path: Segments, op: AmendOp)
    ensures match op
            case AppendEntry(_) =>
              CanAmend(root, path, op) <==>
                if Walk(root, path).Some? then Walk(root, path).value.Array?
                else
                  && path != [] && path[|path| - 1].Field?
                  && Walk(root, path[..|path| - 1]).Some? && Walk(root, path[..|path| - 1]).value.Map?
            case DeleteMatching(_) =>
              CanAmend(root, path, op) <==>
                Walk(root, path).Some? && (Walk(root, path).value.Map? || Walk(root, path).value.Array?)
            case IncrementDecrement(inc) =>
              (inc.min.Some? && inc.max.Some? ==> inc.min.value <= inc.max.value) ==>
                (CanAmend(root, path, op) <==>
                   && Walk(root, path).Some? && Walk(root, path).value.Int?
                   && var sum := Walk(root, path).value.n + inc.delta;
                      || (inc.min.Some? && sum < inc.min.value) || (inc.max.Some? && sum > inc.max.value)
                      || -0x8000_0000_0000_0000 <= sum <= 0x7FFF_FFFF_FFFF_FFFF)
  {
    WalkMeetsResolve(root, path);
    if path != [] && Walk(root, path).None? {
      ResolveStops(root, path);
      StopsAbove(root, path);
    }
  }

  /** An append leaves what was there followed by the entry. */
  lemma AppendLeaves(root: Value, path: Segments, entry: Value)
    requires CanAmend(root, path, AppendEntry(entry))
    ensures var before, after := Walk(root, path), Walk(AmendAt(root, path, AppendEntry(entry)), path);
            after == Some(Array((if before.Some? && before.value.Array? then before.value.items else []) + [entry]))
  {
    AmendReadsBack(root, path, AppendEntry(entry));
    assert [] + [entry] == [entry];
  }

  /** An increment leaves the sum where that lies within the bounds, and the
      bound it passed where it does not. */
  lemma IncrementLeaves(root: Value, path: Segments, inc: Increment)
    requires CanAmend(root, path, IncrementDecrement(inc))
    requires inc.min.Some? && inc.max.Some? ==> inc.min.value <= inc.max.value
    ensures Walk(root, path).Some? && Walk(root, path).value.Int?
    ensures var after := Walk(AmendAt(root, path, IncrementDecrement(inc)), path);
            && after.Some? && after.value.Int?
            && var sum, n := Walk(root, path).value.n + inc.delta, after.value.n;
               && (inc.min.Some? ==> n >= inc.min.value) && (inc.max.Some? ==> n <= inc.max.value)
               && ((inc.min.Some? ==> sum >= inc.min.value) && (inc.max.Some? ==> sum <= inc.max.value) ==> n == sum)
               && (inc.min.Some? && sum < inc.min.value ==> n == inc.min.value)
               && (inc.max.Some? && sum > inc.max.value ==> n == inc.max.value)
  {
    AmendReadsBack(root, path, IncrementDecrement(inc));
  }

  /** Entries match when every condition's path reads as its value. */
  lemma MatchesExactly(condition: Predicate, entry: Value)
    ensures Matches(condition, entry) <==>
            forall c :: c in condition ==> Walk(entry, if c.path.None? then [] else c.path.value) == Some(c.value)
  {
    assert forall c :: c in condition ==>
        (Meets(c, entry) <==> Walk(entry, if c.path.None? then [] else c.path.value) == Some(c.value));
  }

  /** A delete on a map takes away the fields whose entries meet every
      condition, and no other. */
  lemma DeleteInMap(root: Value, path: Segments, condition: Predicate)
    requires Walk(root, path).Some? && Walk(root, path).value.Map?
    ensures CanAmend(root, path, DeleteMatching(condition))
    ensures var m, after := Walk(root, path).value.fields, Walk(AmendAt(root, path, DeleteMatching(condition)), path);
            && after.Some? && after.value.Map?
            && forall name ::
                 (name in after.value.fields <==>
                    && name in m
                    && !forall c :: c in condition ==>
                          Walk(m[name], if c.path.None? then [] else c.path.value) == Some(c.value))
                 && (name in after.value.fields ==> after.value.fields[name] == m[name])
  {
    var m := Walk(root, path).value.fields;
    AmendReadsBack(root, path, DeleteMatching(condition));
    forall name | name in m
      ensures Matches(condition, m[name]) <==>
              forall c :: c in condition ==> Walk(m[name], if c.path.None? then [] else c.path.value) == Some(c.value)
    {
      MatchesExactly(condition, m[name]);
    }
  }

  /** The places of the entries that stay. */
  function Staying(condition: Predicate, items: seq<Value>): seq<nat> {
    if items == [] then []
    else
      var rest, last := Staying(condition, items[..|items| - 1]), |items| - 1;
      if Matches(condition, items[last]) then rest else rest + [last]
  }

  lemma {:induction false} StayingAre(condition: Predicate, items: seq<Value>)
    ensures var at, left := Staying(condition, items), Unmatched(condition, items);
            && |at| == |left|
            && (forall k :: 0 <= k < |at| ==> at[k] < |items| && left[k] == items[at[k]])
            && (forall j, k :: 0 <= j < k < |at| ==> at[j] < at[k])
            && (forall i: nat :: i < |items| ==> (i in at <==> !Matches(condition, items[i])))
    decreases |items|
  {
    hide Matches;
    if items == [] {
    } else {
      var first, last := items[..|items| - 1], items[|items| - 1];
      StayingAre(condition, first);
      assert items == first + [last];
      DeletesInOrder(condition, first, [last]);
      assert Unmatched(condition, [last]) == if Matches(condition, last) then [] else [last];
    }
  }

  /** What a delete keeps of an array: in order, each entry that fails some
      condition, and no other. */
  lemma LeftInOrder(condition: Predicate, items: seq<Value>, left: seq<Value>)
    requires left == Unmatched(condition, items)
    ensures exists at: seq<nat> ::
              && |at| == |left|
              && (forall k :: 0 <= k < |at| ==> at[k] < |items| && left[k] == items[at[k]])
              && (forall j, k :: 0 <= j < k < |at| ==> at[j] < at[k])
              && (forall i: nat :: i < |items| ==>
                    (i in at <==>
                       !forall c :: c in condition ==>
                          Walk(items[i], if c.path.None? then [] else c.path.value) == Some(c.value)))
  {
    hide Matches;
    hide Unmatched;
    hide Staying;
    hide Walk;
    StayingAre(condition, items);
    var at := Staying(condition, items);
    forall i: nat | i < |items|
      ensures i in at <==>
              !forall c :: c in condition ==>
                 Walk(items[i], if c.path.None? then [] else c.path.value) == Some(c.value)
    {
      MatchesExactly(condition, items[i]);
    }
  }

  lemma DeleteInArray(root: Value, path: Segments, condition: Predicate)
    requires Walk(root, path).Some? && Walk(root, path).value.Array?
    ensures CanAmend(root, path, DeleteMatching(condition))
    ensures Walk(AmendAt(root, path, DeleteMatching(condition)), path) ==
            Some(Array(Unmatched(condition, Walk(root, path).value.items)))
  {
    AmendReadsBack(root, path, DeleteMatching(condition));
  }

  // ---------------------------------------------------------------------
  // The frame is exact

  /** A tree that holds `leaf` at `path`, and nothing past it in any array. */
  function Trunk(path: Segments, leaf: Value): Value
    decreases |path|
  {
    if path == [] then leaf
    else match path[0]
      case Field(k) => Map(map[k := Trunk(path[1..], leaf)])
      case Index(i) => Array(seq(i, _ => Bool(false)) + [Trunk(path[1..], leaf)])
  }

  lemma {:induction false} TrunkHolds(path: Segments, leaf: Value)
    ensures Walk(Trunk(path, leaf), path) == Some(leaf)
    decreases |path|
  {
    if path == [] {
    } else {
      TrunkHolds(path[1..], leaf);
    }
  }

  /** The tree in which clearing `path` takes `other`'s element away. */
  lemma ShiftShows(path: Path, other: Segments)
    requires ShiftedBy(path, None, other)
    ensures var root := Trunk(other, Bool(true));
            CanSet(root, path, None) && Walk(SetAt(root, path, None), other) != Walk(root, other)
  {
    var root := Trunk(other, Bool(true));
    var parents, below := Parents(path), other[|path| - 1..];
    assert other == parents + below;
    TrunkHolds(other, Bool(true));
    TrunkSplit(parents, below, Bool(true));
    TrunkHolds(parents, Trunk(below, Bool(true)));
    var parent := Trunk(below, Bool(true));
    assert Child(parent, Last(path)).Some?;
    WalkSplit(root, parents, [Last(path)]);
    assert path == parents + [Last(path)];
    WalkMeetsResolve(root, path);
    CanSetHasParent(root, path, None);
    GraftReads(root, parents, SetChild(parent, Last(path), None), below);
  }

  lemma {:induction false} TrunkSplit(parents: Segments, below: Segments, leaf: Value)
    ensures Trunk(parents + below, leaf) == Trunk(parents, Trunk(below, leaf))
    decreases |parents|
  {
    if parents == [] {
      assert parents + below == below;
    } else {
      TrunkSplit(parents[1..], below, leaf);
      assert (parents + below)[1..] == parents[1..] + below;
    }
  }

  /** A path the record of a set does not overlap reads the same after it in
      every tree the set is legal in, exactly when the set does not clear an
      earlier element of an array the path runs through. */
  lemma FrameExact(path: Path, value: Option<Value>, other: Segments)
    requires !Overlaps(path, other)
    ensures (forall root :: CanSet(root, path, value) ==> Walk(SetAt(root, path, value), other) == Walk(root, other))
            <==> !ShiftedBy(path, value, other)
  {
    if ShiftedBy(path, value, other) {
      ShiftShows(path, other);
      assert value == None;
      var root := Trunk(other, Bool(true));
      assert CanSet(root, path, value);
    } else {
      forall root | CanSet(root, path, value)
        ensures Walk(SetAt(root, path, value), other) == Walk(root, other)
      {
        SetFrame(root, path, value, other);
      }
    }
  }
}
