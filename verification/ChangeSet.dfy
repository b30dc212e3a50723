/** What a run of envelopes touched, kept as the shallowest description of it
    (crates/state/src/change.rs). */
module ChangeSets {
  import opened Wire
  import opened Ledger

  datatype Change = Whole | Paths(paths: set<Path>)

  type Changes = map<Name, Change>

  /** No recorded path covers another, and none of the sets is empty. */
  ghost predicate Minimal(c: Changes) {
    forall key :: key in c && c[key].Paths? ==>
      c[key].paths != {} && forall p, q :: p in c[key].paths && q in c[key].paths && Covers(p, q) ==> p == q
  }

  /** Whether a reader of `path` in `key` has to look again. */
  predicate Touches(c: Changes, key: Name, path: Option<Path>) {
    key in c &&
    match c[key]
    case Whole => true
    case Paths(paths) => path.None? || exists p :: p in paths && Overlaps(p, path.value)
  }

  /** Whether a change to all of `path` in `key`, or to all of `key`, is on
      record. */
  predicate OnRecord(c: Changes, key: Name, path: Option<Path>) {
    key in c &&
    match c[key]
    case Whole => true
    case Paths(paths) => path.Some? && exists p :: p in paths && Covers(p, path.value)
  }

  /** Whether changing `target` in `key` changes all of `path` in `k`. */
  predicate Includes(key: Name, target: Option<Path>, k: Name, path: Option<Path>) {
    key == k && (target.None? || (path.Some? && Covers(target.value, path.value)))
  }

  /** Records a change; one already covered adds nothing, one that covers
      others absorbs them. */
  function Touch(c: Changes, key: Name, target: Option<Path>): Changes {
    match target
    case None => c[key := Whole]
    case Some(path) =>
      if key !in c then c[key := Paths({path})]
      else match c[key]
        case Whole => c
        case Paths(paths) =>
          if exists p :: p in paths && Covers(p, path) then c
          else c[key := Paths((set p | p in paths && !Covers(path, p)) + {path})]
  }

  lemma CoversTransitive(a: Segments, b: Segments, c: Segments)
    requires Covers(a, b) && Covers(b, c)
    ensures Covers(a, c)
  {
    forall i | 0 <= i < |a| && i < |c| ensures a[i] == c[i] {
      assert a[i] == b[i];
    }
  }

  lemma CoversBoth(a: Segments, b: Segments)
    requires Covers(a, b) && Covers(b, a)
    ensures a == b
  {
  }

  /** Recording keeps the set minimal, and puts exactly the new change on
      record beside the old. */
  lemma TouchRecords(c: Changes, key: Name, target: Option<Path>)
    requires Minimal(c)
    ensures Minimal(Touch(c, key, target))
    ensures forall k, p :: OnRecord(Touch(c, key, target), k, p) <==> OnRecord(c, k, p) || Includes(key, target, k, p)
  {
    var d := Touch(c, key, target);
    forall k, p ensures OnRecord(d, k, p) <==> OnRecord(c, k, p) || Includes(key, target, k, p) {
      if k == key && target.Some? && key in c && c[key].Paths? && p.Some? {
        TouchAt(c[key].paths, target.value, p.value);
      }
    }
  }

  lemma TouchAt(paths: set<Path>, path: Path, p: Path)
    ensures var after := if exists q :: q in paths && Covers(q, path) then paths
                         else (set q | q in paths && !Covers(path, q)) + {path};
            (exists q :: q in after && Covers(q, p)) <==> (exists q :: q in paths && Covers(q, p)) || Covers(path, p)
  {
    var after := if exists q :: q in paths && Covers(q, path) then paths
                 else (set q | q in paths && !Covers(path, q)) + {path};
    if Covers(path, p) {
      if q :| q in paths && Covers(q, path) {
        CoversTransitive(q, path, p);
      } else {
        assert path in after;
      }
    } else if q :| q in paths && Covers(q, p) {
      if Covers(path, q) { CoversTransitive(path, q, p); }
      assert q in after;
    }
  }

  /** Minimal sets with the same on record are the same set. */
  lemma SameRecord(c: Changes, d: Changes)
    requires Minimal(c) && Minimal(d)
    requires forall k, p :: OnRecord(c, k, p) <==> OnRecord(d, k, p)
    ensures c == d
  {
    SameKeys(c, d);
    SameKeys(d, c);
    forall key | key in c ensures c[key] == d[key] {
      assert OnRecord(c, key, None) <==> OnRecord(d, key, None);
      if c[key].Paths? {
        SamePaths(c, d, key);
        SamePaths(d, c, key);
      }
    }
  }

  lemma SameKeys(c: Changes, d: Changes)
    requires Minimal(c) && forall k, p :: OnRecord(c, k, p) <==> OnRecord(d, k, p)
    ensures c.Keys <= d.Keys
  {
    forall key | key in c ensures key in d {
      if c[key].Whole? {
        assert OnRecord(c, key, None);
      } else {
        var p :| p in c[key].paths;
        assert OnRecord(c, key, Some(p));
      }
    }
  }

  lemma SamePaths(c: Changes, d: Changes, key: Name)
    requires Minimal(c) && key in c && key in d && c[key].Paths? && d[key].Paths?
    requires forall k, p :: OnRecord(c, k, p) <==> OnRecord(d, k, p)
    ensures c[key].paths <= d[key].paths
  {
    forall p | p in c[key].paths ensures p in d[key].paths {
      assert OnRecord(c, key, Some(p));
      var q :| q in d[key].paths && Covers(q, p);
      assert OnRecord(d, key, Some(q));
      var p' :| p' in c[key].paths && Covers(p', q);
      CoversTransitive(p', q, p);
      CoversBoth(p, q);
    }
  }

  /** What is touched follows from what is on record: something at or below
      the path is. */
  lemma TouchedIsBelow(c: Changes, key: Name, path: Path)
    ensures Touches(c, key, Some(path)) <==> exists r: Path :: Covers(path, r) && OnRecord(c, key, Some(r))
  {
    if Touches(c, key, Some(path)) {
      if c[key].Whole? {
        assert Covers(path, path) && OnRecord(c, key, Some(path));
      } else {
        var p :| p in c[key].paths && Overlaps(p, path);
        var r: Path := if |p| <= |path| then path else p;
        assert Covers(path, r) && OnRecord(c, key, Some(r));
      }
    }
    if r: Path :| Covers(path, r) && OnRecord(c, key, Some(r)) {
      if c[key].Paths? {
        var p :| p in c[key].paths && Covers(p, r);
        assert Overlaps(p, path) by {
          forall i | 0 <= i < |p| && i < |path| ensures p[i] == path[i] { assert p[i] == r[i] == path[i]; }
        }
      }
    }
  }

  // ---------------------------------------------------------------------
  // Merging

  /** `c` records exactly what `a` and `b` record between them. */
  ghost predicate IsMerge(a: Changes, b: Changes, c: Changes) {
    Minimal(c) && forall k, p :: OnRecord(c, k, p) <==> OnRecord(a, k, p) || OnRecord(b, k, p)
  }

  /** Folds one set into another, change by change. */
  method MergeChanges(a: Changes, b: Changes) returns (c: Changes)
    requires Minimal(a) && Minimal(b)
    ensures IsMerge(a, b, c)
  {
    c := a;
    var keys := b.Keys;
    while keys != {}
      invariant keys <= b.Keys
      invariant Minimal(c)
      invariant forall k, p :: OnRecord(c, k, p) <==> OnRecord(a, k, p) || (k !in keys && OnRecord(b, k, p))
    {
      var key :| key in keys;
      ghost var before := c;
      match b[key] {
        case Whole =>
          TouchRecords(c, key, None);
          c := Touch(c, key, None);
        case Paths(paths) =>
          var left := paths;
          while left != {}
            invariant left <= paths && Minimal(c)
            invariant forall k, p :: OnRecord(c, k, p) <==>
                        || OnRecord(before, k, p)
                        || (k == key && p.Some? && exists q :: q in paths - left && Covers(q, p.value))
          {
            var path :| path in left;
            TouchRecords(c, key, Some(path));
            c := Touch(c, key, Some(path));
            left := left - {path};
          }
      }
      keys := keys - {key};
    }
  }

  /** However the pieces are merged, one set comes out: merging commutes,
      associates, and repeats without effect. */
  lemma MergeLaws(a: Changes, b: Changes, c: Changes, ab: Changes, ba: Changes, bc: Changes, left: Changes,
                  right: Changes, aa: Changes)
    requires Minimal(a) && IsMerge(a, b, ab) && IsMerge(b, a, ba) && IsMerge(b, c, bc)
    requires IsMerge(ab, c, left) && IsMerge(a, bc, right) && IsMerge(a, a, aa)
    ensures ab == ba && left == right && aa == a
  {
    SameRecord(ab, ba);
    SameRecord(left, right);
    SameRecord(aa, a);
  }

  /** A merge touches exactly what its parts touch, absorption or not. */
  lemma MergeTouches(a: Changes, b: Changes, c: Changes, key: Name, path: Option<Path>)
    requires Minimal(a) && Minimal(b) && IsMerge(a, b, c)
    ensures Touches(c, key, path) <==> Touches(a, key, path) || Touches(b, key, path)
  {
    if path.Some? {
      TouchedIsBelow(a, key, path.value);
      TouchedIsBelow(b, key, path.value);
      TouchedIsBelow(c, key, path.value);
    } else {
      AnyOnRecord(a, key);
      AnyOnRecord(b, key);
      AnyOnRecord(c, key);
    }
  }

  lemma AnyOnRecord(c: Changes, key: Name)
    requires Minimal(c)
    ensures key in c <==> exists p :: OnRecord(c, key, p)
  {
    if key in c {
      if c[key].Whole? {
        assert OnRecord(c, key, None);
      } else {
        var p :| p in c[key].paths;
        assert OnRecord(c, key, Some(p));
      }
    }
  }

  // ---------------------------------------------------------------------
  // Recording messages

  /** Whether a message's record includes all of `path` in `key`. */
  predicate MsgIncludes(msg: Msg, key: Name, path: Option<Path>) {
    match msg
    case Init(namespaces) => key in namespaces
    case SetNamespaceKey(_, k, p, _) => Includes(k, Some(p), key, path)
    case AmendNamespaceKey(_, k, target, _) => Includes(k, target, key, path)
    case _ => msg.key == key
  }

  /** Records everything a message touches. */
  method Record(c: Changes, msg: Msg) returns (d: Changes)
    requires Minimal(c)
    ensures Minimal(d)
    ensures forall k, p :: OnRecord(d, k, p) <==> OnRecord(c, k, p) || MsgIncludes(msg, k, p)
  {
    match msg {
      case Init(namespaces) =>
        d := c;
        var left := namespaces.Keys;
        while left != {}
          invariant left <= namespaces.Keys && Minimal(d)
          invariant forall k, p :: OnRecord(d, k, p) <==> OnRecord(c, k, p) || (k in namespaces && k !in left)
        {
          var key :| key in left;
          TouchRecords(d, key, None);
          d := Touch(d, key, None);
          left := left - {key};
        }
      case SetNamespaceKey(_, key, path, _) =>
        TouchRecords(c, key, Some(path));
        d := Touch(c, key, Some(path));
      case AmendNamespaceKey(_, key, target, _) =>
        TouchRecords(c, key, target);
        d := Touch(c, key, target);
      case SetNamespace(_, key, _) =>
        TouchRecords(c, key, None);
        d := Touch(c, key, None);
      case DeleteNamespace(_, key) =>
        TouchRecords(c, key, None);
        d := Touch(c, key, None);
    }
  }

  /** `c` records exactly what the messages of `ds` touch. */
  ghost predicate Summarises(c: Changes, ds: set<Digest>) {
    Minimal(c) && forall k, p :: OnRecord(c, k, p) <==> exists d :: d in ds && MsgIncludes(d.payload, k, p)
  }

  lemma MsgTouchedIsBelow(msg: Msg, key: Name, path: Path)
    ensures MsgTouches(msg, key, Some(path)) <==> exists r: Path :: Covers(path, r) && MsgIncludes(msg, key, Some(r))
  {
    if MsgTouches(msg, key, Some(path)) {
      match msg
      case SetNamespaceKey(_, _, p, _) =>
        var r: Path := if |p| <= |path| then path else p;
        assert Covers(path, r) && MsgIncludes(msg, key, Some(r));
      case AmendNamespaceKey(_, _, Some(p), _) =>
        var r: Path := if |p| <= |path| then path else p;
        assert Covers(path, r) && MsgIncludes(msg, key, Some(r));
      case _ =>
        assert Covers(path, path) && MsgIncludes(msg, key, Some(path));
    }
    if r: Path :| Covers(path, r) && MsgIncludes(msg, key, Some(r)) {
      match msg
      case SetNamespaceKey(_, _, p, _) => CoversOverlap(p, path, r);
      case AmendNamespaceKey(_, _, Some(p), _) => CoversOverlap(p, path, r);
      case _ =>
    }
  }

  lemma CoversOverlap(p: Segments, q: Segments, r: Segments)
    requires Covers(p, r) && Covers(q, r)
    ensures Overlaps(p, q)
  {
    forall i | 0 <= i < |p| && i < |q| ensures p[i] == q[i] { assert p[i] == r[i] == q[i]; }
  }

  /** A summary touches exactly what one of its messages touches. */
  lemma SummaryTouches(c: Changes, ds: set<Digest>, key: Name, path: Option<Path>)
    requires Summarises(c, ds)
    ensures Touches(c, key, path) <==> exists d :: d in ds && MsgTouches(d.payload, key, path)
  {
    if path.Some? {
      TouchedIsBelow(c, key, path.value);
      forall d | d in ds
        ensures MsgTouches(d.payload, key, path) <==>
                exists r: Path :: Covers(path.value, r) && MsgIncludes(d.payload, key, Some(r))
      {
        MsgTouchedIsBelow(d.payload, key, path.value);
      }
    } else {
      AnyOnRecord(c, key);
      if key in c {
        var p :| OnRecord(c, key, p);
        var d :| d in ds && MsgIncludes(d.payload, key, p);
        MsgTouchedAnywhere(d.payload, key);
      }
      if d :| d in ds && MsgTouches(d.payload, key, None) {
        MsgTouchedAnywhere(d.payload, key);
        var p :| MsgIncludes(d.payload, key, p);
        assert OnRecord(c, key, p);
      }
    }
  }

  /** What a message writes to: a whole namespace, or all below one path; a
      reader of `path`, or of the namespace, has to look again exactly when
      that meets what it reads. */
  lemma WritesExactly(msg: Msg, key: Name, path: Option<Path>)
    ensures MsgTouches(msg, key, path) <==>
            match msg
            case Init(namespaces) => key in namespaces
            case SetNamespace(_, k, _) => k == key
            case DeleteNamespace(_, k) => k == key
            case SetNamespaceKey(_, k, p, _) =>
              k == key && (path.None? || p <= path.value || path.value <= p)
            case AmendNamespaceKey(_, k, target, _) =>
              k == key && (path.None? || target.None? || target.value <= path.value || path.value <= target.value)
    ensures MsgIncludes(msg, key, path) <==>
            match msg
            case Init(namespaces) => key in namespaces
            case SetNamespace(_, k, _) => k == key
            case DeleteNamespace(_, k) => k == key
            case SetNamespaceKey(_, k, p, _) => k == key && path.Some? && p <= path.value
            case AmendNamespaceKey(_, k, target, _) =>
              k == key && (target.None? || (path.Some? && target.value <= path.value))
  {
    if path.Some? {
      match msg
      case SetNamespaceKey(_, _, p, _) => OverlapExactly(p, path.value);
      case AmendNamespaceKey(_, _, Some(p), _) => OverlapExactly(p, path.value);
      case _ =>
    }
  }

  lemma MsgTouchedAnywhere(msg: Msg, key: Name)
    ensures MsgTouches(msg, key, None) <==> exists p :: MsgIncludes(msg, key, p)
  {
    if MsgTouches(msg, key, None) {
      match msg
      case SetNamespaceKey(_, _, p, _) => assert MsgIncludes(msg, key, Some(p));
      case AmendNamespaceKey(_, _, Some(p), _) => assert MsgIncludes(msg, key, Some(p));
      case _ => assert MsgIncludes(msg, key, None);
    }
  }

  // ---------------------------------------------------------------------
  // Movements

  /** A change of head: which envelopes stopped being canonical, and where
      the state may differ. */
  datatype Movement = Movement(orphaned: set<Digest>, changes: Changes)

  /** Folds a movement that followed another into it. */
  method MergeMovements(first: Movement, next: Movement) returns (both: Movement)
    requires Minimal(first.changes) && Minimal(next.changes)
    ensures both.orphaned == first.orphaned + next.orphaned
    ensures IsMerge(first.changes, next.changes, both.changes)
  {
    var changes := MergeChanges(first.changes, next.changes);
    both := Movement(first.orphaned + next.orphaned, changes);
  }
}
