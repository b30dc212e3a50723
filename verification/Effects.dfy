/** What an envelope does to a state, and why one is refused, told by what is
    read before and after (crates/state/src/ledger.rs, crates/storage/src/mem.rs). */
module Effects {
  import opened Wire
  import opened ValueTree
  import opened Ledger

  // ---------------------------------------------------------------------
  // What an envelope does

  /** A write leaves every other namespace as it was. */
  lemma OthersKept(s: State, op: NamespaceOp, key: Name)
    requires CanCommit(s, op) && key != op.key
    ensures var t := Committed(s, op);
            (key in t <==> key in s) && (key in s ==> t[key] == s[key])
  {
    hide SetAt;
    hide AmendAt;
  }

  /** A namespace put holds just the value, one deleted is gone. */
  lemma PutsAndDeletes(s: State, key: Name, value: Value)
    ensures var t := Committed(s, Put(key, value)); key in t && t[key] == value
    ensures key in s ==> key !in Committed(s, Delete(key))
  {
  }

  /** A set leaves its path reading as the entry. A clear takes a field away;
      of an array it takes one element out and closes the rest up around it. */
  lemma SetLeaves(s: State, key: Name, path: Path, entry: Option<Value>)
    requires CanCommit(s, SetOp(key, path, entry))
    ensures var t, parents := Committed(s, SetOp(key, path, entry)), path[..|path| - 1];
            && key in s && key in t
            && (entry.Some? ==> Walk(t[key], path) == entry)
            && (entry.None? && path[|path| - 1].Field? ==> Walk(t[key], path) == None)
            && (entry.None? && path[|path| - 1].Index? ==>
                  && Walk(s[key], parents).Some? && Walk(s[key], parents).value.Array?
                  && var items, i := Walk(s[key], parents).value.items, path[|path| - 1].index;
                     i < |items| && Walk(t[key], parents) == Some(Array(items[..i] + items[i + 1..])))
    ensures forall other: Segments :: !(path <= other || other <= path) && !ShiftedBy(path, entry, other) ==>
              Walk(Committed(s, SetOp(key, path, entry))[key], other) == Walk(s[key], other)
  {
    if entry.Some? || Last(path).Field? { SetReadsBack(s[key], path, entry); } else { ClearCloses(s[key], path); }
    hide SetAt;
    forall other: Segments | !(path <= other || other <= path) && !ShiftedBy(path, entry, other)
      ensures Walk(SetAt(s[key], path, entry), other) == Walk(s[key], other)
    {
      OverlapExactly(path, other);
      SetFrame(s[key], path, entry, other);
    }
  }

  /** An envelope that applies does to the namespace its message names exactly
      what the message asks for, and nothing to any other. */
  lemma TransitionWrites(s: State, head: Digest, d: Digest)
    requires RulesHold(s) && Transition(s, head, d).Some?
    ensures !d.payload.Init?
    ensures var t, name := Transition(s, head, d).value, d.payload.key;
            && (forall key :: key != name ==> (key in t <==> key in s) && (key in s ==> t[key] == s[key]))
            && match d.payload
               case SetNamespace(_, key, value) => key in t && t[key] == value
               case DeleteNamespace(_, key) => key in s && key !in t
               case SetNamespaceKey(_, key, path, entry) =>
                 && key in s && key in t
                 && (entry.Some? || path[|path| - 1].Field? ==> Walk(t[key], path) == entry)
                 && (entry.None? && path[|path| - 1].Index? ==>
                       var parents, i := path[..|path| - 1], path[|path| - 1].index;
                       && Walk(s[key], parents).Some? && Walk(s[key], parents).value.Array?
                       && var items := Walk(s[key], parents).value.items;
                          i < |items| && Walk(t[key], parents) == Some(Array(items[..i] + items[i + 1..])))
               case AmendNamespaceKey(_, key, _, _) => key in s && key in t
  {
    TransitionExactly(s, head, d);
    hide Transition;
    hide RulesHold;
    var op := Asked(d.payload).value;
    forall key | key != op.key
      ensures var t := Committed(s, op); (key in t <==> key in s) && (key in s ==> t[key] == s[key])
    {
      OthersKept(s, op, key);
    }
    match d.payload
    case SetNamespace(_, key, value) => PutsAndDeletes(s, key, value);
    case DeleteNamespace(_, key) => PutsAndDeletes(s, key, Bool(true));
    case SetNamespaceKey(_, key, path, entry) => SetLeaves(s, key, path, entry);
    case _ =>
  }

  /** What an amend does, it does at the path it names. */
  lemma AmendsThere(s: State, head: Digest, d: Digest)
    requires RulesHold(s) && Transition(s, head, d).Some? && d.payload.AmendNamespaceKey?
    ensures var t, key, path := Transition(s, head, d).value, d.payload.key, SegmentsOf(d.payload.target);
            && key in s && key in t
            && CanAmend(s[key], path, d.payload.op) && t[key] == AmendAt(s[key], path, d.payload.op)
    ensures d.payload.op.IncrementDecrement? ==>
              var inc := d.payload.op.inc; inc.min.Some? && inc.max.Some? ==> inc.min.value <= inc.max.value
  {
    TransitionExactly(s, head, d);
    hide Transition;
    hide RulesHold;
    hide AmendAt;
  }

  /** An append leaves the old entries followed by its own, or a fresh array. */
  lemma TransitionAppends(s: State, head: Digest, d: Digest)
    requires RulesHold(s) && Transition(s, head, d).Some? && d.payload.AmendNamespaceKey? && d.payload.op.AppendEntry?
    ensures var t, key := Transition(s, head, d).value, d.payload.key;
            var path := if d.payload.target.None? then [] else d.payload.target.value;
            && key in s && key in t
            && var before := Walk(s[key], path);
               Walk(t[key], path) ==
               Some(Array((if before.Some? && before.value.Array? then before.value.items else [])
                          + [d.payload.op.entry]))
  {
    AmendsThere(s, head, d);
    hide Transition;
    hide RulesHold;
    AppendLeaves(s[d.payload.key], SegmentsOf(d.payload.target), d.payload.op.entry);
  }

  /** An increment leaves the sum, or the bound the sum passed. */
  lemma TransitionIncrements(s: State, head: Digest, d: Digest)
    requires RulesHold(s) && Transition(s, head, d).Some?
    requires d.payload.AmendNamespaceKey? && d.payload.op.IncrementDecrement?
    ensures var t, key, inc := Transition(s, head, d).value, d.payload.key, d.payload.op.inc;
            var path := if d.payload.target.None? then [] else d.payload.target.value;
            && key in s && key in t
            && var before, after := Walk(s[key], path), Walk(t[key], path);
               && before.Some? && before.value.Int? && after.Some? && after.value.Int?
               && var sum, n := before.value.n + inc.delta, after.value.n;
                  && (inc.min.Some? ==> n >= inc.min.value) && (inc.max.Some? ==> n <= inc.max.value)
                  && (inc.min.Some? && sum < inc.min.value ==> n == inc.min.value)
                  && (inc.max.Some? && sum > inc.max.value ==> n == inc.max.value)
                  && ((inc.min.Some? ==> sum >= inc.min.value) && (inc.max.Some? ==> sum <= inc.max.value) ==> n == sum)
  {
    AmendsThere(s, head, d);
    hide Transition;
    hide RulesHold;
    IncrementLeaves(s[d.payload.key], SegmentsOf(d.payload.target), d.payload.op.inc);
  }

  /** A delete on a map leaves the fields whose entries fail some condition,
      each as before, and no others. */
  lemma TransitionDeletesInMap(s: State, head: Digest, d: Digest)
    requires RulesHold(s) && Transition(s, head, d).Some?
    requires d.payload.AmendNamespaceKey? && d.payload.op.DeleteMatching?
    ensures var t, key, condition := Transition(s, head, d).value, d.payload.key, d.payload.op.condition;
            var path := if d.payload.target.None? then [] else d.payload.target.value;
            && key in s && key in t && Walk(s[key], path).Some?
            && (Walk(s[key], path).value.Map? || Walk(s[key], path).value.Array?)
            && (Walk(s[key], path).value.Map? ==>
                  && Walk(t[key], path).Some? && Walk(t[key], path).value.Map?
                  && var m, left := Walk(s[key], path).value.fields, Walk(t[key], path).value.fields;
                     forall name ::
                       && (name in left <==>
                             && name in m
                             && !forall c :: c in condition ==>
                                   Walk(m[name], if c.path.None? then [] else c.path.value) == Some(c.value))
                       && (name in left ==> left[name] == m[name]))
  {
    AmendsThere(s, head, d);
    hide Transition;
    hide RulesHold;
    var root, path, condition := s[d.payload.key], SegmentsOf(d.payload.target), d.payload.op.condition;
    AmendableExactly(root, path, DeleteMatching(condition));
    hide AmendAt;
    hide CanAmend;
    hide Walk;
    if Walk(root, path).value.Map? { DeleteInMap(root, path, condition); }
  }

  /** A delete on an array leaves the items that fail some condition, in
      order, and no others. */
  lemma TransitionDeletesInArray(s: State, head: Digest, d: Digest, items: seq<Value>)
    requires RulesHold(s) && Transition(s, head, d).Some?
    requires d.payload.AmendNamespaceKey? && d.payload.op.DeleteMatching? && d.payload.key in s
    requires Walk(s[d.payload.key], if d.payload.target.None? then [] else d.payload.target.value) == Some(Array(items))
    ensures var t, key, condition := Transition(s, head, d).value, d.payload.key, d.payload.op.condition;
            var path := if d.payload.target.None? then [] else d.payload.target.value;
            && key in t && Walk(t[key], path).Some? && Walk(t[key], path).value.Array?
            && var left := Walk(t[key], path).value.items;
               exists at: seq<nat> ::
                 && |at| == |left|
                 && (forall k :: 0 <= k < |at| ==> at[k] < |items| && left[k] == items[at[k]])
                 && (forall j, k :: 0 <= j < k < |at| ==> at[j] < at[k])
                 && (forall i: nat :: i < |items| ==>
                       (i in at <==>
                          !forall c :: c in condition ==>
                             Walk(items[i], if c.path.None? then [] else c.path.value) == Some(c.value)))
  {
    ArrayAfterDelete(s, head, d, items);
    var t, path := Transition(s, head, d).value, if d.payload.target.None? then [] else d.payload.target.value;
    var left := Walk(t[d.payload.key], path).value.items;
    hide Transition;
    hide RulesHold;
    hide Unmatched;
    LeftInOrder(d.payload.op.condition, items, left);
    hide Walk;
  }

  lemma ArrayAfterDelete(s: State, head: Digest, d: Digest, items: seq<Value>)
    requires RulesHold(s) && Transition(s, head, d).Some?
    requires d.payload.AmendNamespaceKey? && d.payload.op.DeleteMatching? && d.payload.key in s
    requires Walk(s[d.payload.key], if d.payload.target.None? then [] else d.payload.target.value) == Some(Array(items))
    ensures var t, key := Transition(s, head, d).value, d.payload.key;
            key in t && Walk(t[key], if d.payload.target.None? then [] else d.payload.target.value) ==
                        Some(Array(Unmatched(d.payload.op.condition, items)))
  {
    AmendsThere(s, head, d);
    hide Transition;
    hide RulesHold;
    hide AmendAt;
    hide CanAmend;
    hide Walk;
    hide Unmatched;
    DeleteInArray(s[d.payload.key], SegmentsOf(d.payload.target), d.payload.op.condition);
  }

  // ---------------------------------------------------------------------
  // Which writes a state takes

  /** Of a state that keeps its rules, the messages it takes. */
  lemma FittingExactly(s: State, msg: Msg)
    requires RulesHold(s)
    ensures Fitting(s, msg) <==>
            match msg
            case Init(_) => false
            case SetNamespace(_, key, value) => Broken(key, value).None?
            case DeleteNamespace(_, key) => key in s
            case SetNamespaceKey(_, key, path, entry) =>
              key in s && CanSet(s[key], path, entry) && Broken(key, SetAt(s[key], path, entry)).None?
            case AmendNamespaceKey(_, key, target, op) =>
              var path := if target.None? then [] else target.value;
              && key in s && CanAmend(s[key], path, op) && Broken(key, AmendAt(s[key], path, op)).None?
              && (op.IncrementDecrement? && op.inc.min.Some? && op.inc.max.Some? ==>
                    op.inc.min.value <= op.inc.max.value)
  {
    if Asked(msg).Some? && CanCommit(s, Asked(msg).value) { OnlyWrittenJudged(s, Asked(msg).value); }
    hide RulesHold;
    hide SetAt;
    hide AmendAt;
    hide CanSet;
    hide CanAmend;
    hide Broken;
  }

  // ---------------------------------------------------------------------
  // Why an envelope is refused

  /** The gate before any write is looked at: signatures first, then weight,
      then the number of signers, each against what the state asks for. */
  lemma GateExactly(s: State, e: Envelope)
    requires RulesHold(s)
    ensures MIN_ENVELOPE_WEIGHT_KEY in s ==> s[MIN_ENVELOPE_WEIGHT_KEY].Int?
    ensures MIN_ENVELOPE_SIGNATURES_KEY in s ==> s[MIN_ENVELOPE_SIGNATURES_KEY].Int?
    ensures var weight := if MIN_ENVELOPE_WEIGHT_KEY in s then s[MIN_ENVELOPE_WEIGHT_KEY].n else 0;
            var count := if MIN_ENVELOPE_SIGNATURES_KEY in s then s[MIN_ENVELOPE_SIGNATURES_KEY].n else 0;
            var earned := if e.status.AllMatched? then e.status.total else 0;
            var signers := if e.status.AllMatched? then |e.digest.signatures| else 0;
            match CheckThresholds(s, e)
            case None => !e.status.Failed? && earned >= weight && signers >= count
            case Some(InvalidSignatures(failing)) => e.status == Failed(failing)
            case Some(InsufficientWeight(required, found)) =>
              !e.status.Failed? && required == weight && found == earned && earned < weight
            case Some(InsufficientSignatures(required, found)) =>
              !e.status.Failed? && earned >= weight && required == count && found == signers && signers < count
            case Some(_) => false
  {
    assert MIN_ENVELOPE_WEIGHT_KEY in s ==> Broken(MIN_ENVELOPE_WEIGHT_KEY, s[MIN_ENVELOPE_WEIGHT_KEY]).None?;
    assert MIN_ENVELOPE_SIGNATURES_KEY in s ==>
      Broken(MIN_ENVELOPE_SIGNATURES_KEY, s[MIN_ENVELOPE_SIGNATURES_KEY]).None?;
  }

  /** Why a set or clear is refused: where its walk stops decides. */
  lemma SetRefused(s: State, key: Name, path: Path, entry: Option<Value>)
    ensures key !in s ==> ValidateSetKey(s, key, path, entry) == Err(UnknownNamespace(key))
    ensures key in s && Walk(s[key], path).Some? ==> ValidateSetKey(s, key, path, entry) == Ok(SetOp(key, path, entry))
    ensures key in s && Walk(s[key], path).None? ==>
              exists k :: 0 <= k < |path| && Walk(s[key], path[..k]).Some? &&
                match (Walk(s[key], path[..k]).value, path[k])
                case (Map(m), Field(name)) =>
                  && name !in m
                  && ValidateSetKey(s, key, path, entry) ==
                     if k == |path| - 1 && entry.Some? then Ok(SetOp(key, path, entry)) else Err(UnknownPath(key, path))
                case (Array(items), Index(i)) =>
                  i >= |items| && ValidateSetKey(s, key, path, entry) == Err(UnknownPath(key, path))
                case _ => ValidateSetKey(s, key, path, entry) == Err(PathTypeMismatch(key, path))
  {
    if key in s {
      WalkMeetsResolve(s[key], path);
      if Walk(s[key], path).None? {
        ResolveStops(s[key], path);
        var k := Resolve(s[key], path).depth;
        assert 0 <= k < |path| && Walk(s[key], path[..k]).Some?;
      }
    }
  }

  /** Why an amend of a value is refused. */
  lemma AmendRefused(s: State, key: Name, target: Option<Path>, op: AmendOp)
    ensures key !in s ==> ValidateAmendKey(s, key, target, op) == Err(UnknownNamespace(key))
    ensures var path := if target.None? then [] else target.value;
            key in s && Walk(s[key], path).Some? ==>
              var v, r := Walk(s[key], path).value, ValidateAmendKey(s, key, target, op);
              match op
              case AppendEntry(_) =>
                r == if v.Array? then Ok(AmendAtOp(key, target, op)) else Err(AmendTypeMismatch(key, target))
              case DeleteMatching(_) =>
                r == if v.Map? || v.Array? then Ok(AmendAtOp(key, target, op)) else Err(AmendTypeMismatch(key, target))
              case IncrementDecrement(inc) =>
                if v.Map? || v.Array? then r == Err(AmendTypeMismatch(key, target))
                else if inc.min.Some? && inc.max.Some? && inc.min.value > inc.max.value then
                  r == Err(InvalidBounds(key, target))
                else if !v.Int? then r == Err(AmendTypeMismatch(key, target))
                else
                  var sum := v.n + inc.delta;
                  if !((inc.min.Some? && sum < inc.min.value) || (inc.max.Some? && sum > inc.max.value)
                       || I64_MIN <= sum <= I64_MAX)
                  then r == Err(Overflow(key, target))
                  else r == Ok(AmendAtOp(key, target, op)) || (target.None? && r.Err? && r.error.InvalidValue?)
  {
    if key in s { WalkMeetsResolve(s[key], SegmentsOf(target)); }
  }

  /** Why an amend of a missing value is refused. */
  lemma AmendMisses(s: State, key: Name, path: Path, op: AmendOp)
    requires key in s && Walk(s[key], path).None?
    ensures exists k :: 0 <= k < |path| && Walk(s[key], path[..k]).Some? &&
              var r := ValidateAmendKey(s, key, Some(path), op);
              match (Walk(s[key], path[..k]).value, path[k])
              case (Map(m), Field(name)) =>
                && name !in m
                && r == if op.AppendEntry? && k == |path| - 1 then Ok(AmendAtOp(key, Some(path), op))
                        else Err(UnknownPath(key, path))
              case (Array(items), Index(i)) => i >= |items| && r == Err(UnknownPath(key, path))
              case _ => r == Err(PathTypeMismatch(key, path))
  {
    WalkMeetsResolve(s[key], path);
    ResolveStops(s[key], path);
    var k := Resolve(s[key], path).depth;
    assert 0 <= k < |path| && Walk(s[key], path[..k]).Some?;
  }

  /** The order of the checks, and the error of the first that fails. */
  lemma RefusedExactly(s: State, head: Digest, e: Envelope)
    ensures var r, msg := Apply(s, head, e), e.digest.payload;
            if msg.Init? then r == Err(UnexpectedInit)
            else if msg.prev != head then r == Err(ChainMismatch(head, msg.prev))
            else if CheckThresholds(s, e).Some? then r == Err(CheckThresholds(s, e).value)
            else match msg
              case SetNamespace(_, key, value) =>
                if Broken(key, value).Some? then r == Err(InvalidValue(key, Broken(key, value).value)) else r.Ok?
              case DeleteNamespace(_, key) => if key !in s then r == Err(UnknownNamespace(key)) else r.Ok?
              case SetNamespaceKey(_, key, path, entry) =>
                if ValidateSetKey(s, key, path, entry).Err? then r == Err(ValidateSetKey(s, key, path, entry).error)
                else
                  && key in s && CanSet(s[key], path, entry)
                  && var broken := Broken(key, SetAt(s[key], path, entry));
                     if broken.Some? then r == Err(InvalidValue(key, broken.value)) else r.Ok?
              case AmendNamespaceKey(_, key, target, op) =>
                if ValidateAmendKey(s, key, target, op).Err? then r == Err(ValidateAmendKey(s, key, target, op).error)
                else
                  && key in s && CanAmend(s[key], SegmentsOf(target), op)
                  && var broken := Broken(key, AmendAt(s[key], SegmentsOf(target), op));
                     if broken.Some? then r == Err(InvalidValue(key, broken.value)) else r.Ok?
  {
    if Admit(s, e.digest.payload).Ok? { AdmittedCommits(s, e.digest.payload); }
    hide CheckThresholds;
    hide SetAt;
    hide AmendAt;
    hide CanSet;
    hide CanAmend;
  }
}
