/** The edits that bring the transports a node lists in line with those it is
    reachable at (crates/lotusd/src/core.rs, `transport_edits`). */
module Transport {
  import opened Wire
  import opened ValueTree
  import opened Ledger

  /** A step of the edit script, to be carried by one message. */
  datatype Update = Replace(index: u32, entry: Value) | Drop(index: u32) | Append(entry: Value)

  predicate InBounds(xs: seq<Value>, u: Update) {
    u.Append? || u.index < |xs|
  }

  /** A listing with one update made; one out of bounds changes nothing. */
  function Edit(xs: seq<Value>, u: Update): seq<Value> {
    match u
    case Append(entry) => xs + [entry]
    case Replace(i, entry) => if i < |xs| then xs[i := entry] else xs
    case Drop(i) => if i < |xs| then xs[..i] + xs[i + 1..] else xs
  }

  function Edited(xs: seq<Value>, edits: seq<Update>): seq<Value>
    decreases |edits|
  {
    if edits == [] then xs else Edited(Edit(xs, edits[0]), edits[1..])
  }

  /** Made in order, every update is in bounds, and no wanted entry listed
      before an update is gone after it. */
  ghost predicate Safe(xs: seq<Value>, edits: seq<Update>, wanted: seq<Value>)
    decreases |edits|
  {
    edits == [] ||
    (&& InBounds(xs, edits[0])
     && (forall v :: v in wanted && v in xs ==> v in Edit(xs, edits[0]))
     && Safe(Edit(xs, edits[0]), edits[1..], wanted))
  }

  lemma FirstEdit(xs: seq<Value>, u: Update, rest: seq<Update>, wanted: seq<Value>)
    requires InBounds(xs, u) && (forall v :: v in wanted && v in xs ==> v in Edit(xs, u))
    requires Safe(Edit(xs, u), rest, wanted)
    ensures Safe(xs, [u] + rest, wanted) && Edited(xs, [u] + rest) == Edited(Edit(xs, u), rest)
  {
    assert ([u] + rest)[1..] == rest;
  }

  lemma NoEdits(xs: seq<Value>, wanted: seq<Value>)
    ensures Safe(xs, [], wanted) && Edited(xs, []) == xs
  {
  }

  lemma {:induction false} SafeJoin(xs: seq<Value>, first: seq<Update>, rest: seq<Update>, wanted: seq<Value>)
    requires Safe(xs, first, wanted) && Safe(Edited(xs, first), rest, wanted)
    ensures Safe(xs, first + rest, wanted) && Edited(xs, first + rest) == Edited(Edited(xs, first), rest)
    decreases |first|
  {
    hide Edit;
    hide InBounds;
    if first == [] {
      assert first + rest == rest;
    } else {
      var next := Edit(xs, first[0]);
      SafeJoin(next, first[1..], rest, wanted);
      FirstEdit(xs, first[0], first[1..] + rest, wanted);
      assert first + rest == [first[0]] + (first[1..] + rest);
    }
  }

  // ---------------------------------------------------------------------
  // Which entries are spare

  predicate Distinct(xs: seq<Value>) {
    forall i, j :: 0 <= i < j < |xs| ==> xs[i] != xs[j]
  }

  /** An entry the listing does not need: not wanted, or listed before. */
  predicate IsSpare(listed: seq<Value>, wanted: seq<Value>, i: nat)
    requires i < |listed|
  {
    listed[i] !in wanted || listed[i] in listed[..i]
  }

  /** A wanted entry at a spare index has a copy earlier, at one that is not. */
  lemma {:induction false} KeptCopy(listed: seq<Value>, wanted: seq<Value>, i: nat) returns (j: nat)
    requires i < |listed| && listed[i] in wanted && IsSpare(listed, wanted, i)
    ensures j < i && listed[j] == listed[i] && !IsSpare(listed, wanted, j)
  {
    j :| j < i && listed[..i][j] == listed[i];
    if IsSpare(listed, wanted, j) { j := KeptCopy(listed, wanted, j); }
  }

  function Pick(xs: seq<Value>, at: seq<nat>): seq<Value>
    requires forall i :: 0 <= i < |at| ==> at[i] < |xs|
  {
    seq(|at|, i requires 0 <= i < |at| => xs[at[i]])
  }

  /** Spare indices of a listing, lowest first. */
  ghost predicate Spares(listed: seq<Value>, wanted: seq<Value>, spare: seq<nat>) {
    && (forall k :: 0 <= k < |spare| ==> spare[k] < |listed| && IsSpare(listed, wanted, spare[k]))
    && (forall j, k :: 0 <= j < k < |spare| ==> spare[j] < spare[k])
  }

  /** `all` is the entries of `some` and `others` together, in some order. */
  ghost predicate MadeOf(all: seq<Value>, some: seq<Value>, others: seq<Value>) {
    multiset(all) == multiset(some) + multiset(others)
  }

  lemma MadeOfMore(all: seq<Value>, some: seq<Value>, others: seq<Value>, v: Value)
    requires MadeOf(all, some, others)
    ensures MadeOf(all + [v], some + [v], others) && MadeOf(all + [v], some, others + [v])
  {
    forall x: Value ensures multiset(all + [v])[x] == (multiset(some) + multiset(others) + multiset{v})[x] {
      assert multiset(all + [v])[x] == multiset(all)[x] + multiset{v}[x];
    }
  }

  /** The first `i` entries told apart: each is kept once or spare. */
  ghost predicate Parted(listed: seq<Value>, wanted: seq<Value>, i: nat, spare: seq<nat>, kept: seq<Value>)
    requires i <= |listed|
  {
    && Spares(listed, wanted, spare) && (forall k :: 0 <= k < |spare| ==> spare[k] < i)
    && (forall k: nat :: k < i && IsSpare(listed, wanted, k) ==> k in spare)
    && MadeOf(listed[..i], kept, Pick(listed, spare))
    && Distinct(kept) && (forall v :: v in kept <==> v in listed[..i] && v in wanted)
  }

  lemma PartKept(listed: seq<Value>, wanted: seq<Value>, i: nat, spare: seq<nat>, kept: seq<Value>)
    requires i < |listed| && Parted(listed, wanted, i, spare, kept)
    requires listed[i] in wanted && listed[i] !in kept
    ensures Parted(listed, wanted, i + 1, spare, kept + [listed[i]])
  {
    hide Spares;
    hide MadeOf;
    hide Pick;
    MadeOfMore(listed[..i], kept, Pick(listed, spare), listed[i]);
    assert listed[..i + 1] == listed[..i] + [listed[i]];
  }

  lemma SparesMore(listed: seq<Value>, wanted: seq<Value>, i: nat, spare: seq<nat>)
    requires i < |listed| && Spares(listed, wanted, spare) && IsSpare(listed, wanted, i)
    requires forall k :: 0 <= k < |spare| ==> spare[k] < i
    ensures Spares(listed, wanted, spare + [i])
    ensures Pick(listed, spare + [i]) == Pick(listed, spare) + [listed[i]]
  {
    hide IsSpare;
  }

  lemma PartSpare(listed: seq<Value>, wanted: seq<Value>, i: nat, spare: seq<nat>, kept: seq<Value>)
    requires i < |listed| && Parted(listed, wanted, i, spare, kept)
    requires listed[i] !in wanted || listed[i] in kept
    ensures Parted(listed, wanted, i + 1, spare + [i], kept)
  {
    assert IsSpare(listed, wanted, i);
    hide IsSpare;
    SparesMore(listed, wanted, i, spare);
    hide Spares;
    hide Pick;
    hide Distinct;
    hide MadeOf;
    MadeOfMore(listed[..i], kept, Pick(listed, spare), listed[i]);
    assert listed[..i + 1] == listed[..i] + [listed[i]];
  }

  method SpareIndices(listed: seq<Value>, wanted: seq<Value>) returns (spare: seq<nat>, ghost kept: seq<Value>)
    ensures forall i: nat :: i < |listed| ==> (i in spare <==> IsSpare(listed, wanted, i))
    ensures Spares(listed, wanted, spare)
    ensures Parted(listed, wanted, |listed|, spare, kept)
  {
    hide Parted;
    hide IsSpare;
    spare, kept := [], [];
    var seen: set<Value> := {};
    PartNone(listed, wanted);
    for i := 0 to |listed|
      invariant Parted(listed, wanted, i, spare, kept)
      invariant forall v :: v in seen <==> v in kept
    {
      if listed[i] in wanted && listed[i] !in seen {
        PartKept(listed, wanted, i, spare, kept);
        seen := seen + {listed[i]};
        kept := kept + [listed[i]];
      } else {
        PartSpare(listed, wanted, i, spare, kept);
        spare := spare + [i];
      }
    }
    SparesAll(listed, wanted, spare, kept);
  }

  lemma PartNone(listed: seq<Value>, wanted: seq<Value>)
    ensures Parted(listed, wanted, 0, [], [])
  {
  }

  /** The wanted entries a listing lacks, in order. */
  function Lacking(listed: seq<Value>, wanted: seq<Value>): seq<Value> {
    if wanted == [] then []
    else
      var rest, last := Lacking(listed, wanted[..|wanted| - 1]), wanted[|wanted| - 1];
      if last in listed then rest else rest + [last]
  }

  // ---------------------------------------------------------------------
  // The script

  predicate Addressable(at: seq<nat>) {
    forall i :: 0 <= i < |at| ==> at[i] <= U32_MAX
  }

  function Appends(entries: seq<Value>): seq<Update> {
    if entries == [] then [] else [Append(entries[0])] + Appends(entries[1..])
  }

  function Replaces(at: seq<nat>, entries: seq<Value>): seq<Update>
    requires |at| == |entries| && Addressable(at)
  {
    if at == [] then [] else [Replace(at[0], entries[0])] + Replaces(at[1..], entries[1..])
  }

  /** Highest index first. */
  function Drops(at: seq<nat>): seq<Update>
    requires Addressable(at)
  {
    if at == [] then [] else [Drop(at[|at| - 1])] + Drops(at[..|at| - 1])
  }

  lemma {:induction false} AppendsSafe(xs: seq<Value>, entries: seq<Value>, wanted: seq<Value>)
    ensures Safe(xs, Appends(entries), wanted) && Edited(xs, Appends(entries)) == xs + entries
    decreases |entries|
  {
    if entries == [] {
      assert xs + entries == xs;
    } else {
      AppendsSafe(xs + [entries[0]], entries[1..], wanted);
      assert xs + [entries[0]] + entries[1..] == xs + entries;
      assert Appends(entries)[1..] == Appends(entries[1..]);
    }
  }

  /** Every entry the listing keeps still stands at its own index, as far up
      as `bound`. */
  ghost predicate KeptInPlace(listed: seq<Value>, wanted: seq<Value>, xs: seq<Value>, bound: nat) {
    && bound <= |xs| && bound <= |listed|
    && forall i: nat :: i < bound && !IsSpare(listed, wanted, i) ==> xs[i] == listed[i]
  }

  /** Writing over or dropping an entry still as it was listed loses no wanted
      one: its kept copy stands below it. */
  lemma SpendingLosesNone(listed: seq<Value>, wanted: seq<Value>, xs: seq<Value>, at: nat, after: seq<Value>)
    requires KeptInPlace(listed, wanted, xs, at) && at < |listed| && at < |xs|
    requires IsSpare(listed, wanted, at) && xs[at] == listed[at]
    requires at <= |after| && after[..at] == xs[..at]
    requires forall i :: 0 <= i < |xs| && i != at ==> xs[i] in after
    ensures forall v :: v in wanted && v in xs ==> v in after
  {
    forall v | v in wanted && v in xs ensures v in after {
      var i :| 0 <= i < |xs| && xs[i] == v;
      if i == at {
        var j := KeptCopy(listed, wanted, at);
        assert after[..at][j] == xs[j];
      }
    }
  }

  lemma KeptBelow(listed: seq<Value>, wanted: seq<Value>, xs: seq<Value>, bound: nat, lower: nat)
    requires KeptInPlace(listed, wanted, xs, bound) && lower <= bound
    ensures KeptInPlace(listed, wanted, xs, lower)
  {
  }

  /** Still as listed at each of these indices. */
  ghost predicate AsListed(listed: seq<Value>, xs: seq<Value>, at: seq<nat>) {
    forall k :: 0 <= k < |at| ==> at[k] < |listed| && at[k] < |xs| && xs[at[k]] == listed[at[k]]
  }

  /** `after` is `before` with the entries `spent` gone and `gained` come. */
  ghost predicate Trades(before: seq<Value>, spent: seq<Value>, gained: seq<Value>, after: seq<Value>) {
    multiset(after) + multiset(spent) == multiset(before) + multiset(gained)
  }

  lemma ReplaceTrades(xs: seq<Value>, i: nat, entry: Value)
    requires i < |xs|
    ensures Trades(xs, [xs[i]], [entry], xs[i := entry])
  {
    assert xs == xs[..i] + [xs[i]] + xs[i + 1..];
    assert xs[i := entry] == xs[..i] + [entry] + xs[i + 1..];
  }

  lemma DropTrades(xs: seq<Value>, i: nat)
    requires i < |xs|
    ensures Trades(xs, [xs[i]], [], xs[..i] + xs[i + 1..])
  {
    assert xs == xs[..i] + [xs[i]] + xs[i + 1..];
  }

  lemma TradesJoin(a: seq<Value>, b: seq<Value>, c: seq<Value>, spent: seq<Value>, gained: seq<Value>,
                   spent': seq<Value>, gained': seq<Value>)
    requires Trades(a, spent, gained, b) && Trades(b, spent', gained', c)
    ensures Trades(a, spent + spent', gained + gained', c) && Trades(a, spent' + spent, gained + gained', c)
  {
    forall v: Value
      ensures multiset(c)[v] + multiset(spent)[v] + multiset(spent')[v] ==
              multiset(a)[v] + multiset(gained)[v] + multiset(gained')[v]
    {
      assert (multiset(b) + multiset(spent))[v] == (multiset(a) + multiset(gained))[v];
      assert (multiset(c) + multiset(spent'))[v] == (multiset(b) + multiset(gained'))[v];
    }
  }

  lemma ReplaceStep(listed: seq<Value>, wanted: seq<Value>, xs: seq<Value>, at: seq<nat>, entry: Value)
    requires at != [] && Spares(listed, wanted, at) && AsListed(listed, xs, at)
    requires KeptInPlace(listed, wanted, xs, |listed|)
    ensures var next := xs[at[0] := entry];
            && (forall v :: v in wanted && v in xs ==> v in next)
            && KeptInPlace(listed, wanted, next, |listed|)
            && Spares(listed, wanted, at[1..]) && AsListed(listed, next, at[1..])
            && at[0] !in at[1..]
  {
    var i, next := at[0], xs[at[0] := entry];
    KeptBelow(listed, wanted, xs, |listed|, i);
    forall k | 0 <= k < |xs| && k != i ensures xs[k] in next { assert next[k] == xs[k]; }
    hide IsSpare;
    SpendingLosesNone(listed, wanted, xs, i, next);
  }

  lemma LastSpare(listed: seq<Value>, at: seq<nat>)
    requires at != [] && forall k :: 0 <= k < |at| ==> at[k] < |listed|
    ensures var i, rest := at[|at| - 1], at[..|at| - 1];
            && Pick(listed, at) == Pick(listed, rest) + [listed[i]]
            && (Addressable(at) ==> Addressable(rest) && Drops(at) == [Drop(i)] + Drops(rest))
  {
  }

  lemma DropStep(listed: seq<Value>, wanted: seq<Value>, xs: seq<Value>, at: seq<nat>, bound: nat)
    requires at != [] && Spares(listed, wanted, at) && AsListed(listed, xs, at)
    requires KeptInPlace(listed, wanted, xs, bound) && forall k :: 0 <= k < |at| ==> at[k] < bound
    ensures var i, rest := at[|at| - 1], at[..|at| - 1];
            var next := xs[..i] + xs[i + 1..];
            && (forall v :: v in wanted && v in xs ==> v in next)
            && KeptInPlace(listed, wanted, next, i)
            && Spares(listed, wanted, rest) && AsListed(listed, next, rest)
            && (forall k :: 0 <= k < |rest| ==> rest[k] < i)
  {
    var i := at[|at| - 1];
    var next := xs[..i] + xs[i + 1..];
    KeptBelow(listed, wanted, xs, bound, i);
    forall k | 0 <= k < |xs| && k != i ensures xs[k] in next {
      assert next[if k < i then k else k - 1] == xs[k];
    }
    hide IsSpare;
    SpendingLosesNone(listed, wanted, xs, i, next);
  }

  lemma {:induction false} ReplacesSafe(listed: seq<Value>, wanted: seq<Value>, xs: seq<Value>, at: seq<nat>,
                                        entries: seq<Value>)
    requires |at| == |entries| && Addressable(at) && Spares(listed, wanted, at) && AsListed(listed, xs, at)
    requires KeptInPlace(listed, wanted, xs, |listed|)
    ensures Safe(xs, Replaces(at, entries), wanted)
    ensures var ys := Edited(xs, Replaces(at, entries));
            && |ys| == |xs|
            && (forall i :: 0 <= i < |xs| && i !in at ==> ys[i] == xs[i])
            && Trades(xs, Pick(listed, at), entries, ys)
    decreases |at|
  {
    hide KeptInPlace;
    hide Trades;
    hide Safe;
    hide Edited;
    hide Spares;
    if at == [] {
      TradesNone(xs);
      NoEdits(xs, wanted);
      assert Pick(listed, at) == [];
    } else {
      var i, rest := at[0], at[1..];
      var next := xs[i := entries[0]];
      ReplaceStep(listed, wanted, xs, at, entries[0]);
      ReplacesSafe(listed, wanted, next, rest, entries[1..]);
      var ys := Edited(next, Replaces(rest, entries[1..]));
      ReplaceTrades(xs, i, entries[0]);
      TradesJoin(xs, next, ys, [listed[i]], [entries[0]], Pick(listed, rest), entries[1..]);
      FirstEdit(xs, Replace(i, entries[0]), Replaces(rest, entries[1..]), wanted);
      assert Pick(listed, at) == [listed[i]] + Pick(listed, rest);
      assert entries == [entries[0]] + entries[1..];
    }
  }

  lemma TradesNone(xs: seq<Value>)
    ensures Trades(xs, [], [], xs)
  {
  }

  lemma {:induction false} DropsSafe(listed: seq<Value>, wanted: seq<Value>, xs: seq<Value>, at: seq<nat>, bound: nat)
    requires Addressable(at) && Spares(listed, wanted, at) && AsListed(listed, xs, at)
    requires KeptInPlace(listed, wanted, xs, bound) && forall k :: 0 <= k < |at| ==> at[k] < bound
    ensures Safe(xs, Drops(at), wanted)
    ensures Trades(xs, Pick(listed, at), [], Edited(xs, Drops(at)))
    decreases |at|
  {
    hide KeptInPlace;
    hide Trades;
    hide Safe;
    hide Edited;
    hide Spares;
    if at == [] {
      TradesNone(xs);
      NoEdits(xs, wanted);
      assert Pick(listed, at) == [];
    } else {
      var i, rest := at[|at| - 1], at[..|at| - 1];
      var next := xs[..i] + xs[i + 1..];
      DropStep(listed, wanted, xs, at, bound);
      LastSpare(listed, at);
      hide Pick;
      hide Drops;
      DropsSafe(listed, wanted, next, rest, i);
      DropTrades(xs, i);
      FirstEdit(xs, Drop(i), Drops(rest), wanted);
      var none: seq<Value> := [];
      assert none + none == none;
      TradesJoin(xs, next, Edited(next, Drops(rest)), [listed[i]], none, Pick(listed, rest), none);
    }
  }

  /** Gains before losses: what no spare entry can be spent on is appended,
      the spare entries are written over, those left are dropped. */
  function Script(spare: seq<nat>, missing: seq<Value>): seq<Update>
    requires Addressable(spare)
  {
    var paired := if |spare| <= |missing| then |spare| else |missing|;
    Appends(missing[paired..]) + Replaces(spare[..paired], missing[..paired]) + Drops(spare[paired..])
  }

  lemma SpareParts(listed: seq<Value>, wanted: seq<Value>, spare: seq<nat>, n: nat)
    requires Spares(listed, wanted, spare) && n <= |spare|
    ensures Spares(listed, wanted, spare[..n]) && Spares(listed, wanted, spare[n..])
    ensures Pick(listed, spare) == Pick(listed, spare[..n]) + Pick(listed, spare[n..])
    ensures forall k :: n <= k < |spare| ==> spare[k] !in spare[..n]
    ensures forall i: nat :: i < |listed| && !IsSpare(listed, wanted, i) ==> i !in spare
  {
  }

  /** Gains, then spent entries written over. */
  lemma ScriptGains(listed: seq<Value>, wanted: seq<Value>, spare: seq<nat>, missing: seq<Value>, n: nat)
    requires Addressable(spare) && Spares(listed, wanted, spare) && n <= |spare| && n <= |missing|
    ensures var xs := listed + missing[n..];
            var ys := Edited(xs, Replaces(spare[..n], missing[..n]));
            && Safe(listed, Appends(missing[n..]), wanted) && Edited(listed, Appends(missing[n..])) == xs
            && Safe(xs, Replaces(spare[..n], missing[..n]), wanted)
            && Trades(xs, Pick(listed, spare[..n]), missing[..n], ys)
            && KeptInPlace(listed, wanted, ys, |listed|) && AsListed(listed, ys, spare[n..])
  {
    hide Trades;
    hide IsSpare;
    hide Safe;
    hide Edited;
    hide Pick;
    var xs := listed + missing[n..];
    AppendsSafe(listed, missing[n..], wanted);
    SpareParts(listed, wanted, spare, n);
    ReplacesSafe(listed, wanted, xs, spare[..n], missing[..n]);
  }

  /** The script for a listing: in bounds at every step, no wanted entry lost
      on the way, spending exactly the spare entries for the missing ones. */
  lemma ScriptRuns(listed: seq<Value>, wanted: seq<Value>, spare: seq<nat>, missing: seq<Value>)
    requires Addressable(spare) && Spares(listed, wanted, spare)
    ensures Safe(listed, Script(spare, missing), wanted)
    ensures Trades(listed, Pick(listed, spare), missing, Edited(listed, Script(spare, missing)))
  {
    hide Trades;
    hide IsSpare;
    hide Safe;
    hide Edited;
    hide Pick;
    hide KeptInPlace;
    var n := if |spare| <= |missing| then |spare| else |missing|;
    var gains, swaps, drops := Appends(missing[n..]), Replaces(spare[..n], missing[..n]), Drops(spare[n..]);
    var xs := listed + missing[n..];
    var ys := Edited(xs, swaps);
    ScriptGains(listed, wanted, spare, missing, n);
    SpareParts(listed, wanted, spare, n);
    DropsSafe(listed, wanted, ys, spare[n..], |listed|);
    SafeJoin(listed, gains, swaps, wanted);
    SafeJoin(listed, gains + swaps, drops, wanted);
    AllTraded(listed, missing, n, xs, Pick(listed, spare[..n]), ys, Pick(listed, spare[n..]), Edited(ys, drops));
  }

  lemma AllTraded(listed: seq<Value>, missing: seq<Value>, n: nat, xs: seq<Value>, replaced: seq<Value>, ys: seq<Value>,
                  dropped: seq<Value>, zs: seq<Value>)
    requires n <= |missing| && xs == listed + missing[n..]
    requires Trades(xs, replaced, missing[..n], ys) && Trades(ys, dropped, [], zs)
    ensures Trades(listed, replaced + dropped, missing, zs)
  {
    TradesJoin(xs, ys, zs, replaced, missing[..n], dropped, []);
    assert missing[..n] + [] == missing[..n];
    assert missing == missing[..n] + missing[n..];
  }

  /** Every entry the script writes is one that was missing. */
  lemma ScriptWrites(spare: seq<nat>, missing: seq<Value>, u: Update)
    requires Addressable(spare) && u in Script(spare, missing)
    ensures u.Drop? || u.entry in missing
  {
    var n := if |spare| <= |missing| then |spare| else |missing|;
    AppendsWrite(missing[n..]);
    ReplacesWrite(spare[..n], missing[..n]);
    DropsDrop(spare[n..]);
  }

  lemma {:induction false} AppendsWrite(entries: seq<Value>)
    ensures forall u :: u in Appends(entries) ==> u.Append? && u.entry in entries
  {
    if entries == [] {
    } else {
      AppendsWrite(entries[1..]);
    }
  }

  lemma {:induction false} ReplacesWrite(at: seq<nat>, entries: seq<Value>)
    requires |at| == |entries| && Addressable(at)
    ensures forall u :: u in Replaces(at, entries) ==> u.Replace? && u.entry in entries
  {
    if at == [] {
    } else {
      ReplacesWrite(at[1..], entries[1..]);
    }
  }

  lemma {:induction false} DropsDrop(at: seq<nat>)
    requires Addressable(at)
    ensures forall u :: u in Drops(at) ==> u.Drop?
  {
    if at == [] {
    } else {
      DropsDrop(at[..|at| - 1]);
    }
  }

  // ---------------------------------------------------------------------
  // The outcome

  lemma {:induction false} CountDistinct(xs: seq<Value>, v: Value)
    requires Distinct(xs)
    ensures multiset(xs)[v] == if v in xs then 1 else 0
  {
    if xs == [] {
    } else {
      var rest, last := xs[..|xs| - 1], xs[|xs| - 1];
      assert xs == rest + [last];
      CountDistinct(rest, v);
    }
  }

  lemma {:induction false} LackingIs(listed: seq<Value>, wanted: seq<Value>)
    ensures forall v :: v in Lacking(listed, wanted) <==> v in wanted && v !in listed
    ensures Distinct(wanted) ==> Distinct(Lacking(listed, wanted))
  {
    if wanted == [] {
    } else {
      assert wanted == wanted[..|wanted| - 1] + [wanted[|wanted| - 1]];
      LackingIs(listed, wanted[..|wanted| - 1]);
    }
  }

  /** What is kept and what is missing make up what is wanted. */
  lemma KeptAndMissing(listed: seq<Value>, wanted: seq<Value>, kept: seq<Value>)
    requires Distinct(wanted) && Distinct(kept) && forall v :: v in kept <==> v in listed && v in wanted
    ensures multiset(kept) + multiset(Lacking(listed, wanted)) == multiset(wanted)
  {
    LackingIs(listed, wanted);
    forall v: Value ensures (multiset(kept) + multiset(Lacking(listed, wanted)))[v] == multiset(wanted)[v] {
      CountDistinct(wanted, v);
      CountDistinct(kept, v);
      CountDistinct(Lacking(listed, wanted), v);
    }
  }

  lemma Balance(listed: seq<Value>, kept: seq<Value>, spent: seq<Value>, gained: seq<Value>, after: seq<Value>)
    requires Trades(listed, spent, gained, after) && MadeOf(listed, kept, spent)
    ensures multiset(after) == multiset(kept) + multiset(gained)
  {
    forall v: Value ensures multiset(after)[v] == (multiset(kept) + multiset(gained))[v] {
      assert (multiset(after) + multiset(spent))[v] == (multiset(listed) + multiset(gained))[v];
    }
  }

  /** The edits that take a listing to `wanted`: none when there is no array
      to edit or one of its spare entries cannot be addressed. Made in order,
      whatever was listed before, every index is in bounds, no wanted entry
      is ever lost on the way, and what is left is `wanted` in some order. */
  method TransportEdits(listing: Option<Value>, wanted: seq<Value>) returns (edits: Option<seq<Update>>)
    ensures edits.Some? ==> listing.Some? && listing.value.Array?
    ensures listing.Some? && listing.value.Array? ==>
              (edits.Some? <==>
                 forall i :: U32_MAX < i < |listing.value.items| ==> !IsSpare(listing.value.items, wanted, i))
    ensures listing.Some? && listing.value.Array? ==>
              var items := listing.value.items;
              (edits.Some? <==>
                 forall i :: 0xFFFF_FFFF < i < |items| ==>
                   items[i] in wanted && forall j :: 0 <= j < i ==> items[j] != items[i])
    ensures edits.Some? ==> Safe(listing.value.items, edits.value, wanted)
    ensures edits.Some? ==> forall u :: u in edits.value ==> u.Drop? || u.entry in wanted
    ensures edits.Some? && Distinct(wanted) ==> multiset(Edited(listing.value.items, edits.value)) == multiset(wanted)
  {
    hide IsSpare;
    hide Safe;
    hide Edited;
    hide Script;
    hide Pick;
    hide Trades;
    if listing.None? || !listing.value.Array? {
      return None;
    }
    var listed := listing.value.items;
    SpareExactly(listed, wanted);
    var spare, kept := SpareIndices(listed, wanted);
    assert listed[..|listed|] == listed;
    if exists i :: 0 <= i < |spare| && spare[i] > U32_MAX {
      return None;
    }
    var missing := Lacking(listed, wanted);
    ScriptRuns(listed, wanted, spare, missing);
    Balance(listed, kept, Pick(listed, spare), missing, Edited(listed, Script(spare, missing)));
    if Distinct(wanted) { KeptAndMissing(listed, wanted, kept); }
    LackingIs(listed, wanted);
    forall u | u in Script(spare, missing) ensures u.Drop? || u.entry in wanted { ScriptWrites(spare, missing, u); }
    return Some(Script(spare, missing));
  }

  /** What may go: an entry that is not wanted, or that is listed before. */
  lemma SpareExactly(listed: seq<Value>, wanted: seq<Value>)
    ensures forall i: nat :: i < |listed| ==>
              (!IsSpare(listed, wanted, i) <==>
                 listed[i] in wanted && forall j :: 0 <= j < i ==> listed[j] != listed[i])
  {
  }

  /** Every spare index is found. */
  lemma SparesAll(listed: seq<Value>, wanted: seq<Value>, spare: seq<nat>, kept: seq<Value>)
    requires Parted(listed, wanted, |listed|, spare, kept)
    ensures Spares(listed, wanted, spare)
    ensures forall i: nat :: i < |listed| ==> (i in spare <==> IsSpare(listed, wanted, i))
  {
    hide IsSpare;
  }

  // ---------------------------------------------------------------------
  // As envelopes on the ledger

  /** An entry as the rule on cluster nodes wants it. */
  predicate IsTransport(v: Value) {
    HasText(v, "type") && HasText(v, "addr")
  }

  predicate AllTransports(xs: seq<Value>) {
    forall v :: v in xs ==> IsTransport(v)
  }

  /** Where a node's transports are listed. */
  function ListingPath(id: string): Path {
    [Field(id), Field("iroh"), Field("addrs")]
  }

  /** The message an update of the listing becomes. */
  function AsMsg(prev: Digest, id: string, u: Update): Msg {
    match u
    case Append(entry) => AmendNamespaceKey(prev, CLUSTER_NODES_KEY, Some(ListingPath(id)), AppendEntry(entry))
    case Replace(i, entry) => SetNamespaceKey(prev, CLUSTER_NODES_KEY, ListingPath(id) + [Index(i)], Some(entry))
    case Drop(i) => SetNamespaceKey(prev, CLUSTER_NODES_KEY, ListingPath(id) + [Index(i)], None)
  }

  /** The write it asks for, whatever envelope it builds on. */
  function OpOf(id: string, u: Update): NamespaceOp {
    match u
    case Append(entry) => AmendAtOp(CLUSTER_NODES_KEY, Some(ListingPath(id)), AppendEntry(entry))
    case Replace(i, entry) => SetOp(CLUSTER_NODES_KEY, ListingPath(id) + [Index(i)], Some(entry))
    case Drop(i) => SetOp(CLUSTER_NODES_KEY, ListingPath(id) + [Index(i)], None)
  }

  /** The state that write leaves; one that does not fit leaves it alone. */
  ghost function Written(s: State, id: string, u: Update): State {
    if CanCommit(s, OpOf(id, u)) then Committed(s, OpOf(id, u)) else s
  }

  /** The transports a state lists for a node. */
  ghost predicate Lists(s: State, id: string, xs: seq<Value>) {
    CLUSTER_NODES_KEY in s && Walk(s[CLUSTER_NODES_KEY], ListingPath(id)) == Some(Array(xs))
  }

  /** An update in bounds meets the storage contract and changes the listed
      array alone. */
  lemma WriteEdits(s: State, id: string, xs: seq<Value>, u: Update)
    requires Lists(s, id, xs) && InBounds(xs, u)
    ensures CanCommit(s, OpOf(id, u))
    ensures Written(s, id, u) ==
            s[CLUSTER_NODES_KEY := Graft(s[CLUSTER_NODES_KEY], ListingPath(id), Array(Edit(xs, u)))]
  {
    var root, path := s[CLUSTER_NODES_KEY], ListingPath(id);
    if !u.Append? {
      var at := path + [Index(u.index)];
      assert Parents(at) == path;
      WalkSplit(root, path, [Index(u.index)]);
      assert [Index(u.index)][1..] == [];
      assert Walk(root, at) == Some(xs[u.index]);
      WalkMeetsResolve(root, at);
    }
  }

  lemma {:induction false} WalkThree(root: Value, a: Subkey, b: Subkey, c: Subkey)
    requires Walk(root, [a, b, c]).Some?
    ensures Child(root, a).Some? && Child(Child(root, a).value, b).Some?
    ensures Child(Child(Child(root, a).value, b).value, c) == Walk(root, [a, b, c])
    ensures forall node :: Graft(root, [a, b, c], node) ==
              WithChild(root, a, WithChild(Child(root, a).value, b,
                                           WithChild(Child(Child(root, a).value, b).value, c, node)))
  {
    assert [a, b, c][1..] == [b, c] && [b, c][1..] == [c] && [c][1..] == [];
    var x := Child(root, a).value;
    assert Walk(root, [a, b, c]) == Walk(x, [b, c]);
    var y := Child(x, b).value;
    assert Walk(x, [b, c]) == Walk(y, [c]);
    assert Walk(y, [c]) == Child(y, c);
    forall node ensures Graft(root, [a, b, c], node) == WithChild(root, a, WithChild(x, b, WithChild(y, c, node))) {
      assert Graft(y, [c], node) == WithChild(y, c, node);
      assert Graft(x, [b, c], node) == WithChild(x, b, Graft(y, [c], node));
      assert Graft(root, [a, b, c], node) == WithChild(root, a, Graft(x, [b, c], node));
    }
  }

  /** A node set whose listing for one node is replaced by other transports is
      still a node set; and what it listed were transports. */
  lemma ListingKeepsRule(root: Value, id: string, xs: seq<Value>, ys: seq<Value>)
    requires IsNodeSet(root) && Walk(root, ListingPath(id)) == Some(Array(xs)) && AllTransports(ys)
    ensures AllTransports(xs) && IsNodeSet(Graft(root, ListingPath(id), Array(ys)))
  {
    WalkThree(root, Field(id), Field("iroh"), Field("addrs"));
    var node := root.fields[id];
    var endpoint := node.fields["iroh"];
    assert IsEndpoint(endpoint) && endpoint.fields["addrs"] == Array(xs);
    var endpoint' := Map(endpoint.fields["addrs" := Array(ys)]);
    assert IsEndpoint(endpoint');
    var node' := Map(node.fields["iroh" := endpoint']);
    assert Graft(root, ListingPath(id), Array(ys)) == Map(root.fields[id := node']);
  }

  lemma EditKeepsTransports(xs: seq<Value>, u: Update)
    requires AllTransports(xs) && (u.Drop? || IsTransport(u.entry))
    ensures AllTransports(Edit(xs, u))
  {
    hide IsTransport;
  }

  /** Where the rules hold, an update in bounds by a transport is a fitting
      write: the storage contract and the rule on cluster nodes both admit
      it. */
  lemma WriteFits(s: State, id: string, xs: seq<Value>, u: Update)
    requires RulesHold(s) && Lists(s, id, xs) && InBounds(xs, u) && (u.Drop? || IsTransport(u.entry))
    ensures RulesHold(Written(s, id, u)) && forall prev :: Fitting(s, AsMsg(prev, id, u))
  {
    WriteEdits(s, id, xs, u);
    WriteKeepsRules(s, id, xs, u);
    hide RulesHold;
    hide Lists;
    hide CanCommit;
    hide Committed;
    hide Graft;
    forall prev ensures Fitting(s, AsMsg(prev, id, u)) {
      assert Asked(AsMsg(prev, id, u)) == Some(OpOf(id, u));
    }
  }

  lemma WriteKeepsRules(s: State, id: string, xs: seq<Value>, u: Update)
    requires RulesHold(s) && Lists(s, id, xs) && InBounds(xs, u) && (u.Drop? || IsTransport(u.entry))
    ensures RulesHold(Written(s, id, u))
  {
    var root := s[CLUSTER_NODES_KEY];
    NodesRule(s, root);
    WriteEdits(s, id, xs, u);
    hide RulesHold;
    hide Written;
    hide IsNodeSet;
    hide Graft;
    hide Walk;
    hide IsTransport;
    hide AllTransports;
    hide Edit;
    NoTransports();
    ListingKeepsRule(root, id, xs, []);
    EditKeepsTransports(xs, u);
    ListingKeepsRule(root, id, xs, Edit(xs, u));
    NodesRule(s, Graft(root, ListingPath(id), Array(Edit(xs, u))));
  }

  /** The rule on cluster nodes is that they are a node set, and no other
      rule judges them. */
  lemma NodesRule(s: State, v: Value)
    requires RulesHold(s)
    ensures CLUSTER_NODES_KEY in s ==> IsNodeSet(s[CLUSTER_NODES_KEY])
    ensures IsNodeSet(v) ==> RulesHold(s[CLUSTER_NODES_KEY := v])
  {
    hide IsNodeSet;
    assert CLUSTER_NODES_KEY in s ==> Broken(CLUSTER_NODES_KEY, s[CLUSTER_NODES_KEY]).None?;
  }

  lemma NoTransports()
    ensures AllTransports([])
  {
  }

  /** Afterwards the listing reads as edited, and nothing beside it changed. */
  lemma WriteReads(s: State, id: string, xs: seq<Value>, u: Update)
    requires Lists(s, id, xs) && InBounds(xs, u)
    ensures Lists(Written(s, id, u), id, Edit(xs, u)) && SameBeside(s, id, Written(s, id, u))
  {
    var root, ys := s[CLUSTER_NODES_KEY], Edit(xs, u);
    WriteEdits(s, id, xs, u);
    hide Written;
    hide Edit;
    GraftReads(root, ListingPath(id), Array(ys), []);
    assert ListingPath(id) + [] == ListingPath(id);
    WalkHere(Array(ys));
    hide Graft;
    hide Walk;
    hide Overlaps;
    forall key, path | key != CLUSTER_NODES_KEY || !Overlaps(ListingPath(id), path)
      ensures Read(Written(s, id, u), key, path) == Read(s, key, path)
    {
      if key == CLUSTER_NODES_KEY { GraftFrame(root, ListingPath(id), Array(ys), path); }
    }
  }

  /** Every path that does not meet the listing reads alike. */
  ghost predicate SameBeside(s: State, id: string, s': State) {
    forall key, path :: key != CLUSTER_NODES_KEY || !Overlaps(ListingPath(id), path) ==>
      Read(s', key, path) == Read(s, key, path)
  }

  lemma WalkHere(v: Value)
    ensures Walk(v, []) == Some(v)
  {
  }

  /** Each update in turn is a fitting write in the state the ones before it
      leave, whatever envelopes carry them. */
  ghost predicate AllFit(s: State, id: string, edits: seq<Update>)
    decreases |edits|
  {
    edits == [] ||
    ((forall prev :: Fitting(s, AsMsg(prev, id, edits[0]))) && AllFit(Written(s, id, edits[0]), id, edits[1..]))
  }

  ghost function AllWritten(s: State, id: string, edits: seq<Update>): State
    decreases |edits|
  {
    if edits == [] then s else AllWritten(Written(s, id, edits[0]), id, edits[1..])
  }

  /** A safe run of updates with transports is admitted by the ledger envelope
      by envelope: each is a fitting write where the ones before it leave the
      state. The listing ends as edited, and nothing beside it changed. */
  lemma {:induction false} ScriptAdmitted(s: State, id: string, xs: seq<Value>, edits: seq<Update>, wanted: seq<Value>)
    requires RulesHold(s) && Lists(s, id, xs) && Safe(xs, edits, wanted)
    requires forall u :: u in edits ==> u.Drop? || IsTransport(u.entry)
    ensures AllFit(s, id, edits)
    ensures var s' := AllWritten(s, id, edits);
            RulesHold(s') && Lists(s', id, Edited(xs, edits)) && SameBeside(s, id, s')
    decreases |edits|
  {
    hide RulesHold;
    hide Lists;
    hide Fitting;
    hide Read;
    hide IsTransport;
    hide InBounds;
    hide Edit;
    hide Written;
    hide SameBeside;
    if edits == [] {
      BesideItself(s, id);
    } else {
      var u := edits[0];
      WriteFits(s, id, xs, u);
      WriteReads(s, id, xs, u);
      ScriptAdmitted(Written(s, id, u), id, Edit(xs, u), edits[1..], wanted);
      BesideBoth(s, id, Written(s, id, u), AllWritten(s, id, edits));
    }
  }

  lemma BesideItself(s: State, id: string)
    ensures SameBeside(s, id, s)
  {
  }

  lemma BesideBoth(s: State, id: string, s': State, s'': State)
    requires SameBeside(s, id, s') && SameBeside(s', id, s'')
    ensures SameBeside(s, id, s'')
  {
    hide Read;
    hide Overlaps;
  }
}
