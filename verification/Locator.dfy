/** Finding where two canonical paths part: one side offers samples of its
    path, ever further apart, and the other picks among them
    (crates/sync/src/locator.rs). */
module Locator {
  import opened Wire
  import opened Lineage
  import opened Storage
  import opened Differ

  const MAX_LOCATOR_LEN: nat := 64

  function Pow2(k: nat): (p: nat)
    ensures p >= 1
  {
    if k == 0 then 1 else 2 * Pow2(k - 1)
  }

  lemma {:induction false} Pow2Grows(j: nat, k: nat)
    requires j < k
    ensures Pow2(j) < Pow2(k)
    decreases k
  {
    if j == k - 1 {
    } else {
      Pow2Grows(j, k - 1);
    }
  }

  /** The distances behind the head at which samples are taken. */
  predicate Sampled(offset: nat) {
    offset == 0 || IsPowerOfTwo(offset)
  }

  predicate IsPowerOfTwo(n: nat) {
    n == 1 || (n > 1 && n % 2 == 0 && IsPowerOfTwo(n / 2))
  }

  lemma {:induction false} PowersOfTwo(k: nat)
    ensures IsPowerOfTwo(Pow2(k))
  {
    if k == 0 {
    } else {
      PowersOfTwo(k - 1);
    }
  }

  lemma {:induction false} PowerIsSome(n: nat) returns (k: nat)
    requires IsPowerOfTwo(n)
    ensures n == Pow2(k)
  {
    if n == 1 {
      k := 0;
    } else {
      k := PowerIsSome(n / 2);
      k := k + 1;
    }
  }

  /** Between two powers of two lies none. */
  lemma NextPower(k: nat, n: nat)
    requires n <= Pow2(k) && (k > 0 ==> Pow2(k - 1) < n) && (k == 0 ==> n >= 1)
    ensures IsPowerOfTwo(n) <==> n == Pow2(k)
  {
    PowersOfTwo(k);
    if IsPowerOfTwo(n) {
      var j := PowerIsSome(n);
      if j > k { Pow2Grows(k, j); }
      if j < k && j < k - 1 { Pow2Grows(j, k - 1); }
    }
  }

  /** The last digest a climb names. */
  ghost predicate IsOldest(keys: set<Digest>, head: Digest, d: Digest) {
    d in Named(keys, head) && (d !in keys || d.Prev().None?)
  }

  /** Some power of two lies between a distance and its double. */
  lemma {:induction false} PowerWithin(n: nat) returns (k: nat)
    requires n >= 1
    ensures n <= Pow2(k) <= 2 * n
  {
    if n == 1 {
      k := 0;
    } else {
      k := PowerWithin(n - 1);
      if Pow2(k) < n { k := k + 1; }
    }
  }

  function Offset(i: nat): nat { if i == 0 then 0 else Pow2(i - 1) }

  /** `s` is no newer than `d` and at most twice as far behind the head. */
  predicate Near(head: Digest, d: Digest, s: Digest) {
    Distance(head, d) <= Distance(head, s) <= 2 * Distance(head, d)
  }

  /** `samples` holds, for every digest on the walk, one at least as old but
      at most twice as far behind the head. */
  ghost predicate Reaches(walk: set<Digest>, head: Digest, samples: seq<Digest>) {
    forall d :: d in walk ==> exists s :: s in samples && Near(head, d, s)
  }

  lemma WideningReaches(keys: set<Digest>, head: Digest, samples: seq<Digest>, k: nat, oldest: Digest)
    requires k < |samples| && oldest in samples && IsOldest(keys, head, oldest) && Distance(head, oldest) < Pow2(k)
    requires forall i: nat :: i <= k ==> Distance(head, samples[i]) == Offset(i)
    ensures Reaches(Named(keys, head), head, samples)
  {
    hide Named;
    hide Pow2;
    hide Height;
    EndsAt(keys, head, oldest);
    forall d | d in Named(keys, head)
      ensures exists s :: s in samples && Near(head, d, s)
    {
      NamedAncestors(keys, d, head);
      AncestorHeight(d, head);
      if Distance(head, d) == 0 {
        assert samples[0] in samples && Near(head, d, samples[0]);
      } else {
        var j := PowerWithin(Distance(head, d));
        if j < k {
          assert samples[j + 1] in samples && Near(head, d, samples[j + 1]);
        } else {
          if k < j { Pow2Grows(k, j); }
          assert oldest in samples && Near(head, d, oldest);
        }
      }
    }
  }

  /** A sampling walk that has come `offset` steps down to `at`: one sample at
      each place passed, the last at the greatest power of two. */
  ghost predicate Sampling(keys: set<Digest>, head: Digest, samples: seq<Digest>, at: Digest, offset: nat) {
    && samples != [] && samples[0] == head
    && at in Named(keys, head) && Distance(head, at) == offset
    && (forall i: nat :: i < |samples| ==> samples[i] in Named(keys, head) && Distance(head, samples[i]) == Offset(i))
    && Offset(|samples| - 1) <= offset < Offset(|samples|)
    && (Sampled(offset) ==> samples[|samples| - 1] == at)
  }

  lemma SamplingStarts(keys: set<Digest>, head: Digest)
    ensures Sampling(keys, head, [head], head, 0)
  {
  }

  lemma SamplingSteps(keys: set<Digest>, head: Digest, samples: seq<Digest>, at: Digest, offset: nat)
    requires Sampling(keys, head, samples, at, offset) && at in keys && at.Prev().Some?
    ensures var next := at.Prev().value;
            Sampling(keys, head, if Sampled(offset + 1) then samples + [next] else samples, next, offset + 1)
  {
    hide Named;
    hide IsPowerOfTwo;
    NextDown(keys, head, at);
    NextPower(|samples| - 1, offset + 1);
  }

  /** How far back a path may reach for its locator to fit. */
  ghost predicate FitsLocator(steps: nat) {
    steps <= Pow2(MAX_LOCATOR_LEN - 2)
  }

  lemma SamplingDone(keys: set<Digest>, head: Digest, samples: seq<Digest>, at: Digest, offset: nat)
    requires Sampling(keys, head, samples, at, offset) && (at !in keys || at.Prev().None?)
    ensures var all := if Sampled(offset) then samples else samples + [at];
            && IsOldest(keys, head, all[|all| - 1]) && Reaches(Named(keys, head), head, all)
            && (forall s :: s in all ==> s in Named(keys, head))
  {
    hide Named;
    hide Sampled;
    hide Reaches;
    hide Pow2;
    hide Distance;
    hide Height;
    var all := if Sampled(offset) then samples else samples + [at];
    forall i: nat | i < |samples| ensures Distance(head, all[i]) == Offset(i) && all[i] in Named(keys, head) {
      assert all[i] == samples[i];
    }
    assert all[|all| - 1] == at;
    WideningReaches(keys, head, all, |samples| - 1, at);
  }

  /** Up to 2^n steps pass at most n + 1 powers of two, the last of them only
      by ending on it. */
  lemma LocatorFits(n: nat, len: nat, offset: nat)
    requires offset <= Pow2(n) && 1 <= len && Offset(len - 1) <= offset
    ensures len <= n + 2 && (len == n + 2 ==> Sampled(offset))
  {
    hide IsPowerOfTwo;
    PowersOfTwo(n);
    if len > n + 2 { Pow2Grows(n, len - 2); }
  }

  lemma PowerOf62()
    ensures Pow2(MAX_LOCATOR_LEN - 2) == 0x4000_0000_0000_0000 && MAX_LOCATOR_LEN == 64
  {
    assert Pow2(8) == 256;
    assert Pow2(16) == 0x1_0000;
    assert Pow2(24) == 0x100_0000;
    assert Pow2(32) == 0x1_0000_0000;
    assert Pow2(40) == 0x100_0000_0000;
    assert Pow2(48) == 0x1_0000_0000_0000;
    assert Pow2(56) == 0x100_0000_0000_0000;
    assert Pow2(62) == 64 * Pow2(56);
  }

  /** The canonical path behind `head` sampled at the head, at every power of
      two behind it, and at the end: the head comes first, every digest on the path has
      a sample no newer at most twice as far back, and a path of up to 2^62
      steps fits the length a locator may have. */
  method Sample(storage: MemStorage, head: Digest) returns (samples: seq<Digest>)
    ensures samples != [] && samples[0] == head
    ensures forall s :: s in samples ==> s in Named(storage.envelopes.Keys, head)
    ensures IsOldest(storage.envelopes.Keys, head, samples[|samples| - 1])
    ensures Reaches(Named(storage.envelopes.Keys, head), head, samples)
    ensures FitsLocator(Height(head)) ==> |samples| <= MAX_LOCATOR_LEN
    ensures Height(head) <= 0x4000_0000_0000_0000 ==> |samples| <= 64
    ensures var last := samples[|samples| - 1]; last !in storage.envelopes || last.Prev().None?
  {
    hide Sampling;
    hide Sampled;
    hide Pow2;
    hide Height;
    hide IsOldest;
    hide Named;
    hide Reaches;
    hide FitsLocator;
    ghost var keys := storage.envelopes.Keys;
    samples := [head];
    var at, offset := head, 0;
    SamplingStarts(keys, head);
    while at in storage.envelopes && at.Prev().Some?
      invariant Sampling(keys, head, samples, at, offset)
      decreases at
    {
      SamplingSteps(keys, head, samples, at, offset);
      offset, at := offset + 1, storage.Parent(at).value;
      if Sampled(offset) {
        samples := samples + [at];
      }
    }
    SamplingBounds(keys, head, samples, at, offset);
    SamplingDone(keys, head, samples, at, offset);
    if !Sampled(offset) {
      samples := samples + [at];
    }
    SampleReads(keys, head, samples);
  }

  lemma SampleReads(keys: set<Digest>, head: Digest, samples: seq<Digest>)
    requires samples != [] && IsOldest(keys, head, samples[|samples| - 1])
    ensures var last := samples[|samples| - 1]; last !in keys || last.Prev().None?
    ensures Height(head) <= 0x4000_0000_0000_0000 ==> FitsLocator(Height(head))
  {
    PowerOf62();
    hide Pow2;
  }

  /** Near every digest of a walk means a sample no newer and at most twice as
      far back. */
  lemma ReachesExactly(walk: set<Digest>, head: Digest, samples: seq<Digest>)
    ensures Reaches(walk, head, samples) <==>
            forall d :: d in walk ==>
              exists s :: s in samples &&
                Height(head) - Height(d) <= Height(head) - Height(s) <= 2 * (Height(head) - Height(d))
  {
    hide Height;
    assert forall d, s :: Near(head, d, s) <==>
                          Height(head) - Height(d) <= Height(head) - Height(s) <= 2 * (Height(head) - Height(d));
  }

  lemma SamplingBounds(keys: set<Digest>, head: Digest, samples: seq<Digest>, at: Digest, offset: nat)
    requires Sampling(keys, head, samples, at, offset)
    ensures samples != [] && samples[0] == head
    ensures FitsLocator(Height(head)) ==>
              |if Sampled(offset) then samples else samples + [at]| <= MAX_LOCATOR_LEN
  {
    hide IsPowerOfTwo;
    hide Named;
    hide Pow2;
    var n: nat :| n == MAX_LOCATOR_LEN - 2;
    if FitsLocator(Height(head)) { LocatorFits(n, |samples|, offset); }
  }

  /** The newest offered digest on this node's path: everything else offered
      that the path names is older. */
  method Split(offered: seq<Digest>, storage: MemStorage, head: Digest) returns (split: Option<Digest>)
    ensures split.Some? <==> exists d :: d in offered && d in Named(storage.envelopes.Keys, head)
    ensures split.Some? ==> split.value in offered && split.value in Named(storage.envelopes.Keys, head)
    ensures split.Some? ==>
              forall d :: d in offered && d in Named(storage.envelopes.Keys, head) ==> IsAncestor(d, split.value)
  {
    ghost var keys := storage.envelopes.Keys;
    var at := head;
    while at !in offered
      invariant at in Named(keys, head)
      invariant forall d :: d in offered && d in Named(keys, head) ==> d in Named(keys, at)
      decreases at
    {
      var parent := storage.Parent(at);
      if parent.None? {
        return None;
      }
      StepDown(keys, head, at);
      at := parent.value;
    }
    forall d | d in Named(keys, at) ensures IsAncestor(d, at) { NamedAncestors(keys, d, at); }
    return Some(at);
  }

  lemma StepDown(keys: set<Digest>, head: Digest, at: Digest)
    requires at in Named(keys, head) && at in keys && at.Prev().Some?
    ensures at.Prev().value in Named(keys, head)
  {
    NextDown(keys, head, at);
  }
}
