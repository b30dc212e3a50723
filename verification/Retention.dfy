/** The retention policy: how much of the canonical path may go
    (crates/lotusd/src/core.rs, `choose_cut`). */
module Retention {
  import opened Wire

  /** An envelope of the canonical path, with when this node stored it. */
  datatype Held = Held(digest: Digest, storedAt: int)

  predicate WalkedPast(path: seq<Held>, i: nat, digest: Digest)
    requires i <= |path|
  {
    exists j :: 0 <= j < i && path[j].digest == digest
  }

  /** What holds on to the `i`th newest envelope: the count, its age, or a pin
      that lies no newer. */
  ghost predicate Keeps(path: seq<Held>, keep: nat, cutoff: int, pinned: set<Digest>, i: nat)
    requires i < |path|
  {
    i < keep || path[i].storedAt >= cutoff || exists pin :: pin in pinned && !WalkedPast(path, i, pin)
  }

  /** `index` is the first envelope, newest first, that nothing keeps. */
  ghost predicate FirstLoose(path: seq<Held>, keep: nat, cutoff: int, pinned: set<Digest>, index: nat) {
    && index < |path| && !Keeps(path, keep, cutoff, pinned, index)
    && forall j: nat :: j < index ==> Keeps(path, keep, cutoff, pinned, j)
  }

  /** Where to cut, as a place on the path, and how many envelopes lie past
      it; nothing where everything is held. Without a cutoff all is held. */
  method ChooseCut(path: seq<Held>, keep: nat, cutoff: Option<int>, pinned: set<Digest>) returns (r: Option<(nat, nat)>)
    requires keep >= 1
    ensures r.None? <==>
            cutoff.None? || forall i: nat :: i < |path| ==> Keeps(path, keep, cutoff.value, pinned, i)
    ensures r.Some? ==>
              && 0 <= r.value.0 < |path| - 1
              && FirstLoose(path, keep, cutoff.value, pinned, r.value.0 + 1)
              && r.value.1 == |path| - (r.value.0 + 1)
  {
    if cutoff.None? {
      return None;
    }
    var unseen := pinned;
    for index := 0 to |path|
      invariant forall pin :: pin in unseen <==> pin in pinned && !WalkedPast(path, index, pin)
      invariant forall j: nat :: j < index ==> Keeps(path, keep, cutoff.value, pinned, j)
    {
      var pins := path[index].digest in unseen;
      ghost var before := unseen;
      unseen := unseen - {path[index].digest};
      assert pins || unseen != {} <==> before != {};
      assert before != {} <==> exists pin :: pin in pinned && !WalkedPast(path, index, pin);
      forall pin | pin in pinned
        ensures WalkedPast(path, index + 1, pin) <==> WalkedPast(path, index, pin) || pin == path[index].digest
      {
        if pin == path[index].digest { assert path[index].digest == pin; }
      }
      if pins || unseen != {} || index < keep || path[index].storedAt >= cutoff.value {
        continue;
      }
      assert !Keeps(path, keep, cutoff.value, pinned, index);
      return Some((index - 1, |path| - index));
    }
    return None;
  }

  /** If nothing older on the path arrived later than something newer, there
      is no gap: behind the first loose envelope all are loose. */
  lemma LooseFromThere(path: seq<Held>, keep: nat, cutoff: int, pinned: set<Digest>, index: nat, i: nat)
    requires FirstLoose(path, keep, cutoff, pinned, index) && index <= i < |path|
    requires forall j, k :: 0 <= j <= k < |path| ==> path[k].storedAt <= path[j].storedAt
    ensures !Keeps(path, keep, cutoff, pinned, i)
  {
    forall pin | pin in pinned ensures WalkedPast(path, i, pin) {
      assert WalkedPast(path, index, pin);
    }
  }

  /** Every pin is at the cut or newer. */
  lemma PinsKept(path: seq<Held>, keep: nat, cutoff: int, pinned: set<Digest>, index: nat, pin: Digest)
    requires FirstLoose(path, keep, cutoff, pinned, index) && pin in pinned
    ensures exists j :: 0 <= j < index && path[j].digest == pin
  {
    assert WalkedPast(path, index, pin);
  }

  /** The newest `keep` are never loose. */
  lemma LoosePastKeep(path: seq<Held>, keep: nat, cutoff: int, pinned: set<Digest>, index: nat)
    requires FirstLoose(path, keep, cutoff, pinned, index)
    ensures keep <= index < |path|
  {
  }

  /** Where the newest loose envelope lies: past the newest `keep`, stored
      before the cutoff, with every pin strictly newer; and each one newer than
      it falls short of one of these. */
  lemma LooseExactly(path: seq<Held>, keep: nat, cutoff: int, pinned: set<Digest>, index: nat)
    ensures FirstLoose(path, keep, cutoff, pinned, index) <==>
            && keep <= index < |path| && path[index].storedAt < cutoff
            && (forall pin :: pin in pinned ==> exists j :: 0 <= j < index && path[j].digest == pin)
            && forall i: nat :: i < index ==>
                 || i < keep || path[i].storedAt >= cutoff
                 || exists pin :: pin in pinned && forall j :: 0 <= j < i ==> path[j].digest != pin
  {
    forall i: nat | i < |path|
      ensures Keeps(path, keep, cutoff, pinned, i) <==>
              || i < keep || path[i].storedAt >= cutoff
              || exists pin :: pin in pinned && forall j :: 0 <= j < i ==> path[j].digest != pin
    {
      KeptExactly(path, keep, cutoff, pinned, i);
    }
  }

  lemma KeptExactly(path: seq<Held>, keep: nat, cutoff: int, pinned: set<Digest>, i: nat)
    requires i < |path|
    ensures Keeps(path, keep, cutoff, pinned, i) <==>
            || i < keep || path[i].storedAt >= cutoff
            || exists pin :: pin in pinned && forall j :: 0 <= j < i ==> path[j].digest != pin
  {
    forall pin ensures WalkedPast(path, i, pin) <==> !forall j :: 0 <= j < i ==> path[j].digest != pin {
    }
  }

  /** With arrival times falling along the path, all that was stored at or
      after the cutoff is newer than the newest loose envelope. */
  lemma RecentIsNewer(path: seq<Held>, keep: nat, cutoff: int, pinned: set<Digest>, index: nat, i: nat)
    requires FirstLoose(path, keep, cutoff, pinned, index) && i < |path| && path[i].storedAt >= cutoff
    requires forall j, k :: 0 <= j <= k < |path| ==> path[k].storedAt <= path[j].storedAt
    ensures i < index
  {
    LooseExactly(path, keep, cutoff, pinned, index);
  }
}
