/** The all-in-memory backend: versions by digest, the envelope log, and the
    index of children by parent (crates/storage/src/mem.rs). */
module Storage {
  import opened Wire
  import opened Ledger
  import opened ForkChoice
  import opened Lineage

  /** A log record: the envelope and its time of arrival. */
  datatype LogEntry = LogEntry(envelope: Envelope, storedAt: int)

  type Versions = map<Digest, State>
  type Entries = map<Digest, LogEntry>

  /** All a store holds: versions by digest, and the log. */
  datatype Books = Books(versions: Versions, entries: Entries)

  /** The log as fork choice weighs it. */
  ghost function Weigh(entries: Entries): Log {
    map d | d in entries :: entries[d].envelope.status.Weight()
  }

  /** The log with one more envelope, an earlier arrival time kept. */
  function WithEntry(entries: Entries, digest: Digest, envelope: Envelope, now: int): Entries {
    entries[digest := LogEntry(envelope, if digest in entries then entries[digest].storedAt else now)]
  }

  class MemStorage {
    var versions: Versions
    var envelopes: Entries
    var children: map<Digest, set<Digest>>
    /** What was held after each write: all an interruption between two writes
        can leave behind. */
    ghost var trail: seq<Books>

    /** The children index names exactly the stored envelopes, each under its
        parent, and keeps no empty set. */
    ghost predicate Valid()
      reads this
    {
      && (forall d :: d in envelopes ==> envelopes[d].envelope.digest == d)
      && (forall p, d :: p in children && d in children[p] ==> d in envelopes && d.Prev() == Some(p))
      && (forall d :: d in envelopes && d.Prev().Some? ==>
            d.Prev().value in children && d in children[d.Prev().value])
      && (forall p :: p in children ==> children[p] != {})
    }

    ghost function Log(): Log
      reads this
    {
      Weigh(envelopes)
    }

    constructor ()
      ensures Valid() && versions == map[] && envelopes == map[]
    {
      versions, envelopes, children, trail := map[], map[], map[], [];
    }

    /** The children the log holds of `parent`, whether or not it holds
        `parent` itself. */
    function Children(parent: Digest): (kids: set<Digest>)
      requires Valid()
      reads this
      ensures kids == KidsIn(envelopes.Keys, parent) == Kids(Log(), parent)
    {
      var kids := if parent in children then children[parent] else {};
      assert forall d :: d in kids <==> d in KidsIn(envelopes.Keys, parent);
      assert forall d :: d in kids <==> d in Kids(Log(), parent);
      kids
    }

    function Parent(digest: Digest): Option<Digest>
      reads this
    {
      if digest in envelopes then digest.Prev() else None
    }

    /** Derives the version at `head` from the one at `parent`; every other
        version is left intact. */
    method Commit(parent: Digest, head: Digest, op: NamespaceOp)
      requires parent in versions && CanCommit(versions[parent], op)
      modifies this`versions, this`trail
      ensures versions == old(versions)[head := Committed(old(versions)[parent], op)]
      ensures var before, after := old(versions)[parent], versions[head];
              && (forall key :: key != op.key ==>
                    (key in after <==> key in before) && (key in before ==> after[key] == before[key]))
              && (op.Put? ==> op.key in after && after[op.key] == op.value)
              && (op.Delete? ==> op.key in before && op.key !in after)
      ensures old(Valid()) ==> Valid()
      ensures trail == old(trail) + [Books(versions, envelopes)]
    {
      versions := versions[head := Committed(versions[parent], op)];
      trail := trail + [Books(versions, envelopes)];
    }

    method Install(head: Digest, namespaces: State)
      modifies this`versions, this`trail
      ensures versions == old(versions)[head := namespaces]
      ensures old(Valid()) ==> Valid()
      ensures trail == old(trail) + [Books(versions, envelopes)]
    {
      versions := versions[head := namespaces];
      trail := trail + [Books(versions, envelopes)];
    }

    method Retain(keep: seq<Digest>)
      modifies this`versions, this`trail
      ensures versions == map d | d in old(versions) && d in keep :: old(versions)[d]
      ensures old(Valid()) ==> Valid()
      ensures trail == old(trail) + [Books(versions, envelopes)]
    {
      versions := map d | d in versions && d in keep :: versions[d];
      trail := trail + [Books(versions, envelopes)];
    }

    method PutEnvelope(digest: Digest, envelope: Envelope, now: int)
      requires Valid() && envelope.digest == digest
      modifies this`envelopes, this`children, this`trail
      ensures Valid()
      ensures envelopes == WithEntry(old(envelopes), digest, envelope, now)
      ensures trail == old(trail) + [Books(versions, envelopes)]
    {
      if digest.Prev().Some? {
        var prev := digest.Prev().value;
        children := children[prev := (if prev in children then children[prev] else {}) + {digest}];
      }
      envelopes := WithEntry(envelopes, digest, envelope, now);
      trail := trail + [Books(versions, envelopes)];
    }

    /** Removes an envelope and unindexes it; removing what is not stored is
        a no-op. */
    method RemoveEnvelope(digest: Digest)
      requires Valid()
      modifies this`envelopes, this`children, this`trail
      ensures Valid()
      ensures envelopes == old(envelopes) - {digest}
      ensures trail == old(trail) + [Books(versions, envelopes)]
    {
      if digest in envelopes && digest.Prev().Some? && digest.Prev().value in children {
        var prev := digest.Prev().value;
        var siblings := children[prev] - {digest};
        children := if siblings == {} then children - {prev} else children[prev := siblings];
      }
      envelopes := envelopes - {digest};
      trail := trail + [Books(versions, envelopes)];
    }
  }

  ghost function BooksOf(storage: MemStorage): Books
    reads storage
  {
    Books(storage.versions, storage.envelopes)
  }
}
