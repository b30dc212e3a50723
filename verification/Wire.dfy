/** The values that travel between nodes: values, paths into them, messages,
    and the envelopes that carry messages (crates/wire). */
module Wire {

  datatype Option<+T> = None | Some(value: T)

  datatype Result<+T, +E> = Ok(value: T) | Err(error: E)

  const U32_MAX: int := 0xFFFF_FFFF
  const I64_MIN: int := -0x8000_0000_0000_0000
  const I64_MAX: int := 0x7FFF_FFFF_FFFF_FFFF

  type u32 = x: int | 0 <= x <= U32_MAX
  type i64 = x: int | I64_MIN <= x <= I64_MAX

  /** A key's id: what its public half hashes to, as the hex text the ledger
      files it under. Ids pin the public key they derive from, so a public
      key is represented by its id. */
  type KeyId = string

  /** A trusted key: the id its public half derives to, its weight, and the
      operator's annotations. */
  datatype Key = Key(id: KeyId, weight: u32, metadata: map<string, string>)

  datatype Value =
    | String(text: string)
    | Int(n: i64)
    | Bool(flag: bool)
    | Array(items: seq<Value>)
    | Map(fields: map<string, Value>)
    | KeyLeaf(key: Key)

  datatype Subkey = Field(name: string) | Index(index: u32)

  type Segments = seq<Subkey>

  /** A path into a namespace, never empty. */
  type Path = p: Segments | p != [] witness [Index(0)]

  /** Whether following the shorter path is a start on following the longer. */
  predicate Overlaps(a: Segments, b: Segments) {
    forall i :: 0 <= i < |a| && i < |b| ==> a[i] == b[i]
  }

  /** Whether `b` goes through, or to, where `a` leads. */
  predicate Covers(a: Segments, b: Segments) {
    |a| <= |b| && Overlaps(a, b)
  }

  /** Paths overlap when one starts the other; the covering one does. */
  lemma OverlapExactly(a: Segments, b: Segments)
    ensures Overlaps(a, b) <==> a <= b || b <= a
    ensures Covers(a, b) <==> a <= b
  {
    if Overlaps(a, b) {
      if |a| <= |b| { assert a == b[..|a|]; } else { assert b == a[..|b|]; }
    }
  }

  datatype Match = Match(path: Option<Path>, value: Value)

  /** A conjunction of matches, of at least one. */
  type Predicate = p: seq<Match> | p != [] witness [Match(None, Bool(true))]

  datatype Increment = Increment(delta: i64, min: Option<i64>, max: Option<i64>)

  datatype AmendOp =
    | AppendEntry(entry: Value)
    | IncrementDecrement(inc: Increment)
    | DeleteMatching(condition: Predicate)

  type Name = string

  type State = map<Name, Value>

  datatype Msg =
    | Init(namespaces: State)
    | SetNamespace(prev: Digest, key: Name, value: Value)
    | SetNamespaceKey(prev: Digest, key: Name, path: Path, entry: Option<Value>)
    | AmendNamespaceKey(prev: Digest, key: Name, target: Option<Path>, op: AmendOp)
    | DeleteNamespace(prev: Digest, key: Name)

  /** A signature inside an envelope. The envelope fixes what was signed, so
      all that is left of verification is the keys it verifies under. */
  datatype Signature = Signature(verifiesUnder: set<KeyId>)

  /** The digest of an envelope. A digest pins the content it was taken over
      (payload, signatures and timestamps), so it is modelled as that content
      together with `bits`, its numeric value, which orders digests at forks.
      The content names the parent by its digest, so parents cannot cycle. */
  datatype Digest = Digest(bits: nat, payload: Msg, signatures: map<KeyId, Signature>, timestamps: nat) {
    /** What the envelope builds on; an `Init` builds on nothing. */
    function Prev(): Option<Digest> {
      if payload.Init? then None else Some(payload.prev)
    }
  }

  /** No two digests of the set collide: equal numeric values, equal content. */
  ghost predicate DigestsPin(ds: set<Digest>) {
    forall a, b :: a in ds && b in ds && a.bits == b.bits ==> a == b
  }

  datatype Status = Unchecked | Failed(failing: set<KeyId>) | AllMatched(total: u32) {
    /** The verified signature weight; zero until verification succeeded. */
    function Weight(): u32 {
      if AllMatched? then total else 0
    }
  }

  /** An envelope: its content, pinned by its digest, and the status of its
      signatures, which travels outside the digest. */
  datatype Envelope = Envelope(digest: Digest, status: Status) {
    /** The signer count the thresholds look at. */
    function VerifiedSigners(): u32 {
      if !status.AllMatched? then 0
      else if |digest.signatures| <= U32_MAX then |digest.signatures|
      else U32_MAX
    }
  }

  /** A sum raised to the minimum, then lowered to the maximum, where given. */
  function Clamp(inc: Increment, sum: int): (r: int) {
    var floored := if inc.min.Some? && sum < inc.min.value then inc.min.value else sum;
    if inc.max.Some? && floored > inc.max.value then inc.max.value else floored
  }

  predicate InvertedBounds(inc: Increment) {
    inc.min.Some? && inc.max.Some? && inc.min.value > inc.max.value
  }

  /** The integer `n` becomes under `inc`, computed without leaving `i64`. On
      bounds that are not inverted that is the clamped true sum, whenever the
      clamped true sum fits. */
  function ApplyIncrement(inc: Increment, n: i64): (r: Option<i64>)
    ensures !InvertedBounds(inc) ==> (r.Some? <==> I64_MIN <= Clamp(inc, n + inc.delta) <= I64_MAX)
    ensures !InvertedBounds(inc) && r.Some? ==> r.value == Clamp(inc, n + inc.delta)
    ensures (inc.min.Some? && inc.max.Some? ==> inc.min.value <= inc.max.value) ==>
              var sum := n + inc.delta;
              if inc.min.Some? && sum < inc.min.value then r == inc.min
              else if inc.max.Some? && sum > inc.max.value then r == inc.max
              else if I64_MIN <= sum <= I64_MAX then r == Some(sum)
              else r == None
  {
    var sum := n + inc.delta;
    if I64_MIN <= sum <= I64_MAX then
      var floored := if inc.min.Some? && sum < inc.min.value then inc.min.value else sum;
      Some(if inc.max.Some? && floored > inc.max.value then inc.max.value else floored)
    else if inc.delta > 0 then inc.max
    else inc.min
  }
}
