/** What an envelope means: the state transition and its validation
    (crates/state/src/ledger.rs), over the namespace writes of
    crates/storage/src/lib.rs. */
module Ledger {
  import opened Wire
  import opened ValueTree

  // ---------------------------------------------------------------------
  // Writes to one namespace

  datatype NamespaceOp =
    | Put(key: Name, value: Value)
    | Delete(key: Name)
    | SetOp(key: Name, path: Path, entry: Option<Value>)
    | AmendAtOp(key: Name, target: Option<Path>, op: AmendOp)

  function SegmentsOf(path: Option<Path>): Segments {
    if path.Some? then path.value else []
  }

  /** What a backend takes for granted about an op on a version. */
  predicate CanCommit(s: State, op: NamespaceOp) {
    match op
    case Put(_, _) => true
    case Delete(key) => key in s
    case SetOp(key, path, entry) => key in s && CanSet(s[key], path, entry)
    case AmendAtOp(key, target, amend) => key in s && CanAmend(s[key], SegmentsOf(target), amend)
  }

  /** The version an op derives, its parent left intact. */
  function Committed(s: State, op: NamespaceOp): State
    requires CanCommit(s, op)
  {
    match op
    case Put(key, value) => s[key := value]
    case Delete(key) => s - {key}
    case SetOp(key, path, entry) => s[key := SetAt(s[key], path, entry)]
    case AmendAtOp(key, target, amend) => s[key := AmendAt(s[key], SegmentsOf(target), amend)]
  }

  /** What a reader of a path in a version gets. */
  function Read(s: State, key: Name, path: Segments): Option<Value> {
    if key in s then Walk(s[key], path) else None
  }

  // ---------------------------------------------------------------------
  // Errors and the reserved namespaces

  datatype ValueError = MinKeepMinutes | MinEnvelopeWeight | MinEnvelopeSignatures | TrustedKeySet | ClusterNodeSet

  datatype ApplyError =
    | UnexpectedInit
    | ChainMismatch(expected: Digest, named: Digest)
    | UnknownNamespace(key: Name)
    | UnknownPath(key: Name, path: Path)
    | PathTypeMismatch(key: Name, path: Path)
    | AmendTypeMismatch(key: Name, target: Option<Path>)
    | Overflow(key: Name, target: Option<Path>)
    | InvalidBounds(key: Name, target: Option<Path>)
    | InvalidValue(key: Name, reason: ValueError)
    | InsufficientWeight(required: u32, found: u32)
    | InsufficientSignatures(required: u32, found: u32)
    | InvalidSignatures(failing: set<KeyId>)

  const MIN_KEEP_MINUTES_KEY: Name := "_lotus_min_keep_minutes"
  const MIN_ENVELOPE_WEIGHT_KEY: Name := "_lotus_min_envelope_weight"
  const MIN_ENVELOPE_SIGNATURES_KEY: Name := "_lotus_min_envelope_signatures"
  const TRUSTED_KEYS_KEY: Name := "_lotus_trusted_keys"
  const CLUSTER_NODES_KEY: Name := "_lotus_nodes"

  /** What a threshold namespace may hold. */
  predicate IsThreshold(v: Value) {
    v.Int? && 0 <= v.n <= U32_MAX
  }

  /** What the namespace of trusted keys may hold: keys, each under its id. */
  predicate IsKeySet(v: Value) {
    v.Map? && forall id :: id in v.fields ==> v.fields[id].KeyLeaf? && v.fields[id].key.id == id
  }

  predicate HasText(v: Value, field: string) {
    v.Map? && field in v.fields && v.fields[field].String?
  }

  /** The spelling `KeyId::to_hex` writes. */
  predicate IsHexId(id: string) {
    |id| == 64 && forall i :: 0 <= i < |id| ==> '0' <= id[i] <= '9' || 'a' <= id[i] <= 'f'
  }

  predicate IsEndpoint(v: Value) {
    && HasText(v, "endpoint_id")
    && "addrs" in v.fields && v.fields["addrs"].Array?
    && forall a :: a in v.fields["addrs"].items ==> HasText(a, "type") && HasText(a, "addr")
  }

  predicate IsNode(id: string, v: Value) {
    IsHexId(id) && v.Map? && "iroh" in v.fields && IsEndpoint(v.fields["iroh"])
  }

  predicate IsNodeSet(v: Value) {
    v.Map? && forall id :: id in v.fields ==> IsNode(id, v.fields[id])
  }

  /** Whether a namespace is reserved and so restricted in its values. */
  predicate HasRule(key: Name) {
    key in {MIN_KEEP_MINUTES_KEY, MIN_ENVELOPE_WEIGHT_KEY, MIN_ENVELOPE_SIGNATURES_KEY, TRUSTED_KEYS_KEY,
            CLUSTER_NODES_KEY}
  }

  function Broken(key: Name, v: Value): Option<ValueError> {
    if key == MIN_KEEP_MINUTES_KEY then (if IsThreshold(v) && v.n > 0 then None else Some(MinKeepMinutes))
    else if key == MIN_ENVELOPE_WEIGHT_KEY then (if IsThreshold(v) then None else Some(MinEnvelopeWeight))
    else if key == MIN_ENVELOPE_SIGNATURES_KEY then (if IsThreshold(v) then None else Some(MinEnvelopeSignatures))
    else if key == TRUSTED_KEYS_KEY then (if IsKeySet(v) then None else Some(TrustedKeySet))
    else if key == CLUSTER_NODES_KEY then (if IsNodeSet(v) then None else Some(ClusterNodeSet))
    else None
  }

  /** Every namespace of a version satisfies its rule. */
  predicate RulesHold(s: State) {
    forall key :: key in s ==> Broken(key, s[key]).None?
  }

  // ---------------------------------------------------------------------
  // Reading the configuration

  function TrustedKeys(s: State): Result<map<KeyId, Key>, ApplyError> {
    if TRUSTED_KEYS_KEY !in s then Ok(map[])
    else var v := s[TRUSTED_KEYS_KEY];
      if IsKeySet(v) then Ok(map id | id in v.fields :: v.fields[id].key)
      else Err(InvalidValue(TRUSTED_KEYS_KEY, TrustedKeySet))
  }

  function Threshold(s: State, key: Name, reason: ValueError): Result<u32, ApplyError> {
    if key !in s then Ok(0)
    else if IsThreshold(s[key]) then Ok(s[key].n)
    else Err(InvalidValue(key, reason))
  }

  /** What a reserved namespace may hold, and the error for anything else. */
  lemma RuleExactly(key: Name, v: Value)
    ensures Broken(key, v).None? <==>
            && (key == "_lotus_min_keep_minutes" ==> v.Int? && 0 < v.n <= 0xFFFF_FFFF)
            && (key == "_lotus_min_envelope_weight" ==> v.Int? && 0 <= v.n <= 0xFFFF_FFFF)
            && (key == "_lotus_min_envelope_signatures" ==> v.Int? && 0 <= v.n <= 0xFFFF_FFFF)
            && (key == "_lotus_trusted_keys" ==>
                  v.Map? && forall id :: id in v.fields ==> v.fields[id].KeyLeaf? && v.fields[id].key.id == id)
            && (key == "_lotus_nodes" ==> v.Map? && forall id :: id in v.fields ==> IsNode(id, v.fields[id]))
    ensures Broken(key, v).Some? ==>
              Broken(key, v).value ==
              if key == "_lotus_min_keep_minutes" then MinKeepMinutes
              else if key == "_lotus_min_envelope_weight" then MinEnvelopeWeight
              else if key == "_lotus_min_envelope_signatures" then MinEnvelopeSignatures
              else if key == "_lotus_trusted_keys" then TrustedKeySet
              else ClusterNodeSet
  {
  }

  /** A cluster node: filed under a key id in lower-case hex, with an endpoint
      id and transports that each have a type and an address, all text. */
  lemma NodeExactly(id: string, v: Value)
    ensures IsNode(id, v) <==>
            && |id| == 64 && (forall i :: 0 <= i < |id| ==> id[i] in "0123456789abcdef")
            && v.Map? && "iroh" in v.fields && v.fields["iroh"].Map?
            && var endpoint := v.fields["iroh"].fields;
               && "endpoint_id" in endpoint && endpoint["endpoint_id"].String?
               && "addrs" in endpoint && endpoint["addrs"].Array?
               && forall a :: a in endpoint["addrs"].items ==>
                    && a.Map? && "type" in a.fields && a.fields["type"].String?
                    && "addr" in a.fields && a.fields["addr"].String?
  {
    forall c: char ensures c in "0123456789abcdef" <==> '0' <= c <= '9' || 'a' <= c <= 'f' { HexDigit(c); }
    if v.Map? && "iroh" in v.fields && v.fields["iroh"].Map? {
      var endpoint := v.fields["iroh"].fields;
      if "addrs" in endpoint && endpoint["addrs"].Array? {
        assert forall a :: a in endpoint["addrs"].items ==>
            (HasText(a, "type") && HasText(a, "addr") <==>
               && a.Map? && "type" in a.fields && a.fields["type"].String?
               && "addr" in a.fields && a.fields["addr"].String?);
      }
    }
  }

  lemma HexDigit(c: char)
    ensures c in "0123456789abcdef" <==> '0' <= c <= '9' || 'a' <= c <= 'f'
  {
    var digits := "0123456789abcdef";
    assert digits[0] == '0' && digits[1] == '1' && digits[2] == '2' && digits[3] == '3' && digits[4] == '4';
    assert digits[5] == '5' && digits[6] == '6' && digits[7] == '7' && digits[8] == '8' && digits[9] == '9';
    assert digits[10] == 'a' && digits[11] == 'b' && digits[12] == 'c' && digits[13] == 'd' && digits[14] == 'e';
    assert digits[15] == 'f';
  }

  /** Where every rule holds, the configuration reads as it is written. */
  lemma ConfigReads(s: State)
    requires RulesHold(s)
    ensures TrustedKeys(s).Ok?
    ensures forall id :: id in TrustedKeys(s).value <==>
              TRUSTED_KEYS_KEY in s && s[TRUSTED_KEYS_KEY].Map? && id in s[TRUSTED_KEYS_KEY].fields
    ensures forall id :: id in TrustedKeys(s).value ==>
              s[TRUSTED_KEYS_KEY].fields[id] == KeyLeaf(TrustedKeys(s).value[id])
    ensures Threshold(s, MIN_ENVELOPE_WEIGHT_KEY, MinEnvelopeWeight).Ok?
    ensures Threshold(s, MIN_ENVELOPE_SIGNATURES_KEY, MinEnvelopeSignatures).Ok?
  {
    assert TRUSTED_KEYS_KEY in s ==> Broken(TRUSTED_KEYS_KEY, s[TRUSTED_KEYS_KEY]).None?;
    assert MIN_ENVELOPE_WEIGHT_KEY in s ==> Broken(MIN_ENVELOPE_WEIGHT_KEY, s[MIN_ENVELOPE_WEIGHT_KEY]).None?;
    assert MIN_ENVELOPE_SIGNATURES_KEY in s ==>
      Broken(MIN_ENVELOPE_SIGNATURES_KEY, s[MIN_ENVELOPE_SIGNATURES_KEY]).None?;
  }

  // ---------------------------------------------------------------------
  // Signatures

  predicate Verifies(keys: map<KeyId, Key>, id: KeyId, signature: Signature) {
    id in keys && keys[id].id in signature.verifiesUnder
  }

  function FailingSigners(keys: map<KeyId, Key>, d: Digest): set<KeyId> {
    set id | id in d.signatures && !Verifies(keys, id, d.signatures[id])
  }

  /** The summed weight of the signers a key set holds. */
  ghost function TotalWeight(keys: map<KeyId, Key>, signers: set<KeyId>): nat {
    if signers == {} then 0
    else
      var id :| id in signers;
      (if id in keys then keys[id].weight else 0) + TotalWeight(keys, signers - {id})
  }

  lemma {:induction false} TotalWeightOf(keys: map<KeyId, Key>, signers: set<KeyId>, id: KeyId)
    requires id in signers
    ensures TotalWeight(keys, signers) ==
            (if id in keys then keys[id].weight else 0) + TotalWeight(keys, signers - {id})
    decreases signers
  {
    var first :| first in signers && TotalWeight(keys, signers) ==
      (if first in keys then keys[first].weight else 0) + TotalWeight(keys, signers - {first});
    if first == id {
    } else {
      TotalWeightOf(keys, signers - {first}, id);
      TotalWeightOf(keys, signers - {id}, first);
      assert signers - {first} - {id} == signers - {id} - {first};
    }
  }

  /** A running sum over the signers, one by one. */
  ghost predicate Tallies(keys: map<KeyId, Key>, order: seq<KeyId>, sums: seq<nat>) {
    && |sums| == |order| + 1 && sums[0] == 0
    && (forall i, j :: 0 <= i < j < |order| ==> order[i] != order[j])
    && forall i :: 0 <= i < |order| ==>
         sums[i + 1] == sums[i] + if order[i] in keys then keys[order[i]].weight else 0
  }

  lemma {:induction false} TallyOf(keys: map<KeyId, Key>, signers: set<KeyId>)
    ensures exists order: seq<KeyId>, sums: seq<nat> ::
              && Tallies(keys, order, sums) && sums[|order|] == TotalWeight(keys, signers)
              && forall id :: id in order <==> id in signers
    decreases signers
  {
    if signers == {} {
      assert Tallies(keys, [], [0]);
    } else {
      var id :| id in signers;
      TotalWeightOf(keys, signers, id);
      TallyOf(keys, signers - {id});
      var first: seq<KeyId>, upTo: seq<nat> :|
        && Tallies(keys, first, upTo) && upTo[|first|] == TotalWeight(keys, signers - {id})
        && forall id' :: id' in first <==> id' in signers - {id};
      var total := TotalWeight(keys, signers);
      hide TotalWeight;
      assert id !in first;
      assert Tallies(keys, first + [id], upTo + [total]);
    }
  }

  /** The sum runs over every signer once, each at its key's weight. */
  lemma WeightSums(keys: map<KeyId, Key>, signers: set<KeyId>)
    ensures exists order: seq<KeyId>, sums: seq<nat> ::
              && |sums| == |order| + 1 && sums[0] == 0 && sums[|order|] == TotalWeight(keys, signers)
              && (forall id :: id in order <==> id in signers)
              && (forall i, j :: 0 <= i < j < |order| ==> order[i] != order[j])
              && forall i :: 0 <= i < |order| ==>
                   sums[i + 1] == sums[i] + if order[i] in keys then keys[order[i]].weight else 0
  {
    TallyOf(keys, signers);
    hide TotalWeight;
  }

  function Saturate(n: nat): u32 {
    if n <= U32_MAX then n else U32_MAX
  }

  /** The status `d`'s signatures earn against the state `s` of a ledger
      standing at `head`: its parent, or for an `Init` the envelope itself. */
  ghost function Verify(s: State, head: Digest, d: Digest): Result<Status, ApplyError> {
    var parent := if d.Prev().Some? then d.Prev().value else d;
    if parent != head then Err(ChainMismatch(head, parent))
    else if d.signatures == map[] then Ok(AllMatched(0))
    else match TrustedKeys(s)
      case Err(e) => Err(e)
      case Ok(keys) =>
        if FailingSigners(keys, d) != {} then Ok(Failed(FailingSigners(keys, d)))
        else Ok(AllMatched(Saturate(TotalWeight(keys, d.signatures.Keys))))
  }

  /** The verdict on signatures: failed by exactly the signers that the state
      does not trust or whose signature does not verify under their key, if
      there is one, and else matched at the saturated sum of their weights. */
  lemma StatusExactly(s: State, head: Digest, d: Digest)
    requires RulesHold(s) && (if d.Prev().Some? then d.Prev().value else d) == head
    ensures Verify(s, head, d).Ok? && !Verify(s, head, d).value.Unchecked?
    ensures var status, keys := Verify(s, head, d).value, TrustedKeys(s).value;
            && (status.Failed? <==>
                  exists id :: id in d.signatures &&
                    !(id in keys && keys[id].id in d.signatures[id].verifiesUnder))
            && (status.Failed? ==>
                  forall id :: id in status.failing <==>
                    id in d.signatures && !(id in keys && keys[id].id in d.signatures[id].verifiesUnder))
            && (status.AllMatched? ==>
                  var sum := TotalWeight(keys, d.signatures.Keys);
                  status.total == if sum <= 0xFFFF_FFFF then sum else 0xFFFF_FFFF)
  {
    ConfigReads(s);
    var keys := TrustedKeys(s).value;
    if d.signatures == map[] {
      assert d.signatures.Keys == {};
    } else if id :| id in d.signatures && !(id in keys && keys[id].id in d.signatures[id].verifiesUnder) {
      assert id in FailingSigners(keys, d);
    } else {
      assert FailingSigners(keys, d) == {};
    }
  }

  /** Verifies an envelope signer by signer. */
  method VerifyEnvelope(s: State, head: Digest, d: Digest) returns (r: Result<Status, ApplyError>)
    ensures r == Verify(s, head, d)
    ensures var parent := if d.Prev().Some? then d.Prev().value else d;
            parent != head ==> r == Err(ChainMismatch(head, parent))
    ensures RulesHold(s) && (if d.Prev().Some? then d.Prev().value else d) == head ==>
              && TrustedKeys(s).Ok? && r.Ok? && (r.value.Failed? || r.value.AllMatched?)
              && var keys := TrustedKeys(s).value;
                 && (r.value.Failed? <==>
                       exists id :: id in d.signatures &&
                         !(id in keys && keys[id].id in d.signatures[id].verifiesUnder))
                 && (r.value.Failed? ==>
                       forall id :: id in r.value.failing <==>
                         id in d.signatures && !(id in keys && keys[id].id in d.signatures[id].verifiesUnder))
  {
    if RulesHold(s) && (if d.Prev().Some? then d.Prev().value else d) == head {
      ConfigReads(s);
      StatusExactly(s, head, d);
    }
    var parent := if d.Prev().Some? then d.Prev().value else d;
    if parent != head {
      return Err(ChainMismatch(head, parent));
    }
    if d.signatures == map[] {
      return Ok(AllMatched(0));
    }
    var read := TrustedKeys(s);
    if read.Err? {
      return Err(read.error);
    }
    var keys := read.value;
    var failing := FailingSigners(keys, d);
    if failing != {} {
      return Ok(Failed(failing));
    }
    var total := 0;
    var left := d.signatures.Keys;
    while left != {}
      invariant total + TotalWeight(keys, left) == TotalWeight(keys, d.signatures.Keys)
    {
      var id :| id in left;
      TotalWeightOf(keys, left, id);
      total := total + if id in keys then keys[id].weight else 0;
      left := left - {id};
    }
    return Ok(AllMatched(Saturate(total)));
  }

  function CheckThresholds(s: State, e: Envelope): Option<ApplyError> {
    if e.status.Failed? then Some(InvalidSignatures(e.status.failing))
    else match Threshold(s, MIN_ENVELOPE_WEIGHT_KEY, MinEnvelopeWeight)
      case Err(err) => Some(err)
      case Ok(weight) =>
        if e.status.Weight() < weight then Some(InsufficientWeight(weight, e.status.Weight()))
        else match Threshold(s, MIN_ENVELOPE_SIGNATURES_KEY, MinEnvelopeSignatures)
          case Err(err) => Some(err)
          case Ok(signers) =>
            if e.VerifiedSigners() < signers then Some(InsufficientSignatures(signers, e.VerifiedSigners()))
            else None
  }

  // ---------------------------------------------------------------------
  // Validation

  function ValidateValue(key: Name, v: Value): Option<ApplyError> {
    match Broken(key, v)
    case None => None
    case Some(reason) => Some(InvalidValue(key, reason))
  }

  function ValidateSetKey(s: State, key: Name, path: Path, entry: Option<Value>): Result<NamespaceOp, ApplyError> {
    if key !in s then Err(UnknownNamespace(key))
    else match Resolve(s[key], path)
      case Node(_) => Ok(SetOp(key, path, entry))
      case Missing(depth, at) =>
        if at == MapNode && depth == |path| - 1 && entry.Some? then Ok(SetOp(key, path, entry))
        else Err(UnknownPath(key, path))
      case Mismatch(_) => Err(PathTypeMismatch(key, path))
  }

  function ValidateAmendKey(s: State, key: Name, target: Option<Path>, op: AmendOp): Result<NamespaceOp, ApplyError> {
    if key !in s then Err(UnknownNamespace(key))
    else
      var segments := SegmentsOf(target);
      match Resolve(s[key], segments)
      case Node(kind) => (
        match op
        case AppendEntry(_) =>
          if kind == ArrayNode then Ok(AmendAtOp(key, target, op)) else Err(AmendTypeMismatch(key, target))
        case IncrementDecrement(inc) =>
          if kind != LeafNode then Err(AmendTypeMismatch(key, target))
          else if InvertedBounds(inc) then Err(InvalidBounds(key, target))
          else (
            match Walk(s[key], segments)
            case Some(Int(n)) => (
              match ApplyIncrement(inc, n)
              case None => Err(Overflow(key, target))
              case Some(sum) =>
                if segments == [] && ValidateValue(key, Int(sum)).Some? then Err(ValidateValue(key, Int(sum)).value)
                else Ok(AmendAtOp(key, target, op)))
            case _ => Err(AmendTypeMismatch(key, target)))
        case DeleteMatching(_) =>
          if kind == LeafNode then Err(AmendTypeMismatch(key, target)) else Ok(AmendAtOp(key, target, op)))
      case Missing(depth, at) =>
        if op.AppendEntry? && at == MapNode && depth == |segments| - 1 then Ok(AmendAtOp(key, target, op))
        else if target.Some? then Err(UnknownPath(key, target.value))
        else Err(AmendTypeMismatch(key, target))
      case Mismatch(_) =>
        if target.Some? then Err(PathTypeMismatch(key, target.value)) else Err(AmendTypeMismatch(key, target))
  }

  /** A write below the top of a reserved namespace is judged by the value it
      leaves there. */
  function ValidateNested(s: State, op: NamespaceOp): Option<ApplyError>
    requires CanCommit(s, op)
  {
    match op
    case SetOp(key, path, entry) =>
      if HasRule(key) then ValidateValue(key, SetAt(s[key], path, entry)) else None
    case AmendAtOp(key, target, amend) =>
      if HasRule(key) then ValidateValue(key, AmendAt(s[key], SegmentsOf(target), amend)) else None
    case _ => None
  }

  /** The op a message becomes once its shape is judged against `s`. */
  function Admit(s: State, msg: Msg): Result<NamespaceOp, ApplyError> {
    match msg
    case Init(_) => Err(UnexpectedInit)
    case SetNamespace(_, key, value) =>
      if ValidateValue(key, value).Some? then Err(ValidateValue(key, value).value) else Ok(Put(key, value))
    case SetNamespaceKey(_, key, path, entry) => ValidateSetKey(s, key, path, entry)
    case AmendNamespaceKey(_, key, target, op) => ValidateAmendKey(s, key, target, op)
    case DeleteNamespace(_, key) => if key in s then Ok(Delete(key)) else Err(UnknownNamespace(key))
  }

  /** Every op validation admits meets the storage contract, so applying it
      can hit none of the backend's broken-invariant branches. */
  lemma AdmittedCommits(s: State, msg: Msg)
    requires Admit(s, msg).Ok?
    ensures CanCommit(s, Admit(s, msg).value)
  {
    match msg
    case AmendNamespaceKey(_, key, target, op) => WalkMeetsResolve(s[key], SegmentsOf(target));
    case _ =>
  }

  /** Everything `apply` checks before its one commit, yielding the op. */
  function Judge(s: State, head: Digest, e: Envelope): Result<NamespaceOp, ApplyError> {
    if e.digest.Prev().None? then Err(UnexpectedInit)
    else if e.digest.Prev().value != head then Err(ChainMismatch(head, e.digest.Prev().value))
    else if CheckThresholds(s, e).Some? then Err(CheckThresholds(s, e).value)
    else match Admit(s, e.digest.payload)
      case Err(err) => Err(err)
      case Ok(op) =>
        AdmittedCommits(s, e.digest.payload);
        if ValidateNested(s, op).Some? then Err(ValidateNested(s, op).value) else Ok(op)
  }

  /** The state an envelope takes a ledger at `head` to. */
  function Apply(s: State, head: Digest, e: Envelope): (r: Result<State, ApplyError>)
    ensures r.Ok? ==> Judge(s, head, e).Ok? && CanCommit(s, Judge(s, head, e).value)
  {
    match Judge(s, head, e)
    case Err(err) => Err(err)
    case Ok(op) =>
      AdmittedCommits(s, e.digest.payload);
      Ok(Committed(s, op))
  }

  /** Applying keeps every reserved-namespace rule. */
  lemma RulesKept(s: State, head: Digest, e: Envelope)
    requires RulesHold(s) && Apply(s, head, e).Ok?
    ensures RulesHold(Apply(s, head, e).value)
  {
    var op := Judge(s, head, e).value;
    var s' := Committed(s, op);
    forall key | key in s' ensures Broken(key, s'[key]).None? {
      if key != op.key { assert s'[key] == s[key]; }
    }
  }

  /** The envelope a node applies: `d` with the status its signatures earn. */
  ghost function Transition(s: State, head: Digest, d: Digest): Option<State> {
    match Verify(s, head, d)
    case Err(_) => None
    case Ok(status) =>
      match Apply(s, head, Envelope(d, status))
      case Err(_) => None
      case Ok(s') => Some(s')
  }

  lemma TransitionKeepsRules(s: State, head: Digest, d: Digest)
    requires RulesHold(s) && Transition(s, head, d).Some?
    ensures RulesHold(Transition(s, head, d).value)
  {
    RulesKept(s, head, Envelope(d, Verify(s, head, d).value));
  }

  /** At a parent whose rules hold, signatures can be judged, and the verified
      envelope applies exactly when the transition is defined. */
  lemma VerifiedApplies(s: State, head: Digest, d: Digest)
    requires RulesHold(s) && d.Prev() == Some(head)
    ensures Verify(s, head, d).Ok?
    ensures var applied := Apply(s, head, Envelope(d, Verify(s, head, d).value));
            && (applied.Ok? <==> Transition(s, head, d).Some?)
            && (applied.Ok? ==> Transition(s, head, d) == Some(applied.value))
  {
    ConfigReads(s);
  }

  /** An envelope that applies under whatever status it claims takes the
      state where the verified one takes it, if that one applies too. */
  lemma StatusDecidesNothingElse(s: State, head: Digest, d: Digest, claimed: Status)
    requires Apply(s, head, Envelope(d, claimed)).Ok? && Transition(s, head, d).Some?
    ensures Apply(s, head, Envelope(d, claimed)).value == Transition(s, head, d).value
  {
  }

  /** An envelope carries what state `s` demands: every signature by a key
      trusted there and verifying, their saturated weight and their number at
      or above the thresholds in force there. */
  ghost predicate Endorsed(s: State, d: Digest) {
    && TrustedKeys(s).Ok?
    && var keys := TrustedKeys(s).value;
       && (forall id :: id in d.signatures ==> Verifies(keys, id, d.signatures[id]))
       && (MIN_ENVELOPE_WEIGHT_KEY in s ==>
             && s[MIN_ENVELOPE_WEIGHT_KEY].Int?
             && s[MIN_ENVELOPE_WEIGHT_KEY].n <= Saturate(TotalWeight(keys, d.signatures.Keys)))
       && (MIN_ENVELOPE_SIGNATURES_KEY in s ==>
             && s[MIN_ENVELOPE_SIGNATURES_KEY].Int?
             && s[MIN_ENVELOPE_SIGNATURES_KEY].n <= Saturate(|d.signatures|))
  }

  /** What an envelope had to carry to apply at `s`, and the status it earned. */
  lemma AppliedMeansTrusted(s: State, head: Digest, d: Digest)
    requires RulesHold(s) && Transition(s, head, d).Some?
    ensures Endorsed(s, d) && TrustedKeys(s).Ok?
    ensures var keys := TrustedKeys(s).value;
            forall id :: id in d.signatures ==> id in keys && keys[id].id in d.signatures[id].verifiesUnder
    ensures Verify(s, head, d) == Ok(AllMatched(Saturate(TotalWeight(TrustedKeys(s).value, d.signatures.Keys))))
  {
    ConfigReads(s);
    var keys := TrustedKeys(s).value;
    if d.signatures == map[] {
      assert d.signatures.Keys == {};
    } else {
      forall id | id in d.signatures ensures Verifies(keys, id, d.signatures[id]) {
        assert id !in FailingSigners(keys, d);
      }
    }
  }

  /** Just that is what endorsement means where the rules hold. */
  lemma EndorsedExactly(s: State, d: Digest)
    requires RulesHold(s)
    ensures TrustedKeys(s).Ok?
    ensures var keys := TrustedKeys(s).value;
            var sum := TotalWeight(keys, d.signatures.Keys);
            Endorsed(s, d) <==>
              && (forall id :: id in d.signatures ==> id in keys && keys[id].id in d.signatures[id].verifiesUnder)
              && (MIN_ENVELOPE_WEIGHT_KEY in s ==>
                    s[MIN_ENVELOPE_WEIGHT_KEY].Int? && s[MIN_ENVELOPE_WEIGHT_KEY].n <= sum)
              && (MIN_ENVELOPE_SIGNATURES_KEY in s ==>
                    s[MIN_ENVELOPE_SIGNATURES_KEY].Int? && s[MIN_ENVELOPE_SIGNATURES_KEY].n <= |d.signatures|)
  {
    ConfigReads(s);
    assert MIN_ENVELOPE_WEIGHT_KEY in s ==> Broken(MIN_ENVELOPE_WEIGHT_KEY, s[MIN_ENVELOPE_WEIGHT_KEY]).None?;
    assert MIN_ENVELOPE_SIGNATURES_KEY in s ==>
      Broken(MIN_ENVELOPE_SIGNATURES_KEY, s[MIN_ENVELOPE_SIGNATURES_KEY]).None?;
  }

  // ---------------------------------------------------------------------
  // Exactly which envelopes apply

  /** The write a message asks for; an `Init` asks for none. */
  function Asked(msg: Msg): Option<NamespaceOp> {
    match msg
    case Init(_) => None
    case SetNamespace(_, key, value) => Some(Put(key, value))
    case SetNamespaceKey(_, key, path, entry) => Some(SetOp(key, path, entry))
    case AmendNamespaceKey(_, key, target, op) => Some(AmendAtOp(key, target, op))
    case DeleteNamespace(_, key) => Some(Delete(key))
  }

  /** The write fits the version, asks for no inverted bounds, and leaves a
      version whose namespaces keep their rules. */
  predicate Fitting(s: State, msg: Msg) {
    && Asked(msg).Some? && CanCommit(s, Asked(msg).value)
    && !(msg.AmendNamespaceKey? && msg.op.IncrementDecrement? && InvertedBounds(msg.op.inc))
    && RulesHold(Committed(s, Asked(msg).value))
  }

  /** Only the namespace written can come to break its rule. */
  lemma OnlyWrittenJudged(s: State, op: NamespaceOp)
    requires RulesHold(s) && CanCommit(s, op)
    ensures RulesHold(Committed(s, op)) <==> op.Delete? || Broken(op.key, Committed(s, op)[op.key]).None?
  {
    hide Broken;
    var s' := Committed(s, op);
    assert forall key :: key in s' && key != op.key ==> s'[key] == s[key];
    if !op.Delete? { assert op.key in s'; }
  }

  /** Validation admits exactly the fitting writes, unchanged. */
  lemma AdmitsExactly(s: State, msg: Msg)
    requires RulesHold(s)
    ensures Admit(s, msg).Ok? ==> Asked(msg) == Some(Admit(s, msg).value) && CanCommit(s, Admit(s, msg).value)
    ensures Admit(s, msg).Ok? && ValidateNested(s, Admit(s, msg).value).None? <==> Fitting(s, msg)
  {
    if Admit(s, msg).Ok? { AdmittedCommits(s, msg); }
    if Asked(msg).Some? && CanCommit(s, Asked(msg).value) { OnlyWrittenJudged(s, Asked(msg).value); }
    match msg
    case AmendNamespaceKey(_, key, target, op) => AmendsExactly(s, msg);
    case _ =>
  }

  lemma AmendsExactly(s: State, msg: Msg)
    requires RulesHold(s) && msg.AmendNamespaceKey?
    ensures Admit(s, msg).Ok? ==> CanCommit(s, Asked(msg).value)
    ensures Admit(s, msg).Ok? <==>
            && CanCommit(s, Asked(msg).value)
            && !(msg.op.IncrementDecrement? && InvertedBounds(msg.op.inc))
            && (msg.op.IncrementDecrement? && msg.target.None? ==>
                  Broken(msg.key, Committed(s, Asked(msg).value)[msg.key]).None?)
  {
    if msg.key in s { WalkMeetsResolve(s[msg.key], SegmentsOf(msg.target)); }
  }

  /** An envelope, signed as it is, takes a ledger whose rules hold forward
      exactly when it builds on the head, carries what the state there
      demands, and asks for a fitting write; and then to just that write. */
  lemma TransitionExactly(s: State, head: Digest, d: Digest)
    requires RulesHold(s)
    ensures Transition(s, head, d).Some? <==> d.Prev() == Some(head) && Endorsed(s, d) && Fitting(s, d.payload)
    ensures Transition(s, head, d).Some? ==> Transition(s, head, d) == Some(Committed(s, Asked(d.payload).value))
  {
    hide RulesHold;
    hide CanCommit;
    hide Committed;
    hide Fitting;
    AdmitsExactly(s, d.payload);
    hide Admit;
    hide ValidateNested;
    hide Asked;
    if d.Prev() == Some(head) { ThresholdsExactly(s, head, d); }
  }

  /** Thresholds are met by exactly the endorsed envelopes. */
  lemma ThresholdsExactly(s: State, head: Digest, d: Digest)
    requires RulesHold(s) && d.Prev() == Some(head)
    ensures Verify(s, head, d).Ok?
    ensures CheckThresholds(s, Envelope(d, Verify(s, head, d).value)).None? <==> Endorsed(s, d)
  {
    ConfigReads(s);
    var keys := TrustedKeys(s).value;
    if d.signatures == map[] {
      assert d.signatures.Keys == {};
    } else {
      assert FailingSigners(keys, d) == {} <==>
             forall id :: id in d.signatures ==> Verifies(keys, id, d.signatures[id]) by {
        forall id | id in d.signatures && !Verifies(keys, id, d.signatures[id]) ensures FailingSigners(keys, d) != {} {
          assert id in FailingSigners(keys, d);
        }
      }
    }
  }

  // ---------------------------------------------------------------------
  // What a message touches

  /** Whether a change set that recorded `msg` reports `path` in `key`, or
      `key` at all when there is no path. */
  predicate MsgTouches(msg: Msg, key: Name, path: Option<Path>) {
    match msg
    case Init(namespaces) => key in namespaces
    case SetNamespaceKey(_, k, p, _) => k == key && (path.None? || Overlaps(p, path.value))
    case AmendNamespaceKey(_, k, Some(p), _) => k == key && (path.None? || Overlaps(p, path.value))
    case _ => msg.key == key
  }

  /** Whether `msg` clears an array element standing before the one `path`
      walks through in `key`. */
  predicate Shifts(msg: Msg, key: Name, path: Option<Path>) {
    && msg.SetNamespaceKey? && msg.key == key && path.Some?
    && ShiftedBy(msg.path, msg.entry, path.value)
  }

  /** What shifts a path: the clear of an array element that stands before the
      one the path goes through, in the same array. */
  lemma ShiftsExactly(msg: Msg, key: Name, path: Path)
    ensures Shifts(msg, key, Some(path)) <==>
            && msg.SetNamespaceKey? && msg.key == key && msg.entry.None?
            && exists up: Segments, i: u32, j: u32, rest: Segments ::
                 msg.path == up + [Index(i)] && path == up + [Index(j)] + rest && i < j
  {
    if Shifts(msg, key, Some(path)) {
      var at := |msg.path| - 1;
      var up, rest := msg.path[..at], path[at + 1..];
      assert msg.path == up + [Index(msg.path[at].index)];
      assert path == up + [Index(path[at].index)] + rest;
    }
    if msg.SetNamespaceKey? && msg.entry.None? {
      if up: Segments, i: u32, j: u32, rest: Segments :|
        msg.path == up + [Index(i)] && path == up + [Index(j)] + rest && i < j
      {
        assert Parents(msg.path) == up && path[..|up|] == up;
      }
    }
  }

  /** A message that neither touches nor shifts a path leaves what it reads. */
  lemma ApplyFrame(s: State, head: Digest, e: Envelope, key: Name, path: Option<Path>)
    requires Apply(s, head, e).Ok?
    requires !MsgTouches(e.digest.payload, key, path) && !Shifts(e.digest.payload, key, path)
    ensures Read(Apply(s, head, e).value, key, SegmentsOf(path)) == Read(s, key, SegmentsOf(path))
  {
    match e.digest.payload
    case SetNamespaceKey(_, k, p, entry) =>
      if k == key { SetFrame(s[k], p, entry, path.value); }
    case AmendNamespaceKey(_, k, Some(p), op) =>
      if k == key { AmendFrame(s[k], p, op, path.value); }
    case _ =>
  }
}
