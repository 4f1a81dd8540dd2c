/** Funding asset channels from input proofs: each proof is spent at most once, and what the proofs hold
    is what the channels hold. */
module Funding {
  import opened ByteBits
  import opened Primitives
  import opened Text
  import opened Channels
  import R = ProofReplay

  datatype Proof = Proof(
    assetId: Bytes32,
    amount: u64,
    genesis: Text,
    anchor: Text,
    scriptKey: Key33,
    root: RootHashSum)

  datatype FundingRequest = FundingRequest(
    localPeer: Text,
    remotePeer: Text,
    assetId: Bytes32,
    outpoint: Text,
    scriptKey: Key33,
    localInputs: seq<Proof>,
    remoteInputs: seq<Proof>,
    expectedRoot: Option<RootHashSum>)

  datatype FundingError =
    | FundingVersion
    | BlankPeer
    | MalformedOutpoint
    | MissingProofs
    | InvalidProof
    | ProofAssetMismatch
    | SpentProof(channelId: Text)
    | GenesisMismatch
    | FundingOverflow
    | FundingVm
    | FundingCommitment
    | RootMismatch
    | RootSumMismatch
    | DuplicateFunding
    | LdkFunding
    | FundingReplay(replay: R.ReplayError)
    | UnexplainedFunding
    | BalanceMismatch
    | FundingMonitorNotPersisted
    | FundingStorageInvariant
    | OtherFundingInvalid

  /** The commitment a funding output carries, and its root. */
  datatype TapCommitment = TapCommitment(root: RootHashSum, output: Bytes32)

  /** The hash, the replay rules, whether a text is blank, the semantic check and the encoding of a proof
      file, the Taproot Assets commitment of the funding output, and the verdicts of the virtual machine
      and of the LDK funding hook. */
  datatype FundEnv = FundEnv(
    sha: Sha256,
    rules: R.Rules,
    blank: Text -> bool,
    verifies: (Bytes32, Proof) -> bool,
    encode: Proof -> Option<Bytes>,
    tapCommitment: (Bytes32, Text, Key33, u64) -> Option<TapCommitment>,
    vmAccepts: (FundingRequest, seq<Text>, u64) -> bool,
    ldkAccepts: (FundingRequest, Text, Text, TapCommitment, u64, u64, nat) -> bool)

  /** `CURRENT_REQUEST` stands where a channel id would when a request repeats its own proof. */
  function CurrentRequest(): Text {
    Ascii("current-request")
  }

  function ProofId(p: Proof): Text {
    Hex(p.assetId) + COLON + p.anchor
  }

  function ProofIds(proofs: seq<Proof>): (ids: seq<Text>)
    ensures |ids| == |proofs| && forall i | 0 <= i < |proofs| :: ids[i] == ProofId(proofs[i])
  {
    if proofs == [] then [] else ProofIds(proofs[..|proofs| - 1]) + [ProofId(proofs[|proofs| - 1])]
  }

  // ----- ids -----

  /** The byte order of texts. */
  predicate TextLe(a: Text, b: Text) {
    a == [] || (b != [] && (a[0] < b[0] || (a[0] == b[0] && TextLe(a[1..], b[1..]))))
  }

  function InsertText(s: seq<Text>, x: Text): seq<Text> {
    if s == [] || TextLe(s[|s| - 1], x) then s + [x] else InsertText(s[..|s| - 1], x) + [s[|s| - 1]]
  }

  function SortTexts(s: seq<Text>): seq<Text> {
    if s == [] then [] else InsertText(SortTexts(s[..|s| - 1]), s[|s| - 1])
  }

  function CountedAll(s: seq<Text>): seq<Bytes> {
    if s == [] then [] else CountedAll(s[..|s| - 1]) + [Counted(s[|s| - 1])]
  }

  function ChannelId(sha: Sha256, localPeer: Text, remotePeer: Text, assetId: Bytes32, outpoint: Text, key: Key33,
                     local: u64, remote: u64, proofs: seq<Text>): Text
  {
    Hex(Digest(sha, ChannelParts(localPeer, remotePeer, assetId, outpoint, key, local, remote, SortTexts(proofs))))
  }

  /** What a channel id is derived from. */
  function ChannelParts(localPeer: Text, remotePeer: Text, assetId: Bytes32, outpoint: Text, key: Key33,
                        local: u64, remote: u64, sorted: seq<Text>): seq<Bytes>
  {
    [Ascii("tap-ldk:asset-channel-id:v1"), Counted(localPeer), Counted(remotePeer), assetId, Counted(outpoint), key,
     U64Be(local), U64Be(remote)] + CountedAll(sorted)
  }

  function FundingTransition(sha: Sha256, channelId: Text, assetId: Bytes32, outpoint: Text, key: Key33,
                             local: u64, remote: u64, proofs: seq<Text>): Bytes32
  {
    Digest(sha, TransitionParts(channelId, assetId, outpoint, key, local, remote, SortTexts(proofs)))
  }

  function TransitionParts(channelId: Text, assetId: Bytes32, outpoint: Text, key: Key33, local: u64, remote: u64,
                           sorted: seq<Text>): seq<Bytes>
  {
    [Ascii("tap-ldk:asset-channel-funding-proof-history:v1"), channelId, assetId, outpoint, key,
     U64Be(local), U64Be(remote)] + CountedAll(sorted)
  }

  function MonitorParts(channelId: Text, assetId: Bytes32, local: u64, remote: u64, root: RootHashSum): seq<Bytes> {
    [Ascii("tap-ldk:asset-channel-monitor:v1"), Counted(channelId), assetId, U64Be(local), U64Be(remote),
     root.hash, U64Be(root.sum)]
  }

  function MonitorDigest(sha: Sha256, channelId: Text, assetId: Bytes32, local: u64, remote: u64,
                         root: RootHashSum): Bytes32
  {
    Digest(sha, MonitorParts(channelId, assetId, local, remote, root))
  }

  // ----- the check of a stored channel -----

  /** The proofs a channel was funded with, local ones first. */
  function Spent(c: StoredChannel): seq<Text> {
    c.localProofIds + c.remoteProofIds
  }

  function BindingId(sha: Sha256, c: StoredChannel): Text {
    ChannelId(sha, c.localPeer, c.remotePeer, c.assetId, c.fundingOutpoint, c.fundingScriptKey, c.localBalance,
              c.remoteBalance, Spent(c))
  }

  function FieldsFault(env: FundEnv, c: StoredChannel): Option<FundingError> {
    if env.blank(c.localPeer) || env.blank(c.remotePeer) then Some(BlankPeer)
    else if env.blank(c.fundingOutpoint) then Some(MalformedOutpoint)
    else if c.localBalance + c.remoteBalance >= U64_LIMIT then Some(FundingOverflow)
    else if c.localBalance + c.remoteBalance != c.totalAmount then Some(BalanceMismatch)
    else if c.fundingRoot.sum != c.totalAmount then Some(RootSumMismatch)
    else
      var tap := env.tapCommitment(c.assetId, c.genesisOutpoint, c.fundingScriptKey, c.totalAmount);
      if tap.None? then Some(FundingCommitment)
      else if c.fundingRoot != tap.value.root then Some(RootMismatch)
      else if Spent(c) == [] then Some(MissingProofs)
      else if c.historyRecordId != FundingRecordId(c.channelId) || c.historyOutputId != FundingOutputId(c.channelId)
              || c.historyTransitionId != Hex(FundingTransition(env.sha, c.channelId, c.assetId, c.fundingOutpoint,
                                                                c.fundingScriptKey, c.localBalance, c.remoteBalance,
                                                                Spent(c))) then
        Some(UnexplainedFunding)
      else None
  }

  function ChannelFault(env: FundEnv, id: Text, c: StoredChannel): Option<FundingError> {
    if id != c.channelId then Some(FundingStorageInvariant)
    else if FieldsFault(env, c).Some? then FieldsFault(env, c)
    else if BindingId(env.sha, c) != id then Some(FundingStorageInvariant)
    else if !c.monitor.persisted then Some(FundingMonitorNotPersisted)
    else if c.monitor.blobDigest != MonitorDigest(env.sha, c.channelId, c.assetId, c.localBalance, c.remoteBalance,
                                                  c.fundingRoot) then Some(FundingStorageInvariant)
    else None
  }

  // ----- the index of spent proofs -----

  predicate Distinct(s: seq<Text>) {
    forall i, j | 0 <= i < j < |s| :: s[i] != s[j]
  }

  /** No proof occurs twice, within one channel or in two. */
  predicate NoProofTwice(channels: map<Text, StoredChannel>) {
    && (forall id <- channels :: Distinct(Spent(channels[id])))
    && (forall a, b, p | a in channels && b in channels && p in Spent(channels[a]) && p in Spent(channels[b]) :: a == b)
  }

  /** `spent` maps exactly the proofs of the channels, each to its channel. */
  predicate Indexes(channels: map<Text, StoredChannel>, spent: map<Text, Text>) {
    && (forall id, p | id in channels && p in Spent(channels[id]) :: p in spent && spent[p] == id)
    && (forall p <- spent :: spent[p] in channels && p in Spent(channels[spent[p]]))
  }

  lemma IndexesNoOverlap(channels: map<Text, StoredChannel>, spent: map<Text, Text>)
    requires Indexes(channels, spent) && forall id <- channels :: Distinct(Spent(channels[id]))
    ensures NoProofTwice(channels)
  {
    forall a, b, p | a in channels && b in channels && p in Spent(channels[a]) && p in Spent(channels[b])
      ensures a == b
    {
      assert spent[p] == a && spent[p] == b;
    }
  }

  /** There is only one index of a store's channels. */
  lemma IndexUnique(channels: map<Text, StoredChannel>, a: map<Text, Text>, b: map<Text, Text>)
    requires Indexes(channels, a) && Indexes(channels, b)
    ensures a == b
  {
    assert a.Keys == b.Keys;
  }

  datatype FundStore = FundStore(version: nat, channels: map<Text, StoredChannel>, spent: map<Text, Text>)

  const FUND_VERSION: nat := 1
  const EMPTY_FUND_STORE: FundStore := FundStore(FUND_VERSION, map[], map[])

  predicate FundingFine(env: FundEnv, s: FundStore) {
    && s.version == FUND_VERSION
    && (forall id <- s.channels :: ChannelFault(env, id, s.channels[id]).None? && Distinct(Spent(s.channels[id])))
    && Indexes(s.channels, s.spent)
  }

  predicate OtherChannelsFine(env: FundEnv, channels: map<Text, StoredChannel>, id: Text) {
    forall x <- channels | x != id :: ChannelFault(env, x, channels[x]).None?
  }

  /** The fault the check of a store reports after the channel `id` was added. */
  function StoreFault(env: FundEnv, s: FundStore, id: Text): Option<FundingError>
    requires id in s.channels
  {
    if s.version != FUND_VERSION then Some(FundingVersion)
    else if !OtherChannelsFine(env, s.channels, id) then Some(OtherFundingInvalid)
    else if ChannelFault(env, id, s.channels[id]).Some? then ChannelFault(env, id, s.channels[id])
    else if !NoProofTwice(s.channels) || !Indexes(s.channels, s.spent) then Some(FundingStorageInvariant)
    else None
  }

  // ----- funding a channel -----

  /** The first fault of the inputs of one side, or none. */
  function InputsFault(env: FundEnv, assetId: Bytes32, proofs: seq<Proof>, spent: map<Text, Text>): Option<FundingError> {
    if proofs == [] then None
    else
      var front, p := proofs[..|proofs| - 1], proofs[|proofs| - 1];
      var earlier := InputsFault(env, assetId, front, spent);
      if earlier.Some? then earlier
      else if !env.verifies(assetId, p) then Some(InvalidProof)
      else if p.assetId != assetId then Some(ProofAssetMismatch)
      else if ProofId(p) in ProofIds(front) then Some(SpentProof(CurrentRequest()))
      else if ProofId(p) in spent then Some(SpentProof(spent[ProofId(p)]))
      else None
  }

  /** The mathematical sum of the amounts. */
  function Amounts(proofs: seq<Proof>): nat {
    if proofs == [] then 0 else Amounts(proofs[..|proofs| - 1]) + proofs[|proofs| - 1].amount
  }

  function FundingInputRecord(p: Proof, sha: Sha256, encoded: Bytes): R.Record {
    R.Record(Ascii("asset-channel-funding-input:") + ProofId(p), R.Issuance,
             Digest(sha, [Ascii("tap-ldk:asset-channel-funding-input-history:v1"), ProofId(p), encoded]), [],
             [R.Output(ProofId(p), p.assetId, p.amount, p.scriptKey, p.anchor, p.root, R.Accepted)])
  }

  function InputRecords(env: FundEnv, proofs: seq<Proof>): Result<seq<R.Record>, FundingError> {
    if proofs == [] then Success([])
    else
      var p := proofs[|proofs| - 1];
      var earlier := InputRecords(env, proofs[..|proofs| - 1]);
      if earlier.Failure? then earlier
      else if env.encode(p).None? then Failure(InvalidProof)
      else Success(earlier.value + [FundingInputRecord(p, env.sha, env.encode(p).value)])
  }

  /** The fault of the funding's proof history, or none. */
  function HistoryFault(env: FundEnv, q: FundingRequest, channelId: Text, transition: Bytes32, total: u64):
      Option<FundingError>
  {
    var inputs := InputRecords(env, q.localInputs + q.remoteInputs);
    if inputs.Failure? then Some(inputs.error)
    else
      var output := R.Output(FundingOutputId(channelId), q.assetId, total, q.scriptKey, q.outpoint,
                             env.rules.leafRoot(q.assetId, q.scriptKey, total), R.ChannelLocked);
      var record := R.Record(FundingRecordId(channelId), R.ChannelFunding, transition,
                             ProofIds(q.localInputs + q.remoteInputs), [output]);
      var replay := R.Replay(env.rules, inputs.value + [record]);
      if replay.Failure? then Some(FundingReplay(replay.error))
      else if output.id !in replay.value.accepted then Some(UnexplainedFunding)
      else if replay.value.accepted[output.id].output != output then Some(UnexplainedFunding)
      else None
  }

  /** What a request's inputs amount to, and the commitment its funding output carries. */
  datatype Terms = Terms(genesis: Text, local: u64, remote: u64, tap: TapCommitment)

  predicate Fits(t: Terms) {
    t.local + t.remote < U64_LIMIT
  }

  predicate OneGenesis(proofs: seq<Proof>) {
    forall p <- proofs :: p.genesis == proofs[0].genesis
  }

  /** The first thing wrong with a request's names and proofs. */
  function RequestFault(env: FundEnv, spent: map<Text, Text>, q: FundingRequest): (fault: Option<FundingError>)
    ensures fault.None? ==> q.localInputs + q.remoteInputs != []
  {
    if env.blank(q.localPeer) || env.blank(q.remotePeer) then Some(BlankPeer)
    else if env.blank(q.outpoint) then Some(MalformedOutpoint)
    else if q.localInputs == [] && q.remoteInputs == [] then Some(MissingProofs)
    else if InputsFault(env, q.assetId, q.localInputs, spent).Some? then
      InputsFault(env, q.assetId, q.localInputs, spent)
    else if InputsFault(env, q.assetId, q.remoteInputs, spent).Some? then
      InputsFault(env, q.assetId, q.remoteInputs, spent)
    else if !OneGenesis(q.localInputs + q.remoteInputs) then Some(GenesisMismatch)
    else None
  }

  function Agree(env: FundEnv, spent: map<Text, Text>, q: FundingRequest): Result<Terms, FundingError> {
    var fault := RequestFault(env, spent, q);
    if fault.Some? then Failure(fault.value)
    else
      var inputs, local, remote := q.localInputs + q.remoteInputs, Amounts(q.localInputs), Amounts(q.remoteInputs);
      if local + remote >= U64_LIMIT then Failure(FundingOverflow)
      else if !env.vmAccepts(q, ProofIds(inputs), local + remote) then Failure(FundingVm)
      else
        var tap := env.tapCommitment(q.assetId, inputs[0].genesis, q.scriptKey, local + remote);
        if tap.None? then Failure(FundingCommitment)
        else if q.expectedRoot.Some? && q.expectedRoot.value != tap.value.root then Failure(RootMismatch)
        else Success(Terms(inputs[0].genesis, local, remote, tap.value))
  }

  /** The channel a request asks for. */
  function NewChannel(env: FundEnv, q: FundingRequest, t: Terms): StoredChannel
    requires Fits(t)
  {
    var localIds, remoteIds := ProofIds(q.localInputs), ProofIds(q.remoteInputs);
    var id := ChannelId(env.sha, q.localPeer, q.remotePeer, q.assetId, q.outpoint, q.scriptKey, t.local, t.remote,
                        localIds + remoteIds);
    var transition := FundingTransition(env.sha, id, q.assetId, q.outpoint, q.scriptKey, t.local, t.remote,
                                        localIds + remoteIds);
    var monitor := MonitorDigest(env.sha, id, q.assetId, t.local, t.remote, t.tap.root);
    StoredChannel(id, q.localPeer, q.remotePeer, q.assetId, t.genesis, q.outpoint, q.scriptKey, t.tap.root,
                  t.local, t.remote, t.local + t.remote, localIds, remoteIds, FundingRecordId(id),
                  FundingOutputId(id), Hex(transition), ChannelMonitor(0, true, monitor))
  }

  /** What LDK and the replay of the proof history have against the channel. */
  function OutsideFault(env: FundEnv, q: FundingRequest, t: Terms, c: StoredChannel): Option<FundingError> {
    var count := |q.localInputs| + |q.remoteInputs|;
    var transition := FundingTransition(env.sha, c.channelId, q.assetId, q.outpoint, q.scriptKey, t.local, t.remote,
                                        Spent(c));
    if count >= 0x1_0000 then Some(FundingOverflow)
    else if !env.ldkAccepts(q, c.channelId, t.genesis, t.tap, t.local, t.remote, count) then Some(LdkFunding)
    else HistoryFault(env, q, c.channelId, transition, c.totalAmount)
  }

  /** Everything before the store is touched. */
  function Plan(env: FundEnv, s: FundStore, q: FundingRequest): Result<StoredChannel, FundingError> {
    var t := Agree(env, s.spent, q);
    if t.Failure? then Failure(t.error)
    else if !Fits(t.value) then Failure(FundingOverflow)
    else
      var c := NewChannel(env, q, t.value);
      if c.channelId in s.channels then Failure(DuplicateFunding)
      else if OutsideFault(env, q, t.value, c).Some? then Failure(OutsideFault(env, q, t.value, c).value)
      else Success(c)
  }

  /** The index with the proofs entered for the channel, one by one. */
  function Enter(spent: map<Text, Text>, proofs: seq<Text>, id: Text): map<Text, Text> {
    if proofs == [] then spent else Enter(spent, proofs[..|proofs| - 1], id)[proofs[|proofs| - 1] := id]
  }

  function Fund(env: FundEnv, s: FundStore, q: FundingRequest): (Result<StoredChannel, FundingError>, FundStore) {
    var c := Plan(env, s, q);
    if c.Failure? then (c, s)
    else
      var id := c.value.channelId;
      var next := s.(spent := Enter(s.spent, Spent(c.value), id), channels := s.channels[id := c.value]);
      var fault := StoreFault(env, next, id);
      if fault.Some? then (Failure(fault.value), s) else (c, next)
  }

  // ----- the checks as loops -----

  /** Walks the inputs of one side, remembering the ids seen so far. */
  method ValidateInputs(env: FundEnv, assetId: Bytes32, proofs: seq<Proof>, spent: map<Text, Text>)
      returns (fault: Option<FundingError>)
    ensures fault == InputsFault(env, assetId, proofs, spent)
  {
    var seen: set<Text> := {};
    assert proofs[..|proofs|] == proofs;
    for i := 0 to |proofs|
      invariant forall id :: id in seen <==> id in ProofIds(proofs[..i])
      invariant InputsFault(env, assetId, proofs[..i], spent).None?
    {
      var p := proofs[i];
      InputsFaultStops(env, assetId, proofs, spent, i + 1);
      assert proofs[..i + 1][..i] == proofs[..i] && proofs[..i + 1][i] == p;
      if !env.verifies(assetId, p) {
        return Some(InvalidProof);
      }
      if p.assetId != assetId {
        return Some(ProofAssetMismatch);
      }
      var id := ProofId(p);
      if id in seen {
        return Some(SpentProof(CurrentRequest()));
      }
      if id in spent {
        return Some(SpentProof(spent[id]));
      }
      seen := seen + {id};
    }
    return None;
  }

  /** The first fault of a front of the inputs is the first fault of them all. */
  lemma {:induction false} InputsFaultStops(env: FundEnv, assetId: Bytes32, proofs: seq<Proof>, spent: map<Text, Text>, i: nat)
    requires i <= |proofs|
    ensures InputsFault(env, assetId, proofs[..i], spent).Some? ==>
              InputsFault(env, assetId, proofs, spent) == InputsFault(env, assetId, proofs[..i], spent)
    decreases |proofs| - i
  {
    if i == |proofs| {
      assert proofs[..i] == proofs;
    } else {
      InputsFaultStops(env, assetId, proofs, spent, i + 1);
      assert proofs[..i + 1][..i] == proofs[..i];
    }
  }

  lemma {:induction false} AmountsMonotone(proofs: seq<Proof>, i: nat)
    requires i <= |proofs|
    ensures Amounts(proofs[..i]) <= Amounts(proofs)
    decreases |proofs| - i
  {
    if i == |proofs| {
      assert proofs[..i] == proofs;
    } else {
      AmountsMonotone(proofs, i + 1);
      assert proofs[..i + 1][..i] == proofs[..i];
    }
  }

  /** The checked sum: the mathematical one, or none when it does not fit. */
  method SumInputs(proofs: seq<Proof>) returns (r: Option<u64>)
    ensures r == if Amounts(proofs) < U64_LIMIT then Some(Amounts(proofs)) else None
  {
    var amount: u64 := 0;
    assert proofs[..|proofs|] == proofs;
    for i := 0 to |proofs|
      invariant amount == Amounts(proofs[..i])
    {
      assert proofs[..i + 1][..i] == proofs[..i];
      AmountsMonotone(proofs, i + 1);
      if amount + proofs[i].amount >= U64_LIMIT {
        return None;
      }
      amount := amount + proofs[i].amount;
    }
    return Some(amount);
  }

  /** Enters one channel's proofs into an index, unless one of them is there already. */
  method EnterProofs(spent: map<Text, Text>, proofs: seq<Text>, id: Text) returns (r: Option<map<Text, Text>>)
    ensures r.Some? <==> Distinct(proofs) && forall p <- proofs :: p !in spent
    ensures r.Some? ==>
              && (forall p <- r.value :: if p in proofs then r.value[p] == id else p in spent && r.value[p] == spent[p])
              && (forall p <- proofs :: p in r.value) && (forall p <- spent :: p in r.value)
  {
    var index := spent;
    for i := 0 to |proofs|
      invariant forall j, k | 0 <= j < k < i :: proofs[j] != proofs[k]
      invariant forall j | 0 <= j < i :: proofs[j] !in spent && proofs[j] in index && index[proofs[j]] == id
      invariant forall p <- index :: p in proofs[..i] || (p in spent && index[p] == spent[p])
      invariant forall p <- spent :: p in index && index[p] == spent[p]
    {
      if proofs[i] in index {
        return None;
      }
      index := index[proofs[i] := id];
    }
    return Some(index);
  }

  class AssetChannelStore {
    var version: nat
    var channels: map<Text, StoredChannel>
    var spent: map<Text, Text>

    function Contents(): FundStore
      reads this
    {
      FundStore(version, channels, spent)
    }

    constructor ()
      ensures Contents() == EMPTY_FUND_STORE
    {
      version := FUND_VERSION;
      channels := map[];
      spent := map[];
    }

    method FundChannel(env: FundEnv, q: FundingRequest) returns (r: Result<StoredChannel, FundingError>)
      modifies this
      ensures (r, Contents()) == Fund(env, old(Contents()), q)
    {
      var c := Plan(env, Contents(), q);
      if c.Failure? {
        return c;
      }
      var id := c.value.channelId;
      var next := FundStore(version, channels[id := c.value], Enter(spent, Spent(c.value), id));
      var fault := StoreFault(env, next, id);
      if fault.Some? {
        return Failure(fault.value);
      }
      channels := next.channels;
      spent := next.spent;
      return c;
    }

    /** Checks every channel and recomputes the index of spent proofs from them. */
    method Validate(env: FundEnv) returns (ok: bool)
      ensures ok <==> FundingFine(env, Contents())
    {
      if version != FUND_VERSION {
        return false;
      }
      var index: map<Text, Text> := map[];
      var left := channels.Keys;
      while left != {}
        invariant left <= channels.Keys
        invariant forall id <- channels | id !in left ::
                    ChannelFault(env, id, channels[id]).None? && Distinct(Spent(channels[id]))
        invariant Indexes(Checked(left), index)
        decreases |left|
      {
        var id :| id in left;
        if ChannelFault(env, id, channels[id]).Some? {
          return false;
        }
        var entered := EnterProofs(index, Spent(channels[id]), id);
        if entered.None? {
          if Indexes(channels, spent) {
            NotIndexed(channels, left, id, index, spent);
          }
          return false;
        }
        EnteredIndexes(channels, left, id, index, entered.value);
        index := entered.value;
        left := left - {id};
      }
      assert Checked(left) == channels;
      if index == spent {
        return true;
      }
      if Indexes(channels, spent) {
        IndexUnique(channels, index, spent);
      }
      return false;
    }

    /** The channels checked so far. */
    ghost function Checked(left: set<Text>): map<Text, StoredChannel>
      reads this
    {
      channels - left
    }
  }

  /** A proof of a channel still to be checked is not in the index of the others, if the store has an index
      at all. */
  lemma NotIndexed(channels: map<Text, StoredChannel>, left: set<Text>, id: Text, index: map<Text, Text>,
                   spent: map<Text, Text>)
    requires id in channels && id in left && Indexes(channels - left, index) && Indexes(channels, spent)
    ensures forall p <- Spent(channels[id]) :: p !in index
  {
    var checked := channels - left;
    forall p <- index
      ensures index[p] != id && p in spent && spent[p] == index[p]
    {
      assert index[p] in checked && p in Spent(checked[index[p]]);
      assert p in Spent(channels[index[p]]);
    }
    assert forall p <- Spent(channels[id]) :: p in spent && spent[p] == id;
  }

  lemma EnteredIndexes(channels: map<Text, StoredChannel>, left: set<Text>, id: Text, index: map<Text, Text>,
                       next: map<Text, Text>)
    requires id in channels && id in left && Indexes(channels - left, index)
    requires forall p <- Spent(channels[id]) :: p !in index
    requires forall p <- next :: if p in Spent(channels[id]) then next[p] == id else p in index && next[p] == index[p]
    requires (forall p <- Spent(channels[id]) :: p in next) && (forall p <- index :: p in next)
    ensures Indexes(channels - (left - {id}), next)
  {
    var before, after := channels - left, channels - (left - {id});
    assert forall x <- after :: x == id || x in before;
    forall x, p | x in after && p in Spent(after[x])
      ensures p in next && next[p] == x
    {
      if x != id {
        assert x in before && before[x] == after[x];
        assert p in index && index[p] == x;
      }
    }
    forall p <- next
      ensures next[p] in after && p in Spent(after[next[p]])
    {
      if p !in Spent(channels[id]) {
        assert index[p] in before && p in Spent(before[index[p]]);
      }
    }
  }
}
