/** One asset channel of the commitment ledger: its state, the checks on it, and the update step. */
module CommitmentState {
  import opened ByteBits
  import opened Primitives
  import opened Text
  import opened Channels
  import ProofReplay
  import TapVm

  // ----- what the ledger takes from its surroundings -----

  /** The fields an LDK monitor update carries for the asset side of a channel. */
  datatype AuxFields = AuxFields(
    channel: Bytes32,
    assetId: Bytes32,
    number: u64,
    local: u64,
    remote: u64,
    stateDigest: Bytes32,
    root: RootHashSum,
    nonceDigest: Bytes32,
    signatureDigest: Bytes32)

  /** The hash, the replay rules, the parser of hexadecimal ids, and LDK: the digest it gives an
      auxiliary blob (none when it refuses the fields) and whether it accepts the blob in a monitor
      update. */
  datatype Env = Env(
    sha: Sha256,
    rules: ProofReplay.Rules,
    parseHex: Text -> Option<Bytes32>,
    auxDigest: AuxFields -> Option<Bytes32>,
    auxAccepts: AuxFields -> bool)

  // ----- data -----

  datatype Commitment = Commitment(
    number: u64,
    local: u64,
    remote: u64,
    stateDigest: Bytes32,
    virtualTxId: Bytes32,
    witnessDigest: Bytes32,
    nonce: Bytes32,
    signature: Bytes32,
    priorOutputId: Text,
    recordId: Text,
    outputId: Text,
    transitionId: Bytes32)

  datatype Monitor = Monitor(
    number: u64,
    persisted: bool,
    stateDigest: Bytes32,
    root: RootHashSum,
    nonceDigest: Bytes32,
    signatureDigest: Bytes32,
    auxDigest: Option<Bytes32>,
    blobDigest: Bytes32)

  datatype State = State(
    channelId: Text,
    assetId: Bytes32,
    fundingOutpoint: Text,
    total: u64,
    latest: u64,
    local: u64,
    remote: u64,
    commitments: map<u64, Commitment>,
    revoked: map<u64, u64>,
    usedNonces: map<Bytes32, u64>,
    signingKey: Key33,
    monitor: Monitor,
    fundingRecordId: Text,
    fundingOutputId: Text,
    fundingTransitionId: Bytes32,
    latestRecordId: Text,
    latestOutputId: Text,
    latestTransitionId: Bytes32)

  datatype Request = Request(
    channelId: Text,
    nextNumber: u64,
    localToRemote: u64,
    remoteToLocal: u64,
    virtualTxId: Bytes32,
    witnessDigest: Bytes32,
    nonce: Bytes32,
    signature: Bytes32)

  datatype Snapshot = Snapshot(
    channelId: Text,
    assetId: Bytes32,
    number: u64,
    local: u64,
    remote: u64,
    total: u64,
    stateDigest: Bytes32)

  /** The proof-history names of one commitment. */
  datatype HistoryEntry = HistoryEntry(priorOutputId: Text, recordId: Text, outputId: Text, transitionId: Bytes32)

  datatype Side = Local | Remote

  datatype CommitmentError =
    | UnsupportedVersion(version: nat)
    | DuplicateChannel
    | UnknownChannel
    | MalformedTransitionId
    | MalformedChannelId
    | NumberOverflow
    | StaleNumber(expected: u64, actual: u64)
    | NonceReuse(nonce: Bytes32)
    | BalanceUnderflow(side: Side, balance: u64, delta: u64)
    | BalanceOverflow
    | BalanceNotConserved(local: u64, remote: u64, total: u64)
    | InvalidVirtualTransition
    | InvalidSignature
    | RevokedLatest(number: u64)
    | MonitorNotPersisted
    | MonitorDigestMismatch
    | LdkMonitorAux
    | UnexplainedHistory
    | StorageInvariant
    | ProofHistory(replay: ProofReplay.ReplayError)
    | Vm(vm: TapVm.TapVmError)
    | OtherChannelInvalid

  // ----- digests -----

  function StateParts(channelId: Text, assetId: Bytes32, number: u64, local: u64, remote: u64): seq<Bytes> {
    [Ascii("tap-ldk:asset-commitment-state:v1"), Counted(channelId), assetId, U64Be(number), U64Be(local), U64Be(remote)]
  }

  function StateDigest(sha: Sha256, channelId: Text, assetId: Bytes32, number: u64, local: u64, remote: u64):
      Bytes32
  {
    Digest(sha, StateParts(channelId, assetId, number, local, remote))
  }

  function ContextParts(domain: string, channelId: Text, assetId: Bytes32, number: u64, digest: Bytes32): seq<Bytes> {
    [Ascii(domain), Counted(channelId), assetId, U64Be(number), digest]
  }

  function ContextDigest(sha: Sha256, domain: string, channelId: Text, assetId: Bytes32, number: u64,
                         digest: Bytes32): Bytes32
  {
    Digest(sha, ContextParts(domain, channelId, assetId, number, digest))
  }

  function BlobParts(channelId: Text, assetId: Bytes32, local: u64, remote: u64, m: Monitor): seq<Bytes> {
    [Ascii("tap-ldk:asset-commitment-monitor:v1"), Counted(channelId), assetId, U64Be(m.number), U64Be(local),
     U64Be(remote), m.stateDigest, m.root.hash, U64Be(m.root.sum), m.nonceDigest, m.signatureDigest]
  }

  function BlobDigest(sha: Sha256, channelId: Text, assetId: Bytes32, local: u64, remote: u64, m: Monitor): Bytes32 {
    Digest(sha, BlobParts(channelId, assetId, local, remote, m))
  }

  function SignatureParts(st: State, number: u64, local: u64, remote: u64,
                          nonce: Bytes32, txId: Bytes32, witnessDigest: Bytes32): seq<Bytes>
  {
    [Ascii("tap-ldk:asset-commitment-signature:v1"), Counted(st.channelId), st.assetId, st.signingKey,
     U64Be(number), U64Be(local), U64Be(remote), nonce, txId, witnessDigest]
  }

  function Signature(sha: Sha256, st: State, number: u64, local: u64, remote: u64,
                     nonce: Bytes32, txId: Bytes32, witnessDigest: Bytes32): Bytes32
  {
    Digest(sha, SignatureParts(st, number, local, remote, nonce, txId, witnessDigest))
  }

  // ----- the monitor blob -----

  function Aux(channel: Bytes32, assetId: Bytes32, local: u64, remote: u64, m: Monitor): AuxFields {
    AuxFields(channel, assetId, m.number, local, remote, m.stateDigest, m.root, m.nonceDigest, m.signatureDigest)
  }

  function BuildMonitor(env: Env, channelId: Text, assetId: Bytes32, number: u64, local: u64, remote: u64,
                        digest: Bytes32, root: RootHashSum, nonce: Bytes32, signature: Bytes32):
      Result<Monitor, CommitmentError>
  {
    var draft := Monitor(number, true, digest, root, nonce, signature, None, digest);
    var blob := BlobDigest(env.sha, channelId, assetId, local, remote, draft);
    var channel := env.parseHex(channelId);
    if channel.None? then Failure(MalformedChannelId)
    else
      var aux := env.auxDigest(Aux(channel.value, assetId, local, remote, draft));
      if aux.None? then Failure(LdkMonitorAux)
      else Success(draft.(auxDigest := aux, blobDigest := blob))
  }

  /** The checks on the monitor blob of a state. */
  function CheckMonitor(env: Env, st: State): Option<CommitmentError> {
    var m := st.monitor;
    if !m.persisted then Some(MonitorNotPersisted)
    else if || m.number != st.latest
            || m.stateDigest != StateDigest(env.sha, st.channelId, st.assetId, st.latest, st.local, st.remote)
            || m.blobDigest != BlobDigest(env.sha, st.channelId, st.assetId, st.local, st.remote, m) then
      Some(MonitorDigestMismatch)
    else
      var channel := env.parseHex(st.channelId);
      if channel.None? then Some(MalformedChannelId)
      else
        var fields := Aux(channel.value, st.assetId, st.local, st.remote, m);
        if m.auxDigest.Some? && env.auxDigest(fields) == m.auxDigest && env.auxAccepts(fields) then None
        else Some(LdkMonitorAux)
  }

  // ----- the commitments in order of their numbers -----

  lemma {:induction false} FindGreatest(s: set<u64>) returns (m: u64)
    requires s != {}
    ensures m in s && forall x <- s :: x <= m
    decreases |s|
  {
    m :| m in s;
    var rest := s - {m};
    if rest != {} {
      var b := FindGreatest(rest);
      assert forall x <- s :: x == m || x in rest;
      m := if m <= b then b else m;
    } else {
      assert s == {m};
    }
  }

  lemma GreatestExists(s: set<u64>)
    requires s != {}
    ensures exists m :: m in s && forall x <- s :: x <= m
  {
    var m := FindGreatest(s);
  }

  function Greatest(s: set<u64>): (m: u64)
    requires s != {}
    ensures m in s && forall x <- s :: x <= m
  {
    GreatestExists(s);
    var m :| m in s && forall x <- s :: x <= m;
    m
  }

  /** The values of the map in ascending order of their keys. */
  function InOrder(m: map<u64, Commitment>): seq<Commitment>
    decreases |m|
  {
    if m == map[] then []
    else
      var last := Greatest(m.Keys);
      assert |m - {last}| < |m| by {
        assert (m - {last}).Keys == m.Keys - {last};
      }
      InOrder(m - {last}) + [m[last]]
  }

  // ----- proof history -----

  function FundingInputId(st: State): Text {
    Concat([Ascii("asset-commitment-funding-input:"), st.channelId])
  }

  function UpdateRecordId(st: State, number: u64): Text {
    Concat([Ascii("asset-commitment-update:"), st.channelId, COLON, Decimal(number)])
  }

  function UpdateOutputId(st: State, number: u64, digest: Bytes32): Text {
    Concat([Ascii("asset-commitment-output:"), st.channelId, COLON, Decimal(number), COLON, Hex(digest)])
  }

  /** What a commitment's output id is derived from. */
  function HistoryParts(st: State, number: u64, local: u64, remote: u64, stateDigest: Bytes32, txId: Bytes32,
                        priorOutputId: Text): seq<Bytes>
  {
    [Ascii("tap-ldk:asset-commitment-proof-history:v1"), st.channelId, st.assetId,
     U64Be(number), U64Be(local), U64Be(remote), stateDigest, txId, Counted(priorOutputId)]
  }

  function HistoryOf(env: Env, st: State, number: u64, local: u64, remote: u64, stateDigest: Bytes32,
                     txId: Bytes32, priorOutputId: Text): HistoryEntry
  {
    var digest := Digest(env.sha, HistoryParts(st, number, local, remote, stateDigest, txId, priorOutputId));
    HistoryEntry(priorOutputId, UpdateRecordId(st, number), UpdateOutputId(st, number, digest), txId)
  }

  function EntryOf(c: Commitment): HistoryEntry {
    HistoryEntry(c.priorOutputId, c.recordId, c.outputId, c.transitionId)
  }

  function InitialParts(st: State): seq<Bytes> {
    [Ascii("tap-ldk:asset-commitment-initial-proof-history:v1"), st.channelId, st.assetId, st.fundingOutpoint,
     U64Be(st.total)]
  }

  function InitialTransitionId(env: Env, st: State): Bytes32 {
    Digest(env.sha, InitialParts(st))
  }

  /** Every output of a channel's history holds the whole channel amount at the funding outpoint. */
  function WholeOutput(env: Env, st: State, id: Text, state: ProofReplay.HistoryState): ProofReplay.Output {
    ProofReplay.Output(id, st.assetId, st.total, st.signingKey, st.fundingOutpoint,
                       env.rules.leafRoot(st.assetId, st.signingKey, st.total), state)
  }

  function IssuanceRecord(env: Env, st: State): ProofReplay.Record {
    ProofReplay.Record(FundingInputId(st), ProofReplay.Issuance, InitialTransitionId(env, st), [],
                       [WholeOutput(env, st, FundingInputId(st), ProofReplay.Accepted)])
  }

  function FundingRecord(env: Env, st: State): ProofReplay.Record {
    ProofReplay.Record(st.fundingRecordId, ProofReplay.ChannelFunding, st.fundingTransitionId, [FundingInputId(st)],
                       [WholeOutput(env, st, st.fundingOutputId, ProofReplay.ChannelLocked)])
  }

  function UpdateRecord(env: Env, st: State, h: HistoryEntry): ProofReplay.Record {
    ProofReplay.Record(h.recordId, ProofReplay.CommitmentUpdate, h.transitionId, [h.priorOutputId],
                       [WholeOutput(env, st, h.outputId, ProofReplay.ChannelLocked)])
  }

  /** The balances a commitment's record is refused for. */
  function CheckSplit(st: State, local: u64, remote: u64): Option<CommitmentError> {
    if local + remote >= U64_LIMIT then Some(BalanceOverflow)
    else if local + remote != st.total then Some(BalanceNotConserved(local, remote, st.total))
    else None
  }

  /** The output id a commitment after `cs` has to build on. */
  function TipOf(st: State, cs: seq<Commitment>): Text {
    if cs == [] then st.fundingOutputId else cs[|cs| - 1].outputId
  }

  predicate Linked(env: Env, st: State, prior: Text, c: Commitment) {
    EntryOf(c) == HistoryOf(env, st, c.number, c.local, c.remote, c.stateDigest, c.virtualTxId, prior)
  }

  /** The records of the commitments, each checked to build on the one before. */
  function CommitmentRecords(env: Env, st: State, cs: seq<Commitment>):
      Result<seq<ProofReplay.Record>, CommitmentError>
  {
    if cs == [] then Success([IssuanceRecord(env, st), FundingRecord(env, st)])
    else
      var front, c := cs[..|cs| - 1], cs[|cs| - 1];
      var earlier := CommitmentRecords(env, st, front);
      if earlier.Failure? then earlier
      else if !Linked(env, st, TipOf(st, front), c) then Failure(UnexplainedHistory)
      else if CheckSplit(st, c.local, c.remote).Some? then Failure(CheckSplit(st, c.local, c.remote).value)
      else Success(earlier.value + [UpdateRecord(env, st, EntryOf(c))])
  }

  /** The entry the latest history fields of a state have to name. */
  function LatestEntry(st: State, cs: seq<Commitment>): HistoryEntry {
    if cs == [] then
      HistoryEntry(FundingInputId(st), st.fundingRecordId, st.fundingOutputId, st.fundingTransitionId)
    else EntryOf(cs[|cs| - 1])
  }

  predicate NamesLatest(st: State, h: HistoryEntry) {
    st.latestRecordId == h.recordId && st.latestOutputId == h.outputId && st.latestTransitionId == h.transitionId
  }

  /** The proof-history records of a channel. */
  function Records(env: Env, st: State): Result<seq<ProofReplay.Record>, CommitmentError> {
    var cs := InOrder(st.commitments);
    var records := CommitmentRecords(env, st, cs);
    if records.Failure? then records
    else if !NamesLatest(st, LatestEntry(st, cs)) then Failure(UnexplainedHistory)
    else records
  }

  function CheckHistory(env: Env, st: State): Option<CommitmentError> {
    var records := Records(env, st);
    if records.Failure? then Some(records.error)
    else
      var replay := ProofReplay.Replay(env.rules, records.value);
      if replay.Failure? then Some(ProofHistory(replay.error))
      else if st.latestOutputId !in replay.value.accepted then Some(UnexplainedHistory)
      else
        var e := replay.value.accepted[st.latestOutputId];
        var kind := if st.latest == 0 then ProofReplay.ChannelFunding else ProofReplay.CommitmentUpdate;
        if e.recordId == st.latestRecordId && e.transitionId == st.latestTransitionId && e.kind == kind
           && e.output.(id := []) == WholeOutput(env, st, [], ProofReplay.ChannelLocked) then None
        else Some(UnexplainedHistory)
  }

  // ----- the check on a whole state -----

  /** The nonce index points at commitments carrying the nonce. */
  predicate NoncesIndexed(st: State) {
    forall x <- st.usedNonces ::
      st.usedNonces[x] in st.commitments && st.commitments[st.usedNonces[x]].nonce == x
  }

  function CheckCommitment(env: Env, st: State, key: u64, c: Commitment): Option<CommitmentError> {
    if key != c.number then Some(StorageInvariant)
    else if CheckSplit(st, c.local, c.remote).Some? then CheckSplit(st, c.local, c.remote)
    else if c.stateDigest != StateDigest(env.sha, st.channelId, st.assetId, c.number, c.local, c.remote) then
      Some(StorageInvariant)
    else None
  }

  /** The first fault among the commitments, in order of their numbers. */
  function CheckCommitments(env: Env, st: State, m: map<u64, Commitment>): Option<CommitmentError>
    decreases |m|
  {
    if m == map[] then None
    else
      var last := Greatest(m.Keys);
      assert |m - {last}| < |m| by {
        assert (m - {last}).Keys == m.Keys - {last};
      }
      var earlier := CheckCommitments(env, st, m - {last});
      if earlier.Some? then earlier else CheckCommitment(env, st, last, m[last])
  }

  function CheckState(env: Env, st: State): Option<CommitmentError> {
    if CheckSplit(st, st.local, st.remote).Some? then CheckSplit(st, st.local, st.remote)
    else if st.latest in st.revoked then Some(RevokedLatest(st.latest))
    else if CheckMonitor(env, st).Some? then CheckMonitor(env, st)
    else if !NoncesIndexed(st) then Some(StorageInvariant)
    else if CheckCommitments(env, st, st.commitments).Some? then CheckCommitments(env, st, st.commitments)
    else CheckHistory(env, st)
  }

  // ----- opening a channel -----

  function OpenState(env: Env, c: StoredChannel): Result<State, CommitmentError> {
    var number := c.monitor.commitmentNumber;
    var digest := StateDigest(env.sha, c.channelId, c.assetId, number, c.localBalance, c.remoteBalance);
    var nonce := ContextDigest(env.sha, "tap-ldk:asset-commitment-funding-nonce:v1", c.channelId, c.assetId,
                               number, digest);
    var signature := ContextDigest(env.sha, "tap-ldk:asset-commitment-funding-signature:v1", c.channelId,
                                   c.assetId, number, digest);
    var monitor := BuildMonitor(env, c.channelId, c.assetId, number, c.localBalance, c.remoteBalance, digest,
                                c.fundingRoot, nonce, signature);
    if monitor.Failure? then Failure(monitor.error)
    else
      var transition := env.parseHex(c.historyTransitionId);
      if transition.None? then Failure(MalformedTransitionId)
      else
        Success(State(c.channelId, c.assetId, c.fundingOutpoint, c.totalAmount, number, c.localBalance,
                      c.remoteBalance, map[], map[], map[], c.fundingScriptKey, monitor.value,
                      c.historyRecordId, c.historyOutputId, transition.value,
                      c.historyRecordId, c.historyOutputId, transition.value))
  }

  // ----- one update -----

  /** The balances after moving `out` to the remote side and `in_` to the local side. */
  function Moved(st: State, out: u64, in_: u64): Result<(u64, u64), CommitmentError> {
    if st.local < out then Failure(BalanceUnderflow(Local, st.local, out))
    else if st.remote < in_ then Failure(BalanceUnderflow(Remote, st.remote, in_))
    else if st.local - out + in_ >= U64_LIMIT then Failure(BalanceOverflow)
    else if st.remote - in_ + out >= U64_LIMIT then Failure(BalanceOverflow)
    else Success((st.local - out + in_, st.remote - in_ + out))
  }

  function VirtualUpdate(st: State, local: u64, remote: u64, nonce: Bytes32): TapVm.BalanceUpdate {
    TapVm.BalanceUpdate(st.assetId, st.total, local, remote, nonce)
  }

  /** The transaction id, witness digest and signature of a commitment with these balances. */
  datatype Authority = Authority(txId: Bytes32, witnessDigest: Bytes32, signature: Bytes32)

  function Authorize(env: Env, st: State, number: u64, local: u64, remote: u64, nonce: Bytes32):
      Result<Authority, CommitmentError>
  {
    var u := VirtualUpdate(st, local, remote, nonce);
    var txId, digest := TapVm.TxId(env.sha, u), TapVm.WitnessDigest(env.sha, u);
    if txId.Failure? then Failure(Vm(txId.error))
    else if digest.Failure? then Failure(Vm(digest.error))
    else
      Success(Authority(txId.value, digest.value,
                        Signature(env.sha, st, number, local, remote, nonce, txId.value, digest.value)))
  }

  /** The balances an update request leads to. */
  function PrepareUpdate(st: State, r: Request): Result<(u64, u64), CommitmentError> {
    if r.channelId != st.channelId then Failure(UnknownChannel)
    else if st.latest + 1 >= U64_LIMIT then Failure(NumberOverflow)
    else if r.nextNumber != st.latest + 1 then Failure(StaleNumber(st.latest + 1, r.nextNumber))
    else if r.nonce in st.usedNonces then Failure(NonceReuse(r.nonce))
    else
      var moved := Moved(st, r.localToRemote, r.remoteToLocal);
      if moved.Success? && CheckSplit(st, moved.value.0, moved.value.1).Some? then
        Failure(CheckSplit(st, moved.value.0, moved.value.1).value)
      else moved
  }

  /** The authority over the commitment that follows `st` when these amounts move. */
  function AuthorityFor(env: Env, st: State, out: u64, in_: u64, nonce: Bytes32): Result<Authority, CommitmentError> {
    var moved := Moved(st, out, in_);
    if st.latest + 1 >= U64_LIMIT then Failure(NumberOverflow)
    else if moved.Failure? then Failure(moved.error)
    else Authorize(env, st, st.latest + 1, moved.value.0, moved.value.1, nonce)
  }

  /** What a request has against it, given the authority it should show. */
  function RequestFault(st: State, r: Request, expected: Result<Authority, CommitmentError>): Option<CommitmentError> {
    if PrepareUpdate(st, r).Failure? then Some(PrepareUpdate(st, r).error)
    else if expected.Failure? then Some(expected.error)
    else if r.virtualTxId != expected.value.txId || r.witnessDigest != expected.value.witnessDigest then
      Some(InvalidVirtualTransition)
    else if r.signature != expected.value.signature then Some(InvalidSignature)
    else None
  }

  /** What an update request is checked against. */
  function ValidateUpdate(env: Env, st: State, r: Request): Result<Snapshot, CommitmentError> {
    var fault := RequestFault(st, r, AuthorityFor(env, st, r.localToRemote, r.remoteToLocal, r.nonce));
    if fault.Some? then Failure(fault.value)
    else
      var (local, remote) := PrepareUpdate(st, r).value;
      Success(Snapshot(st.channelId, st.assetId, r.nextNumber, local, remote, st.total,
                       StateDigest(env.sha, st.channelId, st.assetId, r.nextNumber, local, remote)))
  }

  /** The request that shows an authority. */
  function Assemble(st: State, out: u64, in_: u64, nonce: Bytes32, a: Result<Authority, CommitmentError>):
      Result<Request, CommitmentError>
  {
    if st.latest + 1 >= U64_LIMIT then Failure(NumberOverflow)
    else if Moved(st, out, in_).Failure? then Failure(Moved(st, out, in_).error)
    else if a.Failure? then Failure(a.error)
    else
      Success(Request(st.channelId, st.latest + 1, out, in_, a.value.txId, a.value.witnessDigest, nonce,
                      a.value.signature))
  }

  /** The request a sender builds. */
  function BuildUpdate(env: Env, st: State, out: u64, in_: u64, nonce: Bytes32): Result<Request, CommitmentError> {
    Assemble(st, out, in_, nonce, AuthorityFor(env, st, out, in_, nonce))
  }

  /** The history entry of an update, after replaying the history with it appended. */
  function ExplainUpdate(env: Env, st: State, r: Request, s: Snapshot): Result<HistoryEntry, CommitmentError> {
    var h := HistoryOf(env, st, s.number, s.local, s.remote, s.stateDigest, r.virtualTxId, st.latestOutputId);
    var records := Records(env, st);
    if records.Failure? then Failure(records.error)
    else if CheckSplit(st, s.local, s.remote).Some? then Failure(CheckSplit(st, s.local, s.remote).value)
    else
      var replay := ProofReplay.Replay(env.rules, records.value + [UpdateRecord(env, st, h)]);
      if replay.Failure? then Failure(ProofHistory(replay.error))
      else if h.outputId !in replay.value.accepted then Failure(UnexplainedHistory)
      else
        var e := replay.value.accepted[h.outputId];
        if e.kind == ProofReplay.CommitmentUpdate && e.transitionId == r.virtualTxId
           && e.output.(id := []) == WholeOutput(env, st, [], ProofReplay.ChannelLocked)
           && |e.priors| == 1 && e.priors[0].outputId == st.latestOutputId
           && e.priors[0].state == ProofReplay.ChannelLocked then Success(h)
        else Failure(UnexplainedHistory)
  }

  function CommitmentFor(r: Request, s: Snapshot, h: HistoryEntry): Commitment {
    Commitment(s.number, s.local, s.remote, s.stateDigest, r.virtualTxId, r.witnessDigest, r.nonce, r.signature,
               h.priorOutputId, h.recordId, h.outputId, h.transitionId)
  }

  /** The state with the update entered in all its maps. */
  function Entered(st: State, r: Request, s: Snapshot, h: HistoryEntry, monitor: Monitor): State {
    st.(revoked := st.revoked[st.latest := s.number],
        latest := s.number,
        local := s.local,
        remote := s.remote,
        usedNonces := st.usedNonces[r.nonce := s.number],
        commitments := st.commitments[s.number := CommitmentFor(r, s, h)],
        latestRecordId := h.recordId,
        latestOutputId := h.outputId,
        latestTransitionId := h.transitionId,
        monitor := monitor)
  }

  function MonitorFor(env: Env, st: State, r: Request, s: Snapshot): Result<Monitor, CommitmentError> {
    BuildMonitor(env, st.channelId, st.assetId, s.number, s.local, s.remote, s.stateDigest, st.monitor.root,
                 r.nonce, r.signature)
  }

  /** The state and snapshot after an update, before the store as a whole is checked again. */
  function UpdateState(env: Env, st: State, r: Request): Result<(State, Snapshot), CommitmentError> {
    if CheckState(env, st).Some? then Failure(CheckState(env, st).value)
    else
      var s := ValidateUpdate(env, st, r);
      if s.Failure? then Failure(s.error)
      else
        var h := ExplainUpdate(env, st, r, s.value);
        if h.Failure? then Failure(h.error)
        else
          var monitor := MonitorFor(env, st, r, s.value);
          if monitor.Failure? then Failure(monitor.error)
          else Success((Entered(st, r, s.value, h.value, monitor.value), s.value))
  }
}
