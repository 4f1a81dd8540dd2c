/** What an accepted update does to a channel, told against the log of the updates accepted so far. */
module CommitmentLedger {
  import opened ByteBits
  import opened Primitives
  import opened Text
  import opened Channels
  import opened CommitmentState
  import ProofReplay
  import TapVm

  // ----- the log -----

  /** The amount the local side gave away. */
  function Sent(log: seq<Request>): nat {
    if log == [] then 0 else Sent(log[..|log| - 1]) + log[|log| - 1].localToRemote
  }

  function Received(log: seq<Request>): nat {
    if log == [] then 0 else Received(log[..|log| - 1]) + log[|log| - 1].remoteToLocal
  }

  function LocalAfter(c: StoredChannel, log: seq<Request>): int {
    c.localBalance - Sent(log) + Received(log)
  }

  lemma {:induction false} LogGrows(log: seq<Request>, r: Request)
    ensures Sent(log + [r]) == Sent(log) + r.localToRemote
    ensures Received(log + [r]) == Received(log) + r.remoteToLocal
  {
    assert (log + [r])[..|log|] == log;
  }

  // ----- the invariant -----

  /** What an update never touches. */
  predicate Constants(c: StoredChannel, st: State) {
    && st.channelId == c.channelId && st.assetId == c.assetId && st.total == c.totalAmount
    && st.fundingOutpoint == c.fundingOutpoint && st.signingKey == c.fundingScriptKey
    && st.fundingRecordId == c.historyRecordId && st.fundingOutputId == c.historyOutputId
    && st.monitor.root == c.fundingRoot
  }

  /** Balances follow the log and add up to the amount the channel was funded with. */
  predicate BalancesTrack(c: StoredChannel, log: seq<Request>, local: u64, remote: u64) {
    && local == LocalAfter(c, log)
    && local + remote == c.totalAmount
  }

  /** The commitment carries the transaction, witness and signature over its own balances and nonce. */
  predicate Authorized(env: Env, st: State, k: Commitment) {
    Authorize(env, st, k.number, k.local, k.remote, k.nonce) ==
      Success(Authority(k.virtualTxId, k.witnessDigest, k.signature))
  }

  /** The commitment is the one the i-th accepted update asked for. */
  predicate Recorded(c: StoredChannel, log: seq<Request>, i: nat, k: Commitment)
    requires i < |log|
  {
    && k.number == i + 1
    && BalancesTrack(c, log[..i + 1], k.local, k.remote)
    && k.nonce == log[i].nonce
  }

  /** Commitments are numbered 1, 2, ... without gaps, one for each accepted update. */
  ghost predicate CommitmentsTrack(c: StoredChannel, log: seq<Request>, st: State) {
    && (forall n: u64 :: n in st.commitments <==> 1 <= n <= |log|)
    && (forall n: u64 | 1 <= n <= |log| :: Recorded(c, log, n - 1, st.commitments[n]))
  }

  ghost predicate AuthorizedTrack(env: Env, st: State) {
    forall n <- st.commitments :: Authorized(env, st, st.commitments[n])
  }

  /** Exactly the commitments before the latest are revoked, each by its successor. */
  ghost predicate RevokedTrack(log: seq<Request>, st: State) {
    forall n: u64 :: (n in st.revoked <==> n < |log|) && (n in st.revoked ==> st.revoked[n] == n + 1)
  }

  /** Nonces of the log point at their commitments, and every indexed nonce is of the log. */
  ghost predicate NoncesPoint(log: seq<Request>, used: map<Bytes32, u64>) {
    forall i: nat | i < |log| :: log[i].nonce in used && used[log[i].nonce] == i + 1
  }

  ghost predicate NoncesLogged(log: seq<Request>, used: map<Bytes32, u64>) {
    forall x <- used :: 1 <= used[x] <= |log| && log[used[x] - 1].nonce == x
  }

  /** Nonces and commitments are in one-to-one correspondence. */
  ghost predicate NoncesTrack(log: seq<Request>, st: State) {
    NoncesPoint(log, st.usedNonces) && NoncesLogged(log, st.usedNonces)
  }

  ghost predicate Tracks(env: Env, c: StoredChannel, log: seq<Request>, st: State) {
    && Constants(c, st)
    && st.latest == |log|
    && BalancesTrack(c, log, st.local, st.remote)
    && CommitmentsTrack(c, log, st)
    && AuthorizedTrack(env, st)
    && RevokedTrack(log, st)
    && NoncesTrack(log, st)
  }

  // ----- what a passed check means -----

  lemma Validated(env: Env, st: State, r: Request)
    requires ValidateUpdate(env, st, r).Success?
    ensures var s := ValidateUpdate(env, st, r).value;
            && r.channelId == st.channelId && s.channelId == st.channelId && r.nonce !in st.usedNonces
            && s.number == r.nextNumber == st.latest + 1
            && s.local == st.local - r.localToRemote + r.remoteToLocal
            && s.remote == st.remote - r.remoteToLocal + r.localToRemote
            && CheckSplit(st, s.local, s.remote).None? && s.total == st.total
            && s.stateDigest == StateDigest(env.sha, st.channelId, st.assetId, s.number, s.local, s.remote)
  {
  }

  /** A request without a fault shows exactly the authority expected of it. */
  lemma FaultFree(st: State, r: Request, expected: Result<Authority, CommitmentError>)
    requires RequestFault(st, r, expected).None?
    ensures expected == Success(Authority(r.virtualTxId, r.witnessDigest, r.signature))
    ensures r.nextNumber == st.latest + 1 && PrepareUpdate(st, r) == Moved(st, r.localToRemote, r.remoteToLocal)
  {
  }

  lemma AuthorityIs(env: Env, st: State, out: u64, in_: u64, nonce: Bytes32, local: u64, remote: u64, a: Authority)
    requires Moved(st, out, in_) == Success((local, remote)) && AuthorityFor(env, st, out, in_, nonce) == Success(a)
    ensures st.latest + 1 < U64_LIMIT && Authorize(env, st, st.latest + 1, local, remote, nonce) == Success(a)
  {
  }

  /** The commitment entered for a request shows the request's authority over the balances it moved to. */
  lemma ValidatedShows(env: Env, st: State, r: Request, h: HistoryEntry)
    requires ValidateUpdate(env, st, r).Success?
    ensures var a := AuthorityFor(env, st, r.localToRemote, r.remoteToLocal, r.nonce);
            var k := CommitmentFor(r, ValidateUpdate(env, st, r).value, h);
            && RequestFault(st, r, a).None? && a.Success? && r.nextNumber == st.latest + 1
            && Moved(st, r.localToRemote, r.remoteToLocal) == Success((k.local, k.remote))
            && k.number == r.nextNumber && k.nonce == r.nonce
            && k.virtualTxId == r.virtualTxId && k.witnessDigest == r.witnessDigest && k.signature == r.signature
  {
    FaultFree(st, r, AuthorityFor(env, st, r.localToRemote, r.remoteToLocal, r.nonce));
  }

  lemma ShownAuthorized(env: Env, st: State, k: Commitment, a: Result<Authority, CommitmentError>)
    requires a == Authorize(env, st, k.number, k.local, k.remote, k.nonce)
    requires a == Success(Authority(k.virtualTxId, k.witnessDigest, k.signature))
    ensures Authorized(env, st, k)
  {
  }

  lemma ValidatedAuthorized(env: Env, st: State, r: Request, h: HistoryEntry)
    requires ValidateUpdate(env, st, r).Success?
    ensures Authorized(env, st, CommitmentFor(r, ValidateUpdate(env, st, r).value, h))
  {
    var a := AuthorityFor(env, st, r.localToRemote, r.remoteToLocal, r.nonce);
    ValidatedShows(env, st, r, h);
    FaultFree(st, r, a);
    var k := CommitmentFor(r, ValidateUpdate(env, st, r).value, h);
    AuthorityIs(env, st, r.localToRemote, r.remoteToLocal, r.nonce, k.local, k.remote, a.value);
    ShownAuthorized(env, st, k, a);
  }

  lemma Explained(env: Env, st: State, r: Request, s: Snapshot)
    requires ExplainUpdate(env, st, r, s).Success?
    ensures ExplainUpdate(env, st, r, s).value ==
              HistoryOf(env, st, s.number, s.local, s.remote, s.stateDigest, r.virtualTxId, st.latestOutputId)
  {
  }

  /** An accepted update passed the validator, and its state is the old one with the update entered. */
  lemma Updated(env: Env, st: State, r: Request)
    requires UpdateState(env, st, r).Success?
    ensures CheckState(env, st).None? && ValidateUpdate(env, st, r).Success?
    ensures var s := ValidateUpdate(env, st, r).value;
            && ExplainUpdate(env, st, r, s).Success? && MonitorFor(env, st, r, s).Success?
            && UpdateState(env, st, r).value ==
                 (Entered(st, r, s, ExplainUpdate(env, st, r, s).value, MonitorFor(env, st, r, s).value), s)
            && MonitorFor(env, st, r, s).value.root == st.monitor.root
  {
  }

  lemma UpdatedTo(env: Env, st: State, r: Request)
    requires CheckState(env, st).None? && ValidateUpdate(env, st, r).Success?
    requires ExplainUpdate(env, st, r, ValidateUpdate(env, st, r).value).Success?
    requires MonitorFor(env, st, r, ValidateUpdate(env, st, r).value).Success?
    ensures var s := ValidateUpdate(env, st, r).value;
            var m := MonitorFor(env, st, r, s).value;
            && UpdateState(env, st, r) == Success((Entered(st, r, s, ExplainUpdate(env, st, r, s).value, m), s))
            && m.root == st.monitor.root
  {
  }

  // ----- an update keeps the invariant -----

  predicate SameChannel(st: State, next: State) {
    && next.channelId == st.channelId && next.assetId == st.assetId && next.total == st.total
    && next.fundingOutpoint == st.fundingOutpoint && next.signingKey == st.signingKey
    && next.fundingRecordId == st.fundingRecordId && next.fundingOutputId == st.fundingOutputId
    && next.fundingTransitionId == st.fundingTransitionId
  }

  lemma AuthorizedFrame(env: Env, st: State, next: State, k: Commitment)
    requires SameChannel(st, next) && Authorized(env, st, k)
    ensures Authorized(env, next, k)
  {
  }

  lemma RecordedEarlier(c: StoredChannel, log: seq<Request>, r: Request, i: nat, k: Commitment)
    requires i < |log| && Recorded(c, log, i, k)
    ensures Recorded(c, log + [r], i, k)
  {
    assert (log + [r])[..i + 1] == log[..i + 1];
  }

  /** The commitment entered for the update is the one the extended log asks for. */
  lemma {:induction false} RecordedLast(env: Env, c: StoredChannel, log: seq<Request>, st: State, r: Request, h: HistoryEntry)
    requires ValidateUpdate(env, st, r).Success? && st.latest == |log|
    requires var s := ValidateUpdate(env, st, r).value; BalancesTrack(c, log + [r], s.local, s.remote)
    ensures Recorded(c, log + [r], |log|, CommitmentFor(r, ValidateUpdate(env, st, r).value, h))
  {
    Validated(env, st, r);
    assert (log + [r])[..|log| + 1] == log + [r];
  }

  lemma {:induction false} CommitmentsStep(c: StoredChannel, log: seq<Request>, st: State, r: Request, next: State,
                                           k: Commitment)
    requires CommitmentsTrack(c, log, st)
    requires |log| + 1 < U64_LIMIT && next.commitments == st.commitments[|log| + 1 := k]
    requires Recorded(c, log + [r], |log|, k)
    ensures CommitmentsTrack(c, log + [r], next)
  {
    forall n: u64 | 1 <= n <= |log| + 1
      ensures Recorded(c, log + [r], n - 1, next.commitments[n])
    {
      if n <= |log| {
        RecordedEarlier(c, log, r, n - 1, st.commitments[n]);
      }
    }
  }

  lemma AuthorizedStep(env: Env, st: State, next: State, n: u64, k: Commitment)
    requires AuthorizedTrack(env, st) && SameChannel(st, next) && Authorized(env, st, k)
    requires next.commitments == st.commitments[n := k]
    ensures AuthorizedTrack(env, next)
  {
    forall x <- next.commitments
      ensures Authorized(env, next, next.commitments[x])
    {
      AuthorizedFrame(env, st, next, next.commitments[x]);
    }
  }

  lemma RevokedStep(log: seq<Request>, st: State, r: Request, next: State)
    requires |log| + 1 < U64_LIMIT && RevokedTrack(log, st) && st.latest == |log|
    requires next.revoked == st.revoked[st.latest := |log| + 1]
    ensures RevokedTrack(log + [r], next)
  {
  }

  lemma NoncesPointStep(log: seq<Request>, used: map<Bytes32, u64>, r: Request)
    requires |log| + 1 < U64_LIMIT && NoncesPoint(log, used) && r.nonce !in used
    ensures NoncesPoint(log + [r], used[r.nonce := |log| + 1])
  {
  }

  lemma NoncesLoggedStep(log: seq<Request>, used: map<Bytes32, u64>, r: Request)
    requires |log| + 1 < U64_LIMIT && NoncesLogged(log, used)
    ensures NoncesLogged(log + [r], used[r.nonce := |log| + 1])
  {
  }

  // ----- an update keeps the invariant -----

  lemma {:induction false} EnteredKeeps(env: Env, c: StoredChannel, log: seq<Request>, st: State, r: Request,
                                        h: HistoryEntry, m: Monitor)
    requires Tracks(env, c, log, st) && ValidateUpdate(env, st, r).Success? && m.root == st.monitor.root
    ensures Tracks(env, c, log + [r], Entered(st, r, ValidateUpdate(env, st, r).value, h, m))
  {
    var s := ValidateUpdate(env, st, r).value;
    var next := Entered(st, r, s, h, m);
    Validated(env, st, r);
    LogGrows(log, r);
    RecordedLast(env, c, log, st, r, h);
    CommitmentsStep(c, log, st, r, next, CommitmentFor(r, s, h));
    ValidatedAuthorized(env, st, r, h);
    AuthorizedStep(env, st, next, s.number, CommitmentFor(r, s, h));
    RevokedStep(log, st, r, next);
    NoncesPointStep(log, st.usedNonces, r);
    NoncesLoggedStep(log, st.usedNonces, r);
  }

  /** Every accepted update extends the log by itself and keeps everything the invariant says. */
  lemma UpdateKeeps(env: Env, c: StoredChannel, log: seq<Request>, st: State, r: Request)
    requires Tracks(env, c, log, st) && UpdateState(env, st, r).Success?
    ensures Tracks(env, c, log + [r], UpdateState(env, st, r).value.0)
  {
    Updated(env, st, r);
    var s := ValidateUpdate(env, st, r).value;
    EnteredKeeps(env, c, log, st, r, ExplainUpdate(env, st, r, s).value, MonitorFor(env, st, r, s).value);
  }

  // ----- the builder meets the validator -----

  /** Only balances that add up to the total are authorized. */
  lemma {:induction false} AuthorizedSplit(env: Env, st: State, out: u64, in_: u64, nonce: Bytes32)
    requires AuthorityFor(env, st, out, in_, nonce).Success?
    ensures Moved(st, out, in_).Success?
    ensures var (local, remote) := Moved(st, out, in_).value; CheckSplit(st, local, remote).None?
  {
  }

  /** A request assembled around an authority shows exactly that authority. */
  lemma AssembledPasses(st: State, out: u64, in_: u64, nonce: Bytes32, a: Result<Authority, CommitmentError>)
    requires Assemble(st, out, in_, nonce, a).Success?
    requires var (local, remote) := Moved(st, out, in_).value; CheckSplit(st, local, remote).None?
    ensures var r := Assemble(st, out, in_, nonce, a).value;
            && r.channelId == st.channelId && r.localToRemote == out && r.remoteToLocal == in_ && r.nonce == nonce
            && (RequestFault(st, r, a).None? <==> nonce !in st.usedNonces)
  {
  }

  /** A built update names exactly the balances moved by the requested amounts, and the validator accepts
      it if and only if its nonce is unused. */
  lemma {:induction false} BuiltUpdatePasses(env: Env, st: State, out: u64, in_: u64, nonce: Bytes32)
    requires BuildUpdate(env, st, out, in_, nonce).Success?
    ensures var r := BuildUpdate(env, st, out, in_, nonce).value;
            && r.channelId == st.channelId && r.localToRemote == out && r.remoteToLocal == in_ && r.nonce == nonce
            && (ValidateUpdate(env, st, r).Success? <==> nonce !in st.usedNonces)
  {
    AuthorizedSplit(env, st, out, in_, nonce);
    AssembledPasses(st, out, in_, nonce, AuthorityFor(env, st, out, in_, nonce));
  }

  /** When the builder returns a request: enough balance on both sides, a number left, and no witness
      digest of all zeros. */
  lemma BuilderOutcome(env: Env, st: State, out: u64, in_: u64, nonce: Bytes32)
    requires st.local + st.remote == st.total
    ensures BuildUpdate(env, st, out, in_, nonce).Success? <==>
              && st.latest + 1 < U64_LIMIT && out <= st.local && in_ <= st.remote
              && var u := VirtualUpdate(st, st.local - out + in_, st.remote - in_ + out, nonce);
                 TapVm.WitnessNonce(env.sha, u) != ZERO32 && TapVm.Authorization(env.sha, u) != ZERO32
  {
  }

  lemma MovesFit(st: State, out: u64, in_: u64)
    requires st.local + st.remote == st.total
    ensures Moved(st, out, in_).Success? <==> out <= st.local && in_ <= st.remote
    ensures Moved(st, out, in_).Failure? ==> Moved(st, out, in_).error.BalanceUnderflow?
    ensures Moved(st, out, in_).Success? ==>
              CheckSplit(st, Moved(st, out, in_).value.0, Moved(st, out, in_).value.1).None?
  {
  }

  predicate ConservationFault(e: CommitmentError) {
    e.BalanceOverflow? || e.BalanceNotConserved?
  }

  lemma PreparedConserves(st: State, r: Request)
    requires st.local + st.remote == st.total
    ensures PrepareUpdate(st, r).Failure? ==> !ConservationFault(PrepareUpdate(st, r).error)
  {
    MovesFit(st, r.localToRemote, r.remoteToLocal);
  }

  lemma AuthorityFault(env: Env, st: State, out: u64, in_: u64, nonce: Bytes32)
    requires Moved(st, out, in_).Success?
    ensures var a := AuthorityFor(env, st, out, in_, nonce); a.Failure? ==> !ConservationFault(a.error)
  {
  }

  /** While the balances add up to the total, which every reachable state keeps, the overflow and
      conservation faults of the validator cannot happen. */
  lemma ConservationFaultsDead(env: Env, st: State, r: Request)
    requires st.local + st.remote == st.total
    ensures var f := ValidateUpdate(env, st, r); f.Failure? ==> !ConservationFault(f.error)
  {
    PreparedConserves(st, r);
    if PrepareUpdate(st, r).Success? {
      AuthorityFault(env, st, r.localToRemote, r.remoteToLocal, r.nonce);
    }
  }

  /** A request that was accepted once is refused in every later state. */
  lemma NoReplay(env: Env, c: StoredChannel, log: seq<Request>, st: State, i: nat)
    requires Tracks(env, c, log, st) && i < |log|
    ensures UpdateState(env, st, log[i]).Failure?
  {
    assert log[i].nonce in st.usedNonces;
    if UpdateState(env, st, log[i]).Success? {
      Updated(env, st, log[i]);
      Validated(env, st, log[i]);
    }
  }
}
