/** What the digests of the commitment ledger fix: a signature its commitment, a state digest its balances,
    a monitor blob its monitor. */
module CommitmentBinding {
  import opened ByteBits
  import opened Primitives
  import opened Text
  import opened Channels
  import opened CommitmentState
  import opened CommitmentLedger
  import CommitmentHistory
  import CommitmentStore
  import TapVm

  // ----- signatures -----

  /** What the holder of the signing key signs in a commitment. */
  function Signed(st: State, k: Commitment): seq<Bytes> {
    SignatureParts(st, k.number, k.local, k.remote, k.nonce, k.virtualTxId, k.witnessDigest)
  }

  function SignatureOf(sha: Sha256, st: State, k: Commitment): Bytes32 {
    Signature(sha, st, k.number, k.local, k.remote, k.nonce, k.virtualTxId, k.witnessDigest)
  }

  /** Everything a signature is over. */
  predicate SameSigned(a: State, x: Commitment, b: State, y: Commitment) {
    && a.channelId == b.channelId && a.assetId == b.assetId && a.signingKey == b.signingKey
    && x.number == y.number && x.local == y.local && x.remote == y.remote
    && x.nonce == y.nonce && x.virtualTxId == y.virtualTxId && x.witnessDigest == y.witnessDigest
  }

  lemma SignedShape(a: State, x: Commitment, b: State, y: Commitment)
    ensures SameShapeBut(Signed(a, x), Signed(b, y), 1)
  {
    var p, q := Signed(a, x), Signed(b, y);
    assert |p[0]| == |q[0]|;
    assert forall i | 2 <= i < 10 :: |p[i]| == |q[i]|;
  }

  lemma SignedInjective(a: State, x: Commitment, b: State, y: Commitment)
    requires Signed(a, x) == Signed(b, y)
    ensures SameSigned(a, x, b, y)
  {
    var p, q := Signed(a, x), Signed(b, y);
    assert p[1] == q[1] && p[2] == q[2] && p[3] == q[3] && p[4] == q[4] && p[5] == q[5];
    assert p[6] == q[6] && p[7] == q[7] && p[8] == q[8] && p[9] == q[9];
    CountedInjective(a.channelId, b.channelId);
    U64BeInjective(x.number, y.number);
    U64BeInjective(x.local, y.local);
    U64BeInjective(x.remote, y.remote);
  }

  /** One signature cannot serve two commitments: equal signatures are over the same channel, asset, key,
      number, balances, nonce, transaction and witness, unless the signed bytes collide. */
  lemma SignatureBinds(sha: Sha256, a: State, x: Commitment, b: State, y: Commitment)
    requires SignatureOf(sha, a, x) == SignatureOf(sha, b, y)
    ensures SameSigned(a, x, b, y) || IsCollision(sha, (Concat(Signed(a, x)), Concat(Signed(b, y))))
  {
    SignedShape(a, x, b, y);
    DigestBinds(sha, Signed(a, x), Signed(b, y), 1);
    if Signed(a, x) == Signed(b, y) {
      SignedInjective(a, x, b, y);
    }
  }

  lemma AuthorizedSignature(env: Env, st: State, k: Commitment)
    requires Authorized(env, st, k)
    ensures k.signature == SignatureOf(env.sha, st, k)
  {
  }

  /** Over any two runs of ledgers, of one channel or of two: commitments carrying one signature are the
      same commitment of the same channel, up to their place in the history, or their signed bytes
      collide. */
  lemma {:induction false} RunSignaturesBind(env: Env, p: seq<CommitmentStore.Op>, i: Text, m: u64,
                                             q: seq<CommitmentStore.Op>, j: Text, n: u64)
    requires i in CommitmentStore.Run(env, p).channels && j in CommitmentStore.Run(env, q).channels
    requires var a, b := CommitmentStore.Run(env, p).channels[i], CommitmentStore.Run(env, q).channels[j];
             && m in a.commitments && n in b.commitments
             && a.commitments[m].signature == b.commitments[n].signature
    ensures var a, b := CommitmentStore.Run(env, p).channels[i], CommitmentStore.Run(env, q).channels[j];
            var x, y := a.commitments[m], b.commitments[n];
            || (SameSigned(a, x, b, y) && i == j && m == n)
            || IsCollision(env.sha, (Concat(Signed(a, x)), Concat(Signed(b, y))))
  {
    var a, b := CommitmentStore.Run(env, p).channels[i], CommitmentStore.Run(env, q).channels[j];
    RunCommitment(env, p, i, m);
    RunCommitment(env, q, j, n);
    AuthorizedSignature(env, a, a.commitments[m]);
    AuthorizedSignature(env, b, b.commitments[n]);
    SignatureBinds(env.sha, a, a.commitments[m], b, b.commitments[n]);
  }

  lemma {:induction false} RunCommitment(env: Env, ops: seq<CommitmentStore.Op>, id: Text, n: u64)
    requires id in CommitmentStore.Run(env, ops).channels
    requires n in CommitmentStore.Run(env, ops).channels[id].commitments
    ensures var st := CommitmentStore.Run(env, ops).channels[id];
            st.channelId == id && st.commitments[n].number == n && Authorized(env, st, st.commitments[n])
  {
    CommitmentStore.RunFine(env, ops);
    CommitmentStore.RunTracks(env, ops);
    var st := CommitmentStore.Run(env, ops).channels[id];
    assert CommitmentStore.ChannelFine(env, id, st);
    assert Tracks(env, CommitmentStore.OpenedWith(env, ops, id).value, CommitmentStore.Log(env, ops, id), st);
  }

  // ----- state digests -----

  /** A state digest fixes the channel, the asset, the number and the balances. */
  lemma StateDigestBinds(sha: Sha256, c: Text, asset: Bytes32, m: u64, local: u64, remote: u64,
                         d: Text, other: Bytes32, n: u64, local': u64, remote': u64)
    requires StateDigest(sha, c, asset, m, local, remote) == StateDigest(sha, d, other, n, local', remote')
    ensures || (c == d && asset == other && m == n && local == local' && remote == remote')
            || IsCollision(sha, (Concat(StateParts(c, asset, m, local, remote)),
                                 Concat(StateParts(d, other, n, local', remote'))))
  {
    var p, q := StateParts(c, asset, m, local, remote), StateParts(d, other, n, local', remote');
    assert |p[0]| == |q[0]|;
    DigestBinds(sha, p, q, 1);
    if p == q {
      assert p[1] == q[1] && p[2] == q[2] && p[3] == q[3] && p[4] == q[4] && p[5] == q[5];
      CountedInjective(c, d);
      U64BeInjective(m, n);
      U64BeInjective(local, local');
      U64BeInjective(remote, remote');
    }
  }

  /** The nonce and the signature a channel opens with: digests of two separate domains, each of which
      fixes the channel, the asset, the number and the state. */
  lemma ContextDigestBinds(sha: Sha256, domain: string, c: Text, asset: Bytes32, m: u64, digest: Bytes32,
                           d: Text, other: Bytes32, n: u64, digest': Bytes32)
    requires ContextDigest(sha, domain, c, asset, m, digest) == ContextDigest(sha, domain, d, other, n, digest')
    ensures || (c == d && asset == other && m == n && digest == digest')
            || IsCollision(sha, (Concat(ContextParts(domain, c, asset, m, digest)),
                                 Concat(ContextParts(domain, d, other, n, digest'))))
  {
    var p, q := ContextParts(domain, c, asset, m, digest), ContextParts(domain, d, other, n, digest');
    assert |p[0]| == |q[0]|;
    DigestBinds(sha, p, q, 1);
    if p == q {
      assert p[1] == q[1] && p[2] == q[2] && p[3] == q[3] && p[4] == q[4];
      CountedInjective(c, d);
      U64BeInjective(m, n);
    }
  }

  /** What the first transition of a channel stands for. */
  predicate SameInitial(a: State, b: State) {
    a.channelId == b.channelId && a.assetId == b.assetId && a.fundingOutpoint == b.fundingOutpoint && a.total == b.total
  }

  /** Two states that start with one transition are of one channel, asset, outpoint and amount exactly when their
      channel ids, which are hashed without their lengths, are of one length. */
  lemma InitialTransitionBinds(env: Env, a: State, b: State)
    requires InitialTransitionId(env, a) == InitialTransitionId(env, b)
    ensures || (SameInitial(a, b) <==> |a.channelId| == |b.channelId|)
            || IsCollision(env.sha, (Concat(InitialParts(a)), Concat(InitialParts(b))))
  {
    var p, q := InitialParts(a), InitialParts(b);
    if |a.channelId| == |b.channelId| {
      assert |p[0]| == |q[0]|;
      DigestBinds(env.sha, p, q, 3);
      if p == q {
        assert p[1] == q[1] && p[2] == q[2] && p[3] == q[3] && p[4] == q[4];
        U64BeInjective(a.total, b.total);
      }
    }
  }

  /** The state with one byte moved from the asset id to the channel id, and one from the outpoint to the asset id. */
  function Shifted(a: State): State
    requires a.fundingOutpoint != []
  {
    var asset: Bytes, outpoint: Bytes := a.assetId, a.fundingOutpoint;
    a.(channelId := a.channelId + asset[..1], assetId := asset[1..] + outpoint[..1], fundingOutpoint := outpoint[1..])
  }

  /** Without the lengths it does not: every state shares the id with another one, whatever the hash. */
  lemma {:induction false} InitialTransitionShifted(env: Env, a: State)
    requires a.fundingOutpoint != []
    ensures !SameInitial(a, Shifted(a)) && InitialTransitionId(env, Shifted(a)) == InitialTransitionId(env, a)
  {
    var channel: Bytes, asset: Bytes, outpoint: Bytes := a.channelId, a.assetId, a.fundingOutpoint;
    var domain, total := Ascii("tap-ldk:asset-commitment-initial-proof-history:v1"), U64Be(a.total);
    ConcatFive(domain, channel, asset, outpoint, total);
    ConcatFive(domain, channel + asset[..1], asset[1..] + outpoint[..1], outpoint[1..], total);
    assert asset == asset[..1] + asset[1..] && outpoint == outpoint[..1] + outpoint[1..];
    assert (channel + asset[..1]) + (asset[1..] + outpoint[..1]) + outpoint[1..] == channel + asset + outpoint;
  }

  lemma {:induction false} ConcatFive(a: Bytes, b: Bytes, c: Bytes, d: Bytes, e: Bytes)
    ensures Concat([a, b, c, d, e]) == a + (b + c + d) + e
  {
    var p := [a, b, c, d, e];
    assert p[..4] == [a, b, c, d] && [a, b, c, d][..3] == [a, b, c] && [a, b, c][..2] == [a, b] && [a, b][..1] == [a];
    assert [a][..0] == [];
    assert Concat([a]) == a && Concat([a, b]) == a + b && Concat([a, b, c]) == a + b + c;
    assert Concat([a, b, c, d]) == a + b + c + d && Concat(p) == a + b + c + d + e;
  }

  // ----- the monitor blob -----

  /** What a blob digest is over. */
  predicate SameMonitored(c: Text, asset: Bytes32, local: u64, remote: u64, x: Monitor,
                          d: Text, other: Bytes32, local': u64, remote': u64, y: Monitor)
  {
    && c == d && asset == other && local == local' && remote == remote'
    && x.number == y.number && x.stateDigest == y.stateDigest && x.root == y.root
    && x.nonceDigest == y.nonceDigest && x.signatureDigest == y.signatureDigest
  }

  lemma BlobShape(c: Text, asset: Bytes32, local: u64, remote: u64, x: Monitor,
                  d: Text, other: Bytes32, local': u64, remote': u64, y: Monitor)
    ensures SameShapeBut(BlobParts(c, asset, local, remote, x), BlobParts(d, other, local', remote', y), 1)
  {
    var p, q := BlobParts(c, asset, local, remote, x), BlobParts(d, other, local', remote', y);
    assert |p[0]| == |q[0]|;
    assert forall i | 2 <= i < 11 :: |p[i]| == |q[i]|;
  }

  lemma BlobInjective(c: Text, asset: Bytes32, local: u64, remote: u64, x: Monitor,
                      d: Text, other: Bytes32, local': u64, remote': u64, y: Monitor)
    requires BlobParts(c, asset, local, remote, x) == BlobParts(d, other, local', remote', y)
    ensures SameMonitored(c, asset, local, remote, x, d, other, local', remote', y)
  {
    var p, q := BlobParts(c, asset, local, remote, x), BlobParts(d, other, local', remote', y);
    assert p[1] == q[1] && p[2] == q[2] && p[3] == q[3] && p[4] == q[4] && p[5] == q[5];
    assert p[6] == q[6] && p[7] == q[7] && p[8] == q[8] && p[9] == q[9] && p[10] == q[10];
    CountedInjective(c, d);
    U64BeInjective(x.number, y.number);
    U64BeInjective(local, local');
    U64BeInjective(remote, remote');
    U64BeInjective(x.root.sum, y.root.sum);
  }

  lemma BlobDigestBinds(sha: Sha256, c: Text, asset: Bytes32, local: u64, remote: u64, x: Monitor,
                        d: Text, other: Bytes32, local': u64, remote': u64, y: Monitor)
    requires BlobDigest(sha, c, asset, local, remote, x) == BlobDigest(sha, d, other, local', remote', y)
    ensures || SameMonitored(c, asset, local, remote, x, d, other, local', remote', y)
            || IsCollision(sha, (Concat(BlobParts(c, asset, local, remote, x)),
                                 Concat(BlobParts(d, other, local', remote', y))))
  {
    BlobShape(c, asset, local, remote, x, d, other, local', remote', y);
    DigestBinds(sha, BlobParts(c, asset, local, remote, x), BlobParts(d, other, local', remote', y), 1);
    if BlobParts(c, asset, local, remote, x) == BlobParts(d, other, local', remote', y) {
      BlobInjective(c, asset, local, remote, x, d, other, local', remote', y);
    }
  }

  /** The monitor a state has to carry, root, nonce and signature left to it. */
  function BuiltMonitor(env: Env, st: State): Result<Monitor, CommitmentError> {
    BuildMonitor(env, st.channelId, st.assetId, st.latest, st.local, st.remote,
                 StateDigest(env.sha, st.channelId, st.assetId, st.latest, st.local, st.remote),
                 st.monitor.root, st.monitor.nonceDigest, st.monitor.signatureDigest)
  }

  /** What LDK is asked to accept of a state. */
  function MonitorFields(env: Env, st: State): AuxFields
    requires env.parseHex(st.channelId).Some?
  {
    AuxFields(env.parseHex(st.channelId).value, st.assetId, st.latest, st.local, st.remote,
              StateDigest(env.sha, st.channelId, st.assetId, st.latest, st.local, st.remote),
              st.monitor.root, st.monitor.nonceDigest, st.monitor.signatureDigest)
  }

  /** The check passes exactly the monitor that is built for the state, if LDK accepts its fields. */
  lemma MonitorExact(env: Env, st: State)
    ensures CheckMonitor(env, st).None? <==>
              && BuiltMonitor(env, st) == Success(st.monitor)
              && env.parseHex(st.channelId).Some?
              && env.auxAccepts(MonitorFields(env, st))
  {
    var digest := StateDigest(env.sha, st.channelId, st.assetId, st.latest, st.local, st.remote);
    var draft := Monitor(st.latest, true, digest, st.monitor.root, st.monitor.nonceDigest, st.monitor.signatureDigest,
                         None, digest);
    if st.monitor.number == st.latest && st.monitor.stateDigest == digest {
      MonitorDraft(env.sha, st.channelId, st.assetId, st.local, st.remote, st.monitor, draft);
    }
  }

  /** The blob digest does not depend on the flag, the auxiliary digest or itself. */
  lemma MonitorDraft(sha: Sha256, c: Text, asset: Bytes32, local: u64, remote: u64, x: Monitor, y: Monitor)
    requires x.number == y.number && x.stateDigest == y.stateDigest && x.root == y.root
    requires x.nonceDigest == y.nonceDigest && x.signatureDigest == y.signatureDigest
    ensures BlobDigest(sha, c, asset, local, remote, x) == BlobDigest(sha, c, asset, local, remote, y)
  {
  }

  // ----- the check on an update -----

  /** The validator accepts exactly the requests that the builder makes from the same amounts and nonce,
      when the nonce is unused. */
  lemma {:induction false} ValidatedExactly(env: Env, st: State, r: Request)
    ensures ValidateUpdate(env, st, r).Success? <==>
              && r.nonce !in st.usedNonces
              && BuildUpdate(env, st, r.localToRemote, r.remoteToLocal, r.nonce) == Success(r)
  {
    var a := AuthorityFor(env, st, r.localToRemote, r.remoteToLocal, r.nonce);
    if a.Success? {
      AuthorizedSplit(env, st, r.localToRemote, r.remoteToLocal, r.nonce);
    }
    RequestExactly(st, r, a);
  }

  lemma RequestExactly(st: State, r: Request, a: Result<Authority, CommitmentError>)
    requires a.Success? ==>
               && Moved(st, r.localToRemote, r.remoteToLocal).Success?
               && CheckSplit(st, Moved(st, r.localToRemote, r.remoteToLocal).value.0,
                             Moved(st, r.localToRemote, r.remoteToLocal).value.1).None?
    ensures RequestFault(st, r, a).None? <==>
              r.nonce !in st.usedNonces && Assemble(st, r.localToRemote, r.remoteToLocal, r.nonce, a) == Success(r)
  {
  }

  /** Every stored commitment has its number, its digest and balances that add up, exactly when the check
      finds nothing. */
  predicate CommitmentFine(env: Env, st: State, n: u64, k: Commitment) {
    && k.number == n && k.local + k.remote == st.total
    && k.stateDigest == StateDigest(env.sha, st.channelId, st.assetId, n, k.local, k.remote)
  }

  lemma {:induction false} CommitmentsExact(env: Env, st: State, m: map<u64, Commitment>)
    ensures CheckCommitments(env, st, m).None? <==> forall n <- m :: CommitmentFine(env, st, n, m[n])
    decreases |m|
  {
    if m != map[] {
      var last := Greatest(m.Keys);
      assert (m - {last}).Keys == m.Keys - {last};
      CommitmentsExact(env, st, m - {last});
      assert CheckCommitment(env, st, last, m[last]).None? <==> CommitmentFine(env, st, last, m[last]);
      assert forall n <- m :: n == last || (n in m - {last} && m[n] == (m - {last})[n]);
    }
  }
}
