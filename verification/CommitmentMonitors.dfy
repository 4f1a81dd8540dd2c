/** The monitor of a channel, over every run: it is always that of the latest commitment. */
module CommitmentMonitors {
  import opened ByteBits
  import opened Primitives
  import opened Text
  import opened Channels
  import opened CommitmentState
  import opened CommitmentLedger
  import opened CommitmentReplay
  import opened CommitmentBinding
  import CommitmentChecks
  import CommitmentStore

  // ----- the check on a state -----

  /** A state passes its check exactly when its balances add up, its latest commitment is not revoked, its
      monitor is the one built for it and LDK accepts that, its nonces and commitments are in order, and its
      history is a chain of commitments that replays from the funding to the latest of them. */
  lemma {:induction false} StateExactly(env: Env, st: State)
    ensures CheckState(env, st).None? <==>
              && st.local + st.remote == st.total && st.latest !in st.revoked
              && BuiltMonitor(env, st) == Success(st.monitor)
              && env.parseHex(st.channelId).Some? && env.auxAccepts(MonitorFields(env, st))
              && (forall x <- st.usedNonces :: var n := st.usedNonces[x]; n in st.commitments && st.commitments[n].nonce == x)
              && (forall n <- st.commitments :: CommitmentFine(env, st, n, st.commitments[n]))
              && CommitmentChecks.HistoryInOrder(env, st)
  {
    StateChecked(env, st);
    MonitorExact(env, st);
    CommitmentsExact(env, st, st.commitments);
    CommitmentChecks.HistoryExactly(env, st);
  }

  // ----- the monitor of a run -----

  /** The monitor names the number, the state, the nonce and the signature of the latest commitment, and the
      state its balances. */
  predicate MonitorsLatest(st: State, k: Commitment) {
    && st.monitor.number == k.number == st.latest && st.monitor.stateDigest == k.stateDigest
    && st.monitor.nonceDigest == k.nonce && st.monitor.signatureDigest == k.signature
    && st.local == k.local && st.remote == k.remote
  }

  predicate MonitorTracks(st: State) {
    st.latest in st.commitments ==> MonitorsLatest(st, st.commitments[st.latest])
  }

  lemma {:induction false} BuiltNames(env: Env, channelId: Text, assetId: Bytes32, number: u64, local: u64, remote: u64,
                                      digest: Bytes32, root: RootHashSum, nonce: Bytes32, signature: Bytes32)
    requires BuildMonitor(env, channelId, assetId, number, local, remote, digest, root, nonce, signature).Success?
    ensures var m := BuildMonitor(env, channelId, assetId, number, local, remote, digest, root, nonce, signature).value;
            && m.persisted && m.number == number && m.stateDigest == digest && m.root == root
            && m.nonceDigest == nonce && m.signatureDigest == signature
  {
  }

  lemma {:induction false} UpdateMonitors(env: Env, st: State, r: Request)
    requires UpdateState(env, st, r).Success?
    ensures MonitorTracks(UpdateState(env, st, r).value.0)
  {
    Updated(env, st, r);
    var s := ValidateUpdate(env, st, r).value;
    BuiltNames(env, st.channelId, st.assetId, s.number, s.local, s.remote, s.stateDigest, st.monitor.root, r.nonce,
               r.signature);
  }

  lemma {:induction false} OpenedEmpty(env: Env, c: StoredChannel)
    requires OpenState(env, c).Success?
    ensures OpenState(env, c).value.commitments == map[]
  {
  }

  /** After every run the monitor of every channel is that of its latest commitment. */
  lemma {:induction false} RunMonitors(env: Env, ops: seq<CommitmentStore.Op>, id: Text)
    requires id in CommitmentStore.Run(env, ops).channels
    ensures MonitorTracks(CommitmentStore.Run(env, ops).channels[id])
  {
    var front, op := ops[..|ops| - 1], ops[|ops| - 1];
    var s := CommitmentStore.Run(env, front);
    match op
    case Open(c) =>
      CommitmentStore.InitializeEffect(env, s, c);
      if id in s.channels {
        RunMonitors(env, front, id);
      } else {
        OpenedEmpty(env, c);
      }
    case Update(r) =>
      CommitmentStore.ApplyEffect(env, s, r);
      if CommitmentStore.Apply(env, s, r).0.Success? && r.channelId == id {
        UpdateMonitors(env, s.channels[id], r);
      } else {
        RunMonitors(env, front, id);
      }
  }

  // ----- the digests a channel opens with -----

  lemma {:induction false} DomainsApart(d: string, x: seq<Bytes>, e: string, y: seq<Bytes>, i: nat)
    requires i < |d| && i < |e| && Ascii(d)[i] != Ascii(e)[i]
    ensures Concat([Ascii(d)] + x) != Concat([Ascii(e)] + y)
  {
    ConcatStart([Ascii(d)] + x);
    ConcatStart([Ascii(e)] + y);
    var p, q := Concat([Ascii(d)] + x), Concat([Ascii(e)] + y);
    assert ([Ascii(d)] + x)[0] == Ascii(d) && ([Ascii(e)] + y)[0] == Ascii(e);
    assert p[i] == Ascii(d)[i] && q[i] == Ascii(e)[i];
  }

  const NONCE_DOMAIN := "tap-ldk:asset-commitment-funding-nonce:v1"
  const SIGNATURE_DOMAIN := "tap-ldk:asset-commitment-funding-signature:v1"

  /** The bytes a channel's first state, nonce and signature digests are taken of. */
  function StateBytes(c: StoredChannel): Bytes {
    Concat(StateParts(c.channelId, c.assetId, c.monitor.commitmentNumber, c.localBalance, c.remoteBalance))
  }

  function OpeningBytes(sha: Sha256, domain: string, c: StoredChannel): Bytes {
    Concat(ContextParts(domain, c.channelId, c.assetId, c.monitor.commitmentNumber, sha(StateBytes(c))))
  }

  lemma {:induction false} OpeningApart(sha: Sha256, c: StoredChannel)
    ensures StateBytes(c) != OpeningBytes(sha, NONCE_DOMAIN, c)
    ensures StateBytes(c) != OpeningBytes(sha, SIGNATURE_DOMAIN, c)
    ensures OpeningBytes(sha, NONCE_DOMAIN, c) != OpeningBytes(sha, SIGNATURE_DOMAIN, c)
  {
    var number, digest := c.monitor.commitmentNumber, sha(StateBytes(c));
    var s := StateParts(c.channelId, c.assetId, number, c.localBalance, c.remoteBalance);
    var n := ContextParts(NONCE_DOMAIN, c.channelId, c.assetId, number, digest);
    var g := ContextParts(SIGNATURE_DOMAIN, c.channelId, c.assetId, number, digest);
    var d := "tap-ldk:asset-commitment-state:v1";
    assert s == [Ascii(d)] + s[1..] && n == [Ascii(NONCE_DOMAIN)] + n[1..] && g == [Ascii(SIGNATURE_DOMAIN)] + g[1..];
    assert d[25] == 's' && NONCE_DOMAIN[25] == 'f' && SIGNATURE_DOMAIN[25] == 'f';
    assert NONCE_DOMAIN[33] == 'n' && SIGNATURE_DOMAIN[33] == 's';
    DomainsApart(d, s[1..], NONCE_DOMAIN, n[1..], 25);
    DomainsApart(d, s[1..], SIGNATURE_DOMAIN, g[1..], 25);
    DomainsApart(NONCE_DOMAIN, n[1..], SIGNATURE_DOMAIN, g[1..], 33);
  }

  /** Where two of the three coincide, if they do. */
  function OpeningCollision(sha: Sha256, c: StoredChannel): (Bytes, Bytes) {
    var s, n, g := StateBytes(c), OpeningBytes(sha, NONCE_DOMAIN, c), OpeningBytes(sha, SIGNATURE_DOMAIN, c);
    if sha(s) == sha(n) then (s, n) else if sha(s) == sha(g) then (s, g) else (n, g)
  }

  lemma {:induction false} OpenedWithDigests(env: Env, c: StoredChannel)
    requires OpenState(env, c).Success?
    ensures var m := OpenState(env, c).value.monitor;
            && m.stateDigest == env.sha(StateBytes(c)) && m.nonceDigest == env.sha(OpeningBytes(env.sha, NONCE_DOMAIN, c))
            && m.signatureDigest == env.sha(OpeningBytes(env.sha, SIGNATURE_DOMAIN, c))
            && m.number == c.monitor.commitmentNumber && m.root == c.fundingRoot
  {
  }

  /** A channel opens with a monitor whose state, nonce and signature digests are of three separate domains, so
      none of them can stand for another, unless the hash collides. */
  lemma {:induction false} OpeningDigestsApart(env: Env, c: StoredChannel)
    requires OpenState(env, c).Success?
    ensures var m := OpenState(env, c).value.monitor;
            || IsCollision(env.sha, OpeningCollision(env.sha, c))
            || (m.stateDigest != m.nonceDigest && m.stateDigest != m.signatureDigest && m.nonceDigest != m.signatureDigest)
  {
    OpenedWithDigests(env, c);
    OpeningApart(env.sha, c);
  }
}
