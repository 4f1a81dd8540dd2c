/** The virtual transaction that a channel balance update stands for: one input, two outputs, one
    witness. */
module TapVm {
  import opened ByteBits
  import opened Primitives

  datatype TapVmError = AmountOverflow | AmountNotConserved(inputs: u64, outputs: u64) | EmptyWitness

  datatype BalanceUpdate = BalanceUpdate(assetId: Bytes32, total: u64, local: u64, remote: u64, nonce: Bytes32)

  const HTLC_SETTLEMENT: byte := 3
  const PREV_DOMAIN := "tap-ldk:virtual-prev-id:v1"
  const NONCE_DOMAIN := "tap-ldk:virtual-channel-update-witness:v1:nonce"
  const AUTHORIZATION_DOMAIN := "tap-ldk:virtual-channel-update-witness:v1:authorization"
  const TX_DOMAIN := "tap-ldk:asset-virtual-tx:v2"
  const WITNESS_DOMAIN := "tap-ldk:asset-virtual-witness:v2"

  function KeyOf(b: byte): (k: Key33) {
    seq(33, i => b)
  }

  /** A digest over the asset id, the input index, which is zero, and the asset nonce. */
  function Context(domain: string, u: BalanceUpdate): seq<Bytes> {
    [Ascii(domain), u.assetId, U64Be(0), u.nonce]
  }

  function PreviousId(sha: Sha256, u: BalanceUpdate): Bytes32 {
    Digest(sha, Context(PREV_DOMAIN, u))
  }

  function WitnessNonce(sha: Sha256, u: BalanceUpdate): Bytes32 {
    Digest(sha, Context(NONCE_DOMAIN, u))
  }

  function AuthorizationParts(sha: Sha256, u: BalanceUpdate): seq<Bytes> {
    Context(AUTHORIZATION_DOMAIN, u) + [WitnessNonce(sha, u)]
  }

  function Authorization(sha: Sha256, u: BalanceUpdate): Bytes32 {
    Digest(sha, AuthorizationParts(sha, u))
  }

  function Validate(sha: Sha256, u: BalanceUpdate): Option<TapVmError> {
    if u.local + u.remote >= U64_LIMIT then Some(AmountOverflow)
    else if u.total != u.local + u.remote then Some(AmountNotConserved(u.total, u.local + u.remote))
    else if WitnessNonce(sha, u) == ZERO32 || Authorization(sha, u) == ZERO32 then Some(EmptyWitness)
    else None
  }

  /** An output: its index, its amount and its script key. */
  function OutputBytes(index: nat, amount: u64, tag: byte): (s: Bytes)
    ensures |s| == 45
  {
    ToBe(index, 4) + U64Be(amount) + KeyOf(tag)
  }

  function TxParts(sha: Sha256, u: BalanceUpdate): seq<Bytes> {
    [Ascii(TX_DOMAIN) + [0, HTLC_SETTLEMENT], u.assetId,
     U64Be(1), U64Be(u.total), PreviousId(sha, u),
     U64Be(2), OutputBytes(0, u.local, 2), OutputBytes(1, u.remote, 3),
     U64Be(1), WitnessNonce(sha, u), Authorization(sha, u)]
  }

  function TxId(sha: Sha256, u: BalanceUpdate): Result<Bytes32, TapVmError> {
    if Validate(sha, u).Some? then Failure(Validate(sha, u).value) else Success(Digest(sha, TxParts(sha, u)))
  }

  function WitnessParts(sha: Sha256, u: BalanceUpdate): seq<Bytes> {
    [Ascii(WITNESS_DOMAIN), [0, HTLC_SETTLEMENT], u.assetId, U64Be(1), WitnessNonce(sha, u), Authorization(sha, u)]
  }

  function WitnessDigest(sha: Sha256, u: BalanceUpdate): Result<Bytes32, TapVmError> {
    if Validate(sha, u).Some? then Failure(Validate(sha, u).value)
    else Success(Digest(sha, WitnessParts(sha, u)))
  }

  /** Where two updates with one transaction id collide, if they differ. */
  function TxCollision(sha: Sha256, u: BalanceUpdate, v: BalanceUpdate): (Bytes, Bytes) {
    var x, y := Concat(TxParts(sha, u)), Concat(TxParts(sha, v));
    if x != y then (x, y) else (Concat(Context(PREV_DOMAIN, u)), Concat(Context(PREV_DOMAIN, v)))
  }

  lemma OutputInjective(index: nat, tag: byte, x: u64, y: u64)
    requires OutputBytes(index, x, tag) == OutputBytes(index, y, tag)
    ensures x == y
  {
    SplitAt(ToBe(index, 4) + U64Be(x), KeyOf(tag), ToBe(index, 4) + U64Be(y), KeyOf(tag));
    SplitAt(ToBe(index, 4), U64Be(x), ToBe(index, 4), U64Be(y));
    U64BeInjective(x, y);
  }

  lemma TxShape(sha: Sha256, u: BalanceUpdate, v: BalanceUpdate)
    ensures SameShape(TxParts(sha, u), TxParts(sha, v))
  {
    var x, y := TxParts(sha, u), TxParts(sha, v);
    assert x[0] == y[0] && x[2] == y[2] && x[5] == y[5] && x[8] == y[8];
  }

  lemma TxPartsAgree(sha: Sha256, u: BalanceUpdate, v: BalanceUpdate)
    requires Concat(TxParts(sha, u)) == Concat(TxParts(sha, v))
    ensures TxParts(sha, u) == TxParts(sha, v)
  {
    var x, y := TxParts(sha, u), TxParts(sha, v);
    TxShape(sha, u, v);
    ConcatInjective(x, y, |x|);
  }

  lemma TxPartsInjective(sha: Sha256, u: BalanceUpdate, v: BalanceUpdate)
    requires TxParts(sha, u) == TxParts(sha, v)
    ensures u.total == v.total && u.local == v.local && u.remote == v.remote
    ensures PreviousId(sha, u) == PreviousId(sha, v)
  {
    var x, y := TxParts(sha, u), TxParts(sha, v);
    assert x[3] == y[3] && x[4] == y[4] && x[6] == y[6] && x[7] == y[7];
    U64BeInjective(u.total, v.total);
    OutputInjective(0, 2, u.local, v.local);
    OutputInjective(1, 3, u.remote, v.remote);
  }

  lemma ContextInjective(domain: string, u: BalanceUpdate, v: BalanceUpdate)
    requires Concat(Context(domain, u)) == Concat(Context(domain, v))
    ensures u.assetId == v.assetId && u.nonce == v.nonce
  {
    var a, b := Context(domain, u), Context(domain, v);
    ConcatInjective(a, b, |a|);
    assert a[1] == b[1] && a[3] == b[3];
  }

  /** A transaction id fixes the balances and the nonce, unless the hash collides. */
  lemma TxIdBinds(sha: Sha256, u: BalanceUpdate, v: BalanceUpdate)
    requires TxId(sha, u).Success? && TxId(sha, u) == TxId(sha, v)
    ensures u == v || IsCollision(sha, TxCollision(sha, u, v))
  {
    if Concat(TxParts(sha, u)) == Concat(TxParts(sha, v)) {
      TxPartsAgree(sha, u, v);
      TxPartsInjective(sha, u, v);
      if Concat(Context(PREV_DOMAIN, u)) == Concat(Context(PREV_DOMAIN, v)) {
        ContextInjective(PREV_DOMAIN, u, v);
      }
    }
  }

  // ----- the witness -----

  lemma ContextBinds(sha: Sha256, domain: string, u: BalanceUpdate, v: BalanceUpdate)
    requires Digest(sha, Context(domain, u)) == Digest(sha, Context(domain, v))
    ensures || (u.assetId == v.assetId && u.nonce == v.nonce)
            || IsCollision(sha, (Concat(Context(domain, u)), Concat(Context(domain, v))))
  {
    if Concat(Context(domain, u)) == Concat(Context(domain, v)) {
      ContextInjective(domain, u, v);
    }
  }

  /** Where two updates with one authorization collide, if they differ in asset or nonce. */
  function AuthorizationCollision(sha: Sha256, u: BalanceUpdate, v: BalanceUpdate): (Bytes, Bytes) {
    (Concat(AuthorizationParts(sha, u)), Concat(AuthorizationParts(sha, v)))
  }

  /** An authorization fixes the asset, the nonce and the nonce of the witness. */
  lemma AuthorizationBinds(sha: Sha256, u: BalanceUpdate, v: BalanceUpdate)
    requires Authorization(sha, u) == Authorization(sha, v)
    ensures || (u.assetId == v.assetId && u.nonce == v.nonce && WitnessNonce(sha, u) == WitnessNonce(sha, v))
            || IsCollision(sha, AuthorizationCollision(sha, u, v))
  {
    var p, q := AuthorizationParts(sha, u), AuthorizationParts(sha, v);
    assert |p| == |q| == 5;
    DigestBinds(sha, p, q, 0);
    if p == q {
      assert p[1] == q[1] && p[3] == q[3] && p[4] == q[4];
    }
  }

  function WitnessCollision(sha: Sha256, u: BalanceUpdate, v: BalanceUpdate): (Bytes, Bytes) {
    var x, y := Concat(WitnessParts(sha, u)), Concat(WitnessParts(sha, v));
    if x != y then (x, y) else AuthorizationCollision(sha, u, v)
  }

  lemma WitnessPartsAgree(sha: Sha256, u: BalanceUpdate, v: BalanceUpdate)
    requires Concat(WitnessParts(sha, u)) == Concat(WitnessParts(sha, v))
    ensures u.assetId == v.assetId && WitnessNonce(sha, u) == WitnessNonce(sha, v)
    ensures Authorization(sha, u) == Authorization(sha, v)
  {
    var p, q := WitnessParts(sha, u), WitnessParts(sha, v);
    assert |p[0]| == |q[0]| && |p[1]| == |q[1]|;
    ConcatInjective(p, q, 0);
    assert p[2] == q[2] && p[4] == q[4] && p[5] == q[5];
  }

  /** Two updates have one witness digest exactly when they are of one asset and one nonce, whatever their
      balances, unless the hash collides; the balances are fixed by the transaction id. */
  lemma WitnessBinds(sha: Sha256, u: BalanceUpdate, v: BalanceUpdate)
    requires WitnessDigest(sha, u).Success? && WitnessDigest(sha, v).Success?
    ensures || (WitnessDigest(sha, u) == WitnessDigest(sha, v) <==> u.assetId == v.assetId && u.nonce == v.nonce)
            || IsCollision(sha, WitnessCollision(sha, u, v))
  {
    if u.assetId == v.assetId && u.nonce == v.nonce {
      SameWitness(sha, u, v);
    } else if Concat(WitnessParts(sha, u)) == Concat(WitnessParts(sha, v)) {
      WitnessPartsAgree(sha, u, v);
      AuthorizationBinds(sha, u, v);
    }
  }

  lemma SameWitness(sha: Sha256, u: BalanceUpdate, v: BalanceUpdate)
    requires u.assetId == v.assetId && u.nonce == v.nonce
    ensures WitnessParts(sha, u) == WitnessParts(sha, v)
  {
    assert forall d: string :: Context(d, u) == Context(d, v);
  }

  /** A balance update has a transaction id, and with it a witness digest, exactly when its outputs add up
      to its input and neither half of its witness is all zeros. */
  lemma IdsExactly(sha: Sha256, u: BalanceUpdate)
    ensures TxId(sha, u).Success? <==>
              && u.local + u.remote == u.total
              && Digest(sha, Context(NONCE_DOMAIN, u)) != ZERO32 && Authorization(sha, u) != ZERO32
    ensures WitnessDigest(sha, u).Success? <==> TxId(sha, u).Success?
  {
  }
}
