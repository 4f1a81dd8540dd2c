/** What the ids and digests of HTLCs, payments, quotes and checkpoints fix: everything they are derived
    from. */
module IdBinding {
  import opened ByteBits
  import opened Primitives
  import opened Text
  import opened ChannelBinding
  import CommitmentState
  import HtlcStore
  import Payments
  import Recovery
  import RfqQuotes

  // ----- parts that tell where they end -----

  /** Neither part is a proper prefix of the other. */
  predicate Apart(x: Bytes, y: Bytes) {
    x <= y || y <= x ==> x == y
  }

  predicate Delimited(xs: seq<Bytes>, ys: seq<Bytes>) {
    |xs| == |ys| && forall i | 0 <= i < |xs| :: Apart(xs[i], ys[i])
  }

  lemma {:induction false} OneStarts(a: Bytes, x: Bytes, b: Bytes, y: Bytes)
    requires a + x == b + y
    ensures a <= b || b <= a
  {
    var all := a + x;
    assert all[..|a|] == a && all[..|b|] == b;
    if |a| <= |b| {
      assert all[..|b|][..|a|] == all[..|a|];
    } else {
      assert all[..|a|][..|b|] == all[..|b|];
    }
  }

  lemma {:induction false} ApartStart(a: Bytes, x: Bytes, b: Bytes, y: Bytes)
    requires Apart(a, b) && a + x == b + y
    ensures a == b && x == y
  {
    OneStarts(a, x, b, y);
    SplitAt(a, x, b, y);
  }

  /** Such parts can be told from their concatenation. */
  lemma {:induction false} DelimitedInjective(xs: seq<Bytes>, ys: seq<Bytes>)
    requires Delimited(xs, ys) && Concat(xs) == Concat(ys)
    ensures xs == ys
    decreases |xs|
  {
    if xs != [] {
      assert xs == [xs[0]] + xs[1..] && ys == [ys[0]] + ys[1..];
      ConcatCons(xs[0], xs[1..]);
      ConcatCons(ys[0], ys[1..]);
      ApartStart(xs[0], Concat(xs[1..]), ys[0], Concat(ys[1..]));
      DelimitedInjective(xs[1..], ys[1..]);
    }
  }

  lemma {:induction false} DelimitedBinds(sha: Sha256, xs: seq<Bytes>, ys: seq<Bytes>)
    requires Delimited(xs, ys) && Digest(sha, xs) == Digest(sha, ys)
    ensures xs == ys || IsCollision(sha, (Concat(xs), Concat(ys)))
  {
    if Concat(xs) == Concat(ys) {
      DelimitedInjective(xs, ys);
    }
  }

  lemma {:induction false} HexDelimitedBinds(sha: Sha256, xs: seq<Bytes>, ys: seq<Bytes>)
    requires Delimited(xs, ys) && Hex(Digest(sha, xs)) == Hex(Digest(sha, ys))
    ensures xs == ys || IsCollision(sha, (Concat(xs), Concat(ys)))
  {
    HexInjective(Digest(sha, xs), Digest(sha, ys));
    DelimitedBinds(sha, xs, ys);
  }

  lemma {:induction false} CountedApart(a: Text, b: Text)
    requires Sized(a) && Sized(b)
    ensures Apart(Counted(a), Counted(b))
  {
    var x, y := Counted(a), Counted(b);
    if x <= y || y <= x {
      assert x[..8] == ToBe(|a|, 8) && y[..8] == ToBe(|b|, 8);
      assert x[..8] == y[..8];
      U64BeInjective(|a|, |b|);
    }
  }

  // ----- HTLCs and payments -----

  /** An HTLC id fixes the channel and the terms. */
  lemma HtlcIdBinds(sha: Sha256, c: Text, v: HtlcStore.Validation, d: Text, w: HtlcStore.Validation)
    requires HtlcStore.HtlcId(sha, c, v) == HtlcStore.HtlcId(sha, d, w)
    ensures || (c == d && v == w)
            || IsCollision(sha, (Concat(HtlcStore.HtlcParts(c, v)), Concat(HtlcStore.HtlcParts(d, w))))
  {
    var p, q := HtlcStore.HtlcParts(c, v), HtlcStore.HtlcParts(d, w);
    HexInjective(Digest(sha, p), Digest(sha, q));
    assert |p[0]| == |q[0]|;
    DigestBinds(sha, p, q, 1);
    if p == q {
      assert p[1] == q[1] && p[2] == q[2] && p[3] == q[3] && p[4] == q[4] && p[5] == q[5] && p[6] == q[6];
      CountedInjective(c, d);
      U64BeInjective(v.amount, w.amount);
      U64BeInjective(v.msat, w.msat);
    }
  }

  /** A final-hop digest fixes the records it is taken over: version, asset, amount, root, quote and payment
      hash. */
  lemma FinalHopBinds(sha: Sha256, r: HtlcStore.HtlcRecords, t: HtlcStore.HtlcRecords)
    requires HtlcStore.FinalHopDigest(sha, r) == HtlcStore.FinalHopDigest(sha, t)
    ensures || (r.protocolVersion == t.protocolVersion && r.assetId == t.assetId && r.amount == t.amount
                && r.root == t.root && r.quoteId == t.quoteId && r.paymentHash == t.paymentHash)
            || IsCollision(sha, (Concat(HtlcStore.FinalHopParts(r)), Concat(HtlcStore.FinalHopParts(t))))
  {
    var p, q := HtlcStore.FinalHopParts(r), HtlcStore.FinalHopParts(t);
    assert p[0] == q[0];
    DigestBinds(sha, p, q, 0);
    if p == q {
      assert p[1] == q[1] && p[2] == q[2] && p[3] == q[3] && p[4] == q[4] && p[5] == q[5] && p[6] == q[6] && p[7] == q[7];
      Version(r.protocolVersion, t.protocolVersion);
      U64BeInjective(r.amount, t.amount);
      U64BeInjective(r.root.sum, t.root.sum);
    }
  }

  lemma Version(v: HtlcStore.u16, w: HtlcStore.u16)
    requires ToBe(v, 2) == ToBe(w, 2)
    ensures v == w
  {
    assert Pow256(2) == 0x1_0000;
    FromToBe(v, 2);
    FromToBe(w, 2);
  }

  /** A payment id fixes the channel, the quote and the payment hash. */
  lemma PaymentIdBinds(sha: Sha256, c: Text, x: Text, h: Bytes32, d: Text, y: Text, g: Bytes32)
    requires Sized(c) && Sized(x) && Sized(d) && Sized(y)
    requires Payments.PaymentId(sha, c, x, h) == Payments.PaymentId(sha, d, y, g)
    ensures || (c == d && x == y && h == g)
            || IsCollision(sha, (Concat(Payments.PaymentParts(c, x, h)), Concat(Payments.PaymentParts(d, y, g))))
  {
    var p, q := Payments.PaymentParts(c, x, h), Payments.PaymentParts(d, y, g);
    CountedApart(c, d);
    CountedApart(x, y);
    assert p[0] == q[0];
    HexDelimitedBinds(sha, p, q);
    if p == q {
      assert p[1] == q[1] && p[2] == q[2] && p[3] == q[3];
      CountedInjective(c, d);
      CountedInjective(x, y);
    }
  }

  // ----- quotes -----

  function PartsOf(q: RfqQuotes.Quote): seq<Bytes> {
    RfqQuotes.QuoteParts(q.peer, q.assetId, q.amount, q.msat, q.expiry, q.context, q.scidAlias, q.domain)
  }

  /** What a quote is bound to. */
  predicate SameTerms(q: RfqQuotes.Quote, r: RfqQuotes.Quote) {
    && q.peer == r.peer && q.assetId == r.assetId && q.amount == r.amount && q.msat == r.msat
    && q.expiry == r.expiry && q.context == r.context && q.scidAlias == r.scidAlias && q.domain == r.domain
  }

  lemma {:induction false} QuotePartsInjective(q: RfqQuotes.Quote, r: RfqQuotes.Quote)
    requires PartsOf(q) == PartsOf(r)
    ensures SameTerms(q, r)
  {
    var x, y := PartsOf(q), PartsOf(r);
    assert x[1] == y[1] && x[2] == y[2] && x[3] == y[3] && x[4] == y[4];
    assert x[5] == y[5] && x[6] == y[6] && x[7] == y[7] && x[8] == y[8];
    CountedInjective(q.peer, r.peer);
    CountedInjective(q.domain, r.domain);
    U64BeInjective(q.amount, r.amount);
    U64BeInjective(q.msat, r.msat);
    U64BeInjective(q.expiry, r.expiry);
    U64BeInjective(q.scidAlias, r.scidAlias);
  }

  lemma {:induction false} QuotePartsDelimited(q: RfqQuotes.Quote, r: RfqQuotes.Quote)
    requires Sized(q.peer) && Sized(q.domain) && Sized(r.peer) && Sized(r.domain)
    ensures Delimited(PartsOf(q), PartsOf(r))
  {
    var x, y := PartsOf(q), PartsOf(r);
    CountedApart(q.peer, r.peer);
    CountedApart(q.domain, r.domain);
    assert x[0] == y[0];
    assert forall i | 2 <= i < 8 :: |x[i]| == |y[i]|;
  }

  /** A quote id fixes the peer, the asset, the amount, the price, the expiry, the context, the alias and the
      replay domain. */
  lemma {:induction false} QuoteIdBinds(sha: Sha256, q: RfqQuotes.Quote, r: RfqQuotes.Quote)
    requires Sized(q.peer) && Sized(q.domain) && Sized(r.peer) && Sized(r.domain)
    requires RfqQuotes.BindingId(sha, q) == RfqQuotes.BindingId(sha, r)
    ensures SameTerms(q, r) || IsCollision(sha, (Concat(PartsOf(q)), Concat(PartsOf(r))))
  {
    QuotePartsDelimited(q, r);
    HexDelimitedBinds(sha, PartsOf(q), PartsOf(r));
    if PartsOf(q) == PartsOf(r) {
      QuotePartsInjective(q, r);
    }
  }

  // ----- the commitment chain -----

  function ChainParts(st: CommitmentState.State, k: CommitmentState.Commitment): seq<Bytes> {
    CommitmentState.HistoryParts(st, k.number, k.local, k.remote, k.stateDigest, k.virtualTxId, k.priorOutputId)
  }

  /** What the names of a commitment's record are derived from. */
  predicate SameChained(a: CommitmentState.State, x: CommitmentState.Commitment,
                        b: CommitmentState.State, y: CommitmentState.Commitment)
  {
    && a.channelId == b.channelId && a.assetId == b.assetId && x.number == y.number && x.local == y.local
    && x.remote == y.remote && x.stateDigest == y.stateDigest && x.virtualTxId == y.virtualTxId
    && x.priorOutputId == y.priorOutputId
  }

  /** Two commitments with one digest in their names agree in everything it is derived from exactly when their
      channel ids, which are hashed without their lengths, are of one length. */
  lemma {:induction false} ChainDigestBinds(sha: Sha256, a: CommitmentState.State, x: CommitmentState.Commitment,
                                            b: CommitmentState.State, y: CommitmentState.Commitment)
    requires Digest(sha, ChainParts(a, x)) == Digest(sha, ChainParts(b, y))
    ensures || (SameChained(a, x, b, y) <==> |a.channelId| == |b.channelId|)
            || IsCollision(sha, (Concat(ChainParts(a, x)), Concat(ChainParts(b, y))))
  {
    if |a.channelId| == |b.channelId| {
      ChainPartsBind(sha, a, x, b, y);
    }
  }

  lemma {:induction false} ChainPartsBind(sha: Sha256, a: CommitmentState.State, x: CommitmentState.Commitment,
                                          b: CommitmentState.State, y: CommitmentState.Commitment)
    requires |a.channelId| == |b.channelId| && Digest(sha, ChainParts(a, x)) == Digest(sha, ChainParts(b, y))
    ensures SameChained(a, x, b, y) || IsCollision(sha, (Concat(ChainParts(a, x)), Concat(ChainParts(b, y))))
  {
    var p, q := ChainParts(a, x), ChainParts(b, y);
    assert p[0] == q[0] && |p[1]| == |q[1]|;
    assert forall i | 2 <= i < 8 :: |p[i]| == |q[i]|;
    DigestBinds(sha, p, q, 8);
    if p == q {
      assert p[1] == q[1] && p[2] == q[2] && p[3] == q[3] && p[4] == q[4] && p[5] == q[5] && p[6] == q[6] && p[7] == q[7];
      assert p[8] == q[8];
      U64BeInjective(x.number, y.number);
      U64BeInjective(x.local, y.local);
      U64BeInjective(x.remote, y.remote);
      CountedInjective(x.priorOutputId, y.priorOutputId);
    }
  }

  // ----- checkpoints -----

  predicate OptionSized(t: Option<Text>) {
    t.Some? ==> Sized(t.value)
  }

  lemma {:induction false} OptionalApart(a: Option<Text>, b: Option<Text>)
    requires OptionSized(a) && OptionSized(b)
    ensures Apart(Recovery.Optional(a), Recovery.Optional(b))
    ensures Recovery.Optional(a) == Recovery.Optional(b) ==> a == b
  {
    var x, y := Recovery.Optional(a), Recovery.Optional(b);
    assert x[0] == (if a.Some? then 1 else 0) && y[0] == if b.Some? then 1 else 0;
    if a.Some? && b.Some? {
      CountedApart(a.value, b.value);
      var u, v := x[1..], y[1..];
      assert u == Counted(a.value) && v == Counted(b.value);
      if x <= y {
        assert u <= v;
      }
      if y <= x {
        assert v <= u;
      }
      if u == v {
        CountedInjective(a.value, b.value);
      }
    }
  }

  lemma {:induction false} CloseApart(a: Option<Recovery.ClosePreparation>, b: Option<Recovery.ClosePreparation>)
    ensures Apart(Recovery.CloseBytes(a), Recovery.CloseBytes(b))
    ensures Recovery.CloseBytes(a) == Recovery.CloseBytes(b) ==>
              (a.Some? <==> b.Some?) && (a.Some? ==> a.value.closeDigest == b.value.closeDigest)
  {
    var x, y := Recovery.CloseBytes(a), Recovery.CloseBytes(b);
    assert x[0] == (if a.Some? then 1 else 0) && y[0] == if b.Some? then 1 else 0;
    if a.Some? && b.Some? {
      assert x[1..] == a.value.closeDigest && y[1..] == b.value.closeDigest;
    }
  }

  predicate CheckpointSized(c: Recovery.Checkpoint) {
    Sized(c.channelId) && OptionSized(c.quoteId) && OptionSized(c.htlcId) && OptionSized(c.paymentId)
  }

  /** Everything a checkpoint's digest covers: of a close preparation, its digest. */
  predicate SameCheckpoint(c: Recovery.Checkpoint, d: Recovery.Checkpoint) {
    && c.stage == d.stage && c.channelId == d.channelId && c.assetId == d.assetId && c.number == d.number
    && c.local == d.local && c.remote == d.remote && c.total == d.total
    && c.quoteId == d.quoteId && c.htlcId == d.htlcId && c.paymentId == d.paymentId
    && (c.close.Some? <==> d.close.Some?) && (c.close.Some? ==> c.close.value.closeDigest == d.close.value.closeDigest)
  }

  lemma StagesDiffer(s: Recovery.Stage, t: Recovery.Stage)
    ensures [Recovery.StageByte(s)] == [Recovery.StageByte(t)] ==> s == t
  {
    assert [Recovery.StageByte(s)][0] == Recovery.StageByte(s);
  }

  lemma {:induction false} CheckpointDelimited(c: Recovery.Checkpoint, d: Recovery.Checkpoint)
    requires CheckpointSized(c) && CheckpointSized(d)
    ensures Delimited(Recovery.CheckpointParts(c), Recovery.CheckpointParts(d))
  {
    var p, q := Recovery.CheckpointParts(c), Recovery.CheckpointParts(d);
    CountedApart(c.channelId, d.channelId);
    OptionalApart(c.quoteId, d.quoteId);
    OptionalApart(c.htlcId, d.htlcId);
    OptionalApart(c.paymentId, d.paymentId);
    CloseApart(c.close, d.close);
    assert p[0] == q[0] && |p[1]| == |q[1]|;
    assert forall i | 3 <= i < 8 :: |p[i]| == |q[i]|;
  }

  lemma {:induction false} CheckpointPartsInjective(c: Recovery.Checkpoint, d: Recovery.Checkpoint)
    requires CheckpointSized(c) && CheckpointSized(d) && Recovery.CheckpointParts(c) == Recovery.CheckpointParts(d)
    ensures SameCheckpoint(c, d)
  {
    var p, q := Recovery.CheckpointParts(c), Recovery.CheckpointParts(d);
    assert p[1] == q[1] && p[2] == q[2] && p[3] == q[3] && p[4] == q[4] && p[5] == q[5] && p[6] == q[6] && p[7] == q[7];
    assert p[8] == q[8] && p[9] == q[9] && p[10] == q[10] && p[11] == q[11];
    StagesDiffer(c.stage, d.stage);
    CountedInjective(c.channelId, d.channelId);
    U64BeInjective(c.number, d.number);
    U64BeInjective(c.local, d.local);
    U64BeInjective(c.remote, d.remote);
    U64BeInjective(c.total, d.total);
    OptionalApart(c.quoteId, d.quoteId);
    OptionalApart(c.htlcId, d.htlcId);
    OptionalApart(c.paymentId, d.paymentId);
    CloseApart(c.close, d.close);
  }

  /** A checkpoint that passes its check under another one's digest is that checkpoint, in its stage, channel,
      number, balances, references and the digest of its close, unless the hash collides. */
  lemma {:induction false} CheckpointBinds(sha: Sha256, c: Recovery.Checkpoint, d: Recovery.Checkpoint)
    requires CheckpointSized(c) && CheckpointSized(d) && c.digest == d.digest
    requires Recovery.CheckpointFault(sha, c).None? && Recovery.CheckpointFault(sha, d).None?
    ensures || SameCheckpoint(c, d)
            || IsCollision(sha, (Concat(Recovery.CheckpointParts(c)), Concat(Recovery.CheckpointParts(d))))
  {
    CheckpointDelimited(c, d);
    DelimitedBinds(sha, Recovery.CheckpointParts(c), Recovery.CheckpointParts(d));
    if Recovery.CheckpointParts(c) == Recovery.CheckpointParts(d) {
      CheckpointPartsInjective(c, d);
    }
  }

  /** A close digest fixes the channel, the asset, the number and the balances. */
  lemma CloseDigestBinds(sha: Sha256, p: Recovery.ClosePreparation, q: Recovery.ClosePreparation)
    requires Recovery.CloseFault(sha, p).None? && Recovery.CloseFault(sha, q).None? && p.closeDigest == q.closeDigest
    ensures || p == q
            || IsCollision(sha, (Concat(Recovery.CloseParts(p.channelId, p.assetId, p.number, p.local, p.remote)),
                                 Concat(Recovery.CloseParts(q.channelId, q.assetId, q.number, q.local, q.remote))))
  {
    var x := Recovery.CloseParts(p.channelId, p.assetId, p.number, p.local, p.remote);
    var y := Recovery.CloseParts(q.channelId, q.assetId, q.number, q.local, q.remote);
    assert x[0] == y[0];
    DigestBinds(sha, x, y, 1);
    if x == y {
      assert x[1] == y[1] && x[2] == y[2] && x[3] == y[3] && x[4] == y[4] && x[5] == y[5];
      CountedInjective(p.channelId, q.channelId);
      U64BeInjective(p.number, q.number);
      U64BeInjective(p.local, q.local);
      U64BeInjective(p.remote, q.remote);
    }
  }
}
