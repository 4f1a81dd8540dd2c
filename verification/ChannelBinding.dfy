/** A channel id fixes the channel it was derived from: peers, asset, outpoint, key, balances, proofs. */
module ChannelBinding {
  import opened ByteBits
  import opened Primitives
  import opened Text
  import opened Channels
  import opened Funding

  /** Texts in memory are shorter than 2^64 bytes. */
  predicate Sized(t: Text) {
    |t| < U64_LIMIT
  }

  predicate AllSized(ts: seq<Text>) {
    forall t <- ts :: Sized(t)
  }

  /** A counted text is self-delimiting. */
  lemma CountedSplit(a: Text, x: Bytes, b: Text, y: Bytes)
    requires Sized(a) && Sized(b) && Counted(a) + x == Counted(b) + y
    ensures a == b && x == y
  {
    Assoc(ToBe(|a|, 8), a, x);
    Assoc(ToBe(|b|, 8), b, y);
    SplitAt(ToBe(|a|, 8), a + x, ToBe(|b|, 8), b + y);
    U64BeInjective(|a|, |b|);
    SplitAt(a, x, b, y);
  }

  lemma {:induction false} CountedAllCons(t: Text, ts: seq<Text>)
    ensures CountedAll([t] + ts) == [Counted(t)] + CountedAll(ts)
  {
    var all := [t] + ts;
    if ts == [] {
      assert all[..0] == [];
      assert CountedAll([]) == [];
    } else {
      assert all[..|all| - 1] == [t] + ts[..|ts| - 1];
      CountedAllCons(t, ts[..|ts| - 1]);
    }
  }

  /** A concatenation of counted texts can be taken apart in one way only. */
  lemma {:induction false} CountedAllInjective(xs: seq<Text>, ys: seq<Text>)
    requires AllSized(xs) && AllSized(ys) && Concat(CountedAll(xs)) == Concat(CountedAll(ys))
    ensures xs == ys
    decreases |xs|
  {
    CountedAllStart(xs);
    CountedAllStart(ys);
    if xs != [] && ys != [] {
      var x, y := xs[1..], ys[1..];
      RestSized(xs);
      RestSized(ys);
      CountedSplit(xs[0], Concat(CountedAll(x)), ys[0], Concat(CountedAll(y)));
      CountedAllInjective(x, y);
      assert xs == [xs[0]] + x && ys == [ys[0]] + y;
    }
  }

  lemma RestSized(ts: seq<Text>)
    requires ts != [] && AllSized(ts)
    ensures Sized(ts[0]) && AllSized(ts[1..])
  {
    assert ts[0] in ts;
    assert forall t <- ts[1..] :: t in ts;
  }

  lemma {:induction false} CountedAllStart(xs: seq<Text>)
    ensures xs == [] ==> Concat(CountedAll(xs)) == []
    ensures xs != [] ==> Concat(CountedAll(xs)) == Counted(xs[0]) + Concat(CountedAll(xs[1..])) != []
  {
    if xs != [] {
      assert xs == [xs[0]] + xs[1..];
      CountedAllCons(xs[0], xs[1..]);
      ConcatCons(Counted(xs[0]), CountedAll(xs[1..]));
    }
  }

  /** The parts, one after another. */
  lemma {:induction false} ChannelPartsConcat(localPeer: Text, remotePeer: Text, assetId: Bytes32, outpoint: Text, key: Key33,
                           local: u64, remote: u64, sorted: seq<Text>)
    ensures Concat(ChannelParts(localPeer, remotePeer, assetId, outpoint, key, local, remote, sorted)) ==
              Ascii("tap-ldk:asset-channel-id:v1") + (Counted(localPeer) + (Counted(remotePeer) + (assetId
              + (Counted(outpoint) + (key + (U64Be(local) + (U64Be(remote) + Concat(CountedAll(sorted)))))))))
  {
    var d := Ascii("tap-ldk:asset-channel-id:v1");
    var t0 := CountedAll(sorted);
    var t1 := [U64Be(remote)] + t0;
    var t2 := [U64Be(local)] + t1;
    var t3 := [key] + t2;
    var t4 := [Counted(outpoint)] + t3;
    var t5 := [assetId] + t4;
    var t6 := [Counted(remotePeer)] + t5;
    var t7 := [Counted(localPeer)] + t6;
    ConcatCons(U64Be(remote), t0);
    ConcatCons(U64Be(local), t1);
    ConcatCons(key, t2);
    ConcatCons(Counted(outpoint), t3);
    ConcatCons(assetId, t4);
    ConcatCons(Counted(remotePeer), t5);
    ConcatCons(Counted(localPeer), t6);
    ConcatCons(d, t7);
    assert ChannelParts(localPeer, remotePeer, assetId, outpoint, key, local, remote, sorted) == [d] + t7;
  }

  function Preimage(c: StoredChannel): Bytes {
    Concat(ChannelParts(c.localPeer, c.remotePeer, c.assetId, c.fundingOutpoint, c.fundingScriptKey, c.localBalance,
                        c.remoteBalance, SortTexts(Spent(c))))
  }

  /** Everything a channel id is derived from, the proofs in any order. */
  predicate SameChannel(c: StoredChannel, d: StoredChannel) {
    && c.localPeer == d.localPeer && c.remotePeer == d.remotePeer && c.assetId == d.assetId
    && c.fundingOutpoint == d.fundingOutpoint && c.fundingScriptKey == d.fundingScriptKey
    && c.localBalance == d.localBalance && c.remoteBalance == d.remoteBalance
    && multiset(Spent(c)) == multiset(Spent(d))
  }

  predicate ChannelSized(c: StoredChannel) {
    Sized(c.localPeer) && Sized(c.remotePeer) && Sized(c.fundingOutpoint) && AllSized(Spent(c))
  }

  lemma {:induction false} InsertKeeps(s: seq<Text>, x: Text)
    ensures multiset(InsertText(s, x)) == multiset(s) + multiset{x}
  {
    if s != [] {
      InsertKeeps(s[..|s| - 1], x);
      assert s == s[..|s| - 1] + [s[|s| - 1]];
    }
  }

  /** Sorting keeps the texts. */
  lemma {:induction false} SortKeeps(s: seq<Text>)
    ensures multiset(SortTexts(s)) == multiset(s)
  {
    if s != [] {
      SortKeeps(s[..|s| - 1]);
      InsertKeeps(SortTexts(s[..|s| - 1]), s[|s| - 1]);
      assert s == s[..|s| - 1] + [s[|s| - 1]];
    }
  }

  lemma SortedSized(c: StoredChannel)
    requires ChannelSized(c)
    ensures AllSized(SortTexts(Spent(c)))
  {
    SortKeeps(Spent(c));
    forall t <- SortTexts(Spent(c))
      ensures Sized(t)
    {
      assert t in multiset(SortTexts(Spent(c)));
      assert t in Spent(c);
    }
  }

  lemma {:induction false} PreimageInjective(c: StoredChannel, d: StoredChannel)
    requires ChannelSized(c) && ChannelSized(d) && Preimage(c) == Preimage(d)
    ensures SameChannel(c, d)
  {
    var p, q := SortTexts(Spent(c)), SortTexts(Spent(d));
    ChannelPartsConcat(c.localPeer, c.remotePeer, c.assetId, c.fundingOutpoint, c.fundingScriptKey, c.localBalance,
                       c.remoteBalance, p);
    ChannelPartsConcat(d.localPeer, d.remotePeer, d.assetId, d.fundingOutpoint, d.fundingScriptKey, d.localBalance,
                       d.remoteBalance, q);
    PeelParts(Ascii("tap-ldk:asset-channel-id:v1"), c, Concat(CountedAll(p)), d, Concat(CountedAll(q)));
    SortedSized(c);
    SortedSized(d);
    CountedAllInjective(p, q);
    SortKeeps(Spent(c));
    SortKeeps(Spent(d));
  }

  /** The part of the preimage before the proofs, in front of `tail`. */
  function Front(domain: Bytes, c: StoredChannel, tail: Bytes): Bytes {
    domain + (Counted(c.localPeer) + (Counted(c.remotePeer) + (c.assetId + (Counted(c.fundingOutpoint)
    + (c.fundingScriptKey + (U64Be(c.localBalance) + (U64Be(c.remoteBalance) + tail)))))))
  }

  lemma PeelParts(domain: Bytes, c: StoredChannel, x: Bytes, d: StoredChannel, y: Bytes)
    requires ChannelSized(c) && ChannelSized(d) && Front(domain, c, x) == Front(domain, d, y)
    ensures c.localPeer == d.localPeer && c.remotePeer == d.remotePeer && c.assetId == d.assetId
    ensures c.fundingOutpoint == d.fundingOutpoint && c.fundingScriptKey == d.fundingScriptKey
    ensures c.localBalance == d.localBalance && c.remoteBalance == d.remoteBalance && x == y
  {
    var c1, d1 := U64Be(c.remoteBalance) + x, U64Be(d.remoteBalance) + y;
    var c2, d2 := U64Be(c.localBalance) + c1, U64Be(d.localBalance) + d1;
    var c3, d3 := c.fundingScriptKey + c2, d.fundingScriptKey + d2;
    var c4, d4 := Counted(c.fundingOutpoint) + c3, Counted(d.fundingOutpoint) + d3;
    var c5, d5 := c.assetId + c4, d.assetId + d4;
    var c6, d6 := Counted(c.remotePeer) + c5, Counted(d.remotePeer) + d5;
    var c7, d7 := Counted(c.localPeer) + c6, Counted(d.localPeer) + d6;
    SplitAt(domain, c7, domain, d7);
    CountedSplit(c.localPeer, c6, d.localPeer, d6);
    CountedSplit(c.remotePeer, c5, d.remotePeer, d5);
    SplitAt(c.assetId, c4, d.assetId, d4);
    CountedSplit(c.fundingOutpoint, c3, d.fundingOutpoint, d3);
    SplitAt(c.fundingScriptKey, c2, d.fundingScriptKey, d2);
    SplitAt(U64Be(c.localBalance), c1, U64Be(d.localBalance), d1);
    SplitAt(U64Be(c.remoteBalance), x, U64Be(d.remoteBalance), y);
    U64BeInjective(c.localBalance, d.localBalance);
    U64BeInjective(c.remoteBalance, d.remoteBalance);
  }

  /** Two channels bound to one id have the same peers, asset, outpoint, key and balances, and were funded
      with the same proofs, unless their preimages collide. */
  lemma {:induction false} ChannelIdBinds(sha: Sha256, c: StoredChannel, d: StoredChannel)
    requires ChannelSized(c) && ChannelSized(d) && BindingId(sha, c) == BindingId(sha, d)
    ensures SameChannel(c, d) || IsCollision(sha, (Preimage(c), Preimage(d)))
  {
    HexInjective(sha(Preimage(c)), sha(Preimage(d)));
    if Preimage(c) == Preimage(d) {
      PreimageInjective(c, d);
    }
  }

  // ----- the funding's transition and the monitor -----

  /** Everything a funding's transition is derived from. */
  lemma {:induction false} TransitionPartsConcat(c: StoredChannel, sorted: seq<Text>)
    ensures Concat(TransitionPartsOf(c, sorted)) ==
              Ascii("tap-ldk:asset-channel-funding-proof-history:v1") + (c.channelId + (c.assetId + (c.fundingOutpoint
              + (c.fundingScriptKey + (U64Be(c.localBalance) + (U64Be(c.remoteBalance) + Concat(CountedAll(sorted))))))))
  {
    var d := Ascii("tap-ldk:asset-channel-funding-proof-history:v1");
    var t0 := CountedAll(sorted);
    var t1 := [U64Be(c.remoteBalance)] + t0;
    var t2 := [U64Be(c.localBalance)] + t1;
    var t3 := [c.fundingScriptKey] + t2;
    var t4 := [c.fundingOutpoint] + t3;
    var t5 := [c.assetId] + t4;
    var t6 := [c.channelId] + t5;
    ConcatCons(U64Be(c.remoteBalance), t0);
    ConcatCons(U64Be(c.localBalance), t1);
    ConcatCons(c.fundingScriptKey, t2);
    ConcatCons(c.fundingOutpoint, t3);
    ConcatCons(c.assetId, t4);
    ConcatCons(c.channelId, t5);
    ConcatCons(d, t6);
    assert TransitionPartsOf(c, sorted) == [d] + t6;
  }

  function TransitionPartsOf(c: StoredChannel, sorted: seq<Text>): seq<Bytes> {
    TransitionParts(c.channelId, c.assetId, c.fundingOutpoint, c.fundingScriptKey, c.localBalance, c.remoteBalance, sorted)
  }

  function TransitionOf(sha: Sha256, c: StoredChannel): Bytes32 {
    FundingTransition(sha, c.channelId, c.assetId, c.fundingOutpoint, c.fundingScriptKey, c.localBalance, c.remoteBalance,
                      Spent(c))
  }

  predicate SameTransition(c: StoredChannel, d: StoredChannel) {
    && c.channelId == d.channelId && c.assetId == d.assetId && c.fundingOutpoint == d.fundingOutpoint
    && c.fundingScriptKey == d.fundingScriptKey && c.localBalance == d.localBalance
    && c.remoteBalance == d.remoteBalance && multiset(Spent(c)) == multiset(Spent(d))
  }

  lemma PeelTransition(domain: Bytes, c: StoredChannel, x: Bytes, d: StoredChannel, y: Bytes)
    requires |c.channelId| == |d.channelId| && |c.fundingOutpoint| == |d.fundingOutpoint|
    requires domain + (c.channelId + (c.assetId + (c.fundingOutpoint
             + (c.fundingScriptKey + (U64Be(c.localBalance) + (U64Be(c.remoteBalance) + x))))))
          == domain + (d.channelId + (d.assetId + (d.fundingOutpoint
             + (d.fundingScriptKey + (U64Be(d.localBalance) + (U64Be(d.remoteBalance) + y))))))
    ensures c.channelId == d.channelId && c.assetId == d.assetId && c.fundingOutpoint == d.fundingOutpoint
    ensures c.fundingScriptKey == d.fundingScriptKey && c.localBalance == d.localBalance
    ensures c.remoteBalance == d.remoteBalance && x == y
  {
    var c1, d1 := U64Be(c.remoteBalance) + x, U64Be(d.remoteBalance) + y;
    var c2, d2 := U64Be(c.localBalance) + c1, U64Be(d.localBalance) + d1;
    var c3, d3 := c.fundingScriptKey + c2, d.fundingScriptKey + d2;
    var c4, d4 := c.fundingOutpoint + c3, d.fundingOutpoint + d3;
    var c5, d5 := c.assetId + c4, d.assetId + d4;
    SplitAt(domain, c.channelId + c5, domain, d.channelId + d5);
    SplitAt(c.channelId, c5, d.channelId, d5);
    SplitAt(c.assetId, c4, d.assetId, d4);
    SplitAt(c.fundingOutpoint, c3, d.fundingOutpoint, d3);
    SplitAt(c.fundingScriptKey, c2, d.fundingScriptKey, d2);
    SplitAt(U64Be(c.localBalance), c1, U64Be(d.localBalance), d1);
    SplitAt(U64Be(c.remoteBalance), x, U64Be(d.remoteBalance), y);
    U64BeInjective(c.localBalance, d.localBalance);
    U64BeInjective(c.remoteBalance, d.remoteBalance);
  }

  /** Two fundings of one transition are of the same channel, asset, outpoint, key, balances and proofs exactly
      when their ids and their outpoints, which are hashed without their lengths, are of one length. */
  lemma {:induction false} TransitionBinds(sha: Sha256, c: StoredChannel, d: StoredChannel)
    requires ChannelSized(c) && ChannelSized(d) && TransitionOf(sha, c) == TransitionOf(sha, d)
    ensures var p, q := SortTexts(Spent(c)), SortTexts(Spent(d));
            || (SameTransition(c, d) <==>
                  |c.channelId| == |d.channelId| && |c.fundingOutpoint| == |d.fundingOutpoint|)
            || IsCollision(sha, (Concat(TransitionPartsOf(c, p)), Concat(TransitionPartsOf(d, q))))
  {
    if |c.channelId| == |d.channelId| && |c.fundingOutpoint| == |d.fundingOutpoint| {
      TransitionPartsBind(sha, c, d);
    }
  }

  /** The channel with one byte moved from the asset id to the channel id, and one from the outpoint to the asset id. */
  function Shifted(c: StoredChannel): StoredChannel
    requires c.fundingOutpoint != []
  {
    var asset: Bytes, outpoint: Bytes := c.assetId, c.fundingOutpoint;
    c.(channelId := c.channelId + asset[..1], assetId := asset[1..] + outpoint[..1], fundingOutpoint := outpoint[1..])
  }

  /** Without the lengths it does not: every channel shares the transition with another one, whatever the hash. */
  lemma {:induction false} TransitionShifted(sha: Sha256, c: StoredChannel)
    requires c.fundingOutpoint != []
    ensures !SameTransition(c, Shifted(c)) && TransitionOf(sha, Shifted(c)) == TransitionOf(sha, c)
  {
    var d, sorted := Shifted(c), SortTexts(Spent(c));
    var channel: Bytes, asset: Bytes, outpoint: Bytes := c.channelId, c.assetId, c.fundingOutpoint;
    TransitionPartsConcat(c, sorted);
    TransitionPartsConcat(d, sorted);
    assert asset == asset[..1] + asset[1..] && outpoint == outpoint[..1] + outpoint[1..];
    var rest := c.fundingScriptKey + (U64Be(c.localBalance) + (U64Be(c.remoteBalance) + Concat(CountedAll(sorted))));
    assert (channel + asset[..1]) + ((asset[1..] + outpoint[..1]) + (outpoint[1..] + rest))
        == channel + (asset + (outpoint + rest));
  }

  lemma {:induction false} TransitionPartsBind(sha: Sha256, c: StoredChannel, d: StoredChannel)
    requires ChannelSized(c) && ChannelSized(d) && TransitionOf(sha, c) == TransitionOf(sha, d)
    requires |c.channelId| == |d.channelId| && |c.fundingOutpoint| == |d.fundingOutpoint|
    ensures var p, q := SortTexts(Spent(c)), SortTexts(Spent(d));
            || SameTransition(c, d)
            || IsCollision(sha, (Concat(TransitionPartsOf(c, p)), Concat(TransitionPartsOf(d, q))))
  {
    var p, q := SortTexts(Spent(c)), SortTexts(Spent(d));
    if Concat(TransitionPartsOf(c, p)) == Concat(TransitionPartsOf(d, q)) {
      TransitionPartsConcat(c, p);
      TransitionPartsConcat(d, q);
      PeelTransition(Ascii("tap-ldk:asset-channel-funding-proof-history:v1"), c, Concat(CountedAll(p)),
                     d, Concat(CountedAll(q)));
      SortedSized(c);
      SortedSized(d);
      CountedAllInjective(p, q);
      SortKeeps(Spent(c));
      SortKeeps(Spent(d));
    }
  }

  /** A monitor digest fixes the channel, the asset, the balances and the root. */
  lemma MonitorDigestBinds(sha: Sha256, c: Text, asset: Bytes32, local: u64, remote: u64, root: RootHashSum,
                           d: Text, other: Bytes32, local': u64, remote': u64, root': RootHashSum)
    requires MonitorDigest(sha, c, asset, local, remote, root) == MonitorDigest(sha, d, other, local', remote', root')
    ensures || (c == d && asset == other && local == local' && remote == remote' && root == root')
            || IsCollision(sha, (Concat(MonitorParts(c, asset, local, remote, root)),
                                 Concat(MonitorParts(d, other, local', remote', root'))))
  {
    var p, q := MonitorParts(c, asset, local, remote, root), MonitorParts(d, other, local', remote', root');
    assert |p[0]| == |q[0]|;
    DigestBinds(sha, p, q, 1);
    if p == q {
      assert p[1] == q[1] && p[2] == q[2] && p[3] == q[3] && p[4] == q[4] && p[5] == q[5] && p[6] == q[6];
      CountedInjective(c, d);
      U64BeInjective(local, local');
      U64BeInjective(remote, remote');
      U64BeInjective(root.sum, root'.sum);
    }
  }

  // ----- stored channels -----

  /** The channel with everything that follows from its terms derived again. */
  function Rebuilt(sha: Sha256, c: StoredChannel, root: RootHashSum): StoredChannel
    requires c.localBalance + c.remoteBalance < U64_LIMIT
  {
    var id := BindingId(sha, c);
    c.(channelId := id,
       totalAmount := c.localBalance + c.remoteBalance,
       fundingRoot := root,
       historyRecordId := FundingRecordId(id),
       historyOutputId := FundingOutputId(id),
       historyTransitionId := Hex(TransitionOf(sha, c.(channelId := id))),
       monitor := c.monitor.(persisted := true,
                             blobDigest := MonitorDigest(sha, id, c.assetId, c.localBalance, c.remoteBalance, root)))
  }

  lemma {:induction false} RebuiltSame(sha: Sha256, c: StoredChannel, root: RootHashSum)
    requires c.localBalance + c.remoteBalance < U64_LIMIT
    ensures c == Rebuilt(sha, c, root) <==>
              && BindingId(sha, c) == c.channelId && c.totalAmount == c.localBalance + c.remoteBalance
              && c.fundingRoot == root && c.historyRecordId == FundingRecordId(c.channelId)
              && c.historyOutputId == FundingOutputId(c.channelId) && c.historyTransitionId == Hex(TransitionOf(sha, c))
              && c.monitor.persisted
              && c.monitor.blobDigest == MonitorDigest(sha, c.channelId, c.assetId, c.localBalance, c.remoteBalance, root)
  {
  }

  /** A stored channel has no fault exactly when it names its peers, its outpoint and its proofs, its amounts
      fit, and deriving its id, total, root, history and monitor from the rest gives the same channel, with a
      root that carries the total. */
  lemma {:induction false} StoredExactly(env: FundEnv, id: Text, c: StoredChannel)
    ensures ChannelFault(env, id, c).None? <==>
              && id == c.channelId && !env.blank(c.localPeer) && !env.blank(c.remotePeer) && !env.blank(c.fundingOutpoint)
              && Spent(c) != [] && c.localBalance + c.remoteBalance < U64_LIMIT
              && var tap := env.tapCommitment(c.assetId, c.genesisOutpoint, c.fundingScriptKey,
                                              c.localBalance + c.remoteBalance);
                 tap.Some? && tap.value.root.sum == c.localBalance + c.remoteBalance
                 && c == Rebuilt(env.sha, c, tap.value.root)
  {
    if c.localBalance + c.remoteBalance < U64_LIMIT {
      var tap := env.tapCommitment(c.assetId, c.genesisOutpoint, c.fundingScriptKey, c.localBalance + c.remoteBalance);
      if tap.Some? {
        RebuiltSame(env.sha, c, tap.value.root);
      }
    }
  }
}
