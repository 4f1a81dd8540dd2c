/** When a funded channel opens in the commitment ledger. */
module CommitmentOpening {
  import opened ByteBits
  import opened Primitives
  import opened Text
  import opened Channels
  import opened CommitmentState
  import opened CommitmentReplay
  import opened CommitmentStore
  import R = ProofReplay

  /** The amounts, ids and transitions that the history of a new channel replays with. */
  predicate OpensHistory(env: Env, st: State) {
    && st.total != 0 && env.rules.outpointOk(st.fundingOutpoint)
    && InitialTransitionId(env, st) != ZERO32 && st.fundingTransitionId != ZERO32
    && st.fundingRecordId != [] && st.fundingRecordId != FundingInputId(st)
    && st.fundingOutputId != [] && st.fundingOutputId != FundingInputId(st)
  }

  function FundingExplained(env: Env, st: State): R.Explanation {
    R.Explanation(WholeOutput(env, st, st.fundingOutputId, R.ChannelLocked), st.fundingRecordId, R.ChannelFunding,
                  st.fundingTransitionId, [R.Prior(FundingInputId(st), R.Accepted, st.total, st.fundingOutpoint)])
  }

  lemma InputIdNotEmpty(st: State)
    ensures FundingInputId(st) != []
  {
    ConcatStart([Ascii("asset-commitment-funding-input:"), st.channelId]);
  }

  lemma IssuanceReplays(env: Env, st: State)
    ensures var replay := R.Replay(env.rules, [IssuanceRecord(env, st)]);
            var o := WholeOutput(env, st, FundingInputId(st), R.Accepted);
            && (replay.Success? <==>
                  st.total != 0 && env.rules.outpointOk(st.fundingOutpoint) && InitialTransitionId(env, st) != ZERO32)
            && (replay.Success? ==>
                  && replay.value.seen == {FundingInputId(st)} && replay.value.outputs.Keys == {FundingInputId(st)}
                  && replay.value.outputs[FundingInputId(st)].output == o)
  {
    var i := IssuanceRecord(env, st);
    assert [i][..0] == [] && [i][0] == i;
    assert R.Replay(env.rules, []) == Success(R.NOTHING_REPLAYED);
    assert R.Replay(env.rules, [i]) == R.Step(env.rules, R.NOTHING_REPLAYED, i);
    InputIdNotEmpty(st);
    R.IssuanceStep(env.rules, R.NOTHING_REPLAYED, i);
  }

  /** The first two records of a channel replay exactly under these conditions, and explain the funding. */
  lemma FundingReplays(env: Env, st: State)
    ensures var replay := R.Replay(env.rules, [IssuanceRecord(env, st), FundingRecord(env, st)]);
            && (replay.Success? <==> OpensHistory(env, st))
            && (replay.Success? ==>
                  && st.fundingOutputId in replay.value.accepted
                  && replay.value.accepted[st.fundingOutputId] == FundingExplained(env, st))
  {
    var i, f := IssuanceRecord(env, st), FundingRecord(env, st);
    assert [i, f][..1] == [i] && [i, f][1] == f;
    IssuanceReplays(env, st);
    var first := R.Replay(env.rules, [i]);
    if first.Success? {
      assert R.Replay(env.rules, [i, f]) == R.Step(env.rules, first.value, f);
      R.MoveStep(env.rules, first.value, f);
    }
  }

  /** The history check of a state that has only been funded. */
  lemma {:induction false} FundedHistory(env: Env, st: State)
    requires st.commitments == map[]
    requires NamesLatest(st, LatestEntry(st, []))
    ensures CheckHistory(env, st).None? <==> OpensHistory(env, st) && st.latest == 0
  {
    assert InOrder(st.commitments) == [];
    FundingReplays(env, st);
    assert Records(env, st) == Success([IssuanceRecord(env, st), FundingRecord(env, st)]);
  }

  /** What LDK is asked about a new channel. */
  function OpeningFields(env: Env, st: State, channel: Bytes32): AuxFields {
    Aux(channel, st.assetId, st.local, st.remote, st.monitor)
  }

  lemma {:induction false} OpenedMonitor(env: Env, c: StoredChannel)
    requires OpenState(env, c).Success?
    ensures env.parseHex(c.channelId).Some?
    ensures var st := OpenState(env, c).value;
            CheckMonitor(env, st).None? <==> env.auxAccepts(OpeningFields(env, st, env.parseHex(c.channelId).value))
  {
  }

  /** A channel that opens passes the check on its state exactly when its balances add up to its total,
      its monitor is at commitment zero, its history replays, and LDK accepts the blob. */
  lemma {:induction false} OpenAcceptance(env: Env, c: StoredChannel)
    requires OpenState(env, c).Success?
    ensures env.parseHex(c.channelId).Some?
    ensures var st := OpenState(env, c).value;
            CheckState(env, st).None? <==>
              && c.localBalance + c.remoteBalance == c.totalAmount
              && c.monitor.commitmentNumber == 0
              && OpensHistory(env, st)
              && env.auxAccepts(OpeningFields(env, st, env.parseHex(c.channelId).value))
  {
    var st := OpenState(env, c).value;
    StateChecked(env, st);
    FundedHistory(env, st);
    OpenedMonitor(env, c);
  }

  /** After every run, exactly when a channel is opened. */
  lemma {:induction false} InitializeAcceptance(env: Env, ops: seq<Op>, c: StoredChannel)
    ensures Initialize(env, Run(env, ops), c).0.Success? <==>
              && c.channelId !in Run(env, ops).channels
              && OpenState(env, c).Success?
              && c.localBalance + c.remoteBalance == c.totalAmount
              && c.monitor.commitmentNumber == 0
              && var st := OpenState(env, c).value;
                 && OpensHistory(env, st)
                 && env.parseHex(c.channelId).Some?
                 && env.auxAccepts(OpeningFields(env, st, env.parseHex(c.channelId).value))
  {
    RunFine(env, ops);
    var s := Run(env, ops);
    if c.channelId !in s.channels && OpenState(env, c).Success? {
      OpenAcceptance(env, c);
      OthersStayFine(env, s, c.channelId, OpenState(env, c).value);
    }
  }
}
