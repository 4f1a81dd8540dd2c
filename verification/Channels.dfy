/** A funded asset channel as the funding store keeps it, read by the commitment ledger. */
module Channels {
  import opened ByteBits
  import opened Primitives
  import opened Text

  datatype ChannelMonitor = ChannelMonitor(commitmentNumber: u64, persisted: bool, blobDigest: Bytes32)

  datatype StoredChannel = StoredChannel(
    channelId: Text,
    localPeer: Text,
    remotePeer: Text,
    assetId: Bytes32,
    genesisOutpoint: Text,
    fundingOutpoint: Text,
    fundingScriptKey: Key33,
    fundingRoot: RootHashSum,
    localBalance: u64,
    remoteBalance: u64,
    totalAmount: u64,
    localProofIds: seq<Text>,
    remoteProofIds: seq<Text>,
    historyRecordId: Text,
    historyOutputId: Text,
    historyTransitionId: Text,
    monitor: ChannelMonitor)

  /** The ids a funded channel is given in its proof history. */
  function FundingRecordId(channelId: Text): Text {
    Ascii("asset-channel-funding:") + channelId
  }

  function FundingOutputId(channelId: Text): Text {
    Ascii("asset-channel-funding-output:") + channelId
  }

  /** What every id of the commitment ledger starts with. */
  function LedgerPrefix(): (p: Text)
    ensures |p| == 17
  {
    Ascii("asset-commitment-")
  }

  /** An id that no id of the commitment ledger equals. */
  predicate OutsideLedger(id: Text) {
    !(LedgerPrefix() <= id)
  }

  lemma FundingIdsOutsideLedger(channelId: Text)
    ensures OutsideLedger(FundingRecordId(channelId)) && OutsideLedger(FundingOutputId(channelId))
    ensures FundingRecordId(channelId) != [] && FundingOutputId(channelId) != []
  {
    var p, r, o := LedgerPrefix(), FundingRecordId(channelId), FundingOutputId(channelId);
    assert p[7] == 'o' as int;
    assert r[7] == 'h' as int && o[7] == 'h' as int;
  }
}
