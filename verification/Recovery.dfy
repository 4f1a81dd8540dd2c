/** Recovery checkpoints: taken from a channel's state and accepted back only while it is current. */
module Recovery {
  import opened ByteBits
  import opened Primitives
  import opened Text
  import opened Channels
  import opened CommitmentState
  import opened CommitmentLedger
  import CommitmentStore
  import HtlcStore
  import Payments

  datatype Stage = Funding | QuoteAccepted | HtlcAdded | CommitmentSigned | Settled | ClosePrepared

  datatype ClosePreparation = ClosePreparation(
    channelId: Text,
    assetId: Bytes32,
    number: u64,
    local: u64,
    remote: u64,
    total: u64,
    closeDigest: Bytes32,
    prepared: bool)

  datatype Checkpoint = Checkpoint(
    version: nat,
    stage: Stage,
    channelId: Text,
    assetId: Bytes32,
    number: u64,
    local: u64,
    remote: u64,
    total: u64,
    quoteId: Option<Text>,
    htlcId: Option<Text>,
    paymentId: Option<Text>,
    close: Option<ClosePreparation>,
    digest: Bytes32)

  datatype RecoveryError =
    | UnsupportedVersion
    | BalanceOverflow
    | BalanceNotConserved
    | MissingClosePreparation
    | StorageInvariant
    | UnknownChannel
    | StaleCheckpoint(expected: u64, actual: u64)
    | RecoveredStateMismatch
    | MissingRfqStore
    | MissingHtlcStore
    | MissingPaymentStore
    | UnknownQuote
    | UnknownHtlc
    | UnknownPayment

  const CHECKPOINT_VERSION: nat := 1

  function StageByte(s: Stage): byte {
    match s
    case Funding => 0
    case QuoteAccepted => 1
    case HtlcAdded => 2
    case CommitmentSigned => 3
    case Settled => 4
    case ClosePrepared => 5
  }

  function Optional(t: Option<Text>): Bytes {
    if t.Some? then [1] + Counted(t.value) else [0]
  }

  function CloseDigest(sha: Sha256, channelId: Text, assetId: Bytes32, number: u64, local: u64, remote: u64): Bytes32 {
    Digest(sha, CloseParts(channelId, assetId, number, local, remote))
  }

  function CloseParts(channelId: Text, assetId: Bytes32, number: u64, local: u64, remote: u64): seq<Bytes> {
    [Ascii("tap-ldk:native-close-preparation:v1"), Counted(channelId), assetId, U64Be(number), U64Be(local),
     U64Be(remote)]
  }

  function CheckpointDigest(sha: Sha256, c: Checkpoint): Bytes32 {
    Digest(sha, CheckpointParts(c))
  }

  function CheckpointParts(c: Checkpoint): seq<Bytes> {
    [Ascii("tap-ldk:native-asset-recovery-checkpoint:v1"), [StageByte(c.stage)], Counted(c.channelId), c.assetId,
     U64Be(c.number), U64Be(c.local), U64Be(c.remote), U64Be(c.total), Optional(c.quoteId), Optional(c.htlcId),
     Optional(c.paymentId), CloseBytes(c.close)]
  }

  function CloseBytes(close: Option<ClosePreparation>): Bytes {
    if close.Some? then [1] + close.value.closeDigest else [0]
  }

  function PrepareClose(sha: Sha256, st: State): ClosePreparation {
    ClosePreparation(st.channelId, st.assetId, st.latest, st.local, st.remote, st.total,
                     CloseDigest(sha, st.channelId, st.assetId, st.latest, st.local, st.remote), true)
  }

  function CloseFault(sha: Sha256, p: ClosePreparation): Option<RecoveryError> {
    if !p.prepared then Some(RecoveryError.StorageInvariant)
    else if p.local + p.remote >= U64_LIMIT then Some(RecoveryError.BalanceOverflow)
    else if p.local + p.remote != p.total then Some(RecoveryError.BalanceNotConserved)
    else if p.closeDigest != CloseDigest(sha, p.channelId, p.assetId, p.number, p.local, p.remote) then
      Some(RecoveryError.StorageInvariant)
    else None
  }

  function CheckpointFault(sha: Sha256, c: Checkpoint): Option<RecoveryError> {
    if c.version != CHECKPOINT_VERSION then Some(RecoveryError.UnsupportedVersion)
    else if c.local + c.remote >= U64_LIMIT then Some(RecoveryError.BalanceOverflow)
    else if c.local + c.remote != c.total then Some(RecoveryError.BalanceNotConserved)
    else if c.digest != CheckpointDigest(sha, c) then Some(RecoveryError.StorageInvariant)
    else if c.stage == ClosePrepared then
      if c.close.None? then Some(MissingClosePreparation) else CloseFault(sha, c.close.value)
    else None
  }

  function Take(sha: Sha256, stage: Stage, st: State, quoteId: Option<Text>, htlcId: Option<Text>,
                paymentId: Option<Text>, close: Option<ClosePreparation>): Result<Checkpoint, RecoveryError>
  {
    var draft := Checkpoint(CHECKPOINT_VERSION, stage, st.channelId, st.assetId, st.latest, st.local, st.remote,
                            st.total, quoteId, htlcId, paymentId, close, ZERO32);
    var c := draft.(digest := CheckpointDigest(sha, draft));
    if CheckpointFault(sha, c).Some? then Failure(CheckpointFault(sha, c).value) else Success(c)
  }

  /** The status of a checkpoint's reference, if it has one: found in the store that was handed in. */
  function Find<S>(id: Option<Text>, store: Option<map<Text, S>>, missing: RecoveryError, unknown: RecoveryError):
      Result<Option<S>, RecoveryError>
  {
    if id.None? then Success(None)
    else if store.None? then Failure(missing)
    else if id.value !in store.value then Failure(unknown)
    else Success(Some(store.value[id.value]))
  }

  /** The stores a recovery may be given besides the commitments; a quote stands for its status. */
  datatype Stores<Q> = Stores(
    quotes: Option<map<Text, Q>>,
    htlcs: Option<HtlcStore.Htlcs>,
    payments: Option<Payments.PaymentMap>)

  datatype Report<Q> = Report(
    checkpoint: Checkpoint,
    quote: Option<Q>,
    htlc: Option<HtlcStore.Htlc>,
    payment: Option<Payments.Payment>)

  function Recover<Q>(sha: Sha256, c: Checkpoint, commitments: CommitmentStore.Store, s: Stores<Q>):
      Result<Report<Q>, RecoveryError>
  {
    if CheckpointFault(sha, c).Some? then Failure(CheckpointFault(sha, c).value)
    else if c.channelId !in commitments.channels then Failure(RecoveryError.UnknownChannel)
    else
      var st := commitments.channels[c.channelId];
      if st.latest != c.number then Failure(StaleCheckpoint(st.latest, c.number))
      else if st.assetId != c.assetId || st.local != c.local || st.remote != c.remote || st.total != c.total then
        Failure(RecoveredStateMismatch)
      else
        var quote := Find(c.quoteId, s.quotes, MissingRfqStore, UnknownQuote);
        var htlc := Find(c.htlcId, s.htlcs, MissingHtlcStore, UnknownHtlc);
        var payment := Find(c.paymentId, s.payments, MissingPaymentStore, UnknownPayment);
        if quote.Failure? then Failure(quote.error)
        else if htlc.Failure? then Failure(htlc.error)
        else if payment.Failure? then Failure(payment.error)
        else Success(Report(c, quote.value, htlc.value, payment.value))
  }

  // ----- the log of a run only grows -----

  lemma {:induction false} LogStep(env: Env, ops: seq<CommitmentStore.Op>, op: CommitmentStore.Op, id: Text)
    ensures CommitmentStore.Log(env, ops, id) <= CommitmentStore.Log(env, ops + [op], id)
  {
    match op
    case Open(c) => CommitmentStore.OpenPast(env, ops, c, id);
    case Update(r) => CommitmentStore.UpdatePast(env, ops, r, id);
  }

  lemma PrefixTransitive<T>(a: seq<T>, b: seq<T>, c: seq<T>)
    requires a <= b && b <= c
    ensures a <= c
  {
  }

  lemma {:induction false} LogOnlyGrows(env: Env, before: seq<CommitmentStore.Op>, after: seq<CommitmentStore.Op>, id: Text)
    ensures CommitmentStore.Log(env, before, id) <= CommitmentStore.Log(env, before + after, id)
  {
    if after == [] {
      assert before + after == before;
    } else {
      var n := |after| - 1;
      var ops := before + after[..n];
      assert before + after == ops + [after[n]];
      LogOnlyGrows(env, before, after[..n], id);
      LogStep(env, ops, after[n], id);
      PrefixTransitive(CommitmentStore.Log(env, before, id), CommitmentStore.Log(env, ops, id),
                       CommitmentStore.Log(env, before + after, id));
    }
  }

  lemma {:induction false} OriginStep(env: Env, ops: seq<CommitmentStore.Op>, op: CommitmentStore.Op, id: Text)
    requires id in CommitmentStore.Run(env, ops).channels
    ensures id in CommitmentStore.Run(env, ops + [op]).channels
    ensures CommitmentStore.OpenedWith(env, ops + [op], id) == CommitmentStore.OpenedWith(env, ops, id)
  {
    match op
    case Open(c) =>
      CommitmentStore.OpenPast(env, ops, c, id);
      CommitmentStore.InitializeEffect(env, CommitmentStore.Run(env, ops), c);
    case Update(r) =>
      CommitmentStore.UpdatePast(env, ops, r, id);
      CommitmentStore.ApplyEffect(env, CommitmentStore.Run(env, ops), r);
  }

  /** An open channel stays open as what it was opened with. */
  lemma {:induction false} OriginStays(env: Env, before: seq<CommitmentStore.Op>, after: seq<CommitmentStore.Op>, id: Text)
    requires id in CommitmentStore.Run(env, before).channels
    ensures id in CommitmentStore.Run(env, before + after).channels
    ensures CommitmentStore.OpenedWith(env, before + after, id) == CommitmentStore.OpenedWith(env, before, id)
  {
    if after == [] {
      assert before + after == before;
    } else {
      var n := |after| - 1;
      var ops, op := before + after[..n], after[n];
      assert before + after == ops + [op];
      OriginStays(env, before, after[..n], id);
      OriginStep(env, ops, op, id);
    }
  }

  // ----- freshness -----

  /** A checkpoint is taken exactly when the balances add up and a claimed close has a valid preparation; it
      carries the state's channel, asset, number and balances and the references it was given, and passes its
      check. */
  lemma TakeOutcome(sha: Sha256, stage: Stage, st: State, quoteId: Option<Text>, htlcId: Option<Text>,
                    paymentId: Option<Text>, close: Option<ClosePreparation>)
    ensures var c := Take(sha, stage, st, quoteId, htlcId, paymentId, close);
            && (c.Success? <==>
                  && st.local + st.remote == st.total
                  && (stage == ClosePrepared ==> close.Some? && CloseFault(sha, close.value).None?))
            && (c.Success? ==>
                  && CheckpointFault(sha, c.value).None? && c.value.stage == stage && c.value.channelId == st.channelId
                  && c.value.number == st.latest && c.value.assetId == st.assetId
                  && c.value.local == st.local && c.value.remote == st.remote && c.value.total == st.total
                  && c.value.quoteId == quoteId && c.value.htlcId == htlcId && c.value.paymentId == paymentId
                  && c.value.close == close)
  {
  }

  /** The close preparation made from a state whose balances add up is a valid one. */
  lemma PreparedCloseValid(sha: Sha256, st: State)
    requires st.local + st.remote == st.total
    ensures CloseFault(sha, PrepareClose(sha, st)).None?
  {
  }

  lemma {:induction false} ChannelThen(env: Env, before: seq<CommitmentStore.Op>, after: seq<CommitmentStore.Op>, id: Text)
    requires id in CommitmentStore.Run(env, before).channels
    ensures var s, t := CommitmentStore.Run(env, before), CommitmentStore.Run(env, before + after);
            var p, q := CommitmentStore.Log(env, before, id), CommitmentStore.Log(env, before + after, id);
            && id in t.channels && p <= q
            && var st, st' := s.channels[id], t.channels[id];
               && st.channelId == id && st.local + st.remote == st.total
               && st'.latest == st.latest + (|q| - |p|)
               && st'.assetId == st.assetId && st'.total == st.total
               && (p == q ==> st'.local == st.local && st'.remote == st.remote)
  {
    OriginStays(env, before, after, id);
    LogOnlyGrows(env, before, after, id);
    CommitmentStore.RunTracks(env, before);
    CommitmentStore.RunTracks(env, before + after);
  }

  /** Every reference of a checkpoint is found in a store that was handed in. */
  predicate Found<Q>(c: Checkpoint, s: Stores<Q>) {
    && (c.quoteId.Some? ==> s.quotes.Some? && c.quoteId.value in s.quotes.value)
    && (c.htlcId.Some? ==> s.htlcs.Some? && c.htlcId.value in s.htlcs.value)
    && (c.paymentId.Some? ==> s.payments.Some? && c.paymentId.value in s.payments.value)
  }

  /** The checkpoint is of the channel's present state. */
  predicate Current(c: Checkpoint, commitments: CommitmentStore.Store) {
    && c.channelId in commitments.channels
    && var st := commitments.channels[c.channelId];
       && st.latest == c.number && st.assetId == c.assetId && st.local == c.local && st.remote == c.remote
       && st.total == c.total
  }

  /** A checkpoint recovers exactly when it is valid and current and each of its references is found, and then
      it is reported with exactly what they refer to. */
  lemma RecoverOutcome<Q>(sha: Sha256, c: Checkpoint, commitments: CommitmentStore.Store, s: Stores<Q>)
    ensures Recover(sha, c, commitments, s).Success? <==>
              CheckpointFault(sha, c).None? && Current(c, commitments) && Found(c, s)
    ensures Recover(sha, c, commitments, s).Success? ==>
              var r := Recover(sha, c, commitments, s).value;
              && r.checkpoint == c
              && r.quote == (if c.quoteId.Some? then Some(s.quotes.value[c.quoteId.value]) else None)
              && r.htlc == (if c.htlcId.Some? then Some(s.htlcs.value[c.htlcId.value]) else None)
              && r.payment == (if c.paymentId.Some? then Some(s.payments.value[c.paymentId.value]) else None)
    ensures CheckpointFault(sha, c).None? && c.channelId in commitments.channels
            && commitments.channels[c.channelId].latest != c.number ==>
              Recover(sha, c, commitments, s) ==
                Failure(StaleCheckpoint(commitments.channels[c.channelId].latest, c.number))
  {
  }

  /** A checkpoint taken at any point of any run recovers at any later point exactly when no update of its
      channel was accepted in between and its references are found; after any update, even one that leaves the
      balances alone, it is refused as stale. */
  lemma {:induction false} CheckpointFreshness<Q>(env: Env, before: seq<CommitmentStore.Op>, after: seq<CommitmentStore.Op>, id: Text,
                               stage: Stage, quoteId: Option<Text>, htlcId: Option<Text>, paymentId: Option<Text>,
                               close: Option<ClosePreparation>, s: Stores<Q>)
    requires id in CommitmentStore.Run(env, before).channels
    requires Take(env.sha, stage, CommitmentStore.Run(env, before).channels[id], quoteId, htlcId, paymentId, close).Success?
    ensures var c := Take(env.sha, stage, CommitmentStore.Run(env, before).channels[id], quoteId, htlcId, paymentId,
                          close).value;
            var log, later := CommitmentStore.Log(env, before, id), CommitmentStore.Log(env, before + after, id);
            var recovered := Recover(env.sha, c, CommitmentStore.Run(env, before + after), s);
            && (recovered.Success? <==> later == log && Found(c, s))
            && (later != log ==> recovered.Failure? && recovered.error.StaleCheckpoint?)
  {
    var st := CommitmentStore.Run(env, before).channels[id];
    ChannelThen(env, before, after, id);
    TakeOutcome(env.sha, stage, st, quoteId, htlcId, paymentId, close);
    RecoverOutcome(env.sha, Take(env.sha, stage, st, quoteId, htlcId, paymentId, close).value,
                   CommitmentStore.Run(env, before + after), s);
  }

  // ----- the checks -----

  /** A close preparation is valid exactly when it is marked prepared, its balances add up, and its digest is
      the one of its own fields: it is what would be prepared from a state with these fields. */
  lemma CloseExactly(sha: Sha256, p: ClosePreparation)
    ensures CloseFault(sha, p).None? <==>
              && p.local + p.remote == p.total
              && p == ClosePreparation(p.channelId, p.assetId, p.number, p.local, p.remote, p.total,
                                       Digest(sha, CloseParts(p.channelId, p.assetId, p.number, p.local, p.remote)), true)
  {
  }

  /** A checkpoint is valid exactly when it is what would be taken from a state with these fields. */
  lemma CheckpointExactly(sha: Sha256, c: Checkpoint, st: State)
    requires st.channelId == c.channelId && st.assetId == c.assetId && st.latest == c.number
    requires st.local == c.local && st.remote == c.remote && st.total == c.total
    ensures CheckpointFault(sha, c).None? <==>
              Take(sha, c.stage, st, c.quoteId, c.htlcId, c.paymentId, c.close) == Success(c)
  {
    TakenDigest(sha, c, c.(digest := ZERO32));
  }

  /** The digest does not cover itself. */
  lemma TakenDigest(sha: Sha256, c: Checkpoint, draft: Checkpoint)
    requires draft == c.(digest := draft.digest)
    ensures CheckpointDigest(sha, draft) == CheckpointDigest(sha, c)
  {
  }
}
