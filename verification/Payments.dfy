/** Native asset payments: one send updates the commitment, HTLC and payment stores in turn. */
module Payments {
  import opened ByteBits
  import opened Primitives
  import opened Text
  import opened Channels
  import opened CommitmentState
  import opened CommitmentLedger
  import CommitmentStore
  import HtlcStore

  datatype PaymentStatus = SettledPayment | FailedPayment

  datatype Payment = Payment(
    id: Text,
    channelId: Text,
    sender: Text,
    receiver: Text,
    assetId: Bytes32,
    amount: u64,
    quoteId: Text,
    msat: u64,
    paymentHash: Bytes32,
    htlcId: Option<Text>,
    number: Option<u64>,
    status: PaymentStatus,
    reason: Option<Text>,
    senderAfter: u64,
    receiverAfter: u64,
    total: u64)

  datatype PaymentRequest = PaymentRequest(
    channelId: Text,
    sender: Text,
    receiver: Text,
    assetId: Bytes32,
    amount: u64,
    nonce: Bytes32,
    now: u64)

  /** What quoting and binding an invoice hands to settlement. */
  datatype Prepared = Prepared(
    invoice: HtlcStore.Invoice,
    authorization: HtlcStore.Authorization,
    records: HtlcStore.HtlcRecords)

  datatype PaymentError =
    | EmptyPeer
    | InvalidAmount
    | TimestampOverflow
    | NotPrepared
    | DuplicatePayment
    | PaymentAssetMismatch
    | PaymentBalanceOverflow
    | PaymentBalanceNotConserved
    | PaymentStorageInvariant
    | OtherPaymentInvalid
    | FailedPaymentAdvancedState
    | CommitmentFault(commitment: CommitmentError)
    | HtlcFault(htlc: HtlcStore.HtlcError)

  /** The surroundings of the ledger, whether a text is blank, and LDK's check of HTLC metadata. */
  datatype PayEnv = PayEnv(
    ledger: Env,
    blank: Text -> bool,
    ldkAccepts: (HtlcStore.HtlcRecords, HtlcStore.Invoice, HtlcStore.Authorization, u64) -> bool)

  function Hop(env: PayEnv): HtlcStore.HopEnv {
    HtlcStore.HopEnv(env.ledger.sha, env.ledger.parseHex, env.ldkAccepts)
  }

  // ----- the payment store -----

  type PaymentMap = map<Text, Payment>

  /** What a payment's id is derived from. */
  function PaymentParts(channelId: Text, quoteId: Text, paymentHash: Bytes32): seq<Bytes> {
    [Ascii("tap-ldk:native-asset-payment-id:v1"), Counted(channelId), Counted(quoteId), paymentHash]
  }

  function PaymentId(sha: Sha256, channelId: Text, quoteId: Text, paymentHash: Bytes32): Text {
    Hex(Digest(sha, PaymentParts(channelId, quoteId, paymentHash)))
  }

  /** The fault the check of the store finds with one payment. */
  function PaymentFault(blank: Text -> bool, id: Text, p: Payment): Option<PaymentError> {
    if id != p.id then Some(PaymentStorageInvariant)
    else if blank(p.sender) || blank(p.receiver) then Some(EmptyPeer)
    else if p.amount == 0 || p.msat == 0 then Some(InvalidAmount)
    else if p.senderAfter + p.receiverAfter >= U64_LIMIT then Some(PaymentBalanceOverflow)
    else if p.senderAfter + p.receiverAfter != p.total then Some(PaymentBalanceNotConserved)
    else
      match p.status
      case SettledPayment =>
        if p.reason.None? && p.htlcId.Some? && p.number.Some? then None else Some(PaymentStorageInvariant)
      case FailedPayment =>
        if p.reason.Some? && p.reason.value != [] && p.htlcId.None? && p.number.None? then None
        else Some(PaymentStorageInvariant)
  }

  predicate PaymentsFine(blank: Text -> bool, m: PaymentMap) {
    forall id <- m :: PaymentFault(blank, id, m[id]).None?
  }

  function Record(blank: Text -> bool, m: PaymentMap, p: Payment): (Result<Payment, PaymentError>, PaymentMap) {
    if p.id in m then (Failure(DuplicatePayment), m)
    else if !PaymentsFine(blank, m) then (Failure(OtherPaymentInvalid), m)
    else
      var fault := PaymentFault(blank, p.id, p);
      if fault.Some? then (Failure(fault.value), m) else (Success(p), m[p.id := p])
  }

  // ----- one send -----

  datatype Ledger = Ledger(commitments: CommitmentStore.Store, htlcs: HtlcStore.Htlcs, payments: PaymentMap)

  /** The commitment update and HTLC terms of a send that gets as far as updating the ledger. */
  datatype Attempt = Attempt(update: Request, terms: HtlcStore.Validation, prepared: Prepared)

  /** What a payment request has against it before its HTLC is looked at. */
  function RequestRefusal(env: PayEnv, s: CommitmentStore.Store, q: PaymentRequest, offer: Option<Prepared>):
      Option<PaymentError>
  {
    if q.channelId !in s.channels then Some(CommitmentFault(UnknownChannel))
    else if env.blank(q.sender) || env.blank(q.receiver) then Some(EmptyPeer)
    else if q.amount == 0 then Some(InvalidAmount)
    else if offer.None? then Some(NotPrepared)
    else if s.channels[q.channelId].assetId != q.assetId then Some(PaymentAssetMismatch)
    else if q.now + 4 >= U64_LIMIT then Some(TimestampOverflow)
    else None
  }

  /** The HTLC terms the final hop grants four seconds after the request. */
  function HopFor(env: PayEnv, st: State, q: PaymentRequest, p: Prepared):
      Result<HtlcStore.Validation, HtlcStore.HtlcError>
    requires q.now + 4 < U64_LIMIT
  {
    HtlcStore.FinalHop(Hop(env), p.records, p.invoice, p.authorization, st.monitor.root, q.now + 4)
  }

  /** The attempt, from the outcome of the final hop and of building the update. */
  function Combine(p: Prepared, terms: Result<HtlcStore.Validation, HtlcStore.HtlcError>,
                   update: Result<Request, CommitmentError>): Result<Attempt, PaymentError>
  {
    if terms.Failure? then Failure(HtlcFault(terms.error))
    else if update.Failure? then Failure(CommitmentFault(update.error))
    else Success(Attempt(update.value, terms.value, p))
  }

  /** Everything before the first store is touched. `offer` is what quoting came to, if it succeeded. */
  function Prepare(env: PayEnv, s: CommitmentStore.Store, q: PaymentRequest, offer: Option<Prepared>):
      Result<Attempt, PaymentError>
  {
    var refusal := RequestRefusal(env, s, q, offer);
    if refusal.Some? then Failure(refusal.value)
    else
      var st := s.channels[q.channelId];
      var terms := HopFor(env, st, q, offer.value);
      var amount := if terms.Success? then terms.value.amount else 0;
      Combine(offer.value, terms, BuildUpdate(env.ledger, st, amount, 0, q.nonce))
  }

  function PaymentFor(env: PayEnv, q: PaymentRequest, p: Prepared, htlcId: Text, s: Snapshot): Payment {
    Payment(PaymentId(env.ledger.sha, q.channelId, p.invoice.quoteId, p.records.paymentHash), q.channelId,
            q.sender, q.receiver, p.records.assetId, p.records.amount, p.invoice.quoteId, p.records.msat,
            p.records.paymentHash, Some(htlcId), Some(s.number), SettledPayment, None,
            s.local, s.remote, s.total)
  }

  /** Settling the HTLC and recording the payment, after the commitment update went through. */
  function Settle(env: PayEnv, l: Ledger, q: PaymentRequest, a: Attempt, s: Snapshot):
      (Result<Payment, PaymentError>, Ledger)
  {
    var (added, offered) := HtlcStore.Add(env.ledger.sha, l.htlcs, q.channelId, a.terms);
    if added.Failure? then (Failure(HtlcFault(added.error)), l)
    else
      var (moved, settled) := HtlcStore.Transition(offered, added.value.id, HtlcStore.Settled);
      var l' := l.(htlcs := settled);
      if moved.Failure? then (Failure(HtlcFault(moved.error)), l')
      else if !HtlcStore.HtlcsFine(env.blank, settled) then (Failure(HtlcFault(HtlcStore.StorageInvariant)), l')
      else
        var (recorded, payments) := Record(env.blank, l.payments, PaymentFor(env, q, a.prepared, moved.value.id, s));
        (recorded, l'.(payments := payments))
  }

  function Send(env: PayEnv, l: Ledger, q: PaymentRequest, offer: Option<Prepared>):
      (Result<Payment, PaymentError>, Ledger)
  {
    var a := Prepare(env, l.commitments, q, offer);
    if a.Failure? then (Failure(a.error), l)
    else
      var (applied, commitments) := CommitmentStore.Apply(env.ledger, l.commitments, a.value.update);
      if applied.Failure? then (Failure(CommitmentFault(applied.error)), l.(commitments := commitments))
      else Settle(env, l.(commitments := commitments), q, a.value, applied.value)
  }

  class NativeAssetPaymentStore {
    var payments: PaymentMap

    constructor ()
      ensures payments == map[]
    {
      payments := map[];
    }

    method RecordPayment(blank: Text -> bool, p: Payment) returns (r: Result<Payment, PaymentError>)
      modifies this
      ensures (r, payments) == Record(blank, old(payments), p)
    {
      if p.id in payments {
        return Failure(DuplicatePayment);
      }
      var others := Validate(blank);
      if !others {
        return Failure(OtherPaymentInvalid);
      }
      var fault := PaymentFault(blank, p.id, p);
      if fault.Some? {
        return Failure(fault.value);
      }
      payments := payments[p.id := p];
      return Success(p);
    }

    method Validate(blank: Text -> bool) returns (ok: bool)
      ensures ok <==> PaymentsFine(blank, payments)
    {
      var left := payments.Keys;
      while left != {}
        invariant left <= payments.Keys
        invariant forall id <- payments | id !in left :: PaymentFault(blank, id, payments[id]).None?
        decreases |left|
      {
        var id :| id in left;
        if PaymentFault(blank, id, payments[id]).Some? {
          return false;
        }
        left := left - {id};
      }
      return true;
    }
  }

  /** The three stores, updated in sequence: a fault at a later store leaves the earlier ones changed. */
  method SettlePreparedPayment(env: PayEnv, commitments: CommitmentStore.AssetCommitmentStore,
                               htlcs: HtlcStore.AssetHtlcStore, payments: NativeAssetPaymentStore,
                               q: PaymentRequest, offer: Option<Prepared>)
      returns (r: Result<Payment, PaymentError>)
    requires commitments.env == env.ledger && htlcs.sha == env.ledger.sha
    modifies commitments, htlcs, payments
    ensures (r, Ledger(commitments.Contents(), htlcs.htlcs, payments.payments)) ==
              Send(env, old(Ledger(commitments.Contents(), htlcs.htlcs, payments.payments)), q, offer)
  {
    var a := Prepare(env, commitments.Contents(), q, offer);
    if a.Failure? {
      return Failure(a.error);
    }
    var applied := commitments.ApplyUpdate(a.value.update);
    if applied.Failure? {
      return Failure(CommitmentFault(applied.error));
    }
    var added := htlcs.AddHtlc(q.channelId, a.value.terms);
    if added.Failure? {
      return Failure(HtlcFault(added.error));
    }
    var settled := htlcs.Move(added.value.id, HtlcStore.Settled);
    if settled.Failure? {
      return Failure(HtlcFault(settled.error));
    }
    var fine := htlcs.Validate(env.blank);
    if !fine {
      return Failure(HtlcFault(HtlcStore.StorageInvariant));
    }
    r := payments.RecordPayment(env.blank, PaymentFor(env, q, a.value.prepared, settled.value.id, applied.value));
  }

  /** A payment passes the check exactly when it is under its id, names its peers, moves something for
      something, its balances add up, and it either settled under an HTLC and a commitment or failed with a
      reason. */
  lemma FineExactly(blank: Text -> bool, id: Text, p: Payment)
    ensures PaymentFault(blank, id, p).None? <==>
              && id == p.id && !blank(p.sender) && !blank(p.receiver) && p.amount != 0 && p.msat != 0
              && p.senderAfter + p.receiverAfter == p.total
              && (p.status.SettledPayment? <==> p.htlcId.Some?) && (p.status.SettledPayment? <==> p.number.Some?)
              && (p.status.SettledPayment? <==> p.reason.None?) && (p.reason.Some? ==> p.reason.value != [])
  {
  }

  /** A payment is recorded exactly when its id is new and it and all others pass the check. */
  lemma RecordExactly(blank: Text -> bool, m: PaymentMap, p: Payment)
    ensures var (r, next) := Record(blank, m, p);
            && (r.Success? <==> p.id !in m && PaymentsFine(blank, m[p.id := p]))
            && next == if r.Success? then m[p.id := p] else m
  {
    var all := m[p.id := p];
    if p.id !in m {
      assert forall id <- m :: id in all && all[id] == m[id];
      assert p.id in all;
    }
  }

  // ----- what a send does -----

  /** What is left to go wrong once the commitment update was accepted: the ids are new, the channel id
      is not blank and the amounts are not zero. A caller can check it before the call. */
  predicate Clear(env: PayEnv, l: Ledger, q: PaymentRequest, p: Prepared, terms: HtlcStore.Validation) {
    && HtlcStore.HtlcId(env.ledger.sha, q.channelId, terms) !in l.htlcs
    && PaymentId(env.ledger.sha, q.channelId, p.invoice.quoteId, p.records.paymentHash) !in l.payments
    && !env.blank(q.channelId) && terms.amount != 0 && terms.msat != 0
  }

  predicate StoresFine(env: PayEnv, l: Ledger) {
    HtlcStore.HtlcsFine(env.blank, l.htlcs) && PaymentsFine(env.blank, l.payments)
  }

  function SettledHtlc(env: PayEnv, q: PaymentRequest, terms: HtlcStore.Validation): HtlcStore.Htlc {
    HtlcStore.Htlc(HtlcStore.HtlcId(env.ledger.sha, q.channelId, terms), q.channelId, terms, HtlcStore.Settled)
  }

  lemma BuiltFields(env: Env, st: State, out: u64, in_: u64, nonce: Bytes32)
    requires BuildUpdate(env, st, out, in_, nonce).Success?
    ensures var r := BuildUpdate(env, st, out, in_, nonce).value;
            r.channelId == st.channelId && r.localToRemote == out && r.remoteToLocal == in_
  {
  }

  lemma Refused(env: PayEnv, s: CommitmentStore.Store, q: PaymentRequest, offer: Option<Prepared>)
    requires RequestRefusal(env, s, q, offer).None?
    ensures q.channelId in s.channels && offer.Some? && !env.blank(q.sender) && !env.blank(q.receiver)
    ensures q.now + 4 < U64_LIMIT
  {
  }

  lemma CombinedFacts(st: State, p: Prepared, terms: Result<HtlcStore.Validation, HtlcStore.HtlcError>,
                      update: Result<Request, CommitmentError>)
    requires Combine(p, terms, update).Success?
    requires update.Success? ==>
               && update.value.channelId == st.channelId && update.value.remoteToLocal == 0
               && (terms.Success? ==> update.value.localToRemote == terms.value.amount)
    ensures terms.Success? && update.Success?
    ensures var a := Combine(p, terms, update).value;
            && a.prepared == p && a.terms == terms.value && a.update.channelId == st.channelId
            && a.update.localToRemote == a.terms.amount && a.update.remoteToLocal == 0
  {
  }

  lemma HopForTerms(env: PayEnv, st: State, q: PaymentRequest, p: Prepared)
    requires q.now + 4 < U64_LIMIT && HopFor(env, st, q, p).Success?
    ensures HopFor(env, st, q, p).value ==
              HtlcStore.Validation(p.records.assetId, p.records.amount, p.records.quoteId, p.records.msat,
                                   p.records.paymentHash)
  {
  }

  /** What a prepared attempt asks of the ledger. */
  predicate Asks(env: PayEnv, s: CommitmentStore.Store, q: PaymentRequest, a: Attempt) {
    var r := a.prepared.records;
    && q.channelId in s.channels && !env.blank(q.sender) && !env.blank(q.receiver)
    && a.update.channelId == s.channels[q.channelId].channelId
    && a.update.localToRemote == a.terms.amount && a.update.remoteToLocal == 0
    && a.terms == HtlcStore.Validation(r.assetId, r.amount, r.quoteId, r.msat, r.paymentHash)
  }

  lemma CombinedAsks(env: PayEnv, s: CommitmentStore.Store, q: PaymentRequest, offer: Option<Prepared>,
                     terms: Result<HtlcStore.Validation, HtlcStore.HtlcError>, update: Result<Request, CommitmentError>)
    requires RequestRefusal(env, s, q, offer).None? && offer.Some? && Combine(offer.value, terms, update).Success?
    requires q.channelId in s.channels
    requires terms.Success? ==>
               var r := offer.value.records;
               terms.value == HtlcStore.Validation(r.assetId, r.amount, r.quoteId, r.msat, r.paymentHash)
    requires update.Success? ==>
               && update.value.channelId == s.channels[q.channelId].channelId && update.value.remoteToLocal == 0
               && (terms.Success? ==> update.value.localToRemote == terms.value.amount)
    ensures var a := Combine(offer.value, terms, update).value; a.prepared == offer.value && Asks(env, s, q, a)
  {
    CombinedFacts(s.channels[q.channelId], offer.value, terms, update);
  }

  lemma PreparedFacts(env: PayEnv, s: CommitmentStore.Store, q: PaymentRequest, offer: Option<Prepared>)
    requires Prepare(env, s, q, offer).Success?
    ensures offer == Some(Prepare(env, s, q, offer).value.prepared) && Asks(env, s, q, Prepare(env, s, q, offer).value)
  {
    Refused(env, s, q, offer);
    var st, p := s.channels[q.channelId], offer.value;
    var terms := HopFor(env, st, q, p);
    var amount := if terms.Success? then terms.value.amount else 0;
    var update := BuildUpdate(env.ledger, st, amount, 0, q.nonce);
    if update.Success? {
      BuiltFields(env.ledger, st, amount, 0, q.nonce);
    }
    if terms.Success? {
      HopForTerms(env, st, q, p);
    }
    CombinedAsks(env, s, q, offer, terms, update);
  }

  lemma HtlcsSettled(env: PayEnv, m: HtlcStore.Htlcs, q: PaymentRequest, terms: HtlcStore.Validation)
    requires HtlcStore.HtlcsFine(env.blank, m) && HtlcStore.HtlcId(env.ledger.sha, q.channelId, terms) !in m
    ensures var h := SettledHtlc(env, q, terms);
            && HtlcStore.Add(env.ledger.sha, m, q.channelId, terms).0.Success?
            && HtlcStore.Transition(HtlcStore.Add(env.ledger.sha, m, q.channelId, terms).1, h.id, HtlcStore.Settled)
                 == (Success(h), m[h.id := h])
            && (HtlcStore.HtlcsFine(env.blank, m[h.id := h]) <==>
                  !env.blank(q.channelId) && terms.amount != 0 && terms.msat != 0)
  {
    var h := SettledHtlc(env, q, terms);
    var offered := m[h.id := h.(status := HtlcStore.Offered)];
    assert offered[h.id := h] == m[h.id := h];
    assert h.id in m[h.id := h];
    assert forall id <- m[h.id := h] | id != h.id :: m[h.id := h][id] == m[id];
  }

  /** After the commitment update the send succeeds exactly when the way is clear, and then settles one
      new HTLC and records one new payment. */
  lemma SettleOutcome(env: PayEnv, l: Ledger, q: PaymentRequest, a: Attempt, s: Snapshot)
    requires StoresFine(env, l) && s.local + s.remote == s.total
    requires !env.blank(q.sender) && !env.blank(q.receiver)
    requires a.terms.amount == a.prepared.records.amount && a.terms.msat == a.prepared.records.msat
    ensures Settle(env, l, q, a, s).0.Success? <==> Clear(env, l, q, a.prepared, a.terms)
    ensures Settle(env, l, q, a, s).1.commitments == l.commitments
    ensures var h := SettledHtlc(env, q, a.terms);
            var p := PaymentFor(env, q, a.prepared, h.id, s);
            Clear(env, l, q, a.prepared, a.terms) ==>
              Settle(env, l, q, a, s) ==
                (Success(p), l.(htlcs := l.htlcs[h.id := h], payments := l.payments[p.id := p]))
  {
    if HtlcStore.HtlcId(env.ledger.sha, q.channelId, a.terms) !in l.htlcs {
      HtlcsSettled(env, l.htlcs, q, a.terms);
    }
  }

  /** The snapshot an accepted update returns. */
  lemma ApplySnapshot(env: Env, s: CommitmentStore.Store, r: Request)
    requires CommitmentStore.Apply(env, s, r).0.Success?
    ensures r.channelId in s.channels
    ensures var st := s.channels[r.channelId];
            var snapshot := CommitmentStore.Apply(env, s, r).0.value;
            && snapshot.number == st.latest + 1 && snapshot.local + snapshot.remote == snapshot.total
            && r.channelId in CommitmentStore.Apply(env, s, r).1.channels
            && var next := CommitmentStore.Apply(env, s, r).1.channels[r.channelId];
               && next.latest == snapshot.number && next.local == snapshot.local && next.remote == snapshot.remote
  {
    CommitmentStore.ApplyEffect(env, s, r);
    Updated(env, s.channels[r.channelId], r);
    Validated(env, s.channels[r.channelId], r);
  }

  /** Whether the send gets its commitment update accepted. */
  predicate Commits(env: PayEnv, l: Ledger, q: PaymentRequest, offer: Option<Prepared>) {
    var a := Prepare(env, l.commitments, q, offer);
    a.Success? && CommitmentStore.Apply(env.ledger, l.commitments, a.value.update).0.Success?
  }

  /** The commitments after the send: advanced as soon as the update was accepted. */
  lemma SendAdvances(env: PayEnv, l: Ledger, q: PaymentRequest, offer: Option<Prepared>)
    requires StoresFine(env, l)
    ensures !Commits(env, l, q, offer) ==> Send(env, l, q, offer).0.Failure? && Send(env, l, q, offer).1 == l
    ensures Commits(env, l, q, offer) ==>
              var update := Prepare(env, l.commitments, q, offer).value.update;
              Send(env, l, q, offer).1.commitments == CommitmentStore.Apply(env.ledger, l.commitments, update).1
  {
    var a := Prepare(env, l.commitments, q, offer);
    if a.Success? {
      PreparedFacts(env, l.commitments, q, offer);
      CommitmentStore.ApplyEffect(env.ledger, l.commitments, a.value.update);
      if Commits(env, l, q, offer) {
        ApplySnapshot(env.ledger, l.commitments, a.value.update);
        var (applied, commitments) := CommitmentStore.Apply(env.ledger, l.commitments, a.value.update);
        SettleOutcome(env, l.(commitments := commitments), q, a.value, applied.value);
      }
    }
  }

  /** A send succeeds exactly when its commitment update is accepted and the way is clear; a failed send
      leaves the three stores as they were exactly when its update was not accepted. */
  lemma SendOutcome(env: PayEnv, l: Ledger, q: PaymentRequest, offer: Option<Prepared>)
    requires StoresFine(env, l)
    ensures var a := Prepare(env, l.commitments, q, offer);
            Send(env, l, q, offer).0.Success? <==>
              Commits(env, l, q, offer) && Clear(env, l, q, a.value.prepared, a.value.terms)
    ensures Send(env, l, q, offer).0.Failure? ==>
              (Send(env, l, q, offer).1 == l <==> !Commits(env, l, q, offer))
  {
    SendAdvances(env, l, q, offer);
    if Commits(env, l, q, offer) {
      var a := Prepare(env, l.commitments, q, offer).value;
      PreparedFacts(env, l.commitments, q, offer);
      ApplySnapshot(env.ledger, l.commitments, a.update);
      var (applied, commitments) := CommitmentStore.Apply(env.ledger, l.commitments, a.update);
      SettleOutcome(env, l.(commitments := commitments), q, a, applied.value);
    }
  }
}
