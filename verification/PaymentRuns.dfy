/** Runs of payments: the three stores keep telling the same story. */
module PaymentRuns {
  import opened ByteBits
  import opened Primitives
  import opened Text
  import opened Channels
  import opened CommitmentState
  import opened CommitmentLedger
  import opened Payments
  import CommitmentStore
  import HtlcStore

  datatype PayOp = OpenChannel(channel: StoredChannel) | Pay(request: PaymentRequest, offer: Option<Prepared>)

  const EMPTY_LEDGER: Ledger := Ledger(CommitmentStore.EMPTY_STORE, map[], map[])

  function Perform(env: PayEnv, l: Ledger, op: PayOp): Ledger {
    match op
    case OpenChannel(c) => l.(commitments := CommitmentStore.Initialize(env.ledger, l.commitments, c).1)
    case Pay(q, offer) => Send(env, l, q, offer).1
  }

  function Run(env: PayEnv, ops: seq<PayOp>): Ledger {
    if ops == [] then EMPTY_LEDGER else Perform(env, Run(env, ops[..|ops| - 1]), ops[|ops| - 1])
  }

  /** The calls on the commitment store a payment run comes down to. */
  function CommitOps(env: PayEnv, ops: seq<PayOp>): seq<CommitmentStore.Op> {
    if ops == [] then []
    else
      var front := ops[..|ops| - 1];
      var earlier := CommitOps(env, front);
      match ops[|ops| - 1]
      case OpenChannel(c) => earlier + [CommitmentStore.Open(c)]
      case Pay(q, offer) =>
        var a := Prepare(env, Run(env, front).commitments, q, offer);
        if a.Success? then earlier + [CommitmentStore.Update(a.value.update)] else earlier
  }

  /** Every payment of the run that gets its commitment update accepted has a clear way: fresh ids and
      amounts that are not zero. */
  ghost predicate AllClear(env: PayEnv, ops: seq<PayOp>) {
    ops == [] ||
    var front, op := ops[..|ops| - 1], ops[|ops| - 1];
    && AllClear(env, front)
    && (op.Pay? && Commits(env, Run(env, front), op.request, op.offer) ==>
          var a := Prepare(env, Run(env, front).commitments, op.request, op.offer).value;
          Clear(env, Run(env, front), op.request, a.prepared, a.terms))
  }

  /** The payments on a channel that were sent successfully, in order. */
  function Paid(env: PayEnv, ops: seq<PayOp>, id: Text): seq<Payment> {
    if ops == [] then []
    else
      var front, op := ops[..|ops| - 1], ops[|ops| - 1];
      if op.Pay? && op.request.channelId == id && Send(env, Run(env, front), op.request, op.offer).0.Success? then
        Paid(env, front, id) + [Send(env, Run(env, front), op.request, op.offer).0.value]
      else Paid(env, front, id)
  }

  function PaidTotal(paid: seq<Payment>): nat {
    if paid == [] then 0 else PaidTotal(paid[..|paid| - 1]) + paid[|paid| - 1].amount
  }

  // ----- the ledger after one operation -----

  /** A clear send whose update is accepted: the three new stores. */
  lemma PaySucceeds(env: PayEnv, l: Ledger, q: PaymentRequest, offer: Option<Prepared>)
    requires StoresFine(env, l) && Commits(env, l, q, offer)
    requires var a := Prepare(env, l.commitments, q, offer).value; Clear(env, l, q, a.prepared, a.terms)
    ensures var a := Prepare(env, l.commitments, q, offer).value;
            var (applied, commitments) := CommitmentStore.Apply(env.ledger, l.commitments, a.update);
            var h := SettledHtlc(env, q, a.terms);
            var p := PaymentFor(env, q, a.prepared, h.id, applied.value);
            && Send(env, l, q, offer) ==
                 (Success(p), Ledger(commitments, l.htlcs[h.id := h], l.payments[p.id := p]))
            && StoresFine(env, Send(env, l, q, offer).1)
  {
    var a := Prepare(env, l.commitments, q, offer).value;
    PreparedFacts(env, l.commitments, q, offer);
    ApplySnapshot(env.ledger, l.commitments, a.update);
    var (applied, commitments) := CommitmentStore.Apply(env.ledger, l.commitments, a.update);
    SettleOutcome(env, l.(commitments := commitments), q, a, applied.value);
    HtlcsSettled(env, l.htlcs, q, a.terms);
    var p := PaymentFor(env, q, a.prepared, SettledHtlc(env, q, a.terms).id, applied.value);
    PaymentsGrow(env.blank, l.payments, p);
  }

  lemma PaymentsGrow(blank: Text -> bool, m: PaymentMap, p: Payment)
    requires PaymentsFine(blank, m) && PaymentFault(blank, p.id, p).None?
    ensures PaymentsFine(blank, m[p.id := p])
  {
  }

  lemma {:induction false} CommitOpsSnoc(env: PayEnv, ops: seq<PayOp>, op: PayOp)
    ensures Run(env, ops + [op]) == Perform(env, Run(env, ops), op)
    ensures op.OpenChannel? ==> CommitOps(env, ops + [op]) == CommitOps(env, ops) + [CommitmentStore.Open(op.channel)]
    ensures op.Pay? ==>
              var a := Prepare(env, Run(env, ops).commitments, op.request, op.offer);
              CommitOps(env, ops + [op]) ==
                if a.Success? then CommitOps(env, ops) + [CommitmentStore.Update(a.value.update)]
                else CommitOps(env, ops)
  {
    assert (ops + [op])[..|ops|] == ops;
  }

  lemma {:induction false} RunSnoc(env: Env, ops: seq<CommitmentStore.Op>, op: CommitmentStore.Op)
    ensures CommitmentStore.Run(env, ops + [op]) == CommitmentStore.Perform(env, CommitmentStore.Run(env, ops), op)
  {
    assert (ops + [op])[..|ops|] == ops;
  }

  /** The commitments after one payment, whatever becomes of it. */
  lemma PayCommitments(env: PayEnv, l: Ledger, q: PaymentRequest, offer: Option<Prepared>)
    requires StoresFine(env, l)
    ensures var a := Prepare(env, l.commitments, q, offer);
            Send(env, l, q, offer).1.commitments ==
              if a.Success? then CommitmentStore.Apply(env.ledger, l.commitments, a.value.update).1
              else l.commitments
  {
    SendAdvances(env, l, q, offer);
    var a := Prepare(env, l.commitments, q, offer);
    if a.Success? {
      CommitmentStore.ApplyEffect(env.ledger, l.commitments, a.value.update);
    }
  }

  /** The ledger of a run: its commitments are those of a run of the commitment store, and the other
      stores pass their checks. */
  ghost predicate Follows(env: PayEnv, ops: seq<PayOp>, l: Ledger) {
    l.commitments == CommitmentStore.Run(env.ledger, CommitOps(env, ops)) && StoresFine(env, l)
  }

  lemma {:induction false} FollowsPay(env: PayEnv, ops: seq<PayOp>, q: PaymentRequest, offer: Option<Prepared>)
    requires AllClear(env, ops + [Pay(q, offer)]) && Follows(env, ops, Run(env, ops))
    ensures Follows(env, ops + [Pay(q, offer)], Run(env, ops + [Pay(q, offer)]))
  {
    var op := Pay(q, offer);
    var l := Run(env, ops);
    assert (ops + [op])[..|ops|] == ops;
    CommitOpsSnoc(env, ops, op);
    PayCommitments(env, l, q, offer);
    var a := Prepare(env, l.commitments, q, offer);
    if a.Success? {
      RunSnoc(env.ledger, CommitOps(env, ops), CommitmentStore.Update(a.value.update));
    }
    if Commits(env, l, q, offer) {
      PaySucceeds(env, l, q, offer);
    } else {
      SendAdvances(env, l, q, offer);
    }
  }

  lemma {:induction false} FollowsOpen(env: PayEnv, ops: seq<PayOp>, c: StoredChannel)
    requires Follows(env, ops, Run(env, ops))
    ensures Follows(env, ops + [OpenChannel(c)], Run(env, ops + [OpenChannel(c)]))
  {
    CommitOpsSnoc(env, ops, OpenChannel(c));
    RunSnoc(env.ledger, CommitOps(env, ops), CommitmentStore.Open(c));
  }

  lemma {:induction false} RunFollows(env: PayEnv, ops: seq<PayOp>)
    requires AllClear(env, ops)
    ensures Follows(env, ops, Run(env, ops))
  {
    if ops != [] {
      var front, op := ops[..|ops| - 1], ops[|ops| - 1];
      assert ops == front + [op];
      RunFollows(env, front);
      match op
      case OpenChannel(c) => FollowsOpen(env, front, c);
      case Pay(q, offer) => FollowsPay(env, front, q, offer);
    }
  }

  // ----- agreement -----

  /** The i-th payment of a channel agrees with the i-th accepted update, with its own entry in the
      payment store, and with its own settled HTLC. */
  predicate PaymentAgrees(htlcs: HtlcStore.Htlcs, payments: PaymentMap, c: StoredChannel, log: seq<Request>, i: nat,
                          p: Payment)
    requires i < |log|
  {
    && log[i].localToRemote == p.amount && log[i].remoteToLocal == 0
    && p.channelId == c.channelId && p.number == Some(i + 1) && p.status.SettledPayment?
    && p.senderAfter == LocalAfter(c, log[..i + 1]) && p.senderAfter + p.receiverAfter == c.totalAmount
    && p.id in payments && payments[p.id] == p
    && p.htlcId.Some? && p.htlcId.value in htlcs
    && var h := htlcs[p.htlcId.value];
       && h.status.Settled? && h.channelId == p.channelId && h.terms.assetId == p.assetId
       && h.terms.amount == p.amount && h.terms.msat == p.msat && h.terms.paymentHash == p.paymentHash
  }

  ghost predicate ChannelAgrees(htlcs: HtlcStore.Htlcs, payments: PaymentMap, c: StoredChannel, log: seq<Request>,
                                paid: seq<Payment>) {
    |log| == |paid| && forall i: nat | i < |paid| :: PaymentAgrees(htlcs, payments, c, log, i, paid[i])
  }

  lemma AgreesFrame(htlcs: HtlcStore.Htlcs, payments: PaymentMap, h: HtlcStore.Htlc, x: Payment, c: StoredChannel,
                    log: seq<Request>, paid: seq<Payment>)
    requires ChannelAgrees(htlcs, payments, c, log, paid) && h.id !in htlcs && x.id !in payments
    ensures ChannelAgrees(htlcs[h.id := h], payments[x.id := x], c, log, paid)
  {
    forall i: nat | i < |paid|
      ensures PaymentAgrees(htlcs[h.id := h], payments[x.id := x], c, log, i, paid[i])
    {
      assert PaymentAgrees(htlcs, payments, c, log, i, paid[i]);
    }
  }

  lemma AgreesGrow(htlcs: HtlcStore.Htlcs, payments: PaymentMap, c: StoredChannel, log: seq<Request>,
                   paid: seq<Payment>, r: Request, p: Payment)
    requires ChannelAgrees(htlcs, payments, c, log, paid)
    requires PaymentAgrees(htlcs, payments, c, log + [r], |log|, p)
    ensures ChannelAgrees(htlcs, payments, c, log + [r], paid + [p])
  {
    forall i: nat | i < |paid| + 1
      ensures PaymentAgrees(htlcs, payments, c, log + [r], i, (paid + [p])[i])
    {
      if i < |paid| {
        assert PaymentAgrees(htlcs, payments, c, log, i, paid[i]);
        assert (log + [r])[..i + 1] == log[..i + 1];
      }
    }
  }

  /** What a payment run has recorded for a channel. */
  ghost predicate Agreement(env: PayEnv, ops: seq<PayOp>, id: Text) {
    var commits := CommitOps(env, ops);
    var origin := CommitmentStore.OpenedWith(env.ledger, commits, id);
    var log, paid := CommitmentStore.Log(env.ledger, commits, id), Paid(env, ops, id);
    var l := Run(env, ops);
    if origin.Some? then ChannelAgrees(l.htlcs, l.payments, origin.value, log, paid) else log == [] && paid == []
  }

  lemma {:induction false} PaidSnoc(env: PayEnv, ops: seq<PayOp>, op: PayOp, id: Text)
    ensures Paid(env, ops + [op], id) ==
              if op.Pay? && op.request.channelId == id
                 && Send(env, Run(env, ops), op.request, op.offer).0.Success? then
                Paid(env, ops, id) + [Send(env, Run(env, ops), op.request, op.offer).0.value]
              else Paid(env, ops, id)
  {
    assert (ops + [op])[..|ops|] == ops;
  }

  /** The channel an accepted payment update belongs to is the one the payment names. */
  lemma {:induction false} PaysOwnChannel(env: PayEnv, ops: seq<PayOp>, q: PaymentRequest, offer: Option<Prepared>)
    requires Follows(env, ops, Run(env, ops)) && Prepare(env, Run(env, ops).commitments, q, offer).Success?
    ensures Prepare(env, Run(env, ops).commitments, q, offer).value.update.channelId == q.channelId
  {
    var s := Run(env, ops).commitments;
    PreparedFacts(env, s, q, offer);
    CommitmentStore.RunFine(env.ledger, CommitOps(env, ops));
    assert CommitmentStore.ChannelFine(env.ledger, q.channelId, s.channels[q.channelId]);
  }

  /** The channel's opening and its log after a payment. */
  lemma {:induction false} PayPast(env: PayEnv, ops: seq<PayOp>, q: PaymentRequest, offer: Option<Prepared>, id: Text)
    requires Follows(env, ops, Run(env, ops))
    ensures var before, after := CommitOps(env, ops), CommitOps(env, ops + [Pay(q, offer)]);
            && CommitmentStore.OpenedWith(env.ledger, after, id) == CommitmentStore.OpenedWith(env.ledger, before, id)
            && CommitmentStore.Log(env.ledger, after, id) ==
                 if Commits(env, Run(env, ops), q, offer) && id == q.channelId then
                   CommitmentStore.Log(env.ledger, before, id)
                   + [Prepare(env, Run(env, ops).commitments, q, offer).value.update]
                 else CommitmentStore.Log(env.ledger, before, id)
  {
    CommitOpsSnoc(env, ops, Pay(q, offer));
    var a := Prepare(env, Run(env, ops).commitments, q, offer);
    if a.Success? {
      PaysOwnChannel(env, ops, q, offer);
      CommitmentStore.UpdatePast(env.ledger, CommitOps(env, ops), a.value.update, id);
    }
  }

  /** The state of a channel right after its payment's update was accepted. */
  lemma {:induction false} PaidState(env: PayEnv, ops: seq<PayOp>, q: PaymentRequest, offer: Option<Prepared>)
    requires Follows(env, ops, Run(env, ops)) && Commits(env, Run(env, ops), q, offer)
    ensures var commits := CommitOps(env, ops);
            var origin := CommitmentStore.OpenedWith(env.ledger, commits, q.channelId);
            var log := CommitmentStore.Log(env.ledger, commits, q.channelId);
            var s := Run(env, ops).commitments;
            var r := Prepare(env, s, q, offer).value.update;
            var snapshot := CommitmentStore.Apply(env.ledger, s, r).0.value;
            && origin.Some? && origin.value.channelId == q.channelId
            && snapshot.number == |log| + 1 && snapshot.local == LocalAfter(origin.value, log + [r])
            && snapshot.local + snapshot.remote == origin.value.totalAmount
  {
    var commits := CommitOps(env, ops);
    var s := Run(env, ops).commitments;
    var r := Prepare(env, s, q, offer).value.update;
    PaysOwnChannel(env, ops, q, offer);
    ApplySnapshot(env.ledger, s, r);
    CommitmentStore.RunTracks(env.ledger, commits);
    CommitmentStore.RunTracks(env.ledger, commits + [CommitmentStore.Update(r)]);
    CommitmentStore.UpdatePast(env.ledger, commits, r, q.channelId);
  }

  /** The payment and the HTLC made from one attempt agree with the update made from it. */
  lemma {:induction false} EntryAgrees(env: PayEnv, q: PaymentRequest, a: Attempt, c: StoredChannel, log: seq<Request>,
                                       s: Snapshot, htlcs: HtlcStore.Htlcs, payments: PaymentMap)
    requires var r := a.prepared.records;
             && a.terms == HtlcStore.Validation(r.assetId, r.amount, r.quoteId, r.msat, r.paymentHash)
             && a.update.localToRemote == a.terms.amount && a.update.remoteToLocal == 0
    requires c.channelId == q.channelId && s.number == |log| + 1 && s.local == LocalAfter(c, log + [a.update])
    requires s.local + s.remote == c.totalAmount
    requires var h := SettledHtlc(env, q, a.terms); h.id in htlcs && htlcs[h.id] == h
    requires var p := PaymentFor(env, q, a.prepared, SettledHtlc(env, q, a.terms).id, s); p.id in payments && payments[p.id] == p
    ensures PaymentAgrees(htlcs, payments, c, log + [a.update], |log|,
                          PaymentFor(env, q, a.prepared, SettledHtlc(env, q, a.terms).id, s))
  {
    assert (log + [a.update])[..|log| + 1] == log + [a.update];
  }

  lemma {:induction false} NewPaymentAgrees(env: PayEnv, ops: seq<PayOp>, q: PaymentRequest, offer: Option<Prepared>)
    requires AllClear(env, ops + [Pay(q, offer)]) && Follows(env, ops, Run(env, ops))
    requires Commits(env, Run(env, ops), q, offer)
    ensures var l, l' := Run(env, ops), Send(env, Run(env, ops), q, offer).1;
            var origin := CommitmentStore.OpenedWith(env.ledger, CommitOps(env, ops), q.channelId);
            var log := CommitmentStore.Log(env.ledger, CommitOps(env, ops), q.channelId);
            var r := Prepare(env, l.commitments, q, offer).value.update;
            && Send(env, l, q, offer).0.Success? && origin.Some?
            && PaymentAgrees(l'.htlcs, l'.payments, origin.value, log + [r], |log|, Send(env, l, q, offer).0.value)
  {
    var l := Run(env, ops);
    var op := Pay(q, offer);
    assert (ops + [op])[..|ops|] == ops;
    PreparedFacts(env, l.commitments, q, offer);
    PaySucceeds(env, l, q, offer);
    PaidState(env, ops, q, offer);
    var l' := Send(env, l, q, offer).1;
    var origin := CommitmentStore.OpenedWith(env.ledger, CommitOps(env, ops), q.channelId);
    var log := CommitmentStore.Log(env.ledger, CommitOps(env, ops), q.channelId);
    var a := Prepare(env, l.commitments, q, offer).value;
    var s := CommitmentStore.Apply(env.ledger, l.commitments, a.update).0.value;
    EntryAgrees(env, q, a, origin.value, log, s, l'.htlcs, l'.payments);
  }

  lemma {:induction false} AgreementPay(env: PayEnv, ops: seq<PayOp>, q: PaymentRequest, offer: Option<Prepared>, id: Text)
    requires AllClear(env, ops + [Pay(q, offer)]) && Follows(env, ops, Run(env, ops)) && Agreement(env, ops, id)
    ensures Agreement(env, ops + [Pay(q, offer)], id)
  {
    var op := Pay(q, offer);
    var l := Run(env, ops);
    assert (ops + [op])[..|ops|] == ops;
    CommitOpsSnoc(env, ops, op);
    PaidSnoc(env, ops, op, id);
    PayPast(env, ops, q, offer, id);
    if Commits(env, l, q, offer) {
      NewPaymentAgrees(env, ops, q, offer);
      PaySucceeds(env, l, q, offer);
      var commits := CommitOps(env, ops);
      var origin := CommitmentStore.OpenedWith(env.ledger, commits, id);
      var log, paid := CommitmentStore.Log(env.ledger, commits, id), Paid(env, ops, id);
      if origin.Some? {
        var a := Prepare(env, l.commitments, q, offer).value;
        var p := Send(env, l, q, offer).0.value;
        AgreesFrame(l.htlcs, l.payments, SettledHtlc(env, q, a.terms), p, origin.value, log, paid);
        if id == q.channelId {
          var l' := Send(env, l, q, offer).1;
          AgreesGrow(l'.htlcs, l'.payments, origin.value, log, paid, a.update, p);
        }
      }
    } else {
      SendAdvances(env, l, q, offer);
    }
  }

  lemma {:induction false} AgreementOpen(env: PayEnv, ops: seq<PayOp>, c: StoredChannel, id: Text)
    requires Follows(env, ops, Run(env, ops)) && Agreement(env, ops, id)
    ensures Agreement(env, ops + [OpenChannel(c)], id)
  {
    CommitOpsSnoc(env, ops, OpenChannel(c));
    PaidSnoc(env, ops, OpenChannel(c), id);
    CommitmentStore.OpenPast(env.ledger, CommitOps(env, ops), c, id);
    if CommitmentStore.Initialize(env.ledger, Run(env, ops).commitments, c).0.Success? && c.channelId == id {
      CommitmentStore.InitializeEffect(env.ledger, Run(env, ops).commitments, c);
      FreshChannel(env, ops, id);
    }
  }

  /** A channel that is not open has neither an opening nor a log. */
  lemma {:induction false} FreshChannel(env: PayEnv, ops: seq<PayOp>, id: Text)
    requires Follows(env, ops, Run(env, ops)) && id !in Run(env, ops).commitments.channels
    requires Agreement(env, ops, id)
    ensures CommitmentStore.Log(env.ledger, CommitOps(env, ops), id) == [] && Paid(env, ops, id) == []
  {
    CommitmentStore.RunTracks(env.ledger, CommitOps(env, ops));
  }

  /** Over every run of openings and payments in which payments that reach the ledger have fresh ids and
      amounts that are not zero, the three stores agree on every channel. */
  lemma {:induction false} RunAgrees(env: PayEnv, ops: seq<PayOp>, id: Text)
    requires AllClear(env, ops)
    ensures Agreement(env, ops, id)
  {
    if ops == [] {
      assert CommitmentStore.Log(env.ledger, [], id) == [];
    } else {
      var front, op := ops[..|ops| - 1], ops[|ops| - 1];
      assert ops == front + [op];
      RunFollows(env, front);
      RunAgrees(env, front, id);
      match op
      case OpenChannel(c) => AgreementOpen(env, front, c, id);
      case Pay(q, offer) => AgreementPay(env, front, q, offer, id);
    }
  }

  lemma {:induction false} AgreedAmount(htlcs: HtlcStore.Htlcs, payments: PaymentMap, c: StoredChannel, log: seq<Request>,
                                        i: nat, p: Payment)
    requires i < |log| && PaymentAgrees(htlcs, payments, c, log, i, p)
    ensures p.amount == log[i].localToRemote && log[i].remoteToLocal == 0
  {
  }

  lemma {:induction false} EarlierAgree(htlcs: HtlcStore.Htlcs, payments: PaymentMap, c: StoredChannel,
                                        log: seq<Request>, paid: seq<Payment>)
    requires ChannelAgrees(htlcs, payments, c, log, paid) && log != []
    ensures ChannelAgrees(htlcs, payments, c, log[..|log| - 1], paid[..|paid| - 1])
  {
    var n := |log| - 1;
    forall i: nat | i < n
      ensures PaymentAgrees(htlcs, payments, c, log[..n], i, paid[..n][i])
    {
      assert PaymentAgrees(htlcs, payments, c, log, i, paid[i]);
      assert log[..n][..i + 1] == log[..i + 1];
    }
  }

  lemma {:induction false} PaidIsSent(htlcs: HtlcStore.Htlcs, payments: PaymentMap, c: StoredChannel,
                                      log: seq<Request>, paid: seq<Payment>)
    requires ChannelAgrees(htlcs, payments, c, log, paid)
    ensures Sent(log) == PaidTotal(paid) && Received(log) == 0
    decreases |log|
  {
    if log != [] {
      var n := |log| - 1;
      AgreedAmount(htlcs, payments, c, log, n, paid[n]);
      EarlierAgree(htlcs, payments, c, log, paid);
      PaidIsSent(htlcs, payments, c, log[..n], paid[..n]);
    }
  }

  /** ... so the local balance is the opening one minus everything paid, and there is one commitment for
      each payment. */
  lemma {:induction false} PaymentsExplainBalance(env: PayEnv, ops: seq<PayOp>, id: Text)
    requires AllClear(env, ops) && id in Run(env, ops).commitments.channels
    ensures var origin := CommitmentStore.OpenedWith(env.ledger, CommitOps(env, ops), id);
            var st := Run(env, ops).commitments.channels[id];
            && origin.Some? && st.local == origin.value.localBalance - PaidTotal(Paid(env, ops, id))
            && st.latest == |Paid(env, ops, id)|
  {
    RunFollows(env, ops);
    RunAgrees(env, ops, id);
    CommitmentStore.RunTracks(env.ledger, CommitOps(env, ops));
    var commits := CommitOps(env, ops);
    var origin := CommitmentStore.OpenedWith(env.ledger, commits, id);
    var l := Run(env, ops);
    PaidIsSent(l.htlcs, l.payments, origin.value, CommitmentStore.Log(env.ledger, commits, id), Paid(env, ops, id));
  }

  // ----- one HTLC for each payment -----

  /** Recorded payments and stored HTLCs are in one-to-one correspondence. */
  ghost predicate Paired(l: Ledger) {
    && (forall x <- l.payments :: l.payments[x].htlcId.Some? && l.payments[x].htlcId.value in l.htlcs)
    && (forall x, y | x in l.payments && y in l.payments && x != y ::
          l.payments[x].htlcId != l.payments[y].htlcId)
    && (forall h <- l.htlcs :: exists x :: x in l.payments && l.payments[x].htlcId == Some(h))
  }

  lemma PairedGrows(l: Ledger, s: CommitmentStore.Store, h: HtlcStore.Htlc, p: Payment)
    requires Paired(l) && h.id !in l.htlcs && p.id !in l.payments && p.htlcId == Some(h.id)
    ensures Paired(Ledger(s, l.htlcs[h.id := h], l.payments[p.id := p]))
  {
    var l' := Ledger(s, l.htlcs[h.id := h], l.payments[p.id := p]);
    assert l'.payments[p.id].htlcId == Some(h.id);
    forall g <- l'.htlcs
      ensures exists x :: x in l'.payments && l'.payments[x].htlcId == Some(g)
    {
      if g != h.id {
        var x :| x in l.payments && l.payments[x].htlcId == Some(g);
        assert x in l'.payments && l'.payments[x] == l.payments[x];
      }
    }
  }

  lemma PairedPay(env: PayEnv, l: Ledger, q: PaymentRequest, offer: Option<Prepared>)
    requires StoresFine(env, l) && Paired(l)
    requires Commits(env, l, q, offer) ==>
               var a := Prepare(env, l.commitments, q, offer).value; Clear(env, l, q, a.prepared, a.terms)
    ensures Paired(Send(env, l, q, offer).1)
  {
    if Commits(env, l, q, offer) {
      PaySucceeds(env, l, q, offer);
      var a := Prepare(env, l.commitments, q, offer).value;
      var (applied, commitments) := CommitmentStore.Apply(env.ledger, l.commitments, a.update);
      var h := SettledHtlc(env, q, a.terms);
      PairedGrows(l, commitments, h, PaymentFor(env, q, a.prepared, h.id, applied.value));
    } else {
      SendAdvances(env, l, q, offer);
    }
  }

  /** ... and every payment has a settled HTLC of its own, with no HTLC left over. */
  lemma {:induction false} RunPaired(env: PayEnv, ops: seq<PayOp>)
    requires AllClear(env, ops)
    ensures Paired(Run(env, ops))
  {
    if ops != [] {
      var front, op := ops[..|ops| - 1], ops[|ops| - 1];
      RunPaired(env, front);
      RunFollows(env, front);
      if op.Pay? {
        PairedPay(env, Run(env, front), op.request, op.offer);
      }
    }
  }

  // ----- failed payments that advance the ledger -----

  /** Sending a settled payment's invoice again with another nonce is refused as a duplicate, but not
      before the commitments have advanced. */
  lemma RepeatedPaymentAdvances(env: PayEnv, l: Ledger, q: PaymentRequest, offer: Option<Prepared>, nonce: Bytes32)
    requires StoresFine(env, l) && Send(env, l, q, offer).0.Success?
    requires Commits(env, Send(env, l, q, offer).1, q.(nonce := nonce), offer)
    ensures var l1 := Send(env, l, q, offer).1;
            var again := Send(env, l1, q.(nonce := nonce), offer);
            again.0.Failure? && again.1 != l1
  {
    SendOutcome(env, l, q, offer);
    PaySucceeds(env, l, q, offer);
    var l1 := Send(env, l, q, offer).1;
    PreparedFacts(env, l.commitments, q, offer);
    PreparedFacts(env, l1.commitments, q.(nonce := nonce), offer);
    SendOutcome(env, l1, q.(nonce := nonce), offer);
  }

  /** A send that compares the channel before and after a failure. */
  function TrySend(env: PayEnv, l: Ledger, q: PaymentRequest, offer: Option<Prepared>):
      (Result<Payment, PaymentError>, Ledger)
  {
    if q.channelId !in l.commitments.channels then (Failure(CommitmentFault(UnknownChannel)), l)
    else
      var (r, l') := Send(env, l, q, offer);
      if r.Success? then (r, l')
      else if q.channelId !in l'.commitments.channels then (Failure(CommitmentFault(UnknownChannel)), l')
      else
        var before, after := l.commitments.channels[q.channelId], l'.commitments.channels[q.channelId];
        if before.local != after.local || before.remote != after.remote || before.latest != after.latest then
          (Failure(FailedPaymentAdvancedState), l')
        else (r, l')
  }

  lemma {:induction false} PrepareError(env: PayEnv, s: CommitmentStore.Store, q: PaymentRequest, offer: Option<Prepared>)
    ensures Prepare(env, s, q, offer).Failure? ==> !Prepare(env, s, q, offer).error.FailedPaymentAdvancedState?
  {
  }

  lemma {:induction false} SettleError(env: PayEnv, l: Ledger, q: PaymentRequest, a: Attempt, s: Snapshot)
    ensures var r := Settle(env, l, q, a, s).0; r.Failure? ==> !r.error.FailedPaymentAdvancedState?
  {
  }

  lemma {:induction false} SendError(env: PayEnv, l: Ledger, q: PaymentRequest, offer: Option<Prepared>)
    ensures Send(env, l, q, offer).0 != Failure(FailedPaymentAdvancedState)
  {
    var a := Prepare(env, l.commitments, q, offer);
    if a.Failure? {
      PrepareError(env, l.commitments, q, offer);
    } else {
      var (applied, commitments) := CommitmentStore.Apply(env.ledger, l.commitments, a.value.update);
      if applied.Success? {
        SettleError(env, l.(commitments := commitments), q, a.value, applied.value);
      }
    }
  }

  /** The comparison reports exactly the failed payments that advanced the ledger. */
  lemma TryDetects(env: PayEnv, l: Ledger, q: PaymentRequest, offer: Option<Prepared>)
    requires StoresFine(env, l) && CommitmentStore.StoreFine(env.ledger, l.commitments)
    ensures TrySend(env, l, q, offer).0 == Failure(FailedPaymentAdvancedState) <==>
              Send(env, l, q, offer).0.Failure? && Send(env, l, q, offer).1 != l
    ensures Send(env, l, q, offer).0.Failure? && Send(env, l, q, offer).1 != l <==>
              && Commits(env, l, q, offer)
              && var a := Prepare(env, l.commitments, q, offer).value; !Clear(env, l, q, a.prepared, a.terms)
  {
    SendOutcome(env, l, q, offer);
    SendAdvances(env, l, q, offer);
    SendError(env, l, q, offer);
    if Commits(env, l, q, offer) {
      PreparedFacts(env, l.commitments, q, offer);
      assert CommitmentStore.ChannelFine(env.ledger, q.channelId, l.commitments.channels[q.channelId]);
      ApplySnapshot(env.ledger, l.commitments, Prepare(env, l.commitments, q, offer).value.update);
    }
  }
}
