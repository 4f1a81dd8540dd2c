/** Where the payments of a channel come from: each carries what its request and its quote said. */
module PaymentOrigins {
  import opened ByteBits
  import opened Primitives
  import opened Text
  import opened Channels
  import opened CommitmentState
  import opened CommitmentLedger
  import opened Payments
  import CommitmentStore
  import HtlcStore
  import PaymentRuns
  import QuotedRuns
  import opened QuotedSends
  import RfqQuotes

  // ----- one payment -----

  /** The records at the final hop are those of the invoice. */
  predicate RecordsMatch(env: PayEnv, o: Prepared) {
    && o.records.assetId == o.invoice.assetId && o.records.amount == o.invoice.amount
    && o.records.msat == o.invoice.msat && o.records.paymentHash == o.invoice.paymentHash
    && o.records.invoiceContext == o.invoice.invoiceContext && o.records.scidAlias == o.invoice.scidAlias
    && env.ledger.parseHex(o.invoice.quoteId) == Some(o.records.quoteId)
  }

  lemma {:induction false} HopMatches(env: PayEnv, st: State, q: PaymentRequest, o: Prepared)
    requires q.now + 4 < U64_LIMIT && HopFor(env, st, q, o).Success?
    ensures RecordsMatch(env, o) && o.records.root == st.monitor.root
  {
  }

  lemma {:induction false} PreparedMatches(env: PayEnv, s: CommitmentStore.Store, q: PaymentRequest, offer: Option<Prepared>)
    requires Prepare(env, s, q, offer).Success?
    ensures offer.Some? && RecordsMatch(env, offer.value)
    ensures q.channelId in s.channels && s.channels[q.channelId].assetId == q.assetId
  {
    PreparedRequest(env, s, q, offer);
    HopMatches(env, s.channels[q.channelId], q, offer.value);
  }

  lemma {:induction false} CombinedTerms(p: Prepared, terms: Result<HtlcStore.Validation, HtlcStore.HtlcError>,
                                         update: Result<Request, CommitmentError>)
    requires Combine(p, terms, update).Success?
    ensures terms.Success?
  {
  }

  lemma {:induction false} NotRefused(env: PayEnv, s: CommitmentStore.Store, q: PaymentRequest, offer: Option<Prepared>)
    requires RequestRefusal(env, s, q, offer).None?
    ensures q.channelId in s.channels && s.channels[q.channelId].assetId == q.assetId && offer.Some?
    ensures q.now + 4 < U64_LIMIT
  {
  }

  lemma {:induction false} PreparedRequest(env: PayEnv, s: CommitmentStore.Store, q: PaymentRequest, offer: Option<Prepared>)
    requires Prepare(env, s, q, offer).Success?
    ensures q.channelId in s.channels && s.channels[q.channelId].assetId == q.assetId && offer.Some?
    ensures q.now + 4 < U64_LIMIT && HopFor(env, s.channels[q.channelId], q, offer.value).Success?
  {
    NotRefused(env, s, q, offer);
    var st := s.channels[q.channelId];
    var terms := HopFor(env, st, q, offer.value);
    var amount := if terms.Success? then terms.value.amount else 0;
    CombinedTerms(offer.value, terms, BuildUpdate(env.ledger, st, amount, 0, q.nonce));
  }

  /** Exactly the requests that name an open channel of their asset, both peers and an amount, with a prepared
      payment and a time that fits, get as far as the final hop. */
  lemma {:induction false} RefusalExactly(env: PayEnv, s: CommitmentStore.Store, q: PaymentRequest, offer: Option<Prepared>)
    ensures RequestRefusal(env, s, q, offer).None? <==>
              && q.channelId in s.channels && s.channels[q.channelId].assetId == q.assetId
              && !env.blank(q.sender) && !env.blank(q.receiver) && q.amount != 0 && offer.Some? && q.now + 4 < U64_LIMIT
  {
  }

  /** The payment names the request's channel and peers, and the invoice's asset, amount, price, quote and
      payment hash. */
  predicate Carries(q: PaymentRequest, o: Prepared, p: Payment) {
    && p.channelId == q.channelId && p.sender == q.sender && p.receiver == q.receiver
    && p.assetId == o.invoice.assetId && p.amount == o.invoice.amount && p.msat == o.invoice.msat
    && p.quoteId == o.invoice.quoteId && p.paymentHash == o.invoice.paymentHash
    && p.status.SettledPayment? && p.reason.None?
  }

  lemma {:induction false} EntryCarries(env: PayEnv, q: PaymentRequest, o: Prepared, htlcId: Text, s: Snapshot)
    requires RecordsMatch(env, o) && s.local + s.remote == s.total
    ensures var p := PaymentFor(env, q, o, htlcId, s);
            && Carries(q, o, p) && p.total == s.total && p.senderAfter == s.local && p.receiverAfter == s.remote
            && p.number == Some(s.number) && p.htlcId == Some(htlcId)
  {
  }

  /** What a successful send returns and records, in the terms of the call. */
  lemma {:induction false} SendCarries(env: PayEnv, l: Ledger, q: PaymentRequest, offer: Option<Prepared>)
    requires StoresFine(env, l) && Send(env, l, q, offer).0.Success?
    ensures offer.Some? && q.channelId in l.commitments.channels
    ensures var (r, next) := Send(env, l, q, offer);
            && Carries(q, offer.value, r.value) && r.value.senderAfter + r.value.receiverAfter == r.value.total
            && r.value.id !in l.payments && next.payments == l.payments[r.value.id := r.value]
  {
    SendOutcome(env, l, q, offer);
    PreparedFacts(env, l.commitments, q, offer);
    PreparedMatches(env, l.commitments, q, offer);
    PaymentRuns.PaySucceeds(env, l, q, offer);
    var a := Prepare(env, l.commitments, q, offer).value;
    ApplySnapshot(env.ledger, l.commitments, a.update);
    var s := CommitmentStore.Apply(env.ledger, l.commitments, a.update).0.value;
    EntryCarries(env, q, offer.value, SettledHtlc(env, q, a.terms).id, s);
  }

  // ----- runs of payments -----

  /** The operations behind the successful payments of a channel, in order. */
  function PaidBy(env: PayEnv, ops: seq<PaymentRuns.PayOp>, id: Text): (asked: seq<PaymentRuns.PayOp>)
    ensures forall op <- asked :: op in ops && op.Pay? && op.request.channelId == id
  {
    if ops == [] then []
    else
      var front, op := ops[..|ops| - 1], ops[|ops| - 1];
      if op.Pay? && op.request.channelId == id
         && Send(env, PaymentRuns.Run(env, front), op.request, op.offer).0.Success? then PaidBy(env, front, id) + [op]
      else PaidBy(env, front, id)
  }

  lemma {:induction false} PaidBySnoc(env: PayEnv, ops: seq<PaymentRuns.PayOp>, op: PaymentRuns.PayOp, id: Text)
    ensures PaidBy(env, ops + [op], id) ==
              if op.Pay? && op.request.channelId == id
                 && Send(env, PaymentRuns.Run(env, ops), op.request, op.offer).0.Success? then PaidBy(env, ops, id) + [op]
              else PaidBy(env, ops, id)
  {
    assert (ops + [op])[..|ops|] == ops;
  }

  predicate CarriedBy(op: PaymentRuns.PayOp, p: Payment) {
    op.Pay? && op.offer.Some? && Carries(op.request, op.offer.value, p) && p.senderAfter + p.receiverAfter == p.total
  }

  predicate AllCarried(asked: seq<PaymentRuns.PayOp>, paid: seq<Payment>) {
    |asked| == |paid| && forall i | 0 <= i < |paid| :: CarriedBy(asked[i], paid[i])
  }

  lemma AllCarriedSnoc(asked: seq<PaymentRuns.PayOp>, paid: seq<Payment>, op: PaymentRuns.PayOp, p: Payment)
    requires AllCarried(asked, paid) && CarriedBy(op, p)
    ensures AllCarried(asked + [op], paid + [p])
  {
  }

  lemma {:induction false} RunCarried(env: PayEnv, ops: seq<PaymentRuns.PayOp>, id: Text)
    requires PaymentRuns.AllClear(env, ops)
    ensures AllCarried(PaidBy(env, ops, id), PaymentRuns.Paid(env, ops, id))
  {
    if ops != [] {
      var front, op := ops[..|ops| - 1], ops[|ops| - 1];
      assert ops == front + [op];
      RunCarried(env, front, id);
      PaymentRuns.PaidSnoc(env, front, op, id);
      PaidBySnoc(env, front, op, id);
      var l := PaymentRuns.Run(env, front);
      if op.Pay? && op.request.channelId == id && Send(env, l, op.request, op.offer).0.Success? {
        PaymentRuns.RunFollows(env, front);
        SendCarries(env, l, op.request, op.offer);
        AllCarriedSnoc(PaidBy(env, front, id), PaymentRuns.Paid(env, front, id), op, Send(env, l, op.request, op.offer).0.value);
      }
    }
  }

  /** Over every run whose committed payments find their way clear: the i-th payment of a channel carries the
      channel, the sender and the receiver of the request that made it, the asset, the amount, the price, the
      payment hash and the quote id of the invoice it paid, and the channel's total. */
  lemma {:induction false} RunCarries(env: PayEnv, ops: seq<PaymentRuns.PayOp>, id: Text, i: nat)
    requires PaymentRuns.AllClear(env, ops) && i < |PaymentRuns.Paid(env, ops, id)|
    ensures |PaidBy(env, ops, id)| == |PaymentRuns.Paid(env, ops, id)|
    ensures var op, p := PaidBy(env, ops, id)[i], PaymentRuns.Paid(env, ops, id)[i];
            var origin := CommitmentStore.OpenedWith(env.ledger, PaymentRuns.CommitOps(env, ops), id);
            && op in ops && op.Pay? && op.offer.Some? && Carries(op.request, op.offer.value, p) && op.request.channelId == id
            && origin.Some? && p.total == origin.value.totalAmount
  {
    RunCarried(env, ops, id);
    PaymentRuns.RunAgrees(env, ops, id);
    var origin := CommitmentStore.OpenedWith(env.ledger, PaymentRuns.CommitOps(env, ops), id);
    if origin.Some? {
      var log := CommitmentStore.Log(env.ledger, PaymentRuns.CommitOps(env, ops), id);
      var l := PaymentRuns.Run(env, ops);
      assert PaymentRuns.PaymentAgrees(l.htlcs, l.payments, origin.value, log, i, PaymentRuns.Paid(env, ops, id)[i]);
    }
    assert CarriedBy(PaidBy(env, ops, id)[i], PaymentRuns.Paid(env, ops, id)[i]);
  }

  // ----- quoted payments -----

  /** What a prepared payment's invoice says, in the terms of the send. */
  predicate Invoiced(a: AssetSend, o: Prepared) {
    && o.invoice.assetId == a.request.assetId && o.invoice.amount == a.request.amount
    && o.invoice.msat == 100 * a.request.amount && o.invoice.invoiceContext == a.context
    && o.invoice.paymentHash == a.paymentHash
  }

  lemma {:induction false} BoundTerms(blank: Text -> bool, q: RfqQuotes.Quote, r: BindRequest)
    requires Bind(blank, q, r).Success?
    ensures var t := Bind(blank, q, r).value.terms;
            && t.assetId == r.assetId == q.assetId && t.amount == r.amount == q.amount && t.msat == r.msat == q.msat
            && t.invoiceContext == r.context == q.context && t.paymentHash == r.paymentHash && t.quoteId == q.id
            && t.invoiceExpiry == r.invoiceExpiry && t.quoteExpiry == q.expiry
  {
  }

  /** A quote binds exactly the requests that repeat its peer, asset, amount, price and context, in time. */
  lemma {:induction false} BindExactly(blank: Text -> bool, q: RfqQuotes.Quote, r: BindRequest)
    ensures Bind(blank, q, r).Success? <==>
              && !blank(r.text) && q.status.Accepted? && r.now <= q.expiry && r.invoiceExpiry <= q.expiry
              && r.peer == q.peer && r.assetId == q.assetId && r.amount == q.amount && r.msat == q.msat
              && r.context == q.context
  {
  }

  lemma {:induction false} PaidTerms(env: SendEnv, s: RfqQuotes.Quotes, invoice: Invoice, now: u64)
    requires PayInvoice(env, s, invoice, now).0.Success?
    ensures var (bound, grant) := PayInvoice(env, s, invoice, now).0.value;
            && bound.terms.assetId == invoice.terms.assetId && bound.terms.amount == invoice.terms.amount
            && bound.terms.msat == invoice.terms.msat && bound.terms.invoiceContext == invoice.terms.invoiceContext
            && bound.terms.paymentHash == invoice.terms.paymentHash
  {
  }

  lemma {:induction false} InvoiceTerms(env: SendEnv, quote: RfqQuotes.Quote, a: AssetSend)
    requires a.request.now + QUOTE_TTL < U64_LIMIT && InvoiceFor(env, quote, a, None).Success?
    ensures var t := InvoiceFor(env, quote, a, None).value.terms;
            && t.assetId == a.request.assetId && t.amount == a.request.amount == quote.amount && t.msat == quote.msat
            && t.invoiceContext == a.context && t.paymentHash == a.paymentHash
  {
  }

  lemma {:induction false} QuotedTerms(env: SendEnv, s: RfqQuotes.Quotes, quote: RfqQuotes.Quote, a: AssetSend, root: RootHashSum)
    requires a.request.now + QUOTE_TTL < U64_LIMIT
    ensures var (r, next) := FromQuote(env, s, quote, a, None, root);
            r.Success? && quote.msat == 100 * quote.amount ==> Invoiced(a, r.value)
  {
    var invoice := InvoiceFor(env, quote, a, None);
    if invoice.Success? {
      InvoiceTerms(env, quote, a);
      if PayInvoice(env, s, invoice.value, a.request.now + 2).0.Success? {
        PaidTerms(env, s, invoice.value, a.request.now + 2);
      }
      QuotedRuns.FromQuoteFinishes(env, s, quote, a, None, root, invoice.value);
      QuotedRuns.FinishedFacts(env, PayInvoice(env, s, invoice.value, a.request.now + 2), a, root);
    }
  }

  lemma {:induction false} PreparedTerms(env: SendEnv, s: RfqQuotes.Quotes, a: AssetSend, root: RootHashSum)
    requires PrepareSend(env, s, a, None, root).0.Success?
    ensures Invoiced(a, PrepareSend(env, s, a, None, root).0.value)
  {
    QuotedRuns.ReceiveFacts(env, s, a);
    var (quote, s1) := ReceiveRequest(env, s, a);
    QuotedTerms(env, s1, quote.value, a, root);
  }

  /** The payment is the one the send asked for, at the price of the oracle, for the quote its replay domain was
      used for. */
  predicate PaidFor(s: RfqQuotes.Quotes, a: AssetSend, p: Payment) {
    && p.channelId == a.request.channelId && p.sender == a.request.sender && p.receiver == a.request.receiver
    && p.assetId == a.request.assetId && p.amount == a.request.amount && p.msat == 100 * a.request.amount
    && p.paymentHash == a.paymentHash && Hex(a.rfqId) in s.used && s.used[Hex(a.rfqId)] == p.quoteId
  }

  /** The sends behind the successful payments of a channel, in order. */
  function SendsPaid(env: SendEnv, ops: seq<QuotedRuns.Op>, id: Text): (sends: seq<AssetSend>)
    ensures forall a <- sends :: QuotedRuns.SendPayment(a) in ops && a.request.channelId == id
  {
    if ops == [] then []
    else
      var front, op := ops[..|ops| - 1], ops[|ops| - 1];
      if op.SendPayment? && op.send.request.channelId == id
         && SendAsset(env, QuotedRuns.Run(env, front), op.send).0.Success? then SendsPaid(env, front, id) + [op.send]
      else SendsPaid(env, front, id)
  }

  predicate AllPaidFor(s: RfqQuotes.Quotes, sends: seq<AssetSend>, paid: seq<Payment>) {
    |sends| == |paid| && forall i | 0 <= i < |paid| :: PaidFor(s, sends[i], paid[i])
  }

  lemma AllPaidForKept(s: RfqQuotes.Quotes, t: RfqQuotes.Quotes, sends: seq<AssetSend>, paid: seq<Payment>)
    requires AllPaidFor(s, sends, paid) && RfqQuotes.UsedKept(s, t)
    ensures AllPaidFor(t, sends, paid)
  {
    forall i | 0 <= i < |paid|
      ensures PaidFor(t, sends[i], paid[i])
    {
      assert PaidFor(s, sends[i], paid[i]);
    }
  }

  /** A successful send, whatever happened before. */
  lemma {:induction false} SendPaid(env: SendEnv, w: World, a: AssetSend)
    requires StoresFine(env.pay, w.ledger) && SendAsset(env, w, a).0.Success?
    ensures var offer := QuotedRuns.OfferOf(env, w, a);
            && offer.Some? && Send(env.pay, w.ledger, a.request, offer).0 == Success(SendAsset(env, w, a).0.value)
            && Carries(a.request, offer.value, SendAsset(env, w, a).0.value)
    ensures PaidFor(SendAsset(env, w, a).1.quotes, a, SendAsset(env, w, a).0.value)
  {
    var offer := QuotedRuns.OfferOf(env, w, a);
    var root := w.ledger.commitments.channels[a.request.channelId].monitor.root;
    QuotedRuns.SendSteps(env, w, a);
    PreparedTerms(env, w.quotes, a, root);
    SendCarries(env.pay, w.ledger, a.request, offer);
  }

  lemma {:induction false} SendResult(env: SendEnv, w: World, a: AssetSend)
    ensures var offer := QuotedRuns.OfferOf(env, w, a);
            SendAsset(env, w, a).0.Success? <==> offer.Some? && Send(env.pay, w.ledger, a.request, offer).0.Success?
  {
  }

  lemma {:induction false} PayOpsSnoc(env: SendEnv, ops: seq<QuotedRuns.Op>, op: QuotedRuns.Op)
    ensures QuotedRuns.PayOps(env, ops + [op]) ==
              var earlier := QuotedRuns.PayOps(env, ops);
              match op
              case OpenChannel(c) => earlier + [PaymentRuns.OpenChannel(c)]
              case SendPayment(a) =>
                var offer := QuotedRuns.OfferOf(env, QuotedRuns.Run(env, ops), a);
                if offer.Some? then earlier + [PaymentRuns.Pay(a.request, offer)] else earlier
              case CallQuotes(_) => earlier
  {
    assert (ops + [op])[..|ops|] == ops;
  }

  lemma {:induction false} SendsPaidSnoc(env: SendEnv, ops: seq<QuotedRuns.Op>, op: QuotedRuns.Op, id: Text)
    ensures SendsPaid(env, ops + [op], id) ==
              if op.SendPayment? && op.send.request.channelId == id
                 && SendAsset(env, QuotedRuns.Run(env, ops), op.send).0.Success? then SendsPaid(env, ops, id) + [op.send]
              else SendsPaid(env, ops, id)
  {
    assert (ops + [op])[..|ops|] == ops;
  }

  lemma AllPaidForSnoc(s: RfqQuotes.Quotes, sends: seq<AssetSend>, paid: seq<Payment>, a: AssetSend, p: Payment)
    requires AllPaidFor(s, sends, paid) && PaidFor(s, a, p)
    ensures AllPaidFor(s, sends + [a], paid + [p])
  {
  }

  lemma {:induction false} SendStep(env: SendEnv, ops: seq<QuotedRuns.Op>, a: AssetSend, id: Text)
    requires QuotedRuns.Orderly(env, QuotedRuns.Run(env, ops), QuotedRuns.PayOps(env, ops))
    requires AllPaidFor(QuotedRuns.Run(env, ops).quotes, SendsPaid(env, ops, id),
                        PaymentRuns.Paid(env.pay, QuotedRuns.PayOps(env, ops), id))
    ensures var all := ops + [QuotedRuns.SendPayment(a)];
            AllPaidFor(QuotedRuns.Run(env, all).quotes, SendsPaid(env, all, id),
                       PaymentRuns.Paid(env.pay, QuotedRuns.PayOps(env, all), id))
  {
    var op, w, pays := QuotedRuns.SendPayment(a), QuotedRuns.Run(env, ops), QuotedRuns.PayOps(env, ops);
    var offer, next := QuotedRuns.OfferOf(env, w, a), SendAsset(env, w, a).1;
    QuotedRuns.RunSnoc(env, ops, op);
    QuotedRuns.SendSteps(env, w, a);
    SendsPaidSnoc(env, ops, op, id);
    PayOpsSnoc(env, ops, op);
    SendResult(env, w, a);
    AllPaidForKept(w.quotes, next.quotes, SendsPaid(env, ops, id), PaymentRuns.Paid(env.pay, pays, id));
    if offer.Some? {
      PaymentRuns.PaidSnoc(env.pay, pays, PaymentRuns.Pay(a.request, offer), id);
      if a.request.channelId == id && SendAsset(env, w, a).0.Success? {
        PaymentRuns.RunFollows(env.pay, pays);
        SendPaid(env, w, a);
        AllPaidForSnoc(next.quotes, SendsPaid(env, ops, id), PaymentRuns.Paid(env.pay, pays, id), a,
                       SendAsset(env, w, a).0.value);
      }
    }
  }

  lemma {:induction false} OtherStep(env: SendEnv, ops: seq<QuotedRuns.Op>, op: QuotedRuns.Op, id: Text)
    requires !op.SendPayment?
    requires AllPaidFor(QuotedRuns.Run(env, ops).quotes, SendsPaid(env, ops, id),
                        PaymentRuns.Paid(env.pay, QuotedRuns.PayOps(env, ops), id))
    ensures var all := ops + [op];
            AllPaidFor(QuotedRuns.Run(env, all).quotes, SendsPaid(env, all, id),
                       PaymentRuns.Paid(env.pay, QuotedRuns.PayOps(env, all), id))
  {
    var w := QuotedRuns.Run(env, ops);
    QuotedRuns.RunSnoc(env, ops, op);
    QuotedRuns.StepKeepsUsed(env, w, op);
    SendsPaidSnoc(env, ops, op, id);
    PayOpsSnoc(env, ops, op);
    AllPaidForKept(w.quotes, QuotedRuns.Step(env, w, op).quotes, SendsPaid(env, ops, id),
                   PaymentRuns.Paid(env.pay, QuotedRuns.PayOps(env, ops), id));
    if op.OpenChannel? {
      PaymentRuns.PaidSnoc(env.pay, QuotedRuns.PayOps(env, ops), PaymentRuns.OpenChannel(op.channel), id);
    }
  }

  lemma {:induction false} RunPaidFor(env: SendEnv, ops: seq<QuotedRuns.Op>, id: Text)
    requires QuotedRuns.ReadsHex(env)
    ensures || IsCollision(env.pay.ledger.sha, QuotedRuns.RunCollision(env, ops))
            || AllPaidFor(QuotedRuns.Run(env, ops).quotes, SendsPaid(env, ops, id),
                          PaymentRuns.Paid(env.pay, QuotedRuns.PayOps(env, ops), id))
  {
    if ops != [] {
      var front, op := ops[..|ops| - 1], ops[|ops| - 1];
      assert ops == front + [op];
      RunPaidFor(env, front, id);
      QuotedRuns.RunOrderly(env, front);
      CollisionStays(env, front, op);
      if !IsCollision(env.pay.ledger.sha, QuotedRuns.RunCollision(env, front)) {
        if op.SendPayment? {
          SendStep(env, front, op.send, id);
        } else {
          OtherStep(env, front, op, id);
        }
      }
    }
  }

  lemma {:induction false} CollisionStays(env: SendEnv, ops: seq<QuotedRuns.Op>, op: QuotedRuns.Op)
    ensures IsCollision(env.pay.ledger.sha, QuotedRuns.RunCollision(env, ops)) ==>
              IsCollision(env.pay.ledger.sha, QuotedRuns.RunCollision(env, ops + [op]))
  {
    assert (ops + [op])[..|ops|] == ops;
  }

  /** Over every run with one quote store, or a collision is exhibited: the i-th payment of a channel is for the
      i-th send on it that succeeded. It names that send's channel, sender and receiver, its asset and amount, a
      hundred times the amount in millisatoshi, its payment hash, the quote its replay domain was used for, and
      the total of the channel. */
  lemma {:induction false} PaymentsComeFromSends(env: SendEnv, ops: seq<QuotedRuns.Op>, id: Text, i: nat)
    requires QuotedRuns.ReadsHex(env) && i < |PaymentRuns.Paid(env.pay, QuotedRuns.PayOps(env, ops), id)|
    ensures var w, pays, sends := QuotedRuns.Run(env, ops), QuotedRuns.PayOps(env, ops), SendsPaid(env, ops, id);
            var paid := PaymentRuns.Paid(env.pay, pays, id);
            var origin := CommitmentStore.OpenedWith(env.pay.ledger, PaymentRuns.CommitOps(env.pay, pays), id);
            || IsCollision(env.pay.ledger.sha, QuotedRuns.RunCollision(env, ops))
            || (&& |sends| == |paid| && QuotedRuns.SendPayment(sends[i]) in ops && PaidFor(w.quotes, sends[i], paid[i])
                && origin.Some? && paid[i].total == origin.value.totalAmount
                && paid[i].id in w.ledger.payments && w.ledger.payments[paid[i].id] == paid[i])
  {
    QuotedRuns.RunOrderly(env, ops);
    RunPaidFor(env, ops, id);
    if !IsCollision(env.pay.ledger.sha, QuotedRuns.RunCollision(env, ops)) {
      var pays := QuotedRuns.PayOps(env, ops);
      var l, paid := PaymentRuns.Run(env.pay, pays), PaymentRuns.Paid(env.pay, pays, id);
      RunCarries(env.pay, pays, id, i);
      StoredPayment(env.pay, pays, id, i);
      assert PaidFor(QuotedRuns.Run(env, ops).quotes, SendsPaid(env, ops, id)[i], paid[i]);
    }
  }

  lemma {:induction false} StoredPayment(env: PayEnv, ops: seq<PaymentRuns.PayOp>, id: Text, i: nat)
    requires PaymentRuns.AllClear(env, ops) && i < |PaymentRuns.Paid(env, ops, id)|
    ensures var l, p := PaymentRuns.Run(env, ops), PaymentRuns.Paid(env, ops, id)[i];
            p.id in l.payments && l.payments[p.id] == p
  {
    PaymentRuns.RunAgrees(env, ops, id);
    var origin := CommitmentStore.OpenedWith(env.ledger, PaymentRuns.CommitOps(env, ops), id);
    var log := CommitmentStore.Log(env.ledger, PaymentRuns.CommitOps(env, ops), id);
    var l := PaymentRuns.Run(env, ops);
    assert origin.Some? ==>
        PaymentRuns.PaymentAgrees(l.htlcs, l.payments, origin.value, log, i, PaymentRuns.Paid(env, ops, id)[i]);
  }
}
