/** Runs of quoted sends: one quote store never lets two payments share an id. */
module QuotedRuns {
  import opened ByteBits
  import opened Primitives
  import opened Text
  import opened Channels
  import opened CommitmentState
  import opened Payments
  import opened QuotedSends
  import opened RfqQuotes
  import CommitmentStore
  import FailedSends
  import HtlcStore
  import PaymentRuns

  /** What the parser of 32-byte values does with printed values and with blank texts. */
  ghost predicate ReadsHex(env: SendEnv) {
    && (forall d: Bytes32 :: env.pay.ledger.parseHex(Hex(d)) == Some(d))
    && (forall t: Text :: env.pay.blank(t) ==> env.pay.ledger.parseHex(t).None?)
  }

  /** A text that a 32-byte value was printed as. */
  ghost predicate Printed(t: Text) {
    exists d: Bytes32 :: t == Hex(d)
  }

  lemma BindingPrinted(sha: Sha256, q: Quote)
    ensures Printed(BindingId(sha, q))
  {
    var d := Digest(sha, [Ascii("tap-ldk:rfq-quote-binding:v1"), Counted(q.peer), q.assetId, U64Be(q.amount),
                          U64Be(q.msat), U64Be(q.expiry), q.context, U64Be(q.scidAlias), Counted(q.domain)]);
    assert BindingId(sha, q) == Hex(d);
  }

  // ----- what preparing a payment leaves behind -----

  lemma {:induction false} AnswerFacts(env: SendEnv, asked: (Result<Quote, QuoteError>, Quotes), now: u64)
    ensures var (r, next) := Answer(env, asked, now);
            && next.used == asked.1.used
            && (r.Success? ==>
                  && asked.0.Success? && r.value.id in next.quotes && next.quotes[r.value.id] == r.value
                  && asked.0.value.id in asked.1.quotes
                  && var q := asked.1.quotes[asked.0.value.id];
                     && r.value.id == asked.0.value.id && r.value == q.(status := Accepted, acceptedAt := Some(now))
                     && env.pay.ledger.parseHex(r.value.id).Some?)
  {
    if asked.0.Success? {
      AcceptEffect(QuoteEnvOf(env), asked.1, asked.0.value.id, now);
    }
  }

  lemma {:induction false} ReceiveFacts(env: SendEnv, s: Quotes, a: AssetSend)
    ensures var (r, next) := ReceiveRequest(env, s, a);
            && next.used == s.used
            && (r.Success? ==>
                  && a.request.now + QUOTE_TTL < U64_LIMIT
                  && Hex(a.rfqId) !in s.used && (forall d <- s.used :: s.used[d] != r.value.id)
                  && r.value.id in next.quotes && next.quotes[r.value.id] == r.value
                  && r.value.domain == Hex(a.rfqId) && r.value.amount == a.request.amount
                  && r.value.msat == 100 * r.value.amount && Printed(r.value.id))
  {
    if a.request.now + QUOTE_TTL < U64_LIMIT {
      var asked := RequestQuote(QuoteEnvOf(env), s, Asked(a));
      RequestKeepsUsed(QuoteEnvOf(env), s, Asked(a));
      AnswerFacts(env, asked, a.request.now);
      if asked.0.Success? {
        RequestIsFresh(QuoteEnvOf(env), s, Asked(a));
        BindingPrinted(env.pay.ledger.sha, asked.0.value);
      }
    }
  }

  lemma {:induction false} RequestKeepsUsed(env: QuoteEnv, s: Quotes, r: QuoteRequest)
    ensures RequestQuote(env, s, r).1.used == s.used
  {
  }

  lemma {:induction false} PayFacts(env: SendEnv, s: Quotes, invoice: Invoice, now: u64)
    ensures var (r, next) := PayInvoice(env, s, invoice, now);
            && UsedKept(s, next)
            && (r.Success? ==>
                  && invoice.terms.quoteId in s.quotes
                  && var q := s.quotes[invoice.terms.quoteId];
                     && q.id == invoice.terms.quoteId && q.domain !in s.used && next.used == s.used[q.domain := q.id]
                     && r.value.1 == GrantOf(q) && r.value.0.terms.quoteId == q.id
                     && r.value.0.terms.paymentHash == invoice.terms.paymentHash)
  {
    UseEffect(QuoteEnvOf(env), s, invoice.terms.quoteId, now);
  }

  lemma {:induction false} RecordedFacts(env: SendEnv, a: AssetSend, invoice: HtlcStore.Invoice,
                                         auth: HtlcStore.Authorization, root: RootHashSum)
    requires a.request.now + QUOTE_TTL < U64_LIMIT
    ensures var r := RecordsFor(env, a, invoice, auth, None, root);
            r.Success? ==>
              && r.value.invoice == invoice
              && env.pay.ledger.parseHex(auth.quoteId) == Some(r.value.records.quoteId)
              && r.value.records.amount == auth.amount && r.value.records.msat == auth.msat
              && r.value.records.assetId == auth.assetId && r.value.records.paymentHash == invoice.paymentHash
  {
  }

  lemma {:induction false} FinishedFacts(env: SendEnv, paid: (Result<(Invoice, Grant), PrepareError>, Quotes), a: AssetSend,
                                         root: RootHashSum)
    requires a.request.now + QUOTE_TTL < U64_LIMIT
    ensures var (r, next) := Finished(env, paid, a, None, root);
            && next == paid.1
            && (r.Success? ==>
                  && paid.0.Success?
                  && var (invoice, auth) := (paid.0.value.0.terms, paid.0.value.1.authorization);
                     && r.value.invoice == invoice
                     && env.pay.ledger.parseHex(auth.quoteId) == Some(r.value.records.quoteId)
                     && r.value.records.amount == auth.amount && r.value.records.msat == auth.msat
                     && r.value.records.paymentHash == invoice.paymentHash)
  {
    if paid.0.Success? {
      RecordedFacts(env, a, paid.0.value.0.terms, paid.0.value.1.authorization, root);
    }
  }

  lemma {:induction false} InvoiceFacts(env: SendEnv, quote: Quote, a: AssetSend)
    requires a.request.now + QUOTE_TTL < U64_LIMIT
    ensures var invoice := InvoiceFor(env, quote, a, None);
            invoice.Success? ==>
              invoice.value.terms.quoteId == quote.id && invoice.value.terms.paymentHash == a.paymentHash
  {
  }

  lemma {:induction false} FromQuoteFinishes(env: SendEnv, s: Quotes, quote: Quote, a: AssetSend, mode: Option<FailureMode>,
                                             root: RootHashSum, invoice: Invoice)
    requires a.request.now + QUOTE_TTL < U64_LIMIT && InvoiceFor(env, quote, a, mode) == Success(invoice)
    ensures FromQuote(env, s, quote, a, mode, root) ==
              Finished(env, PayInvoice(env, s, invoice, a.request.now + 2), a, mode, root)
  {
  }

  /** What paying an invoice of this quote leaves, and the records it comes to. */
  predicate UsesQuote(env: SendEnv, s: Quotes, quote: Quote, a: AssetSend, r: Result<Prepared, PrepareError>, next: Quotes) {
    && UsedKept(s, next)
    && (r.Success? && quote.id in s.quotes && s.quotes[quote.id] == quote ==>
          && quote.domain !in s.used && next.used == s.used[quote.domain := quote.id]
          && r.value.invoice.quoteId == quote.id
          && env.pay.ledger.parseHex(quote.id) == Some(r.value.records.quoteId)
          && r.value.records.amount == quote.amount && r.value.records.msat == quote.msat
          && r.value.records.paymentHash == a.paymentHash)
  }

  lemma {:induction false} InvoicePaid(env: SendEnv, s: Quotes, quote: Quote, a: AssetSend, root: RootHashSum, invoice: Invoice)
    requires a.request.now + QUOTE_TTL < U64_LIMIT
    requires invoice.terms.quoteId == quote.id && invoice.terms.paymentHash == a.paymentHash
    ensures var (r, next) := Finished(env, PayInvoice(env, s, invoice, a.request.now + 2), a, None, root);
            UsesQuote(env, s, quote, a, r, next)
  {
    PayFacts(env, s, invoice, a.request.now + 2);
    FinishedFacts(env, PayInvoice(env, s, invoice, a.request.now + 2), a, root);
  }

  lemma {:induction false} FromQuoteFacts(env: SendEnv, s: Quotes, quote: Quote, a: AssetSend, root: RootHashSum)
    requires a.request.now + QUOTE_TTL < U64_LIMIT
    ensures var (r, next) := FromQuote(env, s, quote, a, None, root);
            UsesQuote(env, s, quote, a, r, next)
  {
    var invoice := InvoiceFor(env, quote, a, None);
    if invoice.Success? {
      InvoiceFacts(env, quote, a);
      FromQuoteFinishes(env, s, quote, a, None, root, invoice.value);
      InvoicePaid(env, s, quote, a, root, invoice.value);
    }
  }

  /** A prepared payment uses up a replay domain that was free, under a quote id that no used domain had;
      its records carry that id, the requested amount, and its price. */
  lemma {:induction false} PrepareFacts(env: SendEnv, s: Quotes, a: AssetSend, root: RootHashSum)
    ensures var (r, next) := PrepareSend(env, s, a, None, root);
            && UsedKept(s, next)
            && (r.Success? ==>
                  && Hex(a.rfqId) !in s.used && next.used == s.used[Hex(a.rfqId) := r.value.invoice.quoteId]
                  && (forall d <- s.used :: s.used[d] != r.value.invoice.quoteId)
                  && env.pay.ledger.parseHex(r.value.invoice.quoteId) == Some(r.value.records.quoteId)
                  && r.value.records.amount == a.request.amount != 0
                  && r.value.records.msat == 100 * a.request.amount != 0
                  && r.value.records.paymentHash == a.paymentHash && Printed(r.value.invoice.quoteId))
  {
    if !env.pay.blank(a.request.sender) && !env.pay.blank(a.request.receiver) && a.request.amount != 0 {
      ReceiveFacts(env, s, a);
      var (quote, s1) := ReceiveRequest(env, s, a);
      if quote.Success? {
        FromQuoteFacts(env, s1, quote.value, a, root);
      }
    }
  }

  // ----- ids -----

  lemma HtlcPartsBind(c: Text, v: HtlcStore.Validation, d: Text, w: HtlcStore.Validation)
    requires Concat(HtlcStore.HtlcParts(c, v)) == Concat(HtlcStore.HtlcParts(d, w))
    ensures v.quoteId == w.quoteId
  {
    var x, y := HtlcStore.HtlcParts(c, v), HtlcStore.HtlcParts(d, w);
    assert |x[0]| == |y[0]| && forall i | 2 <= i < 7 :: |x[i]| == |y[i]|;
    ConcatInjective(x, y, 1);
    assert x[4] == y[4];
  }

  lemma PaymentPartsBind(c: Text, x: Text, h: Bytes32, d: Text, y: Text, g: Bytes32)
    requires Concat(PaymentParts(c, x, h)) == Concat(PaymentParts(d, y, g)) && |x| == |y|
    ensures x == y
  {
    var p, q := PaymentParts(c, x, h), PaymentParts(d, y, g);
    assert |p[0]| == |q[0]| && |p[2]| == |q[2]| && |p[3]| == |q[3]|;
    ConcatInjective(p, q, 1);
    assert p[2] == q[2];
    SplitAt(ToBe(|x|, 8), x, ToBe(|y|, 8), y);
  }

  /** Every HTLC is under the id of its terms, and its quote was used. */
  predicate HtlcsUsed(sha: Sha256, htlcs: HtlcStore.Htlcs, s: Quotes) {
    forall x <- htlcs ::
      && x == HtlcStore.HtlcId(sha, htlcs[x].channelId, htlcs[x].terms)
      && Hex(htlcs[x].terms.quoteId) in s.used.Values
  }

  /** Every payment is under the id of its fields, and its quote was used. */
  predicate PaymentsUsed(sha: Sha256, payments: PaymentMap, s: Quotes) {
    forall x <- payments ::
      && x == PaymentId(sha, payments[x].channelId, payments[x].quoteId, payments[x].paymentHash)
      && payments[x].quoteId in s.used.Values && |payments[x].quoteId| == 64
  }

  predicate IdsUsed(sha: Sha256, l: Ledger, s: Quotes) {
    HtlcsUsed(sha, l.htlcs, s) && PaymentsUsed(sha, l.payments, s)
  }

  lemma UsedValuesKept(s: Quotes, t: Quotes)
    requires UsedKept(s, t)
    ensures s.used.Values <= t.used.Values
  {
  }

  /** Where the ids of a new attempt collide with ids in the ledger: the two preimages of the one id. */
  function IdCollision(sha: Sha256, l: Ledger, q: PaymentRequest, a: Attempt): (Bytes, Bytes) {
    var hid := HtlcStore.HtlcId(sha, q.channelId, a.terms);
    var (quoteId, hash) := (a.prepared.invoice.quoteId, a.prepared.records.paymentHash);
    var pid := PaymentId(sha, q.channelId, quoteId, hash);
    if hid in l.htlcs then
      (Concat(HtlcStore.HtlcParts(l.htlcs[hid].channelId, l.htlcs[hid].terms)),
       Concat(HtlcStore.HtlcParts(q.channelId, a.terms)))
    else if pid in l.payments then
      var p := l.payments[pid];
      (Concat(PaymentParts(p.channelId, p.quoteId, p.paymentHash)), Concat(PaymentParts(q.channelId, quoteId, hash)))
    else ([], [])
  }

  /** With a quote id that no used quote has, both ids are new, or the collision is exhibited. */
  lemma {:induction false} FreshIds(sha: Sha256, l: Ledger, s: Quotes, q: PaymentRequest, a: Attempt)
    requires IdsUsed(sha, l, s) && a.prepared.invoice.quoteId !in s.used.Values
    requires a.prepared.invoice.quoteId == Hex(a.terms.quoteId)
    ensures || IsCollision(sha, IdCollision(sha, l, q, a))
            || (&& HtlcStore.HtlcId(sha, q.channelId, a.terms) !in l.htlcs
                && PaymentId(sha, q.channelId, a.prepared.invoice.quoteId, a.prepared.records.paymentHash) !in l.payments)
  {
    var hid := HtlcStore.HtlcId(sha, q.channelId, a.terms);
    var (quoteId, hash) := (a.prepared.invoice.quoteId, a.prepared.records.paymentHash);
    var pid := PaymentId(sha, q.channelId, quoteId, hash);
    if hid in l.htlcs {
      var h := l.htlcs[hid];
      var (x, y) := IdCollision(sha, l, q, a);
      HexInjective(sha(x), sha(y));
      if x == y {
        HtlcPartsBind(h.channelId, h.terms, q.channelId, a.terms);
      }
    } else if pid in l.payments {
      var p := l.payments[pid];
      var (x, y) := IdCollision(sha, l, q, a);
      HexInjective(sha(x), sha(y));
      if x == y {
        PaymentPartsBind(p.channelId, p.quoteId, p.paymentHash, q.channelId, quoteId, hash);
      }
    }
  }

  // ----- a committed send -----

  /** A channel whose update commits has an id that parses, so one that is not blank. */
  lemma {:induction false} CommittedNotBlank(env: SendEnv, ops: seq<CommitmentStore.Op>, l: Ledger, q: PaymentRequest,
                                             offer: Option<Prepared>)
    requires ReadsHex(env) && l.commitments == CommitmentStore.Run(env.pay.ledger, ops)
    requires Commits(env.pay, l, q, offer)
    ensures !env.pay.blank(q.channelId)
  {
    FailedSends.CommitsExactly(env.pay, ops, l, q, offer);
    CommitmentStore.RunFine(env.pay.ledger, ops);
    Refused(env.pay, l.commitments, q, offer);
    assert CommitmentStore.ChannelFine(env.pay.ledger, q.channelId, l.commitments.channels[q.channelId]);
    FailedSends.LeavesParsed(env.pay.ledger, l.commitments.channels[q.channelId],
                             HopFor(env.pay, l.commitments.channels[q.channelId], q, offer.value).value.amount, q.nonce);
  }

  /** A send that commits after its quote was used finds its way clear, or a collision is exhibited. */
  lemma {:induction false} CommittedClear(env: SendEnv, ops: seq<CommitmentStore.Op>, w: World, a: AssetSend,
                                          root: RootHashSum, p: Prepared)
    requires ReadsHex(env) && w.ledger.commitments == CommitmentStore.Run(env.pay.ledger, ops)
    requires IdsUsed(env.pay.ledger.sha, w.ledger, w.quotes)
    requires PrepareSend(env, w.quotes, a, None, root).0 == Success(p)
    requires Commits(env.pay, w.ledger, a.request, Some(p))
    ensures var attempt := Prepare(env.pay, w.ledger.commitments, a.request, Some(p)).value;
            || IsCollision(env.pay.ledger.sha, IdCollision(env.pay.ledger.sha, w.ledger, a.request, attempt))
            || Clear(env.pay, w.ledger, a.request, attempt.prepared, attempt.terms)
  {
    PrepareFacts(env, w.quotes, a, root);
    PreparedFacts(env.pay, w.ledger.commitments, a.request, Some(p));
    CommittedNotBlank(env, ops, w.ledger, a.request, Some(p));
    var d: Bytes32 :| p.invoice.quoteId == Hex(d);
    assert p.records.quoteId == d;
    FreshIds(env.pay.ledger.sha, w.ledger, w.quotes, a.request,
             Prepare(env.pay, w.ledger.commitments, a.request, Some(p)).value);
  }

  // ----- runs -----

  /** What can happen: a channel opens, a payment is sent, or the quote store is called on its own. */
  datatype Op =
    | OpenChannel(channel: StoredChannel)
    | SendPayment(send: AssetSend)
    | CallQuotes(call: QuoteOp)

  const EMPTY_WORLD: World := World(PaymentRuns.EMPTY_LEDGER, NO_QUOTES)

  function Step(env: SendEnv, w: World, op: Op): World {
    match op
    case OpenChannel(c) => w.(ledger := PaymentRuns.Perform(env.pay, w.ledger, PaymentRuns.OpenChannel(c)))
    case SendPayment(a) => SendAsset(env, w, a).1
    case CallQuotes(call) => w.(quotes := RfqQuotes.Perform(QuoteEnvOf(env), w.quotes, call))
  }

  function Run(env: SendEnv, ops: seq<Op>): World {
    if ops == [] then EMPTY_WORLD else Step(env, Run(env, ops[..|ops| - 1]), ops[|ops| - 1])
  }

  /** The payment a send comes down to, if it is prepared. */
  function OfferOf(env: SendEnv, w: World, a: AssetSend): Option<Prepared> {
    if a.request.channelId !in w.ledger.commitments.channels then None
    else
      var root := w.ledger.commitments.channels[a.request.channelId].monitor.root;
      var offer := PrepareSend(env, w.quotes, a, None, root).0;
      if offer.Success? then Some(offer.value) else None
  }

  /** The run of the ledger alone. */
  function PayOps(env: SendEnv, ops: seq<Op>): seq<PaymentRuns.PayOp> {
    if ops == [] then []
    else
      var front := ops[..|ops| - 1];
      var earlier := PayOps(env, front);
      match ops[|ops| - 1]
      case OpenChannel(c) => earlier + [PaymentRuns.OpenChannel(c)]
      case SendPayment(a) =>
        var offer := OfferOf(env, Run(env, front), a);
        if offer.Some? then earlier + [PaymentRuns.Pay(a.request, offer)] else earlier
      case CallQuotes(_) => earlier
  }

  /** Where the ids of a run first collide, if they do. */
  function RunCollision(env: SendEnv, ops: seq<Op>): (Bytes, Bytes) {
    if ops == [] then ([], [])
    else
      var front, op := ops[..|ops| - 1], ops[|ops| - 1];
      var earlier := RunCollision(env, front);
      if IsCollision(env.pay.ledger.sha, earlier) || !op.SendPayment? then earlier
      else SendCollision(env, Run(env, front), op.send)
  }

  function SendCollision(env: SendEnv, w: World, a: AssetSend): (Bytes, Bytes) {
    var offer := OfferOf(env, w, a);
    if offer.None? then ([], [])
    else
      var attempt := Prepare(env.pay, w.ledger.commitments, a.request, offer);
      if attempt.Failure? then ([], []) else IdCollision(env.pay.ledger.sha, w.ledger, a.request, attempt.value)
  }

  /** The ledger of the run is that of its payments, which all found their way clear, and every id in it
      belongs to a used quote. */
  ghost predicate Orderly(env: SendEnv, w: World, pays: seq<PaymentRuns.PayOp>) {
    && w.ledger == PaymentRuns.Run(env.pay, pays) && PaymentRuns.AllClear(env.pay, pays)
    && IdsUsed(env.pay.ledger.sha, w.ledger, w.quotes)
  }

  lemma {:induction false} SendSteps(env: SendEnv, w: World, a: AssetSend)
    ensures var next := SendAsset(env, w, a).1;
            var offer := OfferOf(env, w, a);
            && UsedKept(w.quotes, next.quotes)
            && (offer.None? ==> next.ledger == w.ledger)
            && (offer.Some? ==> next.ledger == Send(env.pay, w.ledger, a.request, offer).1)
            && (offer.Some? ==>
                  && Hex(a.rfqId) !in w.quotes.used
                  && next.quotes.used == w.quotes.used[Hex(a.rfqId) := offer.value.invoice.quoteId])
  {
    if a.request.channelId in w.ledger.commitments.channels {
      PrepareFacts(env, w.quotes, a, w.ledger.commitments.channels[a.request.channelId].monitor.root);
    }
  }

  lemma {:induction false} ClearSnoc(env: PayEnv, pays: seq<PaymentRuns.PayOp>, op: PaymentRuns.PayOp)
    requires PaymentRuns.AllClear(env, pays)
    requires op.Pay? && Commits(env, PaymentRuns.Run(env, pays), op.request, op.offer) ==>
               var l := PaymentRuns.Run(env, pays);
               var a := Prepare(env, l.commitments, op.request, op.offer).value;
               Clear(env, l, op.request, a.prepared, a.terms)
    ensures PaymentRuns.AllClear(env, pays + [op])
  {
    assert (pays + [op])[..|pays|] == pays;
  }

  lemma {:induction false} IdsUsedEntered(sha: Sha256, l: Ledger, s: Quotes, t: Quotes, h: HtlcStore.Htlc, p: Payment,
                                          c: CommitmentStore.Store)
    requires IdsUsed(sha, l, s) && UsedKept(s, t)
    requires h.id == HtlcStore.HtlcId(sha, h.channelId, h.terms) && Hex(h.terms.quoteId) in t.used.Values
    requires p.id == PaymentId(sha, p.channelId, p.quoteId, p.paymentHash) && p.quoteId in t.used.Values && |p.quoteId| == 64
    ensures IdsUsed(sha, Ledger(c, l.htlcs[h.id := h], l.payments[p.id := p]), t)
  {
    UsedValuesKept(s, t);
  }

  /** The ids of a clear send join the ledger with its quote in use. */
  lemma {:induction false} IdsUsedGrow(env: PayEnv, l: Ledger, s: Quotes, t: Quotes, q: PaymentRequest, offer: Prepared)
    requires IdsUsed(env.ledger.sha, l, s) && UsedKept(s, t) && StoresFine(env, l) && Commits(env, l, q, Some(offer))
    requires var a := Prepare(env, l.commitments, q, Some(offer)).value;
             && Clear(env, l, q, a.prepared, a.terms)
             && a.prepared == offer && Hex(a.terms.quoteId) == offer.invoice.quoteId && |offer.invoice.quoteId| == 64
    requires offer.invoice.quoteId in t.used.Values
    ensures IdsUsed(env.ledger.sha, Send(env, l, q, Some(offer)).1, t)
  {
    PaymentRuns.PaySucceeds(env, l, q, Some(offer));
    var a := Prepare(env, l.commitments, q, Some(offer)).value;
    var (applied, commitments) := CommitmentStore.Apply(env.ledger, l.commitments, a.update);
    var h := SettledHtlc(env, q, a.terms);
    IdsUsedEntered(env.ledger.sha, l, s, t, h, PaymentFor(env, q, a.prepared, h.id, applied.value), commitments);
  }

  /** A send that was prepared leaves the ledger in order, in a quote store that has used its quote. */
  lemma {:induction false} OfferOrderly(env: SendEnv, w: World, pays: seq<PaymentRuns.PayOp>, a: AssetSend, t: Quotes)
    requires ReadsHex(env) && Orderly(env, w, pays) && OfferOf(env, w, a).Some?
    requires !IsCollision(env.pay.ledger.sha, SendCollision(env, w, a))
    requires UsedKept(w.quotes, t) && OfferOf(env, w, a).value.invoice.quoteId in t.used.Values
    ensures var offer := OfferOf(env, w, a);
            Orderly(env, World(Send(env.pay, w.ledger, a.request, offer).1, t), pays + [PaymentRuns.Pay(a.request, offer)])
  {
    var offer := OfferOf(env, w, a);
    var op := PaymentRuns.Pay(a.request, offer);
    PaymentRuns.RunFollows(env.pay, pays);
    PaymentRuns.CommitOpsSnoc(env.pay, pays, op);
    if Commits(env.pay, w.ledger, a.request, offer) {
      OfferCommitted(env, w, pays, a);
      ClearSnoc(env.pay, pays, op);
      IdsUsedGrow(env.pay, w.ledger, w.quotes, t, a.request, offer.value);
    } else {
      SendAdvances(env.pay, w.ledger, a.request, offer);
      ClearSnoc(env.pay, pays, op);
      UsedValuesKept(w.quotes, t);
    }
  }

  lemma {:induction false} SendOrderly(env: SendEnv, w: World, pays: seq<PaymentRuns.PayOp>, a: AssetSend)
    requires ReadsHex(env) && Orderly(env, w, pays)
    ensures var offer := OfferOf(env, w, a);
            || IsCollision(env.pay.ledger.sha, SendCollision(env, w, a))
            || Orderly(env, SendAsset(env, w, a).1, if offer.Some? then pays + [PaymentRuns.Pay(a.request, offer)] else pays)
  {
    var next, offer := SendAsset(env, w, a).1, OfferOf(env, w, a);
    SendSteps(env, w, a);
    UsedValuesKept(w.quotes, next.quotes);
    if offer.Some? && !IsCollision(env.pay.ledger.sha, SendCollision(env, w, a)) {
      assert Hex(a.rfqId) in next.quotes.used;
      OfferOrderly(env, w, pays, a, next.quotes);
    }
  }

  lemma {:induction false} OfferPrinted(env: SendEnv, w: World, a: AssetSend)
    requires ReadsHex(env) && OfferOf(env, w, a).Some?
    ensures var p := OfferOf(env, w, a).value;
            Hex(p.records.quoteId) == p.invoice.quoteId && |p.invoice.quoteId| == 64
  {
    PrepareFacts(env, w.quotes, a, w.ledger.commitments.channels[a.request.channelId].monitor.root);
    var p := OfferOf(env, w, a).value;
    var d: Bytes32 :| p.invoice.quoteId == Hex(d);
    assert p.records.quoteId == d;
  }

  lemma {:induction false} OfferCommitted(env: SendEnv, w: World, pays: seq<PaymentRuns.PayOp>, a: AssetSend)
    requires ReadsHex(env) && Orderly(env, w, pays) && OfferOf(env, w, a).Some?
    requires Commits(env.pay, w.ledger, a.request, OfferOf(env, w, a))
    ensures var offer := OfferOf(env, w, a);
            var attempt := Prepare(env.pay, w.ledger.commitments, a.request, offer);
            && attempt.Success? && attempt.value.prepared == offer.value
            && Hex(attempt.value.terms.quoteId) == offer.value.invoice.quoteId && |offer.value.invoice.quoteId| == 64
            && (|| IsCollision(env.pay.ledger.sha, SendCollision(env, w, a))
                || Clear(env.pay, w.ledger, a.request, attempt.value.prepared, attempt.value.terms))
  {
    var offer := OfferOf(env, w, a);
    PaymentRuns.RunFollows(env.pay, pays);
    PreparedFacts(env.pay, w.ledger.commitments, a.request, offer);
    OfferPrinted(env, w, a);
    CommittedClear(env, PaymentRuns.CommitOps(env.pay, pays), w, a,
                   w.ledger.commitments.channels[a.request.channelId].monitor.root, offer.value);
  }

  /** Over every run with one quote store, every payment that commits finds free ids and amounts above zero,
      or two preimages of one id are exhibited. */
  lemma {:induction false} RunOrderly(env: SendEnv, ops: seq<Op>)
    requires ReadsHex(env)
    ensures IsCollision(env.pay.ledger.sha, RunCollision(env, ops)) || Orderly(env, Run(env, ops), PayOps(env, ops))
  {
    if ops != [] {
      var front, op := ops[..|ops| - 1], ops[|ops| - 1];
      RunOrderly(env, front);
      if !IsCollision(env.pay.ledger.sha, RunCollision(env, front)) {
        match op
        case OpenChannel(c) => OpenOrderly(env, Run(env, front), PayOps(env, front), c);
        case SendPayment(a) => SendOrderly(env, Run(env, front), PayOps(env, front), a);
        case CallQuotes(call) =>
          DomainsStayUsed(QuoteEnvOf(env), Run(env, front).quotes, call);
          UsedValuesKept(Run(env, front).quotes, Run(env, ops).quotes);
      }
    }
  }

  lemma {:induction false} OpenOrderly(env: SendEnv, w: World, pays: seq<PaymentRuns.PayOp>, c: StoredChannel)
    requires Orderly(env, w, pays)
    ensures Orderly(env, Step(env, w, OpenChannel(c)), pays + [PaymentRuns.OpenChannel(c)])
  {
    PaymentRuns.CommitOpsSnoc(env.pay, pays, PaymentRuns.OpenChannel(c));
    ClearSnoc(env.pay, pays, PaymentRuns.OpenChannel(c));
  }

  /** So over every such run the three stores agree, with no assumption on ids or amounts, or a collision is
      exhibited: payments explain balances and commitments, and pair up with settled HTLCs. */
  lemma {:induction false} StoresAgree(env: SendEnv, ops: seq<Op>, id: Text)
    requires ReadsHex(env)
    ensures var l, pays := Run(env, ops).ledger, PayOps(env, ops);
            || IsCollision(env.pay.ledger.sha, RunCollision(env, ops))
            || (&& PaymentRuns.Agreement(env.pay, pays, id) && PaymentRuns.Paired(l)
                && (id in l.commitments.channels ==>
                      var origin := CommitmentStore.OpenedWith(env.pay.ledger, PaymentRuns.CommitOps(env.pay, pays), id);
                      var paid := PaymentRuns.Paid(env.pay, pays, id);
                      && origin.Some? && l.commitments.channels[id].latest == |paid|
                      && l.commitments.channels[id].local == origin.value.localBalance - PaymentRuns.PaidTotal(paid)))
  {
    RunOrderly(env, ops);
    if !IsCollision(env.pay.ledger.sha, RunCollision(env, ops)) {
      var pays := PayOps(env, ops);
      PaymentRuns.RunAgrees(env.pay, pays, id);
      PaymentRuns.RunPaired(env.pay, pays);
      if id in Run(env, ops).ledger.commitments.channels {
        PaymentRuns.PaymentsExplainBalance(env.pay, pays, id);
      }
    }
  }

  /** A send that fails changes none of the three stores, after every such run, or a collision is exhibited. */
  lemma {:induction false} FailedSendsKeepLedger(env: SendEnv, ops: seq<Op>, a: AssetSend)
    requires ReadsHex(env)
    ensures var w := Run(env, ops);
            var (r, next) := SendAsset(env, w, a);
            || IsCollision(env.pay.ledger.sha, RunCollision(env, ops + [SendPayment(a)]))
            || (r.Failure? ==> next.ledger == w.ledger)
  {
    var w, all := Run(env, ops), ops + [SendPayment(a)];
    assert all[..|ops|] == ops;
    RunOrderly(env, ops);
    SendSteps(env, w, a);
    if !IsCollision(env.pay.ledger.sha, RunCollision(env, all)) {
      var offer := OfferOf(env, w, a);
      if offer.Some? {
        PaymentRuns.RunFollows(env.pay, PayOps(env, ops));
        SendOutcome(env.pay, w.ledger, a.request, offer);
        if Commits(env.pay, w.ledger, a.request, offer) {
          OfferCommitted(env, w, PayOps(env, ops), a);
        }
      }
    }
  }

  // ----- the same request again -----

  lemma {:induction false} StepKeepsUsed(env: SendEnv, w: World, op: Op)
    ensures UsedKept(w.quotes, Step(env, w, op).quotes)
  {
    match op
    case OpenChannel(_) =>
    case SendPayment(a) => SendSteps(env, w, a);
    case CallQuotes(call) => DomainsStayUsed(QuoteEnvOf(env), w.quotes, call);
  }

  lemma UsedKeptTransitive(s: Quotes, t: Quotes, u: Quotes)
    requires UsedKept(s, t) && UsedKept(t, u)
    ensures UsedKept(s, u)
  {
  }

  lemma {:induction false} RunSnoc(env: SendEnv, ops: seq<Op>, op: Op)
    ensures Run(env, ops + [op]) == Step(env, Run(env, ops), op)
  {
    assert (ops + [op])[..|ops|] == ops;
  }

  lemma {:induction false} RunKeepsUsed(env: SendEnv, before: seq<Op>, after: seq<Op>)
    ensures UsedKept(Run(env, before).quotes, Run(env, before + after).quotes)
  {
    if after == [] {
      assert before + after == before;
    } else {
      var front, op := after[..|after| - 1], after[|after| - 1];
      assert before + after == before + front + [op];
      RunKeepsUsed(env, before, front);
      RunSnoc(env, before + front, op);
      StepKeepsUsed(env, Run(env, before + front), op);
      UsedKeptTransitive(Run(env, before).quotes, Run(env, before + front).quotes, Run(env, before + after).quotes);
    }
  }

  /** A request for a used replay domain changes nothing at all. */
  lemma {:induction false} UsedRequestRefused(env: SendEnv, w: World, b: AssetSend)
    requires Hex(b.rfqId) in w.quotes.used
    ensures SendAsset(env, w, b).0.Failure? && SendAsset(env, w, b).1 == w
  {
    if b.request.now + QUOTE_TTL < U64_LIMIT {
      UsedDomainRefused(QuoteEnvOf(env), w.quotes, Asked(b));
    }
  }

  /** Once a payment was prepared for an RFQ id, no later send with that id on the same quote store is
      prepared again or changes anything, whatever happened to the first. */
  lemma {:induction false} RepeatRefused(env: SendEnv, before: seq<Op>, a: AssetSend, after: seq<Op>, b: AssetSend)
    requires OfferOf(env, Run(env, before), a).Some? && b.rfqId == a.rfqId
    ensures var w := Run(env, before + [SendPayment(a)] + after);
            SendAsset(env, w, b).0.Failure? && SendAsset(env, w, b).1 == w
  {
    var upTo := before + [SendPayment(a)];
    assert upTo[..|before|] == before;
    SendSteps(env, Run(env, before), a);
    RunKeepsUsed(env, upTo, after);
    UsedRequestRefused(env, Run(env, upTo + after), b);
  }

  // ----- failures that are put in on purpose -----

  /** Records for another amount, or shown with another payment hash, never pass the final hop. */
  lemma {:induction false} SpoiltRecordsFail(env: SendEnv, a: AssetSend, invoice: HtlcStore.Invoice,
                                             auth: HtlcStore.Authorization, root: RootHashSum)
    requires a.request.now + QUOTE_TTL < U64_LIMIT
    ensures RecordsFor(env, a, invoice, auth, Some(WrongMetadata), root).Failure?
    ensures RecordsFor(env, a, invoice, auth, Some(WrongInvoice), root).Success? ==> invoice.paymentHash == Filled(98)
  {
  }

  /** So a payment with spoilt metadata is never prepared, and one shown with another payment hash only when
      its own hash is that very one. */
  lemma {:induction false} FailureModesRefused(env: SendEnv, s: Quotes, a: AssetSend, root: RootHashSum)
    ensures PrepareSend(env, s, a, Some(WrongMetadata), root).0.Failure?
    ensures PrepareSend(env, s, a, Some(WrongInvoice), root).0.Success? ==> a.paymentHash == Filled(98)
  {
    if a.request.now + QUOTE_TTL < U64_LIMIT {
      var (quote, s1) := ReceiveRequest(env, s, a);
      if quote.Success? {
        SpoiltMetadataRefused(env, s1, quote.value, a, root);
        SpoiltInvoiceRefused(env, s1, quote.value, a, root);
      }
    }
  }

  lemma {:induction false} FinishedSpoilt(env: SendEnv, paid: (Result<(Invoice, Grant), PrepareError>, Quotes), a: AssetSend,
                                          root: RootHashSum)
    requires a.request.now + QUOTE_TTL < U64_LIMIT
    ensures Finished(env, paid, a, Some(WrongMetadata), root).0.Failure?
    ensures Finished(env, paid, a, Some(WrongInvoice), root).0.Success? ==>
              paid.0.Success? && paid.0.value.0.terms.paymentHash == Filled(98)
  {
    if paid.0.Success? {
      SpoiltRecordsFail(env, a, paid.0.value.0.terms, paid.0.value.1.authorization, root);
    }
  }

  lemma {:induction false} SpoiltMetadataRefused(env: SendEnv, s: Quotes, quote: Quote, a: AssetSend, root: RootHashSum)
    requires a.request.now + QUOTE_TTL < U64_LIMIT
    ensures FromQuote(env, s, quote, a, Some(WrongMetadata), root).0.Failure?
  {
    var invoice := InvoiceFor(env, quote, a, Some(WrongMetadata));
    if invoice.Success? {
      FromQuoteFinishes(env, s, quote, a, Some(WrongMetadata), root, invoice.value);
      FinishedSpoilt(env, PayInvoice(env, s, invoice.value, a.request.now + 2), a, root);
    }
  }

  lemma {:induction false} SpoiltInvoiceRefused(env: SendEnv, s: Quotes, quote: Quote, a: AssetSend, root: RootHashSum)
    requires a.request.now + QUOTE_TTL < U64_LIMIT
    ensures FromQuote(env, s, quote, a, Some(WrongInvoice), root).0.Success? ==> a.paymentHash == Filled(98)
  {
    var invoice := InvoiceFor(env, quote, a, Some(WrongInvoice));
    if invoice.Success? {
      assert invoice.value.terms.paymentHash == a.paymentHash;
      FromQuoteFinishes(env, s, quote, a, Some(WrongInvoice), root, invoice.value);
      PayFacts(env, s, invoice.value, a.request.now + 2);
      FinishedSpoilt(env, PayInvoice(env, s, invoice.value, a.request.now + 2), a, root);
    }
  }
}
