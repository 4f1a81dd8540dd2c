/** Sends with their quotes: a payment is quoted, invoiced and authorized before it is settled. */
module QuotedSends {
  import opened ByteBits
  import opened Primitives
  import opened Text
  import opened Channels
  import opened CommitmentState
  import opened Payments
  import opened RfqQuotes
  import CommitmentStore
  import HtlcCodec
  import HtlcStore

  const QUOTE_TTL: nat := 120
  const INVOICE_TTL: nat := 60

  /** A payment request with the fields its quote is asked for with. */
  datatype AssetSend = AssetSend(request: PaymentRequest, rfqId: Bytes32, context: Bytes32, paymentHash: Bytes32)

  datatype FailureMode = WrongQuote | WrongInvoice | WrongMetadata

  /** The surroundings of a payment, the trimmed form of a text, and the protocol version supported. */
  datatype SendEnv = SendEnv(pay: PayEnv, trim: Text -> Text, version: HtlcStore.u16)

  function QuoteEnvOf(env: SendEnv): QuoteEnv {
    QuoteEnv(env.pay.ledger.sha, env.trim, env.pay.blank)
  }

  /** An invoice with its text and the peer it is for. */
  datatype Invoice = Invoice(text: Text, peer: Text, terms: HtlcStore.Invoice)

  datatype BindRequest = BindRequest(
    text: Text,
    paymentHash: Bytes32,
    peer: Text,
    assetId: Bytes32,
    amount: u64,
    msat: u64,
    context: Bytes32,
    invoiceExpiry: u64,
    now: u64)

  datatype PrepareError =
    | EmptyPaymentPeer
    | InvalidPaymentAmount
    | ExpiryOverflow
    | Quoting(quote: QuoteError)
    | InvalidQuoteId
    | EmptyInvoice
    | InvoiceQuoteNotAccepted(status: Status)
    | InvoiceQuoteExpired
    | InvoiceOutlivesQuote
    | PeerMismatch
    | InvoiceAssetMismatch
    | InvoiceAmountMismatch
    | InvoiceBtcMismatch
    | InvoiceContextMismatch
    | MetadataOverflow
    | Hopping(htlc: HtlcStore.HtlcError)

  // ----- preparing a payment -----

  function Bind(blank: Text -> bool, q: Quote, r: BindRequest): Result<Invoice, PrepareError> {
    if blank(r.text) then Failure(EmptyInvoice)
    else if !q.status.Accepted? then Failure(InvoiceQuoteNotAccepted(q.status))
    else if r.now > q.expiry then Failure(InvoiceQuoteExpired)
    else if r.invoiceExpiry > q.expiry then Failure(InvoiceOutlivesQuote)
    else if r.peer != q.peer then Failure(PeerMismatch)
    else if r.assetId != q.assetId then Failure(InvoiceAssetMismatch)
    else if r.amount != q.amount then Failure(InvoiceAmountMismatch)
    else if r.msat != q.msat then Failure(InvoiceBtcMismatch)
    else if r.context != q.context then Failure(InvoiceContextMismatch)
    else
      Success(Invoice(r.text, q.peer, HtlcStore.Invoice(q.id, q.assetId, q.amount, q.msat, q.context, q.scidAlias,
                                                        r.paymentHash, r.invoiceExpiry, q.expiry)))
  }

  /** Accepting the quote just requested. */
  function Answer(env: SendEnv, asked: (Result<Quote, QuoteError>, Quotes), now: u64): (Result<Quote, PrepareError>, Quotes) {
    var (quote, s) := asked;
    if quote.Failure? then (Failure(Quoting(quote.error)), s)
    else
      var (accepted, next) := AcceptQuote(QuoteEnvOf(env), s, quote.value.id, now);
      if accepted.Failure? then (Failure(Quoting(accepted.error)), next)
      else if env.pay.ledger.parseHex(accepted.value.id).None? then (Failure(InvalidQuoteId), next)
      else (Success(accepted.value), next)
  }

  function Asked(a: AssetSend): QuoteRequest
    requires a.request.now + QUOTE_TTL < U64_LIMIT
  {
    var q := a.request;
    QuoteRequest(q.sender, q.assetId, q.amount, q.now + QUOTE_TTL, a.context, Hex(a.rfqId), q.now)
  }

  /** The receiver's answer to an RFQ request: a new quote, accepted at once. */
  function ReceiveRequest(env: SendEnv, s: Quotes, a: AssetSend): (Result<Quote, PrepareError>, Quotes) {
    if a.request.now + QUOTE_TTL >= U64_LIMIT then (Failure(ExpiryOverflow), s)
    else Answer(env, RequestQuote(QuoteEnvOf(env), s, Asked(a)), a.request.now)
  }

  function InvoiceText(hash: Bytes32): Text {
    Ascii("lnbcrt1tapldk") + Hex(hash)[..12]
  }

  /** The invoice for an accepted quote; one failure mode names another quote in it. */
  function InvoiceFor(env: SendEnv, quote: Quote, a: AssetSend, mode: Option<FailureMode>): Result<Invoice, PrepareError>
    requires a.request.now + QUOTE_TTL < U64_LIMIT
  {
    var q := a.request;
    var bound := Bind(env.pay.blank, quote, BindRequest(InvoiceText(a.paymentHash), a.paymentHash, q.sender, q.assetId,
                                                        q.amount, quote.msat, a.context, q.now + INVOICE_TTL, q.now + 1));
    if bound.Failure? || mode != Some(WrongQuote) then bound
    else Success(bound.value.(terms := bound.value.terms.(quoteId := Hex(Filled(99)))))
  }

  function Filled(b: byte): (r: Bytes32) {
    seq(32, i => b)
  }

  /** Paying an invoice: it is bound to its quote once more, and the quote is used up. */
  function PayInvoice(env: SendEnv, s: Quotes, invoice: Invoice, now: u64): (Result<(Invoice, Grant), PrepareError>, Quotes) {
    var t := invoice.terms;
    if t.quoteId !in s.quotes then (Failure(Quoting(UnknownQuote)), s)
    else
      var bound := Bind(env.pay.blank, s.quotes[t.quoteId],
                        BindRequest(invoice.text, t.paymentHash, invoice.peer, t.assetId, t.amount, t.msat,
                                    t.invoiceContext, t.invoiceExpiry, now));
      if bound.Failure? then (Failure(bound.error), s)
      else
        var (grant, next) := UseQuote(QuoteEnvOf(env), s, t.quoteId, now);
        if grant.Failure? then (Failure(Quoting(grant.error)), next) else (Success((bound.value, grant.value)), next)
  }

  /** The records of an authorized payment, checked at the final hop. Two failure modes spoil them. */
  function RecordsFor(env: SendEnv, a: AssetSend, invoice: HtlcStore.Invoice, auth: HtlcStore.Authorization,
                    mode: Option<FailureMode>, root: RootHashSum): Result<Prepared, PrepareError>
    requires a.request.now + QUOTE_TTL < U64_LIMIT
  {
    var built := HtlcStore.BuildRecords(Hop(env.pay), env.version, invoice, auth, root);
    if built.Failure? then Failure(Hopping(built.error))
    else if mode == Some(WrongMetadata) && built.value.amount + 1 >= U64_LIMIT then Failure(MetadataOverflow)
    else
      var records := if mode == Some(WrongMetadata) then built.value.(amount := built.value.amount + 1) else built.value;
      var shown := if mode == Some(WrongInvoice) then invoice.(paymentHash := Filled(98)) else invoice;
      var terms := HtlcStore.FinalHop(Hop(env.pay), records, shown, auth, root, a.request.now + 3);
      if terms.Failure? then Failure(Hopping(terms.error)) else Success(Prepared(invoice, auth, records))
  }

  /** The records of an invoice that was paid. */
  function Finished(env: SendEnv, paid: (Result<(Invoice, Grant), PrepareError>, Quotes), a: AssetSend,
                    mode: Option<FailureMode>, root: RootHashSum): (Result<Prepared, PrepareError>, Quotes)
    requires a.request.now + QUOTE_TTL < U64_LIMIT
  {
    var (r, s) := paid;
    if r.Failure? then (Failure(r.error), s)
    else (RecordsFor(env, a, r.value.0.terms, r.value.1.authorization, mode, root), s)
  }

  /** From an accepted quote to the payment it prepares. */
  function FromQuote(env: SendEnv, s: Quotes, quote: Quote, a: AssetSend, mode: Option<FailureMode>, root: RootHashSum):
      (Result<Prepared, PrepareError>, Quotes)
    requires a.request.now + QUOTE_TTL < U64_LIMIT
  {
    var invoice := InvoiceFor(env, quote, a, mode);
    if invoice.Failure? then (Failure(invoice.error), s)
    else Finished(env, PayInvoice(env, s, invoice.value, a.request.now + 2), a, mode, root)
  }

  /** Everything up to settlement; the quote store is the receiver's. */
  function PrepareSend(env: SendEnv, s: Quotes, a: AssetSend, mode: Option<FailureMode>, root: RootHashSum):
      (Result<Prepared, PrepareError>, Quotes)
  {
    if env.pay.blank(a.request.sender) || env.pay.blank(a.request.receiver) then (Failure(EmptyPaymentPeer), s)
    else if a.request.amount == 0 then (Failure(InvalidPaymentAmount), s)
    else
      var (quote, s1) := ReceiveRequest(env, s, a);
      if quote.Failure? then (Failure(quote.error), s1) else FromQuote(env, s1, quote.value, a, mode, root)
  }

  // ----- one send -----

  datatype World = World(ledger: Ledger, quotes: Quotes)

  datatype SendError = Preparing(prepare: PrepareError) | Paying(payment: PaymentError)

  function SendAsset(env: SendEnv, w: World, a: AssetSend): (Result<Payment, SendError>, World) {
    if a.request.channelId !in w.ledger.commitments.channels then
      (Failure(Paying(CommitmentFault(UnknownChannel))), w)
    else
      var root := w.ledger.commitments.channels[a.request.channelId].monitor.root;
      var (offer, quotes) := PrepareSend(env, w.quotes, a, None, root);
      if offer.Failure? then (Failure(Preparing(offer.error)), w.(quotes := quotes))
      else
        var (r, l) := Send(env.pay, w.ledger, a.request, Some(offer.value));
        (if r.Success? then Success(r.value) else Failure(Paying(r.error)), World(l, quotes))
  }

  method ReceiveNativeRequest(env: SendEnv, quotes: RfqQuoteStore, a: AssetSend) returns (r: Result<Quote, PrepareError>)
    requires quotes.env == QuoteEnvOf(env)
    modifies quotes
    ensures (r, quotes.Contents()) == ReceiveRequest(env, old(quotes.Contents()), a)
  {
    var q := a.request;
    if q.now + QUOTE_TTL >= U64_LIMIT {
      return Failure(ExpiryOverflow);
    }
    var quote := quotes.Request(Asked(a));
    if quote.Failure? {
      return Failure(Quoting(quote.error));
    }
    var accepted := quotes.Accept(quote.value.id, q.now);
    if accepted.Failure? {
      return Failure(Quoting(accepted.error));
    }
    if env.pay.ledger.parseHex(accepted.value.id).None? {
      return Failure(InvalidQuoteId);
    }
    return Success(accepted.value);
  }

  method PayQuoteBoundInvoice(env: SendEnv, quotes: RfqQuoteStore, invoice: Invoice, now: u64)
      returns (r: Result<(Invoice, Grant), PrepareError>)
    requires quotes.env == QuoteEnvOf(env)
    modifies quotes
    ensures (r, quotes.Contents()) == PayInvoice(env, old(quotes.Contents()), invoice, now)
  {
    var t := invoice.terms;
    if t.quoteId !in quotes.quotes {
      return Failure(Quoting(UnknownQuote));
    }
    var bound := Bind(env.pay.blank, quotes.quotes[t.quoteId],
                      BindRequest(invoice.text, t.paymentHash, invoice.peer, t.assetId, t.amount, t.msat,
                                  t.invoiceContext, t.invoiceExpiry, now));
    if bound.Failure? {
      return Failure(bound.error);
    }
    var grant := quotes.AuthorizeHtlc(t.quoteId, now);
    if grant.Failure? {
      return Failure(Quoting(grant.error));
    }
    return Success((bound.value, grant.value));
  }

  /** The records travel through their TLV encoding, which changes nothing. */
  method RecordPayment(env: SendEnv, a: AssetSend, invoice: HtlcStore.Invoice, auth: HtlcStore.Authorization,
                       mode: Option<FailureMode>, root: RootHashSum) returns (r: Result<Prepared, PrepareError>)
    requires a.request.now + QUOTE_TTL < U64_LIMIT
    ensures r == RecordsFor(env, a, invoice, auth, mode, root)
  {
    var built := HtlcStore.BuildRecords(Hop(env.pay), env.version, invoice, auth, root);
    if built.Failure? {
      return Failure(Hopping(built.error));
    }
    var records, shown := built.value, invoice;
    if mode == Some(WrongInvoice) {
      shown := shown.(paymentHash := Filled(98));
    }
    if mode == Some(WrongMetadata) {
      if records.amount + 1 >= U64_LIMIT {
        return Failure(MetadataOverflow);
      }
      records := records.(amount := records.amount + 1);
    }
    var decoded := Redecoded(records);
    var terms := HtlcStore.FinalHop(Hop(env.pay), decoded, shown, auth, root, a.request.now + 3);
    if terms.Failure? {
      return Failure(Hopping(terms.error));
    }
    return Success(Prepared(invoice, auth, decoded));
  }

  method Redecoded(records: HtlcStore.HtlcRecords) returns (r: HtlcStore.HtlcRecords)
    ensures r == records
  {
    HtlcCodec.CustomRoundTrip(records);
    var encoded := HtlcCodec.EncodeCustom(records);
    var decoded := HtlcCodec.DecodeCustom(encoded.value);
    r := decoded.value.records;
  }

  method FinishPayment(env: SendEnv, quotes: RfqQuoteStore, quote: Quote, a: AssetSend, mode: Option<FailureMode>,
                       root: RootHashSum) returns (r: Result<Prepared, PrepareError>)
    requires quotes.env == QuoteEnvOf(env) && a.request.now + QUOTE_TTL < U64_LIMIT
    modifies quotes
    ensures (r, quotes.Contents()) == FromQuote(env, old(quotes.Contents()), quote, a, mode, root)
  {
    var invoice := InvoiceFor(env, quote, a, mode);
    if invoice.Failure? {
      return Failure(invoice.error);
    }
    var paid := PayQuoteBoundInvoice(env, quotes, invoice.value, a.request.now + 2);
    if paid.Failure? {
      return Failure(paid.error);
    }
    r := RecordPayment(env, a, paid.value.0.terms, paid.value.1.authorization, mode, root);
  }

  method PreparePayment(env: SendEnv, quotes: RfqQuoteStore, a: AssetSend, mode: Option<FailureMode>, root: RootHashSum)
      returns (r: Result<Prepared, PrepareError>)
    requires quotes.env == QuoteEnvOf(env)
    modifies quotes
    ensures (r, quotes.Contents()) == PrepareSend(env, old(quotes.Contents()), a, mode, root)
  {
    if env.pay.blank(a.request.sender) || env.pay.blank(a.request.receiver) {
      return Failure(EmptyPaymentPeer);
    }
    if a.request.amount == 0 {
      return Failure(InvalidPaymentAmount);
    }
    var quote := ReceiveNativeRequest(env, quotes, a);
    if quote.Failure? {
      return Failure(quote.error);
    }
    r := FinishPayment(env, quotes, quote.value, a, mode, root);
  }

  /** The four stores, changed in sequence. */
  method SendNativeAssetPayment(env: SendEnv, commitments: CommitmentStore.AssetCommitmentStore,
                                htlcs: HtlcStore.AssetHtlcStore, payments: NativeAssetPaymentStore,
                                quotes: RfqQuoteStore, a: AssetSend)
      returns (r: Result<Payment, SendError>)
    requires commitments.env == env.pay.ledger && htlcs.sha == env.pay.ledger.sha && quotes.env == QuoteEnvOf(env)
    modifies commitments, htlcs, payments, quotes
    ensures (r, World(Ledger(commitments.Contents(), htlcs.htlcs, payments.payments), quotes.Contents())) ==
              SendAsset(env, old(World(Ledger(commitments.Contents(), htlcs.htlcs, payments.payments), quotes.Contents())), a)
  {
    var state := commitments.ChannelState(a.request.channelId);
    if state.Failure? {
      return Failure(Paying(CommitmentFault(UnknownChannel)));
    }
    var prepared := PreparePayment(env, quotes, a, None, state.value.monitor.root);
    if prepared.Failure? {
      return Failure(Preparing(prepared.error));
    }
    var settled := SettlePreparedPayment(env.pay, commitments, htlcs, payments, a.request, Some(prepared.value));
    r := if settled.Success? then Success(settled.value) else Failure(Paying(settled.error));
  }
}
