/** A payment repeated against another quote store: refused, but only after the channel has advanced. */
module RepeatedSends {
  import opened ByteBits
  import opened Primitives
  import opened Text
  import opened Channels
  import opened CommitmentState
  import opened CommitmentLedger
  import opened CommitmentReplay
  import opened Payments
  import opened FailedSends
  import opened QuotedSends
  import opened QuotedRuns
  import opened RfqQuotes
  import CommitmentOpening
  import CommitmentStore
  import HtlcStore
  import PaymentRuns
  import ProofReplay
  import TapVm

  // ----- an empty quote store prepares any payment that is in order -----

  /** The request is in order, and neither parsing nor LDK is in the way. */
  ghost predicate InOrder(env: SendEnv, a: AssetSend) {
    && ReadsHex(env) && (forall r, i, u, n :: env.pay.ldkAccepts(r, i, u, n))
    && !env.pay.blank(a.request.sender) && !env.pay.blank(a.request.receiver) && !env.pay.blank(Hex(a.rfqId))
    && !env.pay.blank(InvoiceText(a.paymentHash)) && a.request.amount != 0
    && a.request.amount * MSATS_PER_UNIT < U64_LIMIT && a.request.now + QUOTE_TTL < U64_LIMIT
  }

  lemma {:induction false} FirstReceived(env: SendEnv, a: AssetSend)
    requires InOrder(env, a)
    ensures var (q, next) := ReceiveRequest(env, NO_QUOTES, a);
            && q.Success? && next == Single(q.value) && QuoteFine(QuoteEnvOf(env), {}, q.value.id, q.value)
            && q.value.status.Accepted? && Serves(q.value, a)
  {
    var qenv := QuoteEnvOf(env);
    FirstRequest(qenv, Asked(a));
    var asked := RequestQuote(qenv, NO_QUOTES, Asked(a));
    FirstAccept(qenv, asked.0.value, a.request.now);
    RequestIsFresh(qenv, NO_QUOTES, Asked(a));
    BindingPrinted(qenv.sha, asked.0.value);
  }

  /** The quote is for this send. */
  predicate Serves(q: Quote, a: AssetSend) {
    && q.peer == a.request.sender && q.assetId == a.request.assetId && q.amount == a.request.amount
    && q.context == a.context && q.expiry == a.request.now + QUOTE_TTL && q.msat == q.amount * MSATS_PER_UNIT
  }

  /** The terms of the invoice for a quote. */
  function TermsFor(q: Quote, a: AssetSend): HtlcStore.Invoice
    requires a.request.now + QUOTE_TTL < U64_LIMIT
  {
    HtlcStore.Invoice(q.id, q.assetId, q.amount, q.msat, q.context, q.scidAlias, a.paymentHash,
                      a.request.now + INVOICE_TTL, q.expiry)
  }

  lemma {:induction false} FirstInvoice(env: SendEnv, q: Quote, a: AssetSend)
    requires InOrder(env, a) && q.status.Accepted? && Serves(q, a)
    ensures InvoiceFor(env, q, a, None) == Success(Invoice(InvoiceText(a.paymentHash), q.peer, TermsFor(q, a)))
  {
  }

  lemma {:induction false} BindAgain(blank: Text -> bool, q: Quote, a: AssetSend, text: Text)
    requires a.request.now + QUOTE_TTL < U64_LIMIT && q.status.Accepted? && Serves(q, a) && !blank(text)
    ensures var t := TermsFor(q, a);
            Bind(blank, q, BindRequest(text, t.paymentHash, q.peer, t.assetId, t.amount, t.msat, t.invoiceContext,
                                       t.invoiceExpiry, a.request.now + 2)) == Success(Invoice(text, q.peer, t))
  {
  }

  lemma {:induction false} PaidParts(env: SendEnv, s: Quotes, invoice: Invoice, now: u64, bound: Invoice, grant: Grant)
    requires var t := invoice.terms;
             && t.quoteId in s.quotes
             && Bind(env.pay.blank, s.quotes[t.quoteId],
                     BindRequest(invoice.text, t.paymentHash, invoice.peer, t.assetId, t.amount, t.msat,
                                 t.invoiceContext, t.invoiceExpiry, now)) == Success(bound)
             && UseQuote(QuoteEnvOf(env), s, t.quoteId, now).0 == Success(grant)
    ensures PayInvoice(env, s, invoice, now).0 == Success((bound, grant))
  {
  }

  lemma {:induction false} FirstPaid(env: SendEnv, q: Quote, a: AssetSend)
    requires InOrder(env, a) && QuoteFine(QuoteEnvOf(env), {}, q.id, q) && q.status.Accepted? && Serves(q, a)
    ensures var paid := PayInvoice(env, Single(q), Invoice(InvoiceText(a.paymentHash), q.peer, TermsFor(q, a)),
                                   a.request.now + 2).0;
            paid.Success? && paid.value.0.terms == TermsFor(q, a) && paid.value.1 == GrantOf(q)
  {
    FirstUse(QuoteEnvOf(env), q, a.request.now + 2);
    var invoice := Invoice(InvoiceText(a.paymentHash), q.peer, TermsFor(q, a));
    BindAgain(env.pay.blank, q, a, invoice.text);
    PaidParts(env, Single(q), invoice, a.request.now + 2, invoice, GrantOf(q));
  }

  /** The final hop grants the prepared records, when they are prepared and a second later when they are
      settled. */
  lemma {:induction false} HopGrants(env: SendEnv, a: AssetSend, q: Quote, root: RootHashSum, now: u64)
    requires InOrder(env, a) && Serves(q, a) && env.pay.ledger.parseHex(q.id).Some? && now <= a.request.now + INVOICE_TTL
    ensures var auth := GrantOf(q).authorization;
            var built := HtlcStore.BuildRecords(Hop(env.pay), env.version, TermsFor(q, a), auth, root);
            && built.Success?
            && HtlcStore.FinalHop(Hop(env.pay), built.value, TermsFor(q, a), auth, root, now).Success?
  {
    var auth := GrantOf(q).authorization;
    var built := HtlcStore.BuildRecords(Hop(env.pay), env.version, TermsFor(q, a), auth, root);
    HtlcStore.FinalHopExact(Hop(env.pay), built.value, TermsFor(q, a), auth, root, now);
  }

  lemma {:induction false} FirstRecorded(env: SendEnv, q: Quote, a: AssetSend, root: RootHashSum)
    requires InOrder(env, a) && Serves(q, a) && env.pay.ledger.parseHex(q.id).Some?
    ensures var r := RecordsFor(env, a, TermsFor(q, a), GrantOf(q).authorization, None, root);
            && r.Success?
            && HtlcStore.FinalHop(Hop(env.pay), r.value.records, r.value.invoice, r.value.authorization, root,
                                  a.request.now + 4).Success?
  {
    HopGrants(env, a, q, root, a.request.now + 3);
    HopGrants(env, a, q, root, a.request.now + 4);
  }

  /** A receiver without quotes prepares every payment that is in order, and the final hop grants it at
      settlement. */
  lemma {:induction false} FreshStorePrepares(env: SendEnv, a: AssetSend, root: RootHashSum)
    requires InOrder(env, a)
    ensures var r := PrepareSend(env, NO_QUOTES, a, None, root).0;
            && r.Success?
            && HtlcStore.FinalHop(Hop(env.pay), r.value.records, r.value.invoice, r.value.authorization, root,
                                  a.request.now + 4).Success?
  {
    FirstReceived(env, a);
    var q := ReceiveRequest(env, NO_QUOTES, a).0.value;
    ReceivedParses(env, NO_QUOTES, a);
    FirstInvoice(env, q, a);
    FirstPaid(env, q, a);
    FirstRecorded(env, q, a, root);
    FromQuoteParts(env, Single(q), q, a, root, InvoiceFor(env, q, a, None));
    FinishedParts(env, PayInvoice(env, Single(q), InvoiceFor(env, q, a, None).value, a.request.now + 2), a,
                  TermsFor(q, a), GrantOf(q), root);
  }

  function Fresh(env: SendEnv, a: AssetSend, root: RootHashSum): Option<Prepared> {
    var r := PrepareSend(env, NO_QUOTES, a, None, root).0;
    if r.Success? then Some(r.value) else None
  }

  lemma {:induction false} FreshFacts(env: SendEnv, a: AssetSend, root: RootHashSum)
    requires InOrder(env, a)
    ensures Fresh(env, a, root).Some?
    ensures var p := Fresh(env, a, root).value;
            && p.records.amount == a.request.amount && p.records.msat == 100 * a.request.amount
            && HtlcStore.FinalHop(Hop(env.pay), p.records, p.invoice, p.authorization, root, a.request.now + 4).Success?
  {
    FreshStorePrepares(env, a, root);
    PrepareFacts(env, NO_QUOTES, a, root);
  }

  lemma {:induction false} ReceivedParses(env: SendEnv, s: Quotes, a: AssetSend)
    requires ReceiveRequest(env, s, a).0.Success?
    ensures env.pay.ledger.parseHex(ReceiveRequest(env, s, a).0.value.id).Some?
  {
    AnswerFacts(env, RequestQuote(QuoteEnvOf(env), s, Asked(a)), a.request.now);
  }

  lemma {:induction false} FinishedParts(env: SendEnv, paid: (Result<(Invoice, Grant), PrepareError>, Quotes), a: AssetSend,
                                         terms: HtlcStore.Invoice, grant: Grant, root: RootHashSum)
    requires a.request.now + QUOTE_TTL < U64_LIMIT
    requires paid.0.Success? && paid.0.value.0.terms == terms && paid.0.value.1 == grant
    ensures Finished(env, paid, a, None, root).0 == RecordsFor(env, a, terms, grant.authorization, None, root)
  {
  }

  lemma {:induction false} FromQuoteParts(env: SendEnv, s: Quotes, q: Quote, a: AssetSend, root: RootHashSum,
                                          invoice: Result<Invoice, PrepareError>)
    requires a.request.now + QUOTE_TTL < U64_LIMIT && InvoiceFor(env, q, a, None) == invoice
    ensures FromQuote(env, s, q, a, None, root) ==
              if invoice.Failure? then (Failure(invoice.error), s)
              else Finished(env, PayInvoice(env, s, invoice.value, a.request.now + 2), a, None, root)
  {
  }

  // ----- a payment sent twice -----

  ghost predicate NoZeroDigest(sha: Sha256) {
    forall b: Bytes :: sha(b) != ZERO32
  }

  const ALICE: Text := [2]
  const BOB: Text := [3]

  function ID(sha: Sha256): Text {
    Hex(sha([]))
  }

  /** Surroundings that parse what is printed and refuse nothing. */
  function Willing(sha: Sha256): SendEnv {
    var rules := ProofReplay.Rules(_ => true, (a: Bytes32, k: Key33, n: u64) => RootHashSum(a, n));
    SendEnv(PayEnv(Env(sha, rules, ParseHex, _ => Some(sha([])), _ => true), t => t == [], (_, _, _, _) => true), t => t, 1)
  }

  function Root(sha: Sha256): RootHashSum {
    RootHashSum(sha([]), 10)
  }

  /** A channel of ten units, all on the local side. */
  function Channel(sha: Sha256): StoredChannel {
    var d := sha([]);
    StoredChannel(ID(sha), ALICE, BOB, d, [], [], TapVm.KeyOf(2), Root(sha), 10, 0, 10, [], [],
                  FundingRecordId(ID(sha)), FundingOutputId(ID(sha)), Hex(d), ChannelMonitor(0, true, d))
  }

  /** Three units for one RFQ id; only the commitment nonce is left open. */
  function Ask(sha: Sha256, nonce: Bytes32): AssetSend {
    var d := sha([]);
    AssetSend(PaymentRequest(ID(sha), ALICE, BOB, d, 3, nonce, 0), d, d, d)
  }

  /** What a receiver without quotes prepares for it. */
  function FreshOffer(sha: Sha256): Option<Prepared> {
    Fresh(Willing(sha), Ask(sha, ZERO32), Root(sha))
  }

  lemma WillingReads(sha: Sha256)
    ensures ReadsHex(Willing(sha))
  {
    forall d: Bytes32
      ensures Willing(sha).pay.ledger.parseHex(Hex(d)) == Some(d)
    {
      ParseHexOfHex(d);
    }
  }

  lemma WillingInOrder(sha: Sha256, nonce: Bytes32)
    ensures InOrder(Willing(sha), Ask(sha, nonce))
  {
    WillingReads(sha);
    assert |Hex(sha([]))| == 64 && |InvoiceText(sha([]))| == 25;
  }

  /** Preparing a payment does not look at the commitment nonce. */
  lemma {:induction false} NonceIgnored(env: SendEnv, s: Quotes, a: AssetSend, nonce: Bytes32, root: RootHashSum)
    ensures var b := a.(request := a.request.(nonce := nonce));
            PrepareSend(env, s, a, None, root) == PrepareSend(env, s, b, None, root)
  {
    var b := a.(request := a.request.(nonce := nonce));
    if a.request.now + QUOTE_TTL < U64_LIMIT {
      assert Asked(a) == Asked(b);
      var (quote, s1) := ReceiveRequest(env, s, a);
      assert ReceiveRequest(env, s, b) == (quote, s1);
      if quote.Success? {
        FromQuoteIgnores(env, s1, quote.value, a, nonce, root);
      }
    }
  }

  lemma {:induction false} FromQuoteIgnores(env: SendEnv, s: Quotes, q: Quote, a: AssetSend, nonce: Bytes32, root: RootHashSum)
    requires a.request.now + QUOTE_TTL < U64_LIMIT
    ensures var b := a.(request := a.request.(nonce := nonce));
            FromQuote(env, s, q, a, None, root) == FromQuote(env, s, q, b, None, root)
  {
    var b := a.(request := a.request.(nonce := nonce));
    var invoice := InvoiceFor(env, q, a, None);
    InvoiceIgnores(env, q, a, nonce);
    FromQuoteParts(env, s, q, a, root, invoice);
    FromQuoteParts(env, s, q, b, root, invoice);
    if invoice.Success? {
      FinishedIgnores(env, PayInvoice(env, s, invoice.value, a.request.now + 2), a, nonce, root);
    }
  }

  lemma {:induction false} InvoiceIgnores(env: SendEnv, q: Quote, a: AssetSend, nonce: Bytes32)
    requires a.request.now + QUOTE_TTL < U64_LIMIT
    ensures InvoiceFor(env, q, a, None) == InvoiceFor(env, q, a.(request := a.request.(nonce := nonce)), None)
  {
  }

  lemma {:induction false} FinishedIgnores(env: SendEnv, paid: (Result<(Invoice, Grant), PrepareError>, Quotes), a: AssetSend,
                                           nonce: Bytes32, root: RootHashSum)
    requires a.request.now + QUOTE_TTL < U64_LIMIT
    ensures Finished(env, paid, a, None, root) == Finished(env, paid, a.(request := a.request.(nonce := nonce)), None, root)
  {
  }

  /** The offer of an empty store grants three units for three hundred millisatoshi. */
  predicate Grants(sha: Sha256, offer: Option<Prepared>) {
    && offer.Some? && offer.value.records.amount == 3 && offer.value.records.msat == 300
    && HtlcStore.FinalHop(Hop(Willing(sha).pay), offer.value.records, offer.value.invoice, offer.value.authorization,
                          Root(sha), 4).Success?
  }

  lemma {:induction false} OfferInOrder(sha: Sha256)
    requires InOrder(Willing(sha), Ask(sha, ZERO32))
    ensures Grants(sha, FreshOffer(sha))
  {
    FreshFacts(Willing(sha), Ask(sha, ZERO32), Root(sha));
  }

  lemma {:induction false} OfferPrepared(sha: Sha256)
    ensures Grants(sha, FreshOffer(sha))
  {
    WillingInOrder(sha, ZERO32);
    OfferInOrder(sha);
  }

  lemma {:induction false} OfferForAny(sha: Sha256, nonce: Bytes32)
    requires FreshOffer(sha).Some?
    ensures PrepareSend(Willing(sha), NO_QUOTES, Ask(sha, nonce), None, Root(sha)).0 == Success(FreshOffer(sha).value)
  {
    NonceIgnored(Willing(sha), NO_QUOTES, Ask(sha, ZERO32), nonce, Root(sha));
    assert Ask(sha, ZERO32).(request := Ask(sha, ZERO32).request.(nonce := nonce)) == Ask(sha, nonce);
  }

  lemma {:induction false} HopAtSettlement(env: PayEnv, st: State, q: PaymentRequest, p: Prepared)
    requires q.now + 4 < U64_LIMIT
    requires HtlcStore.FinalHop(Hop(env), p.records, p.invoice, p.authorization, st.monitor.root, q.now + 4).Success?
    ensures var terms := HopFor(env, st, q, p);
            terms.Success? && terms.value.amount == p.records.amount && terms.value.msat == p.records.msat
  {
    HopForTerms(env, st, q, p);
  }

  /** The offer, and what the final hop makes of it at settlement. */
  lemma {:induction false} OfferFacts(sha: Sha256, st: State, nonce: Bytes32)
    requires st.monitor.root == Root(sha)
    ensures FreshOffer(sha).Some?
    ensures PrepareSend(Willing(sha), NO_QUOTES, Ask(sha, nonce), None, Root(sha)).0 == Success(FreshOffer(sha).value)
    ensures var terms := HopFor(Willing(sha).pay, st, Ask(sha, nonce).request, FreshOffer(sha).value);
            terms.Success? && terms.value.amount == 3 && terms.value.msat == 300
  {
    OfferPrepared(sha);
    OfferForAny(sha, nonce);
    HopAtSettlement(Willing(sha).pay, st, Ask(sha, nonce).request, FreshOffer(sha).value);
  }

  /** The channel still holds three units on the local side and has not used the nonce. */
  predicate Ready(sha: Sha256, st: State, nonce: Bytes32) {
    && st.channelId == ID(sha) && st.assetId == sha([]) && st.total == 10 && st.local + st.remote == 10 && st.local >= 3
    && st.latest < 2 && nonce !in st.usedNonces && st.monitor.root == Root(sha) && IdsOutsideLedger(st)
  }

  lemma ThreeLeave(sha: Sha256, st: State, nonce: Bytes32)
    requires NoZeroDigest(sha) && Ready(sha, st, nonce)
    ensures CanLeave(Willing(sha).pay.ledger, st, 3, nonce)
  {
    var env := Willing(sha).pay.ledger;
    BuilderOutcome(env, st, 3, 0, nonce);
    BuiltUpdatePasses(env, st, 3, 0, nonce);
    var r := BuildUpdate(env, st, 3, 0, nonce).value;
    OutsideIdsFree(env, st, r, ValidateUpdate(env, st, r).value);
    ParseHexOfHex(sha([]));
  }

  lemma AskNotRefused(sha: Sha256, s: CommitmentStore.Store, nonce: Bytes32, offer: Prepared)
    requires ID(sha) in s.channels && s.channels[ID(sha)].assetId == sha([])
    ensures RequestRefusal(Willing(sha).pay, s, Ask(sha, nonce).request, Some(offer)).None?
  {
  }

  lemma {:induction false} AskCommits(sha: Sha256, ops: seq<CommitmentStore.Op>, l: Ledger, nonce: Bytes32)
    requires NoZeroDigest(sha) && l.commitments == CommitmentStore.Run(Willing(sha).pay.ledger, ops)
    requires ID(sha) in l.commitments.channels && Ready(sha, l.commitments.channels[ID(sha)], nonce)
    ensures FreshOffer(sha).Some? && Commits(Willing(sha).pay, l, Ask(sha, nonce).request, FreshOffer(sha))
  {
    var st := l.commitments.channels[ID(sha)];
    OfferFacts(sha, st, nonce);
    var offer := FreshOffer(sha).value;
    AskNotRefused(sha, l.commitments, nonce, offer);
    ThreeLeave(sha, st, nonce);
    CommitsWhen(Willing(sha).pay, ops, l, Ask(sha, nonce).request, Some(offer),
                HopFor(Willing(sha).pay, st, Ask(sha, nonce).request, offer).value);
  }

  lemma InputIdDiffers(st: State, id: Text)
    requires OutsideLedger(id)
    ensures id != FundingInputId(st)
  {
    ConcatStart([Ascii("asset-commitment-funding-input:"), st.channelId]);
    var prefix := Ascii("asset-commitment-funding-input:");
    assert LedgerPrefix() == prefix[..17];
    assert prefix <= FundingInputId(st);
  }

  lemma ChannelOpens(sha: Sha256)
    requires NoZeroDigest(sha)
    ensures var env := Willing(sha).pay.ledger;
            var begun := CommitmentStore.Initialize(env, CommitmentStore.EMPTY_STORE, Channel(sha));
            && begun.0.Success? && begun.0 == OpenState(env, Channel(sha))
            && begun.1.channels == map[ID(sha) := begun.0.value]
  {
    var env, c := Willing(sha).pay.ledger, Channel(sha);
    ParseHexOfHex(sha([]));
    var st := OpenState(env, c).value;
    FundingIdsOutsideLedger(ID(sha));
    InputIdDiffers(st, c.historyRecordId);
    InputIdDiffers(st, c.historyOutputId);
    CommitmentOpening.OpenAcceptance(env, c);
    CommitmentStore.InitializeEffect(env, CommitmentStore.EMPTY_STORE, c);
    CommitmentOpening.InitializeAcceptance(env, [], c);
  }

  /** The update a ready channel is asked for. */
  lemma {:induction false} AskedUpdate(sha: Sha256, l: Ledger, nonce: Bytes32)
    requires ID(sha) in l.commitments.channels && Ready(sha, l.commitments.channels[ID(sha)], nonce)
    requires Commits(Willing(sha).pay, l, Ask(sha, nonce).request, FreshOffer(sha))
    ensures var r := Prepare(Willing(sha).pay, l.commitments, Ask(sha, nonce).request, FreshOffer(sha)).value.update;
            r.channelId == ID(sha) && r.localToRemote == 3 && r.remoteToLocal == 0 && r.nonce == nonce
  {
    var env, st, q := Willing(sha).pay, l.commitments.channels[ID(sha)], Ask(sha, nonce).request;
    OfferFacts(sha, st, nonce);
    var offer := FreshOffer(sha).value;
    var built := BuildUpdate(env.ledger, st, 3, 0, nonce);
    assert Prepare(env, l.commitments, q, Some(offer)) == Combine(offer, HopFor(env, st, q, offer), built);
    BuiltUpdatePasses(env.ledger, st, 3, 0, nonce);
  }

  /** The channel after a send that committed. */
  lemma {:induction false} AfterAsk(sha: Sha256, ops: seq<CommitmentStore.Op>, l: Ledger, nonce: Bytes32, other: Bytes32)
      returns (next: seq<CommitmentStore.Op>)
    requires NoZeroDigest(sha) && l.commitments == CommitmentStore.Run(Willing(sha).pay.ledger, ops)
    requires ID(sha) in l.commitments.channels && Ready(sha, l.commitments.channels[ID(sha)], nonce)
    requires StoresFine(Willing(sha).pay, l)
    ensures Commits(Willing(sha).pay, l, Ask(sha, nonce).request, FreshOffer(sha))
    ensures var before := l.commitments.channels[ID(sha)];
            var sent := Send(Willing(sha).pay, l, Ask(sha, nonce).request, FreshOffer(sha)).1.commitments;
            && sent == CommitmentStore.Run(Willing(sha).pay.ledger, next) && ID(sha) in sent.channels
            && var after := sent.channels[ID(sha)];
               && after.latest == before.latest + 1 && after.local == before.local - 3
               && (before.latest == 0 && before.local >= 6 && other != nonce && other !in before.usedNonces ==>
                     Ready(sha, after, other))
  {
    var env, st, q := Willing(sha).pay, l.commitments.channels[ID(sha)], Ask(sha, nonce).request;
    AskCommits(sha, ops, l, nonce);
    AskedUpdate(sha, l, nonce);
    SendAdvances(env, l, q, FreshOffer(sha));
    var r := Prepare(env, l.commitments, q, FreshOffer(sha)).value.update;
    next := ops + [CommitmentStore.Update(r)];
    PaymentRuns.RunSnoc(env.ledger, ops, CommitmentStore.Update(r));
    CommitmentStore.ApplyEffect(env.ledger, l.commitments, r);
    Updated(env.ledger, st, r);
    Validated(env.ledger, st, r);
  }

  lemma {:induction false} FirstSucceeds(sha: Sha256, l: Ledger, nonce: Bytes32)
    requires l.htlcs == map[] && l.payments == map[] && ID(sha) in l.commitments.channels
    requires Ready(sha, l.commitments.channels[ID(sha)], nonce)
    requires Commits(Willing(sha).pay, l, Ask(sha, nonce).request, FreshOffer(sha))
    ensures var sent := Send(Willing(sha).pay, l, Ask(sha, nonce).request, FreshOffer(sha));
            sent.0.Success? && StoresFine(Willing(sha).pay, sent.1) && |sent.1.htlcs| == |sent.1.payments| == 1
  {
    var env, q := Willing(sha).pay, Ask(sha, nonce).request;
    OfferFacts(sha, l.commitments.channels[ID(sha)], nonce);
    TermsOfAttempt(env, l, q, FreshOffer(sha).value);
    assert ID(sha) != [];
    SendOutcome(env, l, q, FreshOffer(sha));
    PaymentRuns.PaySucceeds(env, l, q, FreshOffer(sha));
  }

  lemma {:induction false} TermsOfAttempt(env: PayEnv, l: Ledger, q: PaymentRequest, offer: Prepared)
    requires Commits(env, l, q, Some(offer))
    ensures q.channelId in l.commitments.channels && q.now + 4 < U64_LIMIT
    ensures var terms := HopFor(env, l.commitments.channels[q.channelId], q, offer);
            terms.Success? && Prepare(env, l.commitments, q, Some(offer)).value.terms == terms.value
  {
    Refused(env, l.commitments, q, Some(offer));
  }

  /** The second send finds the HTLC of the first. */
  lemma {:induction false} SecondRefused(sha: Sha256, l: Ledger, nonce: Bytes32, other: Bytes32)
    requires StoresFine(Willing(sha).pay, l) && Commits(Willing(sha).pay, l, Ask(sha, nonce).request, FreshOffer(sha))
    requires var sent := Send(Willing(sha).pay, l, Ask(sha, nonce).request, FreshOffer(sha));
             sent.0.Success? && Commits(Willing(sha).pay, sent.1, Ask(sha, other).request, FreshOffer(sha))
    ensures var l1 := Send(Willing(sha).pay, l, Ask(sha, nonce).request, FreshOffer(sha)).1;
            var again := Send(Willing(sha).pay, l1, Ask(sha, other).request, FreshOffer(sha));
            again.0.Failure? && again.1.htlcs == l1.htlcs && again.1.payments == l1.payments
  {
    var env, first, second, offer := Willing(sha).pay, Ask(sha, nonce).request, Ask(sha, other).request, FreshOffer(sha);
    var l1 := Send(env, l, first, offer).1;
    SendOutcome(env, l, first, offer);
    PaymentRuns.PaySucceeds(env, l, first, offer);
    PreparedFacts(env, l.commitments, first, offer);
    PreparedFacts(env, l1.commitments, second, offer);
    TakenHtlc(env, l1, second, offer);
  }

  /** The ledger with the channel opened. */
  function Begun(sha: Sha256): Ledger {
    PaymentRuns.Run(Willing(sha).pay, [PaymentRuns.OpenChannel(Channel(sha))])
  }

  lemma {:induction false} BegunLedger(sha: Sha256)
    ensures var s := CommitmentStore.Initialize(Willing(sha).pay.ledger, CommitmentStore.EMPTY_STORE, Channel(sha)).1;
            && Begun(sha) == Ledger(s, map[], map[])
            && s == CommitmentStore.Run(Willing(sha).pay.ledger, [CommitmentStore.Open(Channel(sha))])
  {
    var open, start := PaymentRuns.OpenChannel(Channel(sha)), CommitmentStore.Open(Channel(sha));
    PaymentRuns.CommitOpsSnoc(Willing(sha).pay, [], open);
    PaymentRuns.RunSnoc(Willing(sha).pay.ledger, [], start);
    assert [] + [open] == [open] && [] + [start] == [start];
  }

  lemma {:induction false} OpenedReady(sha: Sha256, nonce: Bytes32)
    requires OpenState(Willing(sha).pay.ledger, Channel(sha)).Success?
    ensures var st := OpenState(Willing(sha).pay.ledger, Channel(sha)).value;
            Ready(sha, st, nonce) && st.local == 10 && st.latest == 0 && st.usedNonces == map[]
  {
    FundingIdsOutsideLedger(ID(sha));
  }

  lemma {:induction false} BegunReady(sha: Sha256, nonce: Bytes32)
    requires NoZeroDigest(sha)
    ensures Begun(sha).commitments == CommitmentStore.Run(Willing(sha).pay.ledger, [CommitmentStore.Open(Channel(sha))])
    ensures Begun(sha).htlcs == map[] && Begun(sha).payments == map[] && ID(sha) in Begun(sha).commitments.channels
    ensures var st := Begun(sha).commitments.channels[ID(sha)];
            Ready(sha, st, nonce) && st.local == 10 && st.latest == 0 && st.usedNonces == map[]
  {
    ChannelOpens(sha);
    BegunLedger(sha);
    OpenedReady(sha, nonce);
  }

  /** Three units left the channel with each send. */
  predicate LeftTwice(id: Text, first: Ledger, second: Ledger) {
    && id in first.commitments.channels && first.commitments.channels[id].local == 7
    && id in second.commitments.channels && second.commitments.channels[id].local == 4
    && second.commitments.channels[id].latest == 2
  }

  /** One HTLC and one payment, before the second send and after it. */
  predicate PaidOnce(first: Ledger, second: Ledger) {
    |first.htlcs| == |first.payments| == 1 && second.htlcs == first.htlcs && second.payments == first.payments
  }

  /** The ledgers of two sends in a row from a ready channel of ten units. */
  lemma {:induction false} TwoSends(sha: Sha256, ops: seq<CommitmentStore.Op>, l: Ledger, nonce: Bytes32, other: Bytes32)
    requires NoZeroDigest(sha) && nonce != other
    requires l.commitments == CommitmentStore.Run(Willing(sha).pay.ledger, ops) && l.htlcs == map[] && l.payments == map[]
    requires ID(sha) in l.commitments.channels
    requires var st := l.commitments.channels[ID(sha)];
             Ready(sha, st, nonce) && st.local == 10 && st.latest == 0 && st.usedNonces == map[]
    ensures Commits(Willing(sha).pay, l, Ask(sha, nonce).request, FreshOffer(sha))
    ensures var first := Send(Willing(sha).pay, l, Ask(sha, nonce).request, FreshOffer(sha));
            && Commits(Willing(sha).pay, first.1, Ask(sha, other).request, FreshOffer(sha))
            && LeftTwice(ID(sha), first.1, Send(Willing(sha).pay, first.1, Ask(sha, other).request, FreshOffer(sha)).1)
            && ID(sha) in first.1.commitments.channels && first.1.commitments.channels[ID(sha)].monitor.root == Root(sha)
  {
    var ops1 := AfterAsk(sha, ops, l, nonce, other);
    FirstSucceeds(sha, l, nonce);
    var l1 := Send(Willing(sha).pay, l, Ask(sha, nonce).request, FreshOffer(sha)).1;
    var ops2 := AfterAsk(sha, ops1, l1, other, nonce);
  }

  /** A send against an empty quote store is the payment of the offer such a store prepares. */
  lemma {:induction false} SentFresh(sha: Sha256, l: Ledger, nonce: Bytes32)
    requires ID(sha) in l.commitments.channels && l.commitments.channels[ID(sha)].monitor.root == Root(sha)
    ensures var sent := Send(Willing(sha).pay, l, Ask(sha, nonce).request, FreshOffer(sha));
            var (r, next) := SendAsset(Willing(sha), World(l, NO_QUOTES), Ask(sha, nonce));
            && next.ledger == sent.1 && (r.Success? <==> sent.0.Success?) && Hex(sha([])) in next.quotes.used
  {
    OfferFacts(sha, l.commitments.channels[ID(sha)], nonce);
    SendSteps(Willing(sha), World(l, NO_QUOTES), Ask(sha, nonce));
  }

  /** The two sends against empty quote stores, told of the ledgers. */
  lemma {:induction false} LedgersTwice(sha: Sha256, nonce: Bytes32, other: Bytes32)
    requires NoZeroDigest(sha) && nonce != other
    ensures var l := Begun(sha);
            && ID(sha) in l.commitments.channels && l.commitments.channels[ID(sha)].monitor.root == Root(sha)
            && var (paid, l1) := Send(Willing(sha).pay, l, Ask(sha, nonce).request, FreshOffer(sha));
               var (again, l2) := Send(Willing(sha).pay, l1, Ask(sha, other).request, FreshOffer(sha));
               && paid.Success? && again.Failure? && PaidOnce(l1, l2) && LeftTwice(ID(sha), l1, l2)
               && ID(sha) in l1.commitments.channels && l1.commitments.channels[ID(sha)].monitor.root == Root(sha)
  {
    var l := Begun(sha);
    BegunReady(sha, nonce);
    TwoSends(sha, [CommitmentStore.Open(Channel(sha))], l, nonce, other);
    FirstSucceeds(sha, l, nonce);
    SecondRefused(sha, l, nonce, other);
  }

  /** Three of ten units are paid. The same request under another commitment nonce, on the same quote store,
      is refused and changes nothing. Against a quote store that has not seen it, it is refused as well, with
      no second HTLC or payment, but only after three more units have left the channel. */
  lemma {:induction false} SentTwice(sha: Sha256, nonce: Bytes32, other: Bytes32)
    requires NoZeroDigest(sha) && nonce != other
    ensures var (paid, w) := SendAsset(Willing(sha), World(Begun(sha), NO_QUOTES), Ask(sha, nonce));
            var (same, kept) := SendAsset(Willing(sha), w, Ask(sha, other));
            var (again, lost) := SendAsset(Willing(sha), w.(quotes := NO_QUOTES), Ask(sha, other));
            && paid.Success? && same.Failure? && kept == w
            && again.Failure? && PaidOnce(w.ledger, lost.ledger) && LeftTwice(ID(sha), w.ledger, lost.ledger)
  {
    LedgersTwice(sha, nonce, other);
    SentFresh(sha, Begun(sha), nonce);
    var w := SendAsset(Willing(sha), World(Begun(sha), NO_QUOTES), Ask(sha, nonce)).1;
    UsedRequestRefused(Willing(sha), w, Ask(sha, other));
    SentFresh(sha, w.ledger, other);
  }
}
