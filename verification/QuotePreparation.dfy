/** Exactly which payments are prepared, and what preparing one leaves in the quote store. */
module QuotePreparation {
  import opened ByteBits
  import opened Primitives
  import opened Text
  import opened Payments
  import opened QuotedSends
  import opened RfqQuotes
  import opened QuoteLife
  import HtlcStore
  import QuotedRuns

  // ----- the receiver's answer -----

  /** The quote of a send once it is accepted. */
  function AcceptedQuote(env: SendEnv, s: Quotes, a: AssetSend): Quote
    requires a.request.now + QUOTE_TTL < U64_LIMIT && Offered(QuoteEnvOf(env), s, Asked(a)).Some?
  {
    Offered(QuoteEnvOf(env), s, Asked(a)).value.(status := Accepted, acceptedAt := Some(a.request.now))
  }

  /** A quote can be offered, its place is vacant, and its id reads as 32 bytes. */
  predicate Quotable(env: SendEnv, s: Quotes, a: AssetSend)
    requires a.request.now + QUOTE_TTL < U64_LIMIT
  {
    var q := Offered(QuoteEnvOf(env), s, Asked(a));
    q.Some? && Vacant(s, q.value.id) && env.pay.ledger.parseHex(q.value.id).Some?
  }

  function WithQuote(s: Quotes, q: Quote): Quotes {
    s.(aliases := s.aliases[q.scidAlias := q.id], quotes := s.quotes[q.id := q])
  }

  lemma {:induction false} OfferedTerms(env: SendEnv, s: Quotes, a: AssetSend)
    requires a.request.now + QUOTE_TTL < U64_LIMIT && Offered(QuoteEnvOf(env), s, Asked(a)).Some?
    ensures var q := Offered(QuoteEnvOf(env), s, Asked(a)).value;
            && q.peer == a.request.sender && q.assetId == a.request.assetId && q.amount == a.request.amount
            && q.msat == 100 * q.amount && q.expiry == a.request.now + 120 && q.context == a.context
            && q.domain == Hex(a.rfqId) && q.domain !in s.used && q.status.Requested? && q.acceptedAt.None?
            && q.id == BindingId(env.pay.ledger.sha, q)
  {
  }

  lemma {:induction false} RequestServed(env: QuoteEnv, s: Quotes, r: QuoteRequest)
    requires Sound(env, s) && Offered(env, s, r).Some? && Vacant(s, Offered(env, s, r).value.id)
    ensures var q := Offered(env, s, r).value;
            RequestQuote(env, s, r) == (Success(q), WithQuote(s, q)) && Sound(env, WithQuote(s, q))
  {
    RequestExactly(env, s, r);
    RequestIs(env, s, r);
  }

  lemma {:induction false} AcceptAt(env: QuoteEnv, t: Quotes, q: Quote, now: u64)
    requires Sound(env, t) && q.id in t.quotes && t.quotes[q.id] == q && q.status.Requested?
    requires now <= q.expiry && q.domain !in t.used
    ensures var next := q.(status := Accepted, acceptedAt := Some(now));
            && AcceptQuote(env, t, q.id, now) == (Success(next), t.(quotes := t.quotes[q.id := next]))
            && Sound(env, t.(quotes := t.quotes[q.id := next]))
  {
    AcceptExactly(env, t, q.id, now);
  }

  lemma {:induction false} QuoteReplaced(s: Quotes, q: Quote, next: Quote)
    requires next.id == q.id && next.scidAlias == q.scidAlias
    ensures var t := WithQuote(s, q); t.(quotes := t.quotes[q.id := next]) == WithQuote(s, next)
  {
    assert s.quotes[q.id := q][q.id := next] == s.quotes[q.id := next];
  }

  lemma {:induction false} AcceptServed(env: QuoteEnv, s: Quotes, q: Quote, now: u64, t: Quotes)
    requires t == WithQuote(s, q) && Sound(env, t) && q.status.Requested? && now <= q.expiry && q.domain !in s.used
    ensures var next := q.(status := Accepted, acceptedAt := Some(now));
            AcceptQuote(env, t, q.id, now) == (Success(next), WithQuote(s, next)) && Sound(env, WithQuote(s, next))
  {
    AcceptAt(env, t, q, now);
    QuoteReplaced(s, q, q.(status := Accepted, acceptedAt := Some(now)));
  }

  /** The receiver answers a request exactly when it can be quoted; the quote is then accepted at once. */
  lemma {:induction false} AnsweredExactly(env: SendEnv, s: Quotes, a: AssetSend)
    requires Sound(QuoteEnvOf(env), s) && a.request.now + QUOTE_TTL < U64_LIMIT
    ensures ReceiveRequest(env, s, a).0.Success? <==> Quotable(env, s, a)
    ensures Quotable(env, s, a) ==>
              var q := AcceptedQuote(env, s, a);
              ReceiveRequest(env, s, a) == (Success(q), WithQuote(s, q)) && Sound(QuoteEnvOf(env), WithQuote(s, q))
  {
    var qenv := QuoteEnvOf(env);
    RequestExactly(qenv, s, Asked(a));
    var q := Offered(qenv, s, Asked(a));
    if q.Some? && Vacant(s, q.value.id) {
      OfferedTerms(env, s, a);
      RequestServed(qenv, s, Asked(a));
      AcceptServed(qenv, s, q.value, a.request.now, WithQuote(s, q.value));
    }
  }

  // ----- the invoice -----

  function InvoiceTerms(q: Quote, a: AssetSend): HtlcStore.Invoice
    requires a.request.now + QUOTE_TTL < U64_LIMIT
  {
    HtlcStore.Invoice(q.id, q.assetId, q.amount, q.msat, q.context, q.scidAlias, a.paymentHash, a.request.now + 60,
                      q.expiry)
  }

  /** A quote of this send, accepted. */
  predicate Answers(q: Quote, a: AssetSend)
    requires a.request.now + QUOTE_TTL < U64_LIMIT
  {
    && q.status.Accepted? && q.peer == a.request.sender && q.assetId == a.request.assetId
    && q.amount == a.request.amount && q.expiry == a.request.now + 120 && q.context == a.context
  }

  lemma {:induction false} InvoicedExactly(env: SendEnv, q: Quote, a: AssetSend)
    requires a.request.now + QUOTE_TTL < U64_LIMIT && Answers(q, a)
    ensures InvoiceFor(env, q, a, None).Success? <==> !env.pay.blank(InvoiceText(a.paymentHash))
    ensures InvoiceFor(env, q, a, None).Success? ==>
              InvoiceFor(env, q, a, None).value == Invoice(InvoiceText(a.paymentHash), q.peer, InvoiceTerms(q, a))
  {
  }

  /** The store once the quote is used. */
  function Spent(s: Quotes, q: Quote, now: u64): Quotes {
    var next := q.(status := Used, usedAt := Some(now));
    s.(quotes := s.quotes[q.id := next], aliases := s.aliases - {q.scidAlias}, used := s.used[q.domain := q.id])
  }

  lemma {:induction false} BindsAgain(blank: Text -> bool, q: Quote, a: AssetSend, now: u64)
    requires a.request.now + QUOTE_TTL < U64_LIMIT && Answers(q, a) && now <= q.expiry
    requires !blank(InvoiceText(a.paymentHash))
    ensures var t := InvoiceTerms(q, a);
            Bind(blank, q, BindRequest(InvoiceText(a.paymentHash), t.paymentHash, q.peer, t.assetId, t.amount, t.msat,
                                       t.invoiceContext, t.invoiceExpiry, now))
              == Success(Invoice(InvoiceText(a.paymentHash), q.peer, t))
  {
  }

  lemma {:induction false} UseServed(env: QuoteEnv, s: Quotes, q: Quote, now: u64)
    requires Sound(env, s) && q.id in s.quotes && s.quotes[q.id] == q && q.status.Accepted? && now <= q.expiry
    requires q.domain !in s.used
    ensures UseQuote(env, s, q.id, now) == (Success(GrantOf(q)), Spent(s, q, now)) && Sound(env, Spent(s, q, now))
  {
    UseExactly(env, s, q.id, now);
  }

  lemma {:induction false} PaidExactly(env: SendEnv, s: Quotes, q: Quote, a: AssetSend, now: u64)
    requires a.request.now + QUOTE_TTL < U64_LIMIT && Answers(q, a) && now <= q.expiry
    requires Sound(QuoteEnvOf(env), s) && q.id in s.quotes && s.quotes[q.id] == q && q.domain !in s.used
    requires !env.pay.blank(InvoiceText(a.paymentHash))
    ensures var invoice := Invoice(InvoiceText(a.paymentHash), q.peer, InvoiceTerms(q, a));
            PayInvoice(env, s, invoice, now) == (Success((invoice, GrantOf(q))), Spent(s, q, now))
  {
    BindsAgain(env.pay.blank, q, a, now);
    UseServed(QuoteEnvOf(env), s, q, now);
  }

  // ----- the records -----

  /** The records of a send, from its quote and the channel's root. */
  function RecordsOf(env: SendEnv, q: Quote, quoteId: Bytes32, a: AssetSend, root: RootHashSum): HtlcStore.HtlcRecords {
    var draft := HtlcStore.HtlcRecords(env.version, q.assetId, q.amount, root, quoteId, q.context, q.msat, q.scidAlias,
                                       a.paymentHash, quoteId);
    draft.(finalHopDigest := HtlcStore.FinalHopDigest(env.pay.ledger.sha, draft))
  }

  lemma {:induction false} BuiltExactly(env: SendEnv, q: Quote, a: AssetSend, root: RootHashSum)
    requires a.request.now + QUOTE_TTL < U64_LIMIT && env.pay.ledger.parseHex(q.id).Some?
    ensures HtlcStore.BuildRecords(Hop(env.pay), env.version, InvoiceTerms(q, a), GrantOf(q).authorization, root)
              == Success(RecordsOf(env, q, env.pay.ledger.parseHex(q.id).value, a, root))
  {
  }

  lemma {:induction false} RecordedExactly(env: SendEnv, q: Quote, a: AssetSend, root: RootHashSum)
    requires a.request.now + QUOTE_TTL < U64_LIMIT && Answers(q, a) && env.pay.ledger.parseHex(q.id).Some?
    ensures var t, auth := InvoiceTerms(q, a), GrantOf(q).authorization;
            var records := RecordsOf(env, q, env.pay.ledger.parseHex(q.id).value, a, root);
            && (RecordsFor(env, a, t, auth, None, root).Success? <==>
                  env.pay.ldkAccepts(records, t, auth, a.request.now + 3))
            && (RecordsFor(env, a, t, auth, None, root).Success? ==>
                  RecordsFor(env, a, t, auth, None, root).value == Prepared(t, auth, records))
  {
    var t, auth := InvoiceTerms(q, a), GrantOf(q).authorization;
    var records := RecordsOf(env, q, env.pay.ledger.parseHex(q.id).value, a, root);
    BuiltExactly(env, q, a, root);
    HtlcStore.FinalHopExact(Hop(env.pay), records, t, auth, root, a.request.now + 3);
  }

  // ----- all of it -----

  lemma {:induction false} AcceptedAnswers(env: SendEnv, s: Quotes, a: AssetSend)
    requires a.request.now + QUOTE_TTL < U64_LIMIT && Quotable(env, s, a)
    ensures var q := AcceptedQuote(env, s, a);
            && Answers(q, a) && q.domain !in s.used && WithQuote(s, q).used == s.used
            && q.id in WithQuote(s, q).quotes && WithQuote(s, q).quotes[q.id] == q
            && env.pay.ledger.parseHex(q.id).Some?
  {
    OfferedTerms(env, s, a);
  }

  /** What preparing a send comes to once it can be quoted. */
  predicate Settles(env: SendEnv, q: Quote, a: AssetSend, root: RootHashSum)
    requires a.request.now + QUOTE_TTL < U64_LIMIT && env.pay.ledger.parseHex(q.id).Some?
  {
    && !env.pay.blank(InvoiceText(a.paymentHash))
    && env.pay.ldkAccepts(RecordsOf(env, q, env.pay.ledger.parseHex(q.id).value, a, root), InvoiceTerms(q, a),
                          GrantOf(q).authorization, a.request.now + 3)
  }

  /** The payment that is prepared, and the store it leaves. */
  function Settlement(env: SendEnv, next: Quotes, q: Quote, a: AssetSend, root: RootHashSum):
      (Result<Prepared, PrepareError>, Quotes)
    requires a.request.now + QUOTE_TTL < U64_LIMIT && env.pay.ledger.parseHex(q.id).Some?
  {
    (Success(Prepared(InvoiceTerms(q, a), GrantOf(q).authorization,
                      RecordsOf(env, q, env.pay.ledger.parseHex(q.id).value, a, root))),
     Spent(next, q, a.request.now + 2))
  }

  lemma {:induction false} FinishedIs(env: SendEnv, paid: (Result<(Invoice, Grant), PrepareError>, Quotes), a: AssetSend,
                                      root: RootHashSum)
    requires a.request.now + QUOTE_TTL < U64_LIMIT && paid.0.Success?
    ensures Finished(env, paid, a, None, root) ==
              (RecordsFor(env, a, paid.0.value.0.terms, paid.0.value.1.authorization, None, root), paid.1)
  {
  }

  lemma {:induction false} NoInvoice(env: SendEnv, s: Quotes, q: Quote, a: AssetSend, root: RootHashSum)
    requires a.request.now + QUOTE_TTL < U64_LIMIT && InvoiceFor(env, q, a, None).Failure?
    ensures FromQuote(env, s, q, a, None, root).0.Failure?
  {
  }

  lemma {:induction false} FromQuoteRecords(env: SendEnv, s: Quotes, q: Quote, a: AssetSend, root: RootHashSum)
    requires a.request.now + QUOTE_TTL < U64_LIMIT && Answers(q, a) && !env.pay.blank(InvoiceText(a.paymentHash))
    requires Sound(QuoteEnvOf(env), s) && q.id in s.quotes && s.quotes[q.id] == q && q.domain !in s.used
    ensures FromQuote(env, s, q, a, None, root) ==
              (RecordsFor(env, a, InvoiceTerms(q, a), GrantOf(q).authorization, None, root),
               Spent(s, q, a.request.now + 2))
  {
    InvoicedExactly(env, q, a);
    PaidExactly(env, s, q, a, a.request.now + 2);
    var invoice := Invoice(InvoiceText(a.paymentHash), q.peer, InvoiceTerms(q, a));
    QuotedRuns.FromQuoteFinishes(env, s, q, a, None, root, invoice);
    FinishedIs(env, (Success((invoice, GrantOf(q))), Spent(s, q, a.request.now + 2)), a, root);
  }

  /** The answer prepares the payment exactly when it settles. */
  predicate Prepares(env: SendEnv, s: Quotes, q: Quote, a: AssetSend, root: RootHashSum,
                     answer: (Result<Prepared, PrepareError>, Quotes))
    requires a.request.now + QUOTE_TTL < U64_LIMIT && env.pay.ledger.parseHex(q.id).Some?
  {
    && (answer.0.Success? <==> Settles(env, q, a, root))
    && (answer.0.Success? ==> answer == Settlement(env, s, q, a, root))
  }

  lemma {:induction false} RecordsPrepare(env: SendEnv, s: Quotes, q: Quote, a: AssetSend, root: RootHashSum)
    requires a.request.now + QUOTE_TTL < U64_LIMIT && Answers(q, a) && env.pay.ledger.parseHex(q.id).Some?
    requires !env.pay.blank(InvoiceText(a.paymentHash))
    ensures var records := RecordsFor(env, a, InvoiceTerms(q, a), GrantOf(q).authorization, None, root);
            Prepares(env, s, q, a, root, (records, Spent(s, q, a.request.now + 2)))
  {
    RecordedExactly(env, q, a, root);
  }

  lemma {:induction false} FromQuoteExactly(env: SendEnv, s: Quotes, q: Quote, a: AssetSend, root: RootHashSum)
    requires a.request.now + QUOTE_TTL < U64_LIMIT && Answers(q, a) && env.pay.ledger.parseHex(q.id).Some?
    requires Sound(QuoteEnvOf(env), s) && q.id in s.quotes && s.quotes[q.id] == q && q.domain !in s.used
    ensures Prepares(env, s, q, a, root, FromQuote(env, s, q, a, None, root))
  {
    if env.pay.blank(InvoiceText(a.paymentHash)) {
      InvoicedExactly(env, q, a);
      NoInvoice(env, s, q, a, root);
    } else {
      FromQuoteRecords(env, s, q, a, root);
      RecordsPrepare(env, s, q, a, root);
    }
  }

  predicate Named(env: SendEnv, a: AssetSend) {
    !env.pay.blank(a.request.sender) && !env.pay.blank(a.request.receiver) && a.request.amount != 0
  }

  lemma {:induction false} PrepareIs(env: SendEnv, s: Quotes, a: AssetSend, root: RootHashSum, q: Quote, next: Quotes)
    requires Named(env, a) && a.request.now + QUOTE_TTL < U64_LIMIT && ReceiveRequest(env, s, a) == (Success(q), next)
    ensures PrepareSend(env, s, a, None, root) == FromQuote(env, next, q, a, None, root)
  {
  }

  lemma {:induction false} PrepareFails(env: SendEnv, s: Quotes, a: AssetSend, root: RootHashSum)
    requires !Named(env, a) || a.request.now + QUOTE_TTL >= U64_LIMIT || ReceiveRequest(env, s, a).0.Failure?
    ensures PrepareSend(env, s, a, None, root).0.Failure?
  {
  }

  lemma {:induction false} QuotedExactly(env: SendEnv, s: Quotes, a: AssetSend, root: RootHashSum, q: Quote, next: Quotes)
    requires Named(env, a) && a.request.now + QUOTE_TTL < U64_LIMIT && ReceiveRequest(env, s, a) == (Success(q), next)
    requires Sound(QuoteEnvOf(env), next) && Answers(q, a) && q.domain !in next.used
    requires q.id in next.quotes && next.quotes[q.id] == q && env.pay.ledger.parseHex(q.id).Some?
    ensures PrepareSend(env, s, a, None, root).0.Success? <==> Settles(env, q, a, root)
    ensures Settles(env, q, a, root) ==> PrepareSend(env, s, a, None, root) == Settlement(env, next, q, a, root)
  {
    PrepareIs(env, s, a, root, q, next);
    FromQuoteExactly(env, next, q, a, root);
  }

  /** The send names its peers and an amount, can be quoted and invoiced, and LDK accepts its records. */
  predicate Preparable(env: SendEnv, s: Quotes, a: AssetSend, root: RootHashSum) {
    && Named(env, a) && a.request.now + QUOTE_TTL < U64_LIMIT && Quotable(env, s, a)
    && Settles(env, AcceptedQuote(env, s, a), a, root)
  }

  /** In a sound quote store a payment is prepared exactly when its send is in order: it names its peers and an
      amount, its replay domain is unused, an alias and the place of its quote are free, its price and its times
      fit, and LDK accepts its records three seconds later. It then pays the invoice of its own quote, which is
      accepted at once and used two seconds later, and nothing else in the store changes. */
  lemma {:induction false} PreparedExactly(env: SendEnv, s: Quotes, a: AssetSend, root: RootHashSum)
    requires Sound(QuoteEnvOf(env), s)
    ensures PrepareSend(env, s, a, None, root).0.Success? <==> Preparable(env, s, a, root)
    ensures Preparable(env, s, a, root) ==>
              var q := AcceptedQuote(env, s, a); PrepareSend(env, s, a, None, root) == Settlement(env, WithQuote(s, q), q, a, root)
  {
    if Named(env, a) && a.request.now + QUOTE_TTL < U64_LIMIT && Quotable(env, s, a) {
      AnsweredExactly(env, s, a);
      AcceptedAnswers(env, s, a);
      QuotedExactly(env, s, a, root, AcceptedQuote(env, s, a), WithQuote(s, AcceptedQuote(env, s, a)));
    } else {
      if a.request.now + QUOTE_TTL < U64_LIMIT {
        AnsweredExactly(env, s, a);
      }
      PrepareFails(env, s, a, root);
    }
  }
}
