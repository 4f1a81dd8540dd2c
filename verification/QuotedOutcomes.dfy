/** Exactly which quoted sends succeed, after any run. */
module QuotedOutcomes {
  import opened ByteBits
  import opened Primitives
  import opened Text
  import opened CommitmentState
  import opened Payments
  import opened QuotedSends
  import opened RfqQuotes
  import opened QuotePreparation
  import CommitmentStore
  import FailedSends
  import HtlcStore
  import PaymentOrigins
  import PaymentRuns
  import QuotedRuns

  /** What the payment of a quote is settled with. */
  function OfferFor(env: SendEnv, s: Quotes, a: AssetSend, root: RootHashSum): Prepared
    requires Preparable(env, s, a, root)
  {
    var q := AcceptedQuote(env, s, a);
    Prepared(InvoiceTerms(q, a), GrantOf(q).authorization,
             RecordsOf(env, q, env.pay.ledger.parseHex(q.id).value, a, root))
  }

  /** LDK accepts the HTLC four seconds after the request. */
  predicate LdkSettles(env: SendEnv, a: AssetSend, o: Prepared)
    requires a.request.now + QUOTE_TTL < U64_LIMIT
  {
    env.pay.ldkAccepts(o.records, o.invoice, o.authorization, a.request.now + 4)
  }

  /** The offer passes the final hop at settlement exactly when LDK accepts it once more. */
  lemma {:induction false} HopExactly(env: SendEnv, s: Quotes, a: AssetSend, st: State)
    requires Preparable(env, s, a, st.monitor.root)
    ensures var o := OfferFor(env, s, a, st.monitor.root);
            && (HopFor(env.pay, st, a.request, o).Success? <==> LdkSettles(env, a, o))
            && (HopFor(env.pay, st, a.request, o).Success? ==>
                  HopFor(env.pay, st, a.request, o).value.amount == a.request.amount)
  {
    AcceptedAnswers(env, s, a);
    var q := AcceptedQuote(env, s, a);
    var o := OfferFor(env, s, a, st.monitor.root);
    BuiltExactly(env, q, a, st.monitor.root);
    HtlcStore.FinalHopExact(Hop(env.pay), o.records, o.invoice, o.authorization, st.monitor.root, a.request.now + 4);
    if HopFor(env.pay, st, a.request, o).Success? {
      HopForTerms(env.pay, st, a.request, o);
    }
  }

  /** The channel is open and of the asset, the payment can be prepared, the amount can leave the channel, and
      LDK accepts the HTLC at settlement. */
  predicate Sendable(env: SendEnv, w: World, a: AssetSend) {
    && a.request.channelId in w.ledger.commitments.channels
    && var st := w.ledger.commitments.channels[a.request.channelId];
       && st.assetId == a.request.assetId && Preparable(env, w.quotes, a, st.monitor.root)
       && FailedSends.CanLeave(env.pay.ledger, st, a.request.amount, a.request.nonce)
       && LdkSettles(env, a, OfferFor(env, w.quotes, a, st.monitor.root))
  }

  lemma {:induction false} OfferIs(env: SendEnv, w: World, a: AssetSend)
    requires Sound(QuoteEnvOf(env), w.quotes) && a.request.channelId in w.ledger.commitments.channels
    ensures var root := w.ledger.commitments.channels[a.request.channelId].monitor.root;
            QuotedRuns.OfferOf(env, w, a) ==
              if Preparable(env, w.quotes, a, root) then Some(OfferFor(env, w.quotes, a, root)) else None
  {
    PreparedExactly(env, w.quotes, a, w.ledger.commitments.channels[a.request.channelId].monitor.root);
  }

  lemma {:induction false} NotRefusedExactly(env: PayEnv, w: World, a: AssetSend, o: Prepared)
    requires a.request.channelId in w.ledger.commitments.channels
    requires !env.blank(a.request.sender) && !env.blank(a.request.receiver) && a.request.amount != 0
    requires a.request.now + QUOTE_TTL < U64_LIMIT
    ensures RequestRefusal(env, w.ledger.commitments, a.request, Some(o)).None? <==>
              w.ledger.commitments.channels[a.request.channelId].assetId == a.request.assetId
  {
  }

  lemma {:induction false} OfferedCommits(env: SendEnv, ops: seq<CommitmentStore.Op>, w: World, a: AssetSend, o: Prepared,
                                          st: State, ldk: bool)
    requires w.ledger.commitments == CommitmentStore.Run(env.pay.ledger, ops)
    requires a.request.channelId in w.ledger.commitments.channels && st == w.ledger.commitments.channels[a.request.channelId]
    requires Named(env, a) && a.request.now + QUOTE_TTL < U64_LIMIT
    requires HopFor(env.pay, st, a.request, o).Success? <==> ldk
    requires ldk ==> HopFor(env.pay, st, a.request, o).value.amount == a.request.amount
    ensures Commits(env.pay, w.ledger, a.request, Some(o)) <==>
              && st.assetId == a.request.assetId && ldk
              && FailedSends.CanLeave(env.pay.ledger, st, a.request.amount, a.request.nonce)
  {
    NotRefusedExactly(env.pay, w, a, o);
    FailedSends.CommitsExactly(env.pay, ops, w.ledger, a.request, Some(o));
  }

  /** After any run of the ledger, with a prepared payment. */
  lemma {:induction false} OfferCommits(env: SendEnv, pays: seq<PaymentRuns.PayOp>, w: World, a: AssetSend, st: State)
    requires w.ledger.commitments == CommitmentStore.Run(env.pay.ledger, PaymentRuns.CommitOps(env.pay, pays))
    requires a.request.channelId in w.ledger.commitments.channels && st == w.ledger.commitments.channels[a.request.channelId]
    requires Preparable(env, w.quotes, a, st.monitor.root)
    ensures var o := OfferFor(env, w.quotes, a, st.monitor.root);
            Commits(env.pay, w.ledger, a.request, Some(o)) <==>
              && st.assetId == a.request.assetId && LdkSettles(env, a, o)
              && FailedSends.CanLeave(env.pay.ledger, st, a.request.amount, a.request.nonce)
  {
    var o := OfferFor(env, w.quotes, a, st.monitor.root);
    HopExactly(env, w.quotes, a, st);
    OfferedCommits(env, PaymentRuns.CommitOps(env.pay, pays), w, a, o, st, LdkSettles(env, a, o));
  }

  /** After any run with one quote store that passes its check, exactly the sends in order succeed, or a
      collision is exhibited: nothing about HTLCs, payments, nonces of other channels or earlier quotes can stand
      in the way of one that is. */
  lemma {:induction false} SendsExactly(env: SendEnv, ops: seq<QuotedRuns.Op>, a: AssetSend)
    requires QuotedRuns.ReadsHex(env) && Sound(QuoteEnvOf(env), QuotedRuns.Run(env, ops).quotes)
    ensures var w := QuotedRuns.Run(env, ops);
            || IsCollision(env.pay.ledger.sha, QuotedRuns.RunCollision(env, ops + [QuotedRuns.SendPayment(a)]))
            || (SendAsset(env, w, a).0.Success? <==> Sendable(env, w, a))
  {
    var w, all := QuotedRuns.Run(env, ops), ops + [QuotedRuns.SendPayment(a)];
    assert all[..|ops|] == ops;
    QuotedRuns.RunOrderly(env, ops);
    PaymentOrigins.CollisionStays(env, ops, QuotedRuns.SendPayment(a));
    PaymentOrigins.SendResult(env, w, a);
    if !IsCollision(env.pay.ledger.sha, QuotedRuns.RunCollision(env, all)) {
      SendExactly(env, QuotedRuns.PayOps(env, ops), w, a);
    }
  }

  lemma {:induction false} SendExactly(env: SendEnv, pays: seq<PaymentRuns.PayOp>, w: World, a: AssetSend)
    requires QuotedRuns.ReadsHex(env) && Sound(QuoteEnvOf(env), w.quotes) && QuotedRuns.Orderly(env, w, pays)
    requires !IsCollision(env.pay.ledger.sha, QuotedRuns.SendCollision(env, w, a))
    ensures var offer := QuotedRuns.OfferOf(env, w, a);
            offer.Some? && Send(env.pay, w.ledger, a.request, offer).0.Success? <==> Sendable(env, w, a)
  {
    if a.request.channelId in w.ledger.commitments.channels {
      var st := w.ledger.commitments.channels[a.request.channelId];
      OfferIs(env, w, a);
      if Preparable(env, w.quotes, a, st.monitor.root) {
        PaymentRuns.RunFollows(env.pay, pays);
        OfferCommits(env, pays, w, a, st);
        OfferSends(env, pays, w, a, QuotedRuns.OfferOf(env, w, a));
      }
    }
  }

  /** Once it commits a send succeeds. */
  lemma {:induction false} OfferSends(env: SendEnv, pays: seq<PaymentRuns.PayOp>, w: World, a: AssetSend,
                                      offer: Option<Prepared>)
    requires QuotedRuns.ReadsHex(env) && QuotedRuns.Orderly(env, w, pays)
    requires offer == QuotedRuns.OfferOf(env, w, a) && offer.Some?
    requires !IsCollision(env.pay.ledger.sha, QuotedRuns.SendCollision(env, w, a))
    ensures Send(env.pay, w.ledger, a.request, offer).0.Success? <==> Commits(env.pay, w.ledger, a.request, offer)
  {
    PaymentRuns.RunFollows(env.pay, pays);
    SendOutcome(env.pay, w.ledger, a.request, offer);
    if Commits(env.pay, w.ledger, a.request, offer) {
      QuotedRuns.OfferCommitted(env, w, pays, a);
    }
  }
}
