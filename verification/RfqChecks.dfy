/** Exactly which RFQ requests and accepts pass their checks, in terms of the request, the invoice and the
    numbers they carry. */
module RfqChecks {
  import opened ByteBits
  import opened Primitives
  import opened Text
  import opened Rfq

  // ----- shape -----

  /** A side names an asset or a group key, not both; a group key is a compressed public key. */
  predicate NamesAsset(assetId: Option<Bytes32>, groupKey: Option<Bytes>) {
    match groupKey
    case None => assetId.Some?
    case Some(key) => assetId.None? && |key| == 33 && (key[0] == 2 || key[0] == 3)
  }

  lemma SpecifierExactly(assetId: Option<Bytes32>, groupKey: Option<Bytes>)
    ensures SpecifierFault(assetId, groupKey).None? <==> NamesAsset(assetId, groupKey)
  {
  }

  /** At most 16 bytes, denoting a number above zero. */
  predicate IsRate(x: FixedPoint) {
    |x.coefficient| <= 16 && Coefficient(x) > 0
  }

  lemma RateExactly(x: Option<FixedPoint>)
    ensures RateFault(x).None? <==> x.None? || IsRate(x.value)
  {
    if x.Some? {
      ZeroDenotes(x.value.coefficient);
    }
  }

  /** Version 1, a maximum above zero, both sides named, BTC on exactly one of them, metadata within its
      limit, and every rate a number above zero. */
  predicate WellShaped(r: Request) {
    && r.version == 1 && r.maxInAsset > 0
    && NamesAsset(r.inAssetId, r.inGroupKey) && NamesAsset(r.outAssetId, r.outGroupKey)
    && (r.inAssetId == Some(ZERO32) <==> r.outAssetId != Some(ZERO32))
    && |r.oracleMetadata| <= 32768
    && (r.inRateHint.Some? ==> IsRate(r.inRateHint.value)) && (r.outRateHint.Some? ==> IsRate(r.outRateHint.value))
    && (r.rateLimit.Some? ==> IsRate(r.rateLimit.value))
  }

  lemma ShapeExactly(r: Request)
    ensures ShapeFault(r).None? <==> WellShaped(r)
  {
    SpecifierExactly(r.inAssetId, r.inGroupKey);
    SpecifierExactly(r.outAssetId, r.outGroupKey);
    RateExactly(r.inRateHint);
    RateExactly(r.outRateHint);
    RateExactly(r.rateLimit);
  }

  /** Exactly the requests of this shape are printed, and all of them read back. */
  lemma {:induction false} PrintedExactly(r: Request)
    ensures EncodeRequest(r).Success? <==> WellShaped(r)
    ensures WellShaped(r) ==> DecodeRequest(EncodeRequest(r).value) == Success(r)
  {
    ShapeExactly(r);
    if ShapeFault(r).None? {
      RequestRoundTrip(r);
    }
  }

  // ----- the rate of an invoice -----

  /** The number of asset units for a whole BTC, written without leading zeros: the only number whose
      product with the millisatoshi is the amount times the millisatoshi of a BTC. */
  predicate Prices(x: FixedPoint, amount: u64, msat: u64) {
    && 0 < Coefficient(x) < U64_LIMIT && Coefficient(x) * msat == amount * 100_000_000_000
    && x == FromU64(Coefficient(x), 0)
  }

  lemma AssetRateForm(amount: u64, msat: u64)
    requires AssetRate(amount, msat).Success?
    ensures msat != 0 && var x := AssetRate(amount, msat).value;
                         0 < Coefficient(x) < U64_LIMIT && x == FromU64(Coefficient(x), 0)
  {
    RateQuotient(amount, msat);
    FromU64Denotes(amount * MSAT_PER_BTC / msat, 0);
  }

  lemma PricesExactly(x: FixedPoint, amount: u64, msat: u64)
    requires msat != 0
    ensures AssetRate(amount, msat) == Success(x) <==> Prices(x, amount, msat)
  {
    var rate := AssetRate(amount, msat);
    if rate.Success? {
      AssetRateForm(amount, msat);
    }
    if Coefficient(x) < U64_LIMIT {
      RateExact(amount, msat, Coefficient(x));
    }
    if rate.Success? {
      RateExact(amount, msat, Coefficient(rate.value));
    }
  }

  // ----- requests against an invoice -----

  /** The request is in time, comes from the invoice's peer, and stands between the expiries of the invoice
      and its quote, over the invoice's context. */
  predicate InTime(r: Request, peer: Text, invoice: QuotedInvoice, now: u64) {
    && now < r.expiry && peer == invoice.peer
    && invoice.invoiceExpiry <= r.expiry <= invoice.quoteExpiry && r.oracleMetadata == invoice.context
  }

  /** A request to pay the invoice: BTC in, the invoice's asset out, at most its millisatoshi, at its rate. */
  predicate Sells(r: Request, invoice: QuotedInvoice) {
    && r.transfer == PayInvoice && r.inAssetId == Some(ZERO32) && r.outAssetId == Some(invoice.assetId)
    && r.maxInAsset == invoice.msat && (r.minOutAsset.Some? ==> r.minOutAsset.value <= invoice.msat)
    && r.outRateHint.Some? && Prices(r.outRateHint.value, invoice.amount, invoice.msat)
  }

  /** A request to receive the invoice's payment: its asset in, BTC out, at most its amount, at its rate. */
  predicate Buys(r: Request, invoice: QuotedInvoice) {
    && r.transfer == ReceivePayment && r.inAssetId == Some(invoice.assetId) && r.outAssetId == Some(ZERO32)
    && r.maxInAsset == invoice.amount && (r.minInAsset.Some? ==> r.minInAsset.value <= invoice.amount)
    && r.inRateHint.Some? && Prices(r.inRateHint.value, invoice.amount, invoice.msat)
  }

  lemma HintExactly(hint: Option<FixedPoint>, invoice: QuotedInvoice)
    requires invoice.msat != 0
    ensures AssetRate(invoice.amount, invoice.msat).Success?
            && hint == Some(AssetRate(invoice.amount, invoice.msat).value) <==>
              hint.Some? && Prices(hint.value, invoice.amount, invoice.msat)
  {
    if hint.Some? {
      PricesExactly(hint.value, invoice.amount, invoice.msat);
    }
  }

  lemma InvoiceExactly(r: Request, invoice: QuotedInvoice, hint: Option<FixedPoint>)
    ensures InvoiceFault(r, invoice, hint).None? <==>
              && invoice.msat != 0 && invoice.invoiceExpiry <= r.expiry <= invoice.quoteExpiry
              && r.oracleMetadata == invoice.context
              && hint.Some? && Prices(hint.value, invoice.amount, invoice.msat)
  {
    NothingExactly(invoice.amount, invoice.msat);
    if invoice.msat != 0 {
      HintExactly(hint, invoice);
    }
  }

  lemma TimeExactly(r: Request, now: u64)
    ensures TimeFault(r, now).None? <==> WellShaped(r) && now < r.expiry
  {
    ShapeExactly(r);
  }

  /** Of all requests, the sell check passes exactly those that are well shaped, in time, and sell for the
      invoice. */
  lemma SellExactly(r: Request, peer: Text, invoice: QuotedInvoice, now: u64)
    ensures SellFault(r, peer, invoice, now).None? <==>
              WellShaped(r) && InTime(r, peer, invoice, now) && Sells(r, invoice)
  {
    TimeExactly(r, now);
    InvoiceExactly(r, invoice, r.outRateHint);
  }

  /** Of all requests, the buy check passes exactly those that are well shaped, in time, and buy for an
      invoice of some millisatoshi. */
  lemma BuyExactly(r: Request, peer: Text, invoice: QuotedInvoice, now: u64)
    ensures BuyFault(r, peer, invoice, now).None? <==>
              invoice.msat != 0 && WellShaped(r) && InTime(r, peer, invoice, now) && Buys(r, invoice)
  {
    TimeExactly(r, now);
    InvoiceExactly(r, invoice, r.inRateHint);
  }

  /** The requests the builders make from an invoice: both of them allow and demand exactly the invoice's amount
      on its side, at exactly its rate, until invoice or quote expires, filled or killed. */
  lemma {:induction false} BuiltTerms(invoice: QuotedInvoice, id: Bytes32)
    requires AssetRate(invoice.amount, invoice.msat).Success?
    ensures var r := SellRequest(invoice, id).value;
            && r.id == id && Sells(r, invoice) && r.minOutAsset == Some(r.maxInAsset) && r.rateLimit == r.outRateHint
            && r.policy == Some(FillOrKill) && r.oracleMetadata == invoice.context
            && (r.expiry == invoice.invoiceExpiry || r.expiry == invoice.quoteExpiry)
            && r.expiry <= invoice.invoiceExpiry && r.expiry <= invoice.quoteExpiry
    ensures var r := BuyRequest(invoice, id).value;
            && r.id == id && Buys(r, invoice) && r.minInAsset == Some(r.maxInAsset) && r.rateLimit == r.inRateHint
            && r.policy == Some(FillOrKill) && r.oracleMetadata == invoice.context
            && (r.expiry == invoice.invoiceExpiry || r.expiry == invoice.quoteExpiry)
            && r.expiry <= invoice.invoiceExpiry && r.expiry <= invoice.quoteExpiry
  {
    AssetRateForm(invoice.amount, invoice.msat);
    PricesExactly(AssetRate(invoice.amount, invoice.msat).value, invoice.amount, invoice.msat);
  }

  function Pow10(n: nat): nat {
    if n == 0 then 1 else 10 * Pow10(n - 1)
  }

  /** The accepts built from an invoice: BTC at a hundred billion millisatoshi, the asset at the invoice's rate, up
      to its amount on the incoming side, until the quote expires. */
  lemma {:induction false} BuiltRates(invoice: QuotedInvoice, id: Bytes32)
    requires AssetRate(invoice.amount, invoice.msat).Success?
    ensures Coefficient(MsatPerBtc()) * Pow10(MsatPerBtc().scale) == 100_000_000_000
    ensures var a := SellAccept(invoice, id).value;
            && a.id == id && a.inRate == MsatPerBtc() && Prices(a.outRate, invoice.amount, invoice.msat)
            && a.maxInAsset == Some(invoice.msat) && a.expiry == invoice.quoteExpiry
    ensures var a := BuyAccept(invoice, id).value;
            && a.id == id && a.outRate == MsatPerBtc() && Prices(a.inRate, invoice.amount, invoice.msat)
            && a.maxInAsset == Some(invoice.amount) && a.expiry == invoice.quoteExpiry
  {
    FromU64Denotes(100, 9);
    assert Pow10(9) == 10 * Pow10(8) && Pow10(8) == 10 * Pow10(7) && Pow10(7) == 10 * Pow10(6);
    assert Pow10(6) == 1_000_000;
    AssetRateForm(invoice.amount, invoice.msat);
    PricesExactly(AssetRate(invoice.amount, invoice.msat).value, invoice.amount, invoice.msat);
  }

  /** The request agrees with the one the builder makes, in everything the check asks about. */
  predicate Agrees(r: Request, built: Request) {
    && r.transfer == built.transfer && r.inAssetId == built.inAssetId && r.outAssetId == built.outAssetId
    && r.maxInAsset == built.maxInAsset && r.oracleMetadata == built.oracleMetadata
    && (built.inRateHint.Some? ==> r.inRateHint == built.inRateHint)
    && (built.outRateHint.Some? ==> r.outRateHint == built.outRateHint)
    && (r.minInAsset.Some? && built.minInAsset.Some? ==> r.minInAsset.value <= built.minInAsset.value)
    && (r.minOutAsset.Some? && built.minOutAsset.Some? ==> r.minOutAsset.value <= built.minOutAsset.value)
  }

  /** The same told through the builders: a request passes exactly when it is well shaped and in time and
      agrees with the request built from the invoice under its id. */
  lemma {:induction false} PassesLikeBuilt(r: Request, peer: Text, invoice: QuotedInvoice, now: u64)
    ensures SellFault(r, peer, invoice, now).None? <==>
              && WellShaped(r) && InTime(r, peer, invoice, now)
              && SellRequest(invoice, r.id).Success? && Agrees(r, SellRequest(invoice, r.id).value)
    ensures BuyFault(r, peer, invoice, now).None? <==>
              && WellShaped(r) && InTime(r, peer, invoice, now)
              && BuyRequest(invoice, r.id).Success? && Agrees(r, BuyRequest(invoice, r.id).value)
  {
    SellExactly(r, peer, invoice, now);
    BuyExactly(r, peer, invoice, now);
    NothingExactly(invoice.amount, invoice.msat);
    if invoice.msat != 0 {
      HintExactly(r.inRateHint, invoice);
      HintExactly(r.outRateHint, invoice);
    }
  }

  /** The request is in time and comes from the invoice's peer. */
  predicate Addressed(r: Request, peer: Text, invoice: QuotedInvoice, now: u64) {
    now < r.expiry && peer == invoice.peer
  }

  /** What a sell request in shape is refused for: the first of these that is wrong with it. */
  lemma SellRefusal(r: Request, peer: Text, invoice: QuotedInvoice, now: u64)
    requires WellShaped(r)
    ensures var fault := SellFault(r, peer, invoice, now);
            var assets := r.inAssetId == Some(ZERO32) && r.outAssetId == Some(invoice.assetId);
            var amounts := r.maxInAsset == invoice.msat && (r.minOutAsset.Some? ==> r.minOutAsset.value <= invoice.msat);
            && (fault == Some(ExpiredRequest) <==> r.expiry <= now)
            && (fault == Some(PeerMismatch) <==> now < r.expiry && peer != invoice.peer)
            && (fault == Some(UnexpectedTransferType) <==> Addressed(r, peer, invoice, now) && r.transfer != PayInvoice)
            && (fault == Some(RfqAssetMismatch) <==>
                  Addressed(r, peer, invoice, now) && r.transfer == PayInvoice && !assets)
            && (fault == Some(BtcAmountMismatch) <==>
                  Addressed(r, peer, invoice, now) && r.transfer == PayInvoice && assets && !amounts)
  {
    TimeExactly(r, now);
    ShapeExactly(r);
    RateErrors(invoice.amount, invoice.msat);
  }

  /** The same of a buy request; a wrong rate is reported like a wrong amount. */
  lemma BuyRefusal(r: Request, peer: Text, invoice: QuotedInvoice, now: u64)
    requires WellShaped(r)
    ensures var fault := BuyFault(r, peer, invoice, now);
            var assets := r.inAssetId == Some(invoice.assetId) && r.outAssetId == Some(ZERO32);
            var amounts := r.maxInAsset == invoice.amount && (r.minInAsset.Some? ==> r.minInAsset.value <= invoice.amount);
            && (fault == Some(ExpiredRequest) <==> r.expiry <= now)
            && (fault == Some(PeerMismatch) <==> now < r.expiry && peer != invoice.peer)
            && (fault == Some(UnexpectedTransferType) <==> Addressed(r, peer, invoice, now) && r.transfer != ReceivePayment)
            && (fault == Some(RfqAssetMismatch) <==>
                  Addressed(r, peer, invoice, now) && r.transfer == ReceivePayment && !assets)
            && (Addressed(r, peer, invoice, now) && r.transfer == ReceivePayment && assets && !amounts ==>
                  fault == Some(AssetAmountMismatch))
  {
    TimeExactly(r, now);
    ShapeExactly(r);
    RateErrors(invoice.amount, invoice.msat);
  }

  lemma RateErrors(amount: u64, msat: u64)
    ensures var rate := AssetRate(amount, msat);
            rate.Failure? ==> rate.error.RateOverflow? || rate.error.RateOfNothing? || rate.error.RateNotIntegral?
  {
  }

  // ----- accepts -----

  /** Version 1, a signature of 64 bytes, and two rates above zero. */
  predicate AcceptShaped(a: Accept) {
    a.version == 1 && |a.signature| == 64 && IsRate(a.inRate) && IsRate(a.outRate)
  }

  lemma AcceptShapeExactly(a: Accept)
    ensures AcceptFault(a).None? <==> AcceptShaped(a)
  {
    ZeroDenotes(a.inRate.coefficient);
    ZeroDenotes(a.outRate.coefficient);
  }

  lemma {:induction false} AcceptPrintedExactly(a: Accept)
    ensures EncodeAccept(a).Success? <==> AcceptShaped(a)
    ensures AcceptShaped(a) ==> DecodeAccept(EncodeAccept(a).value) == Success(Normal(a))
  {
    AcceptShapeExactly(a);
    if AcceptFault(a).None? {
      AcceptRoundTrip(a);
    }
  }

  /** Of all accepts, those pass for a request that are well shaped, under its id, still in time, expire no
      later than it, and bring in no more than it allows. */
  lemma AcceptForExactly(a: Accept, r: Request, now: u64)
    ensures AcceptForFault(a, r, now).None? <==>
              && AcceptShaped(a) && a.id == r.id && now < a.expiry <= r.expiry
              && (a.maxInAsset.Some? ==> a.maxInAsset.value <= r.maxInAsset)
  {
    AcceptShapeExactly(a);
  }

  /** What an accept in shape is refused for. */
  lemma AcceptRefusal(a: Accept, r: Request, now: u64)
    requires AcceptShaped(a)
    ensures var fault := AcceptForFault(a, r, now);
            && (a.expiry <= now <==> fault == Some(ExpiredAccept))
            && (now < a.expiry && a.id != r.id <==> fault == Some(RfqIdMismatch))
            && (now < a.expiry && a.id == r.id && a.expiry > r.expiry <==> fault == Some(AcceptExpiryOutlivesRequest))
            && (now < a.expiry <= r.expiry && a.id == r.id && a.maxInAsset.Some? && a.maxInAsset.value > r.maxInAsset <==>
                  fault == Some(BtcAmountMismatch))
  {
    AcceptShapeExactly(a);
  }
}
