/** RFQ requests and accepts: their wire form, their validation, and the exact rate arithmetic. */
module Rfq {
  import opened ByteBits
  import opened Primitives
  import opened Text
  import opened Tlv
  import opened TlvFields

  const WIRE_VERSION: byte := 1
  const MAX_METADATA: nat := 32768
  const MSAT_PER_BTC: nat := 100_000_000_000
  const U128_LIMIT: int := 0x1_0000_0000_0000_0000_0000_0000_0000_0000

  datatype RfqError =
    | RfqTlv(tlv: TlvError)
    | MissingField(typeId: u64)
    | InvalidLength(expected: nat, actual: nat)
    | FixedPointEmpty
    | FixedPointTooWide(actual: nat)
    | ZeroFixedPoint
    | RateNotIntegral
    | RateOverflow
    | RateOfNothing
    | UnsupportedWireVersion(version: byte)
    | UnknownTransferType(value: byte)
    | UnknownExecutionPolicy(value: byte)
    | ZeroMaxInAsset
    | MissingAssetSpecifier
    | AmbiguousAssetSpecifier
    | InvalidGroupKeyPrefix(prefix: byte)
    | ExpectedExactlyOneBtcSide
    | OracleMetadataTooLarge(actual: nat)
    | ExpiredRequest
    | ExpiredAccept
    | PeerMismatch
    | UnexpectedTransferType
    | RfqAssetMismatch
    | BtcAmountMismatch
    | AssetAmountMismatch
    | InvoiceExpiryOutlivesQuote
    | InvoiceContextMismatch
    | RfqIdMismatch
    | AcceptExpiryOutlivesRequest

  // ----- fixed-point numbers -----

  /** A scale and the big-endian bytes of a coefficient. */
  datatype FixedPoint = FixedPoint(scale: byte, coefficient: Bytes)

  /** Without leading zero bytes. */
  function Strip(b: Bytes): (s: Bytes)
    ensures |s| <= |b|
  {
    if b == [] || b[0] != 0 then b else Strip(b[1..])
  }

  function FromU64(coefficient: u64, scale: byte): FixedPoint {
    FixedPoint(scale, Strip(U64Be(coefficient)))
  }

  predicate AllZero(b: Bytes) {
    forall i | 0 <= i < |b| :: b[i] == 0
  }

  predicate IsZero(x: FixedPoint) {
    AllZero(x.coefficient)
  }

  function FixedFault(x: FixedPoint): Option<RfqError> {
    if |x.coefficient| > 16 then Some(FixedPointTooWide(|x.coefficient|)) else None
  }

  function FixedBytes(x: FixedPoint): Bytes {
    [x.scale] + x.coefficient
  }

  function DecodeFixed(b: Bytes): Result<FixedPoint, RfqError> {
    if b == [] then Failure(FixedPointEmpty)
    else
      var x := FixedPoint(b[0], b[1..]);
      if FixedFault(x).Some? then Failure(FixedFault(x).value) else Success(x)
  }

  /** The number the coefficient bytes denote. */
  function Coefficient(x: FixedPoint): nat {
    FromBe(x.coefficient)
  }

  lemma {:induction false} LeadingZero(b: Bytes)
    ensures FromBe([0] + b) == FromBe(b)
  {
    var z := [0] + b;
    if b == [] {
      assert z[..0] == [];
    } else {
      assert z[..|z| - 1] == [0] + b[..|b| - 1];
      LeadingZero(b[..|b| - 1]);
    }
  }

  lemma {:induction false} StripDenotes(b: Bytes)
    ensures FromBe(Strip(b)) == FromBe(b)
  {
    if b != [] && b[0] == 0 {
      LeadingZero(b[1..]);
      assert b == [0] + b[1..];
      StripDenotes(b[1..]);
    }
  }

  /** A coefficient is all zeros exactly when it denotes zero. */
  lemma {:induction false} ZeroDenotes(b: Bytes)
    ensures AllZero(b) <==> FromBe(b) == 0
  {
    if b != [] {
      var front, last := b[..|b| - 1], b[|b| - 1];
      ZeroDenotes(front);
      assert AllZero(b) <==> AllZero(front) && last == 0 by {
        assert forall i | 0 <= i < |front| :: front[i] == b[i];
      }
    }
  }

  lemma FromU64Denotes(v: u64, scale: byte)
    ensures Coefficient(FromU64(v, scale)) == v && (IsZero(FromU64(v, scale)) <==> v == 0)
    ensures FixedFault(FromU64(v, scale)).None?
  {
    Pow256Eight();
    FromToBe(v, 8);
    StripDenotes(U64Be(v));
    ZeroDenotes(Strip(U64Be(v)));
  }

  // ----- the rate -----

  /** Asset units per BTC, if that is a 64-bit number above zero. A rate for nothing is a division by
      zero, which aborts. */
  function AssetRate(amount: u64, msat: u64): Result<FixedPoint, RfqError> {
    var numerator := amount * MSAT_PER_BTC;
    if numerator >= U128_LIMIT then Failure(RateOverflow)
    else if msat == 0 then Failure(RateOfNothing)
    else if numerator / msat == 0 || numerator % msat != 0 then Failure(RateNotIntegral)
    else if numerator / msat >= U64_LIMIT then Failure(RateOverflow)
    else Success(FromU64(numerator / msat, 0))
  }

  lemma ProductFits(amount: u64)
    ensures amount * MSAT_PER_BTC < U128_LIMIT
  {
  }

  lemma TimesMonotone(a: nat, b: nat, d: nat)
    requires a <= b
    ensures a * d <= b * d
  {
  }

  /** Exact division. */
  lemma DivideExact(n: nat, d: nat, r: nat)
    requires d > 0
    ensures n / d == r && n % d == 0 <==> r * d == n
  {
    var q, m := n / d, n % d;
    assert n == q * d + m && m < d;
    assert (q + 1) * d == q * d + d && (r + 1) * d == r * d + d;
    if q < r {
      TimesMonotone(q + 1, r, d);
    } else if r < q {
      TimesMonotone(r + 1, q, d);
    }
  }

  /** The rate in terms of the quotient of the numerator. */
  lemma RateQuotient(amount: u64, msat: u64)
    requires msat != 0
    ensures var n := amount * MSAT_PER_BTC;
            && (AssetRate(amount, msat).Success? <==> 0 < n / msat < U64_LIMIT && n % msat == 0)
            && (AssetRate(amount, msat).Success? ==> Coefficient(AssetRate(amount, msat).value) == n / msat)
  {
    ProductFits(amount);
    var n := amount * MSAT_PER_BTC;
    if AssetRate(amount, msat).Success? {
      FromU64Denotes(n / msat, 0);
    }
  }

  /** The rate is returned exactly when some whole 64-bit number r above zero satisfies
      r * msat == amount * 10^11, and then its bytes denote that r. */
  lemma RateExact(amount: u64, msat: u64, r: u64)
    requires msat != 0
    ensures AssetRate(amount, msat).Success? && Coefficient(AssetRate(amount, msat).value) == r <==>
              r != 0 && r * msat == amount * MSAT_PER_BTC
  {
    RateQuotient(amount, msat);
    DivideExact(amount * MSAT_PER_BTC, msat, r);
  }

  lemma RateWellFormed(amount: u64, msat: u64)
    requires AssetRate(amount, msat).Success?
    ensures var x := AssetRate(amount, msat).value;
            msat != 0 && amount != 0 && FixedFault(x).None? && !IsZero(x)
  {
    FromU64Denotes(amount * MSAT_PER_BTC / msat, 0);
  }

  // ----- requests -----

  datatype TransferType = PayInvoice | ReceivePayment
  datatype ExecutionPolicy = ImmediateOrCancel | FillOrKill

  datatype Request = Request(
    version: byte,
    id: Bytes32,
    transfer: TransferType,
    expiry: u64,
    inAssetId: Option<Bytes32>,
    inGroupKey: Option<Bytes>,
    outAssetId: Option<Bytes32>,
    outGroupKey: Option<Bytes>,
    maxInAsset: u64,
    inRateHint: Option<FixedPoint>,
    outRateHint: Option<FixedPoint>,
    minInAsset: Option<u64>,
    minOutAsset: Option<u64>,
    oracleMetadata: Bytes,
    rateLimit: Option<FixedPoint>,
    policy: Option<ExecutionPolicy>)

  function SpecifierFault(assetId: Option<Bytes32>, groupKey: Option<Bytes>): Option<RfqError> {
    if assetId.None? && groupKey.None? then Some(MissingAssetSpecifier)
    else if assetId.Some? && groupKey.Some? then Some(AmbiguousAssetSpecifier)
    else if groupKey.Some? && |groupKey.value| != 33 then Some(InvalidLength(33, |groupKey.value|))
    else if groupKey.Some? && groupKey.value[0] != 2 && groupKey.value[0] != 3 then
      Some(InvalidGroupKeyPrefix(groupKey.value[0]))
    else None
  }

  function RateFault(x: Option<FixedPoint>): Option<RfqError> {
    if x.None? then None
    else if FixedFault(x.value).Some? then FixedFault(x.value)
    else if IsZero(x.value) then Some(ZeroFixedPoint)
    else None
  }

  function ShapeFault(r: Request): Option<RfqError> {
    var inIsBtc, outIsBtc := r.inAssetId == Some(ZERO32), r.outAssetId == Some(ZERO32);
    if r.version != WIRE_VERSION then Some(UnsupportedWireVersion(r.version))
    else if r.maxInAsset == 0 then Some(ZeroMaxInAsset)
    else if SpecifierFault(r.inAssetId, r.inGroupKey).Some? then SpecifierFault(r.inAssetId, r.inGroupKey)
    else if SpecifierFault(r.outAssetId, r.outGroupKey).Some? then SpecifierFault(r.outAssetId, r.outGroupKey)
    else if inIsBtc == outIsBtc then Some(ExpectedExactlyOneBtcSide)
    else if |r.oracleMetadata| > MAX_METADATA then Some(OracleMetadataTooLarge(|r.oracleMetadata|))
    else if RateFault(r.inRateHint).Some? then RateFault(r.inRateHint)
    else if RateFault(r.outRateHint).Some? then RateFault(r.outRateHint)
    else RateFault(r.rateLimit)
  }

  function MapFixed(x: Option<FixedPoint>): Option<Bytes> {
    if x.Some? then Some(FixedBytes(x.value)) else None
  }

  function MapU64(x: Option<u64>): Option<Bytes> {
    if x.Some? then Some(U64Be(x.value)) else None
  }

  function MapPolicy(x: Option<ExecutionPolicy>): Option<Bytes> {
    if x.Some? then Some([if x.value.ImmediateOrCancel? then 0 else 1]) else None
  }

  function TransferByte(t: TransferType): byte {
    if t.PayInvoice? then 1 else 2
  }

  /** The types of a request's records, in the order the records are pushed. */
  function RequestTypes(): (ts: seq<u64>)
    ensures |ts| == 16
  {
    [0, 2, 4, 6, 16, 9, 11, 13, 15, 19, 21, 23, 25, 27, 29, 31]
  }

  function RequestValues(r: Request): (vs: seq<Option<Bytes>>)
    ensures |vs| == 16
  {
    [Some([r.version]), Some(r.id), Some([TransferByte(r.transfer)]), Some(U64Be(r.expiry)), Some(U64Be(r.maxInAsset)),
     r.inAssetId, r.inGroupKey, r.outAssetId, r.outGroupKey,
     MapFixed(r.inRateHint), MapFixed(r.outRateHint), MapU64(r.minInAsset), MapU64(r.minOutAsset),
     if r.oracleMetadata == [] then None else Some(r.oracleMetadata),
     MapFixed(r.rateLimit), MapPolicy(r.policy)]
  }

  lemma RequestShort(r: Request)
    requires ShapeFault(r).None?
    ensures forall v <- RequestValues(r) :: Short(v)
  {
    assert Short(Some(r.oracleMetadata));
    assert Short(r.inGroupKey) && Short(r.outGroupKey);
    assert Short(MapFixed(r.inRateHint)) && Short(MapFixed(r.outRateHint)) && Short(MapFixed(r.rateLimit));
    var vs := RequestValues(r);
    forall i | 0 <= i < 16
      ensures Short(vs[i])
    {
    }
  }

  function EncodeRequest(r: Request): Result<Bytes, RfqError> {
    if ShapeFault(r).Some? then Failure(ShapeFault(r).value)
    else
      RequestShort(r);
      ShortFields(RequestTypes(), RequestValues(r));
      var encoded := EncodeFields(Fields(RequestTypes(), RequestValues(r)));
      if encoded.Failure? then Failure(RfqTlv(encoded.error)) else Success(encoded.value)
  }

  // ----- reading fields -----

  function Required(m: map<u64, Bytes>, t: u64): Result<Bytes, RfqError> {
    if t in m then Success(m[t]) else Failure(MissingField(t))
  }

  function ParseU8(b: Bytes): Result<byte, RfqError> {
    if |b| == 1 then Success(b[0]) else Failure(InvalidLength(1, |b|))
  }

  function ParseU64(b: Bytes): Result<u64, RfqError> {
    if |b| == 8 then
      FromBeBound(b);
      Pow256Eight();
      Success(FromBe(b))
    else Failure(InvalidLength(8, |b|))
  }

  function Parse32(b: Bytes): Result<Bytes32, RfqError> {
    if |b| == 32 then Success(b) else Failure(InvalidLength(32, |b|))
  }

  function ParseTransfer(b: byte): Result<TransferType, RfqError> {
    if b == 1 then Success(PayInvoice) else if b == 2 then Success(ReceivePayment) else Failure(UnknownTransferType(b))
  }

  function ParsePolicy(b: byte): Result<ExecutionPolicy, RfqError> {
    if b == 0 then Success(ImmediateOrCancel)
    else if b == 1 then Success(FillOrKill)
    else Failure(UnknownExecutionPolicy(b))
  }

  function Optional32(b: Option<Bytes>): Result<Option<Bytes32>, RfqError> {
    if b.None? then Success(None)
    else
      var x :- Parse32(b.value);
      Success(Some(x))
  }

  function OptionalKey(b: Option<Bytes>): Result<Option<Bytes>, RfqError> {
    if b.Some? && |b.value| != 33 then Failure(InvalidLength(33, |b.value|)) else Success(b)
  }

  function OptionalU64(b: Option<Bytes>): Result<Option<u64>, RfqError> {
    if b.None? then Success(None)
    else
      var x :- ParseU64(b.value);
      Success(Some(x))
  }

  function OptionalFixed(b: Option<Bytes>): Result<Option<FixedPoint>, RfqError> {
    if b.None? then Success(None)
    else
      var x :- DecodeFixed(b.value);
      Success(Some(x))
  }

  function OptionalPolicy(b: Option<Bytes>): Result<Option<ExecutionPolicy>, RfqError> {
    if b.None? then Success(None)
    else
      var x :- ParseU8(b.value);
      var p :- ParsePolicy(x);
      Success(Some(p))
  }

  /** The mandatory fields at the front of a request. */
  datatype Head = Head(version: byte, id: Bytes32, transfer: TransferType, expiry: u64)

  /** The two sides of a request and the most it may bring in. */
  datatype Sides = Sides(
    inAssetId: Option<Bytes32>,
    inGroupKey: Option<Bytes>,
    outAssetId: Option<Bytes32>,
    outGroupKey: Option<Bytes>,
    maxInAsset: u64)

  /** The remaining, optional fields. */
  datatype Terms = Terms(
    inRateHint: Option<FixedPoint>,
    outRateHint: Option<FixedPoint>,
    minInAsset: Option<u64>,
    minOutAsset: Option<u64>,
    oracleMetadata: Bytes,
    rateLimit: Option<FixedPoint>,
    policy: Option<ExecutionPolicy>)

  function HeadFrom(m: map<u64, Bytes>): Result<Head, RfqError> {
    var versionBytes :- Required(m, 0);
    var version :- ParseU8(versionBytes);
    var idBytes :- Required(m, 2);
    var id :- Parse32(idBytes);
    var transferBytes :- Required(m, 4);
    var transferByte :- ParseU8(transferBytes);
    var transfer :- ParseTransfer(transferByte);
    var expiryBytes :- Required(m, 6);
    var expiry :- ParseU64(expiryBytes);
    Success(Head(version, id, transfer, expiry))
  }

  function SidesFrom(m: map<u64, Bytes>): Result<Sides, RfqError> {
    var inAssetId :- Optional32(Get(m, 9));
    var inGroupKey :- OptionalKey(Get(m, 11));
    var outAssetId :- Optional32(Get(m, 13));
    var outGroupKey :- OptionalKey(Get(m, 15));
    var maxBytes :- Required(m, 16);
    var maxInAsset :- ParseU64(maxBytes);
    Success(Sides(inAssetId, inGroupKey, outAssetId, outGroupKey, maxInAsset))
  }

  function TermsFrom(m: map<u64, Bytes>): Result<Terms, RfqError> {
    var inRateHint :- OptionalFixed(Get(m, 19));
    var outRateHint :- OptionalFixed(Get(m, 21));
    var minInAsset :- OptionalU64(Get(m, 23));
    var minOutAsset :- OptionalU64(Get(m, 25));
    var rateLimit :- OptionalFixed(Get(m, 29));
    var policy :- OptionalPolicy(Get(m, 31));
    Success(Terms(inRateHint, outRateHint, minInAsset, minOutAsset, if 27 in m then m[27] else [], rateLimit, policy))
  }

  function RequestFrom(m: map<u64, Bytes>): Result<Request, RfqError> {
    var h :- HeadFrom(m);
    var s :- SidesFrom(m);
    var t :- TermsFrom(m);
    Success(Request(h.version, h.id, h.transfer, h.expiry, s.inAssetId, s.inGroupKey, s.outAssetId, s.outGroupKey,
                    s.maxInAsset, t.inRateHint, t.outRateHint, t.minInAsset, t.minOutAsset, t.oracleMetadata,
                    t.rateLimit, t.policy))
  }

  /** The known types are those of the records a request is printed with. */
  function RecordsOf(b: Bytes, known: seq<u64>): Result<map<u64, Bytes>, RfqError> {
    var rs := DecodeStream(b);
    if rs.Failure? then Failure(RfqTlv(rs.error))
    else if UnknownRequired(rs.value, known).Some? then Failure(RfqTlv(UnknownRequired(rs.value, known).value))
    else Success(ByType(rs.value))
  }

  function DecodeRequest(b: Bytes): Result<Request, RfqError> {
    var m :- RecordsOf(b, RequestTypes());
    var r :- RequestFrom(m);
    if ShapeFault(r).Some? then Failure(ShapeFault(r).value) else Success(r)
  }

  // ----- the round trip -----

  lemma RequestTypesDistinct()
    ensures forall i, j | 0 <= i < j < 16 :: RequestTypes()[i] != RequestTypes()[j]
  {
  }

  lemma FixedReadsBack(x: Option<FixedPoint>)
    requires RateFault(x).None?
    ensures OptionalFixed(MapFixed(x)) == Success(x)
  {
    if x.Some? {
      assert FixedBytes(x.value)[1..] == x.value.coefficient;
    }
  }

  lemma U64ReadsBack(v: u64)
    ensures ParseU64(U64Be(v)) == Success(v)
  {
    Pow256Eight();
    FromToBe(v, 8);
  }

  lemma OptionalU64ReadsBack(x: Option<u64>)
    ensures OptionalU64(MapU64(x)) == Success(x)
  {
    if x.Some? {
      U64ReadsBack(x.value);
    }
  }

  /** The map holds a request's values under their types. */
  predicate Holds(m: map<u64, Bytes>, r: Request) {
    && Get(m, 0) == Some([r.version]) && Get(m, 2) == Some(r.id) && Get(m, 4) == Some([TransferByte(r.transfer)])
    && Get(m, 6) == Some(U64Be(r.expiry)) && Get(m, 16) == Some(U64Be(r.maxInAsset))
    && Get(m, 9) == r.inAssetId && Get(m, 11) == r.inGroupKey && Get(m, 13) == r.outAssetId
    && Get(m, 15) == r.outGroupKey && Get(m, 19) == MapFixed(r.inRateHint) && Get(m, 21) == MapFixed(r.outRateHint)
    && Get(m, 23) == MapU64(r.minInAsset) && Get(m, 25) == MapU64(r.minOutAsset)
    && Get(m, 27) == (if r.oracleMetadata == [] then None else Some(r.oracleMetadata))
    && Get(m, 29) == MapFixed(r.rateLimit) && Get(m, 31) == MapPolicy(r.policy)
  }

  lemma HoldsAll(m: map<u64, Bytes>, r: Request)
    requires forall i | 0 <= i < 16 :: Get(m, RequestTypes()[i]) == RequestValues(r)[i]
    ensures Holds(m, r)
  {
    var ts, vs := RequestTypes(), RequestValues(r);
    assert Get(m, ts[0]) == vs[0] && Get(m, ts[1]) == vs[1] && Get(m, ts[2]) == vs[2] && Get(m, ts[3]) == vs[3];
    assert Get(m, ts[4]) == vs[4] && Get(m, ts[5]) == vs[5] && Get(m, ts[6]) == vs[6] && Get(m, ts[7]) == vs[7];
    assert Get(m, ts[8]) == vs[8] && Get(m, ts[9]) == vs[9] && Get(m, ts[10]) == vs[10] && Get(m, ts[11]) == vs[11];
    assert Get(m, ts[12]) == vs[12] && Get(m, ts[13]) == vs[13] && Get(m, ts[14]) == vs[14] && Get(m, ts[15]) == vs[15];
  }

  lemma HeadReadsBack(m: map<u64, Bytes>, r: Request)
    requires Holds(m, r)
    ensures HeadFrom(m) == Success(Head(r.version, r.id, r.transfer, r.expiry))
  {
    U64ReadsBack(r.expiry);
    assert m[0] == [r.version] && m[4] == [TransferByte(r.transfer)];
  }

  lemma SidesReadBack(m: map<u64, Bytes>, r: Request)
    requires Holds(m, r) && ShapeFault(r).None?
    ensures SidesFrom(m) == Success(Sides(r.inAssetId, r.inGroupKey, r.outAssetId, r.outGroupKey, r.maxInAsset))
  {
    U64ReadsBack(r.maxInAsset);
  }

  lemma TermsReadBack(m: map<u64, Bytes>, r: Request)
    requires Holds(m, r) && ShapeFault(r).None?
    ensures TermsFrom(m) == Success(Terms(r.inRateHint, r.outRateHint, r.minInAsset, r.minOutAsset, r.oracleMetadata,
                                          r.rateLimit, r.policy))
  {
    FixedReadsBack(r.inRateHint);
    FixedReadsBack(r.outRateHint);
    FixedReadsBack(r.rateLimit);
    OptionalU64ReadsBack(r.minInAsset);
    OptionalU64ReadsBack(r.minOutAsset);
    assert OptionalPolicy(MapPolicy(r.policy)) == Success(r.policy);
  }

  lemma RequestReadsBack(m: map<u64, Bytes>, r: Request)
    requires Holds(m, r) && ShapeFault(r).None?
    ensures RequestFrom(m) == Success(r)
  {
    HeadReadsBack(m, r);
    SidesReadBack(m, r);
    TermsReadBack(m, r);
  }

  lemma {:induction false} EncodedRequestHolds(r: Request)
    requires ShapeFault(r).None?
    ensures EncodeRequest(r).Success?
    ensures var m := RecordsOf(EncodeRequest(r).value, RequestTypes()); m.Success? && Holds(m.value, r)
  {
    RequestShort(r);
    RequestTypesDistinct();
    FieldsDecode(RequestTypes(), RequestValues(r));
    HoldsAll(RecordsOf(EncodeRequest(r).value, RequestTypes()).value, r);
  }

  lemma {:induction false} RequestDecodes(b: Bytes, m: map<u64, Bytes>, r: Request)
    requires ShapeFault(r).None? && Holds(m, r) && RecordsOf(b, RequestTypes()) == Success(m)
    ensures DecodeRequest(b) == Success(r)
  {
    RequestReadsBack(m, r);
  }

  /** Every request of valid shape, with any combination of its optional fields, is encoded, and decodes
      to itself. */
  lemma {:induction false} RequestRoundTrip(r: Request)
    requires ShapeFault(r).None?
    ensures EncodeRequest(r).Success? && DecodeRequest(EncodeRequest(r).value) == Success(r)
  {
    EncodedRequestHolds(r);
    var b := EncodeRequest(r).value;
    RequestDecodes(b, RecordsOf(b, RequestTypes()).value, r);
  }

  /** What decodes has a valid shape, so it survives another encoding and decoding. */
  lemma DecodedRequestStable(b: Bytes)
    requires DecodeRequest(b).Success?
    ensures var r := DecodeRequest(b).value;
            && ShapeFault(r).None? && EncodeRequest(r).Success?
            && DecodeRequest(EncodeRequest(r).value) == Success(r)
  {
    RequestRoundTrip(DecodeRequest(b).value);
  }

  // ----- accepts -----

  datatype Accept = Accept(
    version: byte,
    id: Bytes32,
    expiry: u64,
    signature: Bytes,
    inRate: FixedPoint,
    outRate: FixedPoint,
    maxInAsset: Option<u64>)

  function AcceptFault(a: Accept): Option<RfqError> {
    if a.version != WIRE_VERSION then Some(UnsupportedWireVersion(a.version))
    else if |a.signature| != 64 then Some(InvalidLength(64, |a.signature|))
    else if FixedFault(a.inRate).Some? then FixedFault(a.inRate)
    else if FixedFault(a.outRate).Some? then FixedFault(a.outRate)
    else if IsZero(a.inRate) || IsZero(a.outRate) then Some(ZeroFixedPoint)
    else None
  }

  function AcceptTypes(): (ts: seq<u64>)
    ensures |ts| == 7
  {
    [0, 2, 4, 6, 8, 10, 11]
  }

  function AcceptValues(a: Accept): (vs: seq<Option<Bytes>>)
    ensures |vs| == 7
  {
    [Some([a.version]), Some(a.id), Some(U64Be(a.expiry)), Some(a.signature), Some(FixedBytes(a.inRate)),
     Some(FixedBytes(a.outRate)), MapU64(a.maxInAsset)]
  }

  lemma AcceptShort(a: Accept)
    requires AcceptFault(a).None?
    ensures forall v <- AcceptValues(a) :: Short(v)
  {
  }

  function EncodeAccept(a: Accept): Result<Bytes, RfqError> {
    if AcceptFault(a).Some? then Failure(AcceptFault(a).value)
    else
      AcceptShort(a);
      ShortFields(AcceptTypes(), AcceptValues(a));
      var encoded := EncodeFields(Fields(AcceptTypes(), AcceptValues(a)));
      if encoded.Failure? then Failure(RfqTlv(encoded.error)) else Success(encoded.value)
  }

  function AcceptFrom(m: map<u64, Bytes>): Result<Accept, RfqError> {
    var declared :- OptionalU64(Get(m, 11));
    var maxInAsset := if declared == Some(0) then None else declared;
    var versionBytes :- Required(m, 0);
    var version :- ParseU8(versionBytes);
    var idBytes :- Required(m, 2);
    var id :- Parse32(idBytes);
    var expiryBytes :- Required(m, 4);
    var expiry :- ParseU64(expiryBytes);
    var signature :- Required(m, 6);
    var inBytes :- Required(m, 8);
    var inRate :- DecodeFixed(inBytes);
    var outBytes :- Required(m, 10);
    var outRate :- DecodeFixed(outBytes);
    Success(Accept(version, id, expiry, signature, inRate, outRate, maxInAsset))
  }

  function DecodeAccept(b: Bytes): Result<Accept, RfqError> {
    var m :- RecordsOf(b, AcceptTypes());
    var a :- AcceptFrom(m);
    if AcceptFault(a).Some? then Failure(AcceptFault(a).value) else Success(a)
  }

  lemma AcceptTypesDistinct()
    ensures forall i, j | 0 <= i < j < 7 :: AcceptTypes()[i] != AcceptTypes()[j]
  {
  }

  predicate AcceptHolds(m: map<u64, Bytes>, a: Accept) {
    && Get(m, 0) == Some([a.version]) && Get(m, 2) == Some(a.id) && Get(m, 4) == Some(U64Be(a.expiry))
    && Get(m, 6) == Some(a.signature) && Get(m, 8) == Some(FixedBytes(a.inRate))
    && Get(m, 10) == Some(FixedBytes(a.outRate)) && Get(m, 11) == MapU64(a.maxInAsset)
  }

  lemma AcceptHoldsAll(m: map<u64, Bytes>, a: Accept)
    requires forall i | 0 <= i < 7 :: Get(m, AcceptTypes()[i]) == AcceptValues(a)[i]
    ensures AcceptHolds(m, a)
  {
    var ts, vs := AcceptTypes(), AcceptValues(a);
    assert Get(m, ts[0]) == vs[0] && Get(m, ts[1]) == vs[1] && Get(m, ts[2]) == vs[2] && Get(m, ts[3]) == vs[3];
    assert Get(m, ts[4]) == vs[4] && Get(m, ts[5]) == vs[5] && Get(m, ts[6]) == vs[6];
  }

  lemma {:induction false} EncodedAcceptHolds(a: Accept)
    requires AcceptFault(a).None?
    ensures EncodeAccept(a).Success?
    ensures var m := RecordsOf(EncodeAccept(a).value, AcceptTypes()); m.Success? && AcceptHolds(m.value, a)
  {
    AcceptShort(a);
    AcceptTypesDistinct();
    FieldsDecode(AcceptTypes(), AcceptValues(a));
    AcceptHoldsAll(RecordsOf(EncodeAccept(a).value, AcceptTypes()).value, a);
  }

  lemma AcceptReadsBack(m: map<u64, Bytes>, a: Accept)
    requires AcceptFault(a).None? && AcceptHolds(m, a)
    ensures AcceptFrom(m) == Success(Normal(a))
  {
    U64ReadsBack(a.expiry);
    OptionalU64ReadsBack(a.maxInAsset);
    assert FixedBytes(a.inRate)[1..] == a.inRate.coefficient && FixedBytes(a.outRate)[1..] == a.outRate.coefficient;
  }

  /** What an accept comes back as: an explicit maximum of zero is read as none. */
  function Normal(a: Accept): Accept {
    a.(maxInAsset := if a.maxInAsset == Some(0) then None else a.maxInAsset)
  }

  lemma {:induction false} AcceptDecodes(b: Bytes, m: map<u64, Bytes>, a: Accept)
    requires AcceptFault(a).None? && AcceptHolds(m, a) && RecordsOf(b, AcceptTypes()) == Success(m)
    ensures DecodeAccept(b) == Success(Normal(a))
  {
    AcceptReadsBack(m, a);
  }

  /** Every accept of valid shape is encoded and decodes to itself, except that an explicit maximum of zero
      comes back as none: the round trip is exact if and only if the maximum is not an explicit zero. */
  lemma {:induction false} AcceptRoundTrip(a: Accept)
    requires AcceptFault(a).None?
    ensures EncodeAccept(a).Success? && DecodeAccept(EncodeAccept(a).value) == Success(Normal(a))
    ensures Normal(a) == a <==> a.maxInAsset != Some(0)
  {
    EncodedAcceptHolds(a);
    var b := EncodeAccept(a).value;
    AcceptDecodes(b, RecordsOf(b, AcceptTypes()).value, a);
  }

  /** An accept with an explicit maximum of zero comes back without a maximum. */
  lemma {:induction false} ZeroMaximumLost(id: Bytes32)
    ensures var a := Accept(WIRE_VERSION, id, 0, Zeroes(64), FromU64(1, 0), FromU64(1, 0), Some(0));
            && EncodeAccept(a).Success?
            && DecodeAccept(EncodeAccept(a).value) == Success(a.(maxInAsset := None))
  {
    FromU64Denotes(1, 0);
    AcceptRoundTrip(Accept(WIRE_VERSION, id, 0, Zeroes(64), FromU64(1, 0), FromU64(1, 0), Some(0)));
  }

  // ----- checking against an invoice -----

  datatype QuotedInvoice = QuotedInvoice(
    peer: Text,
    assetId: Bytes32,
    amount: u64,
    msat: u64,
    context: Bytes32,
    quoteExpiry: u64,
    invoiceExpiry: u64)

  function TimeFault(r: Request, now: u64): Option<RfqError> {
    if ShapeFault(r).Some? then ShapeFault(r)
    else if r.expiry <= now then Some(ExpiredRequest)
    else None
  }

  /** The part of the invoice check that does not depend on the direction. */
  function InvoiceFault(r: Request, invoice: QuotedInvoice, hint: Option<FixedPoint>): Option<RfqError> {
    if r.expiry > invoice.quoteExpiry || invoice.invoiceExpiry > r.expiry then Some(InvoiceExpiryOutlivesQuote)
    else if r.oracleMetadata != invoice.context then Some(InvoiceContextMismatch)
    else
      var rate := AssetRate(invoice.amount, invoice.msat);
      if rate.Failure? then Some(rate.error)
      else if hint != Some(rate.value) then Some(AssetAmountMismatch)
      else None
  }

  function SellFault(r: Request, peer: Text, invoice: QuotedInvoice, now: u64): Option<RfqError> {
    if TimeFault(r, now).Some? then TimeFault(r, now)
    else if peer != invoice.peer then Some(PeerMismatch)
    else if !r.transfer.PayInvoice? then Some(UnexpectedTransferType)
    else if r.inAssetId != Some(ZERO32) || r.outAssetId != Some(invoice.assetId) then Some(RfqAssetMismatch)
    else if r.maxInAsset != invoice.msat then Some(BtcAmountMismatch)
    else if r.minOutAsset.Some? && r.minOutAsset.value > invoice.msat then Some(BtcAmountMismatch)
    else InvoiceFault(r, invoice, r.outRateHint)
  }

  function BuyFault(r: Request, peer: Text, invoice: QuotedInvoice, now: u64): Option<RfqError> {
    if TimeFault(r, now).Some? then TimeFault(r, now)
    else if peer != invoice.peer then Some(PeerMismatch)
    else if !r.transfer.ReceivePayment? then Some(UnexpectedTransferType)
    else if r.inAssetId != Some(invoice.assetId) || r.outAssetId != Some(ZERO32) then Some(RfqAssetMismatch)
    else if r.maxInAsset != invoice.amount then Some(AssetAmountMismatch)
    else if r.minInAsset.Some? && r.minInAsset.value > invoice.amount then Some(AssetAmountMismatch)
    else InvoiceFault(r, invoice, r.inRateHint)
  }

  function AcceptForFault(a: Accept, r: Request, now: u64): Option<RfqError> {
    if AcceptFault(a).Some? then AcceptFault(a)
    else if a.expiry <= now then Some(ExpiredAccept)
    else if a.id != r.id then Some(RfqIdMismatch)
    else if a.expiry > r.expiry then Some(AcceptExpiryOutlivesRequest)
    else if a.maxInAsset.Some? && a.maxInAsset.value > r.maxInAsset then Some(BtcAmountMismatch)
    else None
  }

  // ----- the builders -----

  function Min(a: u64, b: u64): u64 {
    if a <= b then a else b
  }

  function SellRequest(invoice: QuotedInvoice, id: Bytes32): Result<Request, RfqError> {
    var rate :- AssetRate(invoice.amount, invoice.msat);
    Success(Request(WIRE_VERSION, id, PayInvoice, Min(invoice.invoiceExpiry, invoice.quoteExpiry), Some(ZERO32), None,
                    Some(invoice.assetId), None, invoice.msat, None, Some(rate), None, Some(invoice.msat),
                    invoice.context, Some(rate), Some(FillOrKill)))
  }

  function BuyRequest(invoice: QuotedInvoice, id: Bytes32): Result<Request, RfqError> {
    var rate :- AssetRate(invoice.amount, invoice.msat);
    Success(Request(WIRE_VERSION, id, ReceivePayment, Min(invoice.invoiceExpiry, invoice.quoteExpiry),
                    Some(invoice.assetId), None, Some(ZERO32), None, invoice.amount, Some(rate), None,
                    Some(invoice.amount), None, invoice.context, Some(rate), Some(FillOrKill)))
  }

  function Zeroes(n: nat): (b: Bytes)
    ensures |b| == n
  {
    if n == 0 then [] else Zeroes(n - 1) + [0]
  }

  function MsatPerBtc(): FixedPoint {
    FromU64(100, 9)
  }

  function SellAccept(invoice: QuotedInvoice, id: Bytes32): Result<Accept, RfqError> {
    var rate :- AssetRate(invoice.amount, invoice.msat);
    Success(Accept(WIRE_VERSION, id, invoice.quoteExpiry, Zeroes(64), MsatPerBtc(), rate, Some(invoice.msat)))
  }

  function BuyAccept(invoice: QuotedInvoice, id: Bytes32): Result<Accept, RfqError> {
    var rate :- AssetRate(invoice.amount, invoice.msat);
    Success(Accept(WIRE_VERSION, id, invoice.quoteExpiry, Zeroes(64), rate, MsatPerBtc(), Some(invoice.amount)))
  }

  lemma BuiltShape(invoice: QuotedInvoice, id: Bytes32)
    requires AssetRate(invoice.amount, invoice.msat).Success?
    ensures ShapeFault(SellRequest(invoice, id).value).None? <==> invoice.assetId != ZERO32
    ensures ShapeFault(BuyRequest(invoice, id).value).None? <==> invoice.assetId != ZERO32
  {
    RateWellFormed(invoice.amount, invoice.msat);
  }

  lemma BuiltAcceptShape(invoice: QuotedInvoice, id: Bytes32)
    requires AssetRate(invoice.amount, invoice.msat).Success?
    ensures AcceptFault(SellAccept(invoice, id).value).None? && AcceptFault(BuyAccept(invoice, id).value).None?
  {
    RateWellFormed(invoice.amount, invoice.msat);
    FromU64Denotes(100, 9);
  }

  /** The request a builder makes from an invoice passes the check against that invoice exactly when the
      asset is not BTC and the invoice is still valid and does not outlive its quote. */
  lemma BuiltRequestValid(invoice: QuotedInvoice, id: Bytes32, now: u64)
    requires AssetRate(invoice.amount, invoice.msat).Success?
    ensures SellFault(SellRequest(invoice, id).value, invoice.peer, invoice, now).None? <==>
              invoice.assetId != ZERO32 && now < invoice.invoiceExpiry <= invoice.quoteExpiry
    ensures BuyFault(BuyRequest(invoice, id).value, invoice.peer, invoice, now).None? <==>
              invoice.assetId != ZERO32 && now < invoice.invoiceExpiry <= invoice.quoteExpiry
  {
    BuiltShape(invoice, id);
  }

  /** Once the built request is valid, the accept built from the same invoice is valid for it exactly when
      invoice and quote expire together; both expiries are then still in the future. */
  lemma BuiltAcceptValid(invoice: QuotedInvoice, id: Bytes32, now: u64)
    requires AssetRate(invoice.amount, invoice.msat).Success?
    ensures var r, a := SellRequest(invoice, id).value, SellAccept(invoice, id).value;
            && (AcceptForFault(a, r, now).None? <==> now < invoice.quoteExpiry <= invoice.invoiceExpiry)
            && (SellFault(r, invoice.peer, invoice, now).None? ==>
                  (AcceptForFault(a, r, now).None? <==> invoice.invoiceExpiry == invoice.quoteExpiry))
    ensures var r, a := BuyRequest(invoice, id).value, BuyAccept(invoice, id).value;
            && (AcceptForFault(a, r, now).None? <==> now < invoice.quoteExpiry <= invoice.invoiceExpiry)
            && (BuyFault(r, invoice.peer, invoice, now).None? ==>
                  (AcceptForFault(a, r, now).None? <==> invoice.invoiceExpiry == invoice.quoteExpiry))
  {
    BuiltAcceptShape(invoice, id);
    BuiltRequestValid(invoice, id, now);
  }

  // ----- the rate of nothing -----

  /** The division by zero happens exactly for zero millisatoshi. */
  lemma NothingExactly(amount: u64, msat: u64)
    ensures AssetRate(amount, msat) == Failure(RateOfNothing) <==> msat == 0
  {
    ProductFits(amount);
  }

  /** All four builders divide by zero exactly for an invoice of zero millisatoshi. */
  lemma BuildersOfNothing(invoice: QuotedInvoice, id: Bytes32)
    ensures SellRequest(invoice, id) == Failure(RateOfNothing) <==> invoice.msat == 0
    ensures BuyRequest(invoice, id) == Failure(RateOfNothing) <==> invoice.msat == 0
    ensures SellAccept(invoice, id) == Failure(RateOfNothing) <==> invoice.msat == 0
    ensures BuyAccept(invoice, id) == Failure(RateOfNothing) <==> invoice.msat == 0
  {
    NothingExactly(invoice.amount, invoice.msat);
  }

  /** The check of a sell request never divides by zero: the request's maximum must equal the millisatoshi,
      and a zero maximum has been refused before. */
  lemma SellNeverOfNothing(r: Request, peer: Text, invoice: QuotedInvoice, now: u64)
    ensures SellFault(r, peer, invoice, now) != Some(RateOfNothing)
  {
    NothingExactly(invoice.amount, invoice.msat);
    ShapeNotOfNothing(r);
  }

  lemma ShapeNotOfNothing(r: Request)
    ensures ShapeFault(r) != Some(RateOfNothing)
    ensures ShapeFault(r).None? ==> r.maxInAsset != 0
  {
  }

  /** What the check of a buy request looks at before the rate. */
  predicate BuyReachesRate(r: Request, peer: Text, invoice: QuotedInvoice, now: u64) {
    && ShapeFault(r).None? && now < r.expiry && peer == invoice.peer && r.transfer.ReceivePayment?
    && r.inAssetId == Some(invoice.assetId) && r.outAssetId == Some(ZERO32)
    && r.maxInAsset == invoice.amount && (r.minInAsset.Some? ==> r.minInAsset.value <= invoice.amount)
    && invoice.invoiceExpiry <= r.expiry <= invoice.quoteExpiry && r.oracleMetadata == invoice.context
  }

  /** The check of a buy request divides by zero exactly when the invoice is for zero millisatoshi and the
      request is in order up to the rate. */
  lemma BuyOfNothing(r: Request, peer: Text, invoice: QuotedInvoice, now: u64)
    ensures BuyFault(r, peer, invoice, now) == Some(RateOfNothing) <==>
              invoice.msat == 0 && BuyReachesRate(r, peer, invoice, now)
  {
    NothingExactly(invoice.amount, invoice.msat);
    ShapeNotOfNothing(r);
  }

  /** One such request and invoice. */
  lemma BuyOfNothingHappens(peer: Text, assetId: Bytes32, context: Bytes32, id: Bytes32)
    requires assetId != ZERO32
    ensures var invoice := QuotedInvoice(peer, assetId, 1, 0, context, 10, 10);
            var r := Request(WIRE_VERSION, id, ReceivePayment, 10, Some(assetId), None, Some(ZERO32), None, 1, None, None,
                             None, None, context, None, None);
            BuyFault(r, peer, invoice, 0) == Some(RateOfNothing)
  {
    var invoice := QuotedInvoice(peer, assetId, 1, 0, context, 10, 10);
    var r := Request(WIRE_VERSION, id, ReceivePayment, 10, Some(assetId), None, Some(ZERO32), None, 1, None, None,
                     None, None, context, None, None);
    BuyOfNothing(r, peer, invoice, 0);
  }
}
