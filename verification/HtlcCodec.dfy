/** The custom records of an asset HTLC: eleven odd TLV types in a range of their own. */
module HtlcCodec {
  import opened ByteBits
  import opened Primitives
  import opened Tlv
  import opened TlvFields
  import opened HtlcStore

  const RECORD_BASE: u64 := 760_000
  const RECORD_LIMIT: u64 := 760_128

  datatype CodecError =
    | HtlcTlv(tlv: TlvError)
    | UnknownAssetRecord
    | MissingRecord(typeId: u64)
    | InvalidRecordLength(expected: nat, actual: nat)

  datatype Decoded = BtcOnly | AssetHtlc(records: HtlcRecords)

  function RecordTypes(): (ts: seq<u64>)
    ensures |ts| == 11
  {
    [760_001, 760_003, 760_005, 760_007, 760_009, 760_011, 760_013, 760_015, 760_017, 760_019, 760_021]
  }

  function RecordValues(r: HtlcRecords): (vs: seq<Option<Bytes>>)
    ensures |vs| == 11
  {
    [Some(r.assetId), Some(U64Be(r.amount)), Some(r.quoteId), Some(r.invoiceContext), Some(U64Be(r.msat)),
     Some(U64Be(r.scidAlias)), Some(r.paymentHash), Some(r.finalHopDigest), Some(ToBe(r.protocolVersion, 2)),
     Some(r.root.hash), Some(U64Be(r.root.sum))]
  }

  lemma ValuesShort(r: HtlcRecords)
    ensures forall v <- RecordValues(r) :: Short(v)
  {
  }

  function EncodeCustom(r: HtlcRecords): Result<Bytes, CodecError> {
    ValuesShort(r);
    ShortFields(RecordTypes(), RecordValues(r));
    var b := EncodeFields(Fields(RecordTypes(), RecordValues(r)));
    if b.Failure? then Failure(HtlcTlv(b.error)) else Success(b.value)
  }

  function Wide(m: map<u64, Bytes>, t: u64, n: nat): Result<Bytes, CodecError> {
    if t !in m then Failure(MissingRecord(t))
    else if |m[t]| != n then Failure(InvalidRecordLength(n, |m[t]|))
    else Success(m[t])
  }

  function Wide32(m: map<u64, Bytes>, t: u64): Result<Bytes32, CodecError> {
    var b :- Wide(m, t, 32);
    Success(b)
  }

  function WideU64(m: map<u64, Bytes>, t: u64): Result<u64, CodecError> {
    var b :- Wide(m, t, 8);
    FromBeBound(b);
    Pow256Eight();
    Success(FromBe(b))
  }

  function WideU16(m: map<u64, Bytes>, t: u64): Result<u16, CodecError> {
    var b :- Wide(m, t, 2);
    FromBeBound(b);
    SmallPowers();
    Success(FromBe(b))
  }

  function RecordsFrom(m: map<u64, Bytes>): Result<HtlcRecords, CodecError> {
    var version :- WideU16(m, 760_017);
    var assetId :- Wide32(m, 760_001);
    var amount :- WideU64(m, 760_003);
    var rootHash :- Wide32(m, 760_019);
    var rootSum :- WideU64(m, 760_021);
    var quoteId :- Wide32(m, 760_005);
    var context :- Wide32(m, 760_007);
    var msat :- WideU64(m, 760_009);
    var alias :- WideU64(m, 760_011);
    var paymentHash :- Wide32(m, 760_013);
    var digest :- Wide32(m, 760_015);
    Success(HtlcRecords(version, assetId, amount, RootHashSum(rootHash, rootSum), quoteId, context, msat, alias,
                        paymentHash, digest))
  }

  predicate InRange(t: u64) {
    RECORD_BASE <= t < RECORD_LIMIT
  }

  /** Records outside the range are other people's; inside it every type has to be known. */
  function DecodeMap(m: map<u64, Bytes>): Result<Decoded, CodecError> {
    if forall t <- m :: t !in RecordTypes() then Success(BtcOnly)
    else if exists t <- m :: InRange(t) && t !in RecordTypes() then Failure(UnknownAssetRecord)
    else
      var r :- RecordsFrom(m);
      Success(AssetHtlc(r))
  }

  function DecodeCustom(b: Bytes): Result<Decoded, CodecError> {
    var rs := DecodeStream(b);
    if rs.Failure? then Failure(HtlcTlv(rs.error)) else DecodeMap(ByType(rs.value))
  }

  // ----- exactness -----

  /** The map holds the records' values under their types. */
  predicate Carries(m: map<u64, Bytes>, r: HtlcRecords) {
    && Get(m, 760_001) == Some(r.assetId) && Get(m, 760_003) == Some(U64Be(r.amount))
    && Get(m, 760_005) == Some(r.quoteId) && Get(m, 760_007) == Some(r.invoiceContext)
    && Get(m, 760_009) == Some(U64Be(r.msat)) && Get(m, 760_011) == Some(U64Be(r.scidAlias))
    && Get(m, 760_013) == Some(r.paymentHash) && Get(m, 760_015) == Some(r.finalHopDigest)
    && Get(m, 760_017) == Some(ToBe(r.protocolVersion, 2)) && Get(m, 760_019) == Some(r.root.hash)
    && Get(m, 760_021) == Some(U64Be(r.root.sum))
  }

  lemma U64Wide(m: map<u64, Bytes>, t: u64, v: u64)
    ensures Get(m, t) == Some(U64Be(v)) <==> WideU64(m, t) == Success(v)
  {
    Pow256Eight();
    FromToBe(v, 8);
    if t in m && |m[t]| == 8 {
      ToFromBe(m[t]);
    }
  }

  lemma {:induction false} U16Wide(m: map<u64, Bytes>, t: u64, v: u16)
    ensures Get(m, t) == Some(ToBe(v, 2)) <==> WideU16(m, t) == Success(v)
  {
    SmallPowers();
    FromToBe(v, 2);
    if t in m && |m[t]| == 2 {
      ToFromBe(m[t]);
    }
  }

  /** A map is read as the records exactly when it carries their values. */
  lemma RecordsFromExact(m: map<u64, Bytes>, r: HtlcRecords)
    ensures RecordsFrom(m) == Success(r) <==> Carries(m, r)
  {
    U64Wide(m, 760_003, r.amount);
    U64Wide(m, 760_009, r.msat);
    U64Wide(m, 760_011, r.scidAlias);
    U64Wide(m, 760_021, r.root.sum);
    U16Wide(m, 760_017, r.protocolVersion);
    FieldWise(m, r);
  }

  lemma FieldWise(m: map<u64, Bytes>, r: HtlcRecords)
    ensures RecordsFrom(m) == Success(r) <==>
              && WideU16(m, 760_017) == Success(r.protocolVersion) && Wide32(m, 760_001) == Success(r.assetId)
              && WideU64(m, 760_003) == Success(r.amount) && Wide32(m, 760_019) == Success(r.root.hash)
              && WideU64(m, 760_021) == Success(r.root.sum) && Wide32(m, 760_005) == Success(r.quoteId)
              && Wide32(m, 760_007) == Success(r.invoiceContext) && WideU64(m, 760_009) == Success(r.msat)
              && WideU64(m, 760_011) == Success(r.scidAlias) && Wide32(m, 760_013) == Success(r.paymentHash)
              && Wide32(m, 760_015) == Success(r.finalHopDigest)
  {
  }

  /** A record map is an asset HTLC with these records exactly when it carries them and has nothing else in
      the range; it is BTC only exactly when it has none of the asset types. Records outside the range
      make no difference. */
  lemma DecodeMapExact(m: map<u64, Bytes>, r: HtlcRecords)
    ensures DecodeMap(m) == Success(AssetHtlc(r)) <==>
              Carries(m, r) && forall t <- m :: InRange(t) ==> t in RecordTypes()
    ensures DecodeMap(m) == Success(BtcOnly) <==> forall t <- m :: t !in RecordTypes()
  {
    RecordsFromExact(m, r);
    assert RecordTypes()[0] == 760_001;
    assert 760_001 in RecordTypes();
  }

  lemma RecordTypesDistinct()
    ensures forall i, j | 0 <= i < j < 11 :: RecordTypes()[i] < RecordTypes()[j]
  {
  }

  lemma CarriesAll(m: map<u64, Bytes>, r: HtlcRecords)
    requires forall i | 0 <= i < 11 :: Get(m, RecordTypes()[i]) == RecordValues(r)[i]
    ensures Carries(m, r)
  {
    var ts, vs := RecordTypes(), RecordValues(r);
    assert Get(m, ts[0]) == vs[0] && Get(m, ts[1]) == vs[1] && Get(m, ts[2]) == vs[2] && Get(m, ts[3]) == vs[3];
    assert Get(m, ts[4]) == vs[4] && Get(m, ts[5]) == vs[5] && Get(m, ts[6]) == vs[6] && Get(m, ts[7]) == vs[7];
    assert Get(m, ts[8]) == vs[8] && Get(m, ts[9]) == vs[9] && Get(m, ts[10]) == vs[10];
  }

  lemma {:induction false} EncodedCarries(r: HtlcRecords)
    ensures EncodeCustom(r).Success? && DecodeStream(EncodeCustom(r).value).Success?
    ensures var m := ByType(DecodeStream(EncodeCustom(r).value).value);
            Carries(m, r) && forall t <- m :: t in RecordTypes()
  {
    ValuesShort(r);
    RecordTypesDistinct();
    FieldsDecode(RecordTypes(), RecordValues(r));
    var rs := DecodeStream(EncodeCustom(r).value).value;
    CarriesAll(ByType(rs), r);
  }

  /** The HTLC records encode, and decode to themselves. */
  lemma {:induction false} CustomRoundTrip(r: HtlcRecords)
    ensures EncodeCustom(r).Success? && DecodeCustom(EncodeCustom(r).value) == Success(AssetHtlc(r))
  {
    EncodedCarries(r);
    DecodeMapExact(ByType(DecodeStream(EncodeCustom(r).value).value), r);
  }
}
