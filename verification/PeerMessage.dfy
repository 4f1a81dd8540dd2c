/** The messages asset peers exchange, as TLV streams, and proof transport over them. */
module PeerMessage {
  import opened ByteBits
  import opened Primitives
  import opened Tlv
  import opened TlvFields
  import opened ProofTransport

  datatype Message =
    | InputProof(channel: Bytes32, assetId: Bytes32, amount: u64, chunk: ProofChunk)
    | OutputProof(channel: Bytes32, assetId: Bytes32, amount: u64, chunk: ProofChunk)
    | FundingCreated(channel: Bytes32, fundingBlob: Bytes)
    | FundingAccepted(channel: Bytes32, accept: bool, reason: Option<Bytes>)
    | RfqRequest(rfqId: Bytes32, assetId: Bytes32, amount: u64, context: Bytes32)
    | RfqAccept(rfqId: Bytes32, quoteId: Bytes32, msat: u64, expiry: u64, alias: u64)
    | RfqReject(rfqId: Bytes32, rejection: Bytes)
    | HtlcBlob(assetId: Bytes32, amount: u64, rfqId: Bytes32, context: Bytes32, htlcBlob: Bytes)

  datatype MessageError =
    | MessageTlv(tlv: TlvError)
    | MissingField(typeId: u64)
    | InvalidLength(expected: nat, actual: nat)
    | InvalidBool(value: byte)
    | InvalidUtf8
    | UnknownMessageType(kind: u64)

  /** Whether bytes are the UTF-8 form of a text. */
  type Utf8 = Bytes -> bool

  function Kind(m: Message): u64 {
    match m
    case InputProof(_, _, _, _) => 53140
    case OutputProof(_, _, _, _) => 53141
    case FundingCreated(_, _) => 53142
    case FundingAccepted(_, _, _) => 53143
    case RfqRequest(_, _, _, _) => 53204
    case RfqAccept(_, _, _, _, _) => 53205
    case RfqReject(_, _) => 53206
    case HtlcBlob(_, _, _, _, _) => 53236
  }

  function BoolByte(b: bool): byte {
    if b then 1 else 0
  }

  // ----- the records of a message -----

  function MessageTypes(): (ts: seq<u64>)
    ensures |ts| == 19
  {
    [1, 3, 5, 7, 9, 11, 13, 15, 17, 19, 21, 23, 25, 27, 29, 31, 33, 35, 37]
  }

  predicate HasChunk(m: Message) {
    m.InputProof? || m.OutputProof?
  }

  function ChannelRecord(m: Message): Option<Bytes> {
    if HasChunk(m) || m.FundingCreated? || m.FundingAccepted? then Some(m.channel) else None
  }

  predicate HasAsset(m: Message) {
    HasChunk(m) || m.RfqRequest? || m.HtlcBlob?
  }

  predicate HasRfqId(m: Message) {
    m.RfqRequest? || m.RfqAccept? || m.RfqReject? || m.HtlcBlob?
  }

  predicate HasContext(m: Message) {
    m.RfqRequest? || m.HtlcBlob?
  }

  function ReasonRecord(m: Message): Option<Bytes> {
    if m.FundingAccepted? then m.reason else if m.RfqReject? then Some(m.rejection) else None
  }

  function MessageValues(m: Message): (vs: seq<Option<Bytes>>)
    ensures |vs| == 19
  {
    [Some(U64Be(Kind(m))),
     ChannelRecord(m),
     if HasAsset(m) then Some(m.assetId) else None,
     if HasAsset(m) then Some(U64Be(m.amount)) else None,
     if HasChunk(m) then Some(m.chunk.digest) else None,
     if HasChunk(m) then Some(ToBe(m.chunk.index, 4)) else None,
     if HasChunk(m) then Some(ToBe(m.chunk.count, 4)) else None,
     if HasChunk(m) then Some(m.chunk.bytes) else None,
     if HasChunk(m) then Some([BoolByte(m.chunk.last)]) else None,
     if m.FundingCreated? then Some(m.fundingBlob) else None,
     if m.FundingAccepted? then Some([BoolByte(m.accept)]) else None,
     ReasonRecord(m),
     if HasRfqId(m) then Some(m.rfqId) else None,
     if m.RfqAccept? then Some(U64Be(m.msat)) else None,
     if m.RfqAccept? then Some(U64Be(m.expiry)) else None,
     if HasContext(m) then Some(m.context) else None,
     if m.HtlcBlob? then Some(m.htlcBlob) else None,
     if m.RfqAccept? then Some(m.quoteId) else None,
     if m.RfqAccept? then Some(U64Be(m.alias)) else None]
  }

  /** The variable parts have lengths that fit in 64 bits, as anything in memory does. */
  predicate Sized(m: Message) {
    forall v <- MessageValues(m) :: Short(v)
  }

  function EncodeMessage(m: Message): Result<Bytes, MessageError>
    requires Sized(m)
  {
    ShortFields(MessageTypes(), MessageValues(m));
    var b := EncodeFields(Fields(MessageTypes(), MessageValues(m)));
    if b.Failure? then Failure(MessageTlv(b.error)) else Success(b.value)
  }

  // ----- reading a message -----

  function Required(m: map<u64, Bytes>, t: u64): Result<Bytes, MessageError> {
    if t in m then Success(m[t]) else Failure(MissingField(t))
  }

  function Exactly(m: map<u64, Bytes>, t: u64, n: nat): Result<Bytes, MessageError> {
    var b :- Required(m, t);
    if |b| == n then Success(b) else Failure(InvalidLength(n, |b|))
  }

  function Read32(m: map<u64, Bytes>, t: u64): Result<Bytes32, MessageError> {
    var b :- Exactly(m, t, 32);
    Success(b)
  }

  function ReadU64(m: map<u64, Bytes>, t: u64): Result<u64, MessageError> {
    var b :- Exactly(m, t, 8);
    FromBeBound(b);
    Pow256Eight();
    Success(FromBe(b))
  }

  function ReadU32(m: map<u64, Bytes>, t: u64): Result<u32, MessageError> {
    var b :- Exactly(m, t, 4);
    FromBeBound(b);
    SmallPowers();
    Success(FromBe(b))
  }

  function ReadBool(m: map<u64, Bytes>, t: u64): Result<bool, MessageError> {
    var b :- Exactly(m, t, 1);
    if b[0] == 0 then Success(false) else if b[0] == 1 then Success(true) else Failure(InvalidBool(b[0]))
  }

  function ReadText(utf8: Utf8, b: Bytes): Result<Bytes, MessageError> {
    if utf8(b) then Success(b) else Failure(InvalidUtf8)
  }

  function ReadOptionalText(utf8: Utf8, b: Option<Bytes>): Result<Option<Bytes>, MessageError> {
    if b.Some? && !utf8(b.value) then Failure(InvalidUtf8) else Success(b)
  }

  function ReadChunk(m: map<u64, Bytes>): Result<ProofChunk, MessageError> {
    var digest :- Read32(m, 9);
    var index :- ReadU32(m, 11);
    var count :- ReadU32(m, 13);
    var bytes :- Required(m, 15);
    var last :- ReadBool(m, 17);
    Success(ProofChunk(digest, index, count, bytes, last))
  }

  function ReadProof(m: map<u64, Bytes>, input: bool): Result<Message, MessageError> {
    var channel :- Read32(m, 3);
    var assetId :- Read32(m, 5);
    var amount :- ReadU64(m, 7);
    var chunk :- ReadChunk(m);
    Success(if input then InputProof(channel, assetId, amount, chunk) else OutputProof(channel, assetId, amount, chunk))
  }

  function ReadFundingCreated(m: map<u64, Bytes>): Result<Message, MessageError> {
    var channel :- Read32(m, 3);
    var blob :- Required(m, 19);
    Success(FundingCreated(channel, blob))
  }

  function ReadFundingAccepted(utf8: Utf8, m: map<u64, Bytes>): Result<Message, MessageError> {
    var channel :- Read32(m, 3);
    var accept :- ReadBool(m, 21);
    var reason :- ReadOptionalText(utf8, Get(m, 23));
    Success(FundingAccepted(channel, accept, reason))
  }

  function ReadRfqRequest(m: map<u64, Bytes>): Result<Message, MessageError> {
    var rfqId :- Read32(m, 25);
    var assetId :- Read32(m, 5);
    var amount :- ReadU64(m, 7);
    var context :- Read32(m, 31);
    Success(RfqRequest(rfqId, assetId, amount, context))
  }

  function ReadRfqAccept(m: map<u64, Bytes>): Result<Message, MessageError> {
    var rfqId :- Read32(m, 25);
    var quoteId :- Read32(m, 35);
    var msat :- ReadU64(m, 27);
    var expiry :- ReadU64(m, 29);
    var alias :- ReadU64(m, 37);
    Success(RfqAccept(rfqId, quoteId, msat, expiry, alias))
  }

  function ReadRfqReject(utf8: Utf8, m: map<u64, Bytes>): Result<Message, MessageError> {
    var rfqId :- Read32(m, 25);
    var bytes :- Required(m, 23);
    var rejection :- ReadText(utf8, bytes);
    Success(RfqReject(rfqId, rejection))
  }

  function ReadHtlcBlob(m: map<u64, Bytes>): Result<Message, MessageError> {
    var assetId :- Read32(m, 5);
    var amount :- ReadU64(m, 7);
    var rfqId :- Read32(m, 25);
    var context :- Read32(m, 31);
    var blob :- Required(m, 33);
    Success(HtlcBlob(assetId, amount, rfqId, context, blob))
  }

  function ReadMessage(utf8: Utf8, m: map<u64, Bytes>): Result<Message, MessageError> {
    var kind :- ReadU64(m, 1);
    if kind == 53140 then ReadProof(m, true)
    else if kind == 53141 then ReadProof(m, false)
    else if kind == 53142 then ReadFundingCreated(m)
    else if kind == 53143 then ReadFundingAccepted(utf8, m)
    else if kind == 53204 then ReadRfqRequest(m)
    else if kind == 53205 then ReadRfqAccept(m)
    else if kind == 53206 then ReadRfqReject(utf8, m)
    else if kind == 53236 then ReadHtlcBlob(m)
    else Failure(UnknownMessageType(kind))
  }

  function DecodeMessage(utf8: Utf8, b: Bytes): Result<Message, MessageError> {
    var rs := DecodeStream(b);
    if rs.Failure? then Failure(MessageTlv(rs.error))
    else if UnknownRequired(rs.value, MessageTypes()).Some? then
      Failure(MessageTlv(UnknownRequired(rs.value, MessageTypes()).value))
    else ReadMessage(utf8, ByType(rs.value))
  }

  // ----- the round trip -----

  lemma MessageTypesDistinct()
    ensures forall i, j | 0 <= i < j < 19 :: MessageTypes()[i] < MessageTypes()[j]
  {
  }

  /** The map holds a message's values under their types. */
  predicate Holds(m: map<u64, Bytes>, msg: Message) {
    var vs := MessageValues(msg);
    && Get(m, 1) == vs[0] && Get(m, 3) == vs[1] && Get(m, 5) == vs[2] && Get(m, 7) == vs[3] && Get(m, 9) == vs[4]
    && Get(m, 11) == vs[5] && Get(m, 13) == vs[6] && Get(m, 15) == vs[7] && Get(m, 17) == vs[8]
    && Get(m, 19) == vs[9] && Get(m, 21) == vs[10] && Get(m, 23) == vs[11] && Get(m, 25) == vs[12]
    && Get(m, 27) == vs[13] && Get(m, 29) == vs[14] && Get(m, 31) == vs[15] && Get(m, 33) == vs[16]
    && Get(m, 35) == vs[17] && Get(m, 37) == vs[18]
  }

  lemma HoldsAll(m: map<u64, Bytes>, msg: Message)
    requires forall i | 0 <= i < 19 :: Get(m, MessageTypes()[i]) == MessageValues(msg)[i]
    ensures Holds(m, msg)
  {
    var ts, vs := MessageTypes(), MessageValues(msg);
    assert Get(m, ts[0]) == vs[0] && Get(m, ts[1]) == vs[1] && Get(m, ts[2]) == vs[2] && Get(m, ts[3]) == vs[3];
    assert Get(m, ts[4]) == vs[4] && Get(m, ts[5]) == vs[5] && Get(m, ts[6]) == vs[6] && Get(m, ts[7]) == vs[7];
    assert Get(m, ts[8]) == vs[8] && Get(m, ts[9]) == vs[9] && Get(m, ts[10]) == vs[10] && Get(m, ts[11]) == vs[11];
    assert Get(m, ts[12]) == vs[12] && Get(m, ts[13]) == vs[13] && Get(m, ts[14]) == vs[14] && Get(m, ts[15]) == vs[15];
    assert Get(m, ts[16]) == vs[16] && Get(m, ts[17]) == vs[17] && Get(m, ts[18]) == vs[18];
  }

  lemma U64Read(m: map<u64, Bytes>, t: u64, v: u64)
    requires Get(m, t) == Some(U64Be(v))
    ensures ReadU64(m, t) == Success(v)
  {
    Pow256Eight();
    FromToBe(v, 8);
  }

  lemma {:induction false} U32Read(m: map<u64, Bytes>, t: u64, v: u32)
    requires Get(m, t) == Some(ToBe(v, 4))
    ensures ReadU32(m, t) == Success(v)
  {
    SmallPowers();
    FromToBe(v, 4);
  }

  /** The texts in the message are texts. */
  predicate Textual(utf8: Utf8, m: Message) {
    ReasonRecord(m).Some? ==> utf8(ReasonRecord(m).value)
  }

  lemma ChunkRead(m: map<u64, Bytes>, msg: Message)
    requires Holds(m, msg) && HasChunk(msg)
    ensures ReadChunk(m) == Success(msg.chunk)
  {
    U32Read(m, 11, msg.chunk.index);
    U32Read(m, 13, msg.chunk.count);
  }

  lemma ProofRead(m: map<u64, Bytes>, msg: Message)
    requires Holds(m, msg) && HasChunk(msg)
    ensures ReadProof(m, msg.InputProof?) == Success(msg)
  {
    ChunkRead(m, msg);
    U64Read(m, 7, msg.amount);
  }

  lemma FundingRead(utf8: Utf8, m: map<u64, Bytes>, msg: Message)
    requires Holds(m, msg) && Textual(utf8, msg)
    ensures msg.FundingCreated? ==> ReadFundingCreated(m) == Success(msg)
    ensures msg.FundingAccepted? ==> ReadFundingAccepted(utf8, m) == Success(msg)
  {
  }

  lemma RfqRead(utf8: Utf8, m: map<u64, Bytes>, msg: Message)
    requires Holds(m, msg) && Textual(utf8, msg)
    ensures msg.RfqRequest? ==> ReadRfqRequest(m) == Success(msg)
    ensures msg.RfqAccept? ==> ReadRfqAccept(m) == Success(msg)
    ensures msg.RfqReject? ==> ReadRfqReject(utf8, m) == Success(msg)
    ensures msg.HtlcBlob? ==> ReadHtlcBlob(m) == Success(msg)
  {
    if HasAsset(msg) {
      U64Read(m, 7, msg.amount);
    }
    if msg.RfqAccept? {
      U64Read(m, 27, msg.msat);
      U64Read(m, 29, msg.expiry);
      U64Read(m, 37, msg.alias);
    }
  }

  lemma MessageRead(utf8: Utf8, m: map<u64, Bytes>, msg: Message)
    requires Holds(m, msg) && Textual(utf8, msg)
    ensures ReadMessage(utf8, m) == Success(msg)
  {
    U64Read(m, 1, Kind(msg));
    if HasChunk(msg) {
      ProofRead(m, msg);
    }
    FundingRead(utf8, m, msg);
    RfqRead(utf8, m, msg);
  }

  lemma {:induction false} EncodedHolds(msg: Message)
    requires Sized(msg)
    ensures EncodeMessage(msg).Success?
    ensures var rs := DecodeStream(EncodeMessage(msg).value);
            && rs.Success? && UnknownRequired(rs.value, MessageTypes()).None? && Holds(ByType(rs.value), msg)
  {
    MessageTypesDistinct();
    FieldsDecode(MessageTypes(), MessageValues(msg));
    HoldsAll(ByType(DecodeStream(EncodeMessage(msg).value).value), msg);
  }

  lemma {:induction false} HeldDecodes(utf8: Utf8, b: Bytes, rs: seq<Record>, msg: Message)
    requires DecodeStream(b) == Success(rs) && UnknownRequired(rs, MessageTypes()).None?
    requires Holds(ByType(rs), msg) && Textual(utf8, msg)
    ensures DecodeMessage(utf8, b) == Success(msg)
  {
    MessageRead(utf8, ByType(rs), msg);
  }

  /** Every message of every kind is encoded and decodes to itself. */
  lemma {:induction false} MessageRoundTrip(utf8: Utf8, msg: Message)
    requires Sized(msg) && Textual(utf8, msg)
    ensures EncodeMessage(msg).Success? && DecodeMessage(utf8, EncodeMessage(msg).value) == Success(msg)
  {
    EncodedHolds(msg);
    var b := EncodeMessage(msg).value;
    HeldDecodes(utf8, b, DecodeStream(b).value, msg);
  }

  // ----- proofs over the wire -----

  /** The chunk a received message carries, if it carries one. */
  function ChunkIn(utf8: Utf8, b: Bytes): Option<ProofChunk> {
    var m := DecodeMessage(utf8, b);
    if m.Success? && HasChunk(m.value) then Some(m.value.chunk) else None
  }

  /** The wire form of the message carrying a chunk. */
  function Carry(channel: Bytes32, assetId: Bytes32, amount: u64, c: ProofChunk): Bytes
    requires |c.bytes| < U64_LIMIT
  {
    var m := InputProof(channel, assetId, amount, c);
    ChunkSized(m);
    EncodedHolds(m);
    EncodeMessage(m).value
  }

  lemma ChunkSized(m: Message)
    requires HasChunk(m) && |m.chunk.bytes| < U64_LIMIT
    ensures Sized(m)
  {
    var vs := MessageValues(m);
    assert forall i | 0 <= i < 19 && i != 7 :: Short(vs[i]);
    assert Short(vs[7]);
  }

  lemma {:induction false} CarriedChunk(utf8: Utf8, channel: Bytes32, assetId: Bytes32, amount: u64, c: ProofChunk)
    requires |c.bytes| < U64_LIMIT
    ensures ChunkIn(utf8, Carry(channel, assetId, amount, c)) == Some(c)
  {
    ChunkSized(InputProof(channel, assetId, amount, c));
    MessageRoundTrip(utf8, InputProof(channel, assetId, amount, c));
  }

  type Finder = Bytes -> Option<ProofChunk>

  function ChunkFinder(utf8: Utf8): Finder {
    b => ChunkIn(utf8, b)
  }

  /** The chunks found in messages that arrive one after another. */
  function Arrived(find: Finder, wires: seq<Bytes>): seq<ProofChunk> {
    if wires == [] then []
    else
      var c := find(wires[|wires| - 1]);
      Arrived(find, wires[..|wires| - 1]) + if c.Some? then [c.value] else []
  }

  lemma {:induction false} AllArrive(find: Finder, wires: seq<Bytes>, cs: seq<ProofChunk>)
    requires |wires| == |cs| && forall i | 0 <= i < |cs| :: find(wires[i]) == Some(cs[i])
    ensures Arrived(find, wires) == cs
  {
    if cs != [] {
      var n := |cs| - 1;
      AllArrive(find, wires[..n], cs[..n]);
      assert find(wires[n]) == Some(cs[n]);
      assert cs[..n] + [cs[n]] == cs;
    }
  }

  /** The messages carry the chunks, one each. */
  predicate Carried(channel: Bytes32, assetId: Bytes32, amount: u64, wires: seq<Bytes>, cs: seq<ProofChunk>) {
    && |wires| == |cs|
    && forall i | 0 <= i < |cs| ::
         |cs[i].bytes| < U64_LIMIT && wires[i] == Carry(channel, assetId, amount, cs[i])
  }

  /** A proof that is split, sent as messages in any order, decoded and pushed chunk by chunk arrives whole
      with the last message and not before. */
  lemma {:induction false} ProofOverWire(sha: Sha256, utf8: Utf8, proof: Bytes, size: nat, cs: seq<ProofChunk>,
                                         channel: Bytes32, assetId: Bytes32, amount: u64, wires: seq<Bytes>, i: nat)
    requires Delivery(sha, proof, size, cs) && Carried(channel, assetId, amount, wires, cs) && i < |wires|
    ensures |wires| == |Pieces(proof, size)| == |Arrived(ChunkFinder(utf8), wires)|
    ensures OutcomeOf(sha, Arrived(ChunkFinder(utf8), wires), i) ==
              if i + 1 < |wires| then Success(Incomplete(i + 1, |wires|)) else Success(Complete(proof))
  {
    forall j | 0 <= j < |cs|
      ensures ChunkFinder(utf8)(wires[j]) == Some(cs[j])
    {
      CarriedChunk(utf8, channel, assetId, amount, cs[j]);
    }
    AllArrive(ChunkFinder(utf8), wires, cs);
    AnyOrderReassembles(sha, proof, size, cs, i);
  }
}
