/** The nested asset blobs of channel messages: counted lists of length-prefixed records, parsed with a
    cursor and printed back. */
module Blob {
  import opened ByteBits
  import opened Primitives
  import opened Tlv

  const MAX_OUTPUTS: u64 := 2048
  const MAX_HTLCS: u64 := 483
  const MAX_RFQ_IDS: u64 := 2048
  const MAX_SCRIPT_LEN: u64 := 65535

  datatype BlobError =
    | BlobTlv(tlv: TlvError)
    | TooManyItems(count: u64, max: u64)
    | TruncatedNested(expected: nat, actual: nat)
    | TrailingBytes(remaining: nat)
    | UnsupportedRecord(typeId: u64)
    | MissingRecord(typeId: u64)
    | InvalidFieldLength(expected: nat, actual: nat)
    | AssetAmountOverflow
    | ScriptLengthMismatch

  type Parsed<T> = Result<T, BlobError>

  // ----- cursors -----

  function ReadVarint(b: Bytes): Parsed<Taken<u64>> {
    var t := TakeBigSize(b);
    if t.Failure? then Failure(BlobTlv(t.error)) else Success(t.value)
  }

  function TakeBytes(b: Bytes, n: nat): Parsed<Taken<Bytes>> {
    if |b| < n then Failure(TruncatedNested(n, |b|)) else Success(Taken(b[..n], b[n..]))
  }

  function ReadInline(b: Bytes): Parsed<Taken<Bytes>> {
    var len := ReadVarint(b);
    if len.Failure? then Failure(len.error) else TakeBytes(len.value.rest, len.value.value)
  }

  /** The length-prefixed form; no byte string in memory reaches 2^64 bytes. */
  function InlineBytes(v: Bytes): Bytes {
    if |v| < U64_LIMIT then Inline(v) else []
  }

  lemma InlineExact(b: Bytes)
    requires ReadInline(b).Success?
    ensures var t := ReadInline(b).value; |t.value| < U64_LIMIT && b == InlineBytes(t.value) + t.rest
  {
    BigSizeExact(b);
    var len := TakeBigSize(b).value;
    assert len.rest == len.rest[..len.value] + len.rest[len.value..];
    Assoc(BigSize(len.value), len.rest[..len.value], len.rest[len.value..]);
  }

  lemma InlinePrinted(v: Bytes, rest: Bytes)
    requires |v| < U64_LIMIT
    ensures ReadInline(InlineBytes(v) + rest) == Success(Taken(v, rest))
  {
    Assoc(BigSize(|v|), v, rest);
    BigSizePrinted(|v|, v + rest);
    assert (v + rest)[..|v|] == v && (v + rest)[|v|..] == rest;
  }

  // ----- counted lists of anything -----

  type Taker<T> = Bytes -> Parsed<Taken<T>>
  type Printer<!T> = T -> Bytes

  function PrintAll<T>(emit: Printer<T>, xs: seq<T>): Bytes {
    if xs == [] then [] else PrintAll(emit, xs[..|xs| - 1]) + emit(xs[|xs| - 1])
  }

  /** Takes `n` items off the cursor. */
  function TakeEach<T>(take: Taker<T>, b: Bytes, n: nat, done: seq<T>): Parsed<Taken<seq<T>>>
    decreases n
  {
    if n == 0 then Success(Taken(done, b))
    else
      var t := take(b);
      if t.Failure? then Failure(t.error) else TakeEach(take, t.value.rest, n - 1, done + [t.value.value])
  }

  /** A count of at most `max`, then exactly that many items, then nothing. */
  function ListOf<T>(take: Taker<T>, max: u64, b: Bytes): Parsed<seq<T>> {
    var count := ReadVarint(b);
    if count.Failure? then Failure(count.error)
    else if count.value.value > max then Failure(TooManyItems(count.value.value, max))
    else
      var items := TakeEach(take, count.value.rest, count.value.value, []);
      if items.Failure? then Failure(items.error)
      else if items.value.rest != [] then Failure(TrailingBytes(|items.value.rest|))
      else Success(items.value.value)
  }

  method ParseList<T>(take: Taker<T>, max: u64, b: Bytes) returns (r: Parsed<seq<T>>)
    ensures r == ListOf(take, max, b)
  {
    var count := ReadVarint(b);
    if count.Failure? {
      return Failure(count.error);
    }
    var n, start := count.value.value, count.value.rest;
    if n > max {
      return Failure(TooManyItems(n, max));
    }
    var cursor, items: seq<T> := start, [];
    for i := 0 to n
      invariant TakeEach(take, start, n, []) == TakeEach(take, cursor, n - i, items)
    {
      var t := take(cursor);
      if t.Failure? {
        return Failure(t.error);
      }
      cursor := t.value.rest;
      items := items + [t.value.value];
    }
    if cursor != [] {
      return Failure(TrailingBytes(|cursor|));
    }
    return Success(items);
  }

  /** Whatever is taken off a cursor is the printed form of what it is read as. */
  ghost predicate TakesPrinted<T>(take: Taker<T>, emit: Printer<T>) {
    forall b: Bytes :: take(b).Success? ==> b == emit(take(b).value.value) + take(b).value.rest
  }

  /** The printed form of `x` is taken off any cursor it stands at the front of. */
  ghost predicate ReadsBack<T>(take: Taker<T>, emit: Printer<T>, x: T) {
    forall tail: Bytes :: take(emit(x) + tail) == Success(Taken(x, tail))
  }

  lemma {:induction false} EachExact<T>(take: Taker<T>, emit: Printer<T>, b: Bytes, n: nat, done: seq<T>)
    requires TakesPrinted(take, emit) && TakeEach(take, b, n, done).Success?
    ensures var t := TakeEach(take, b, n, done).value;
            |t.value| == |done| + n && PrintAll(emit, t.value) + t.rest == PrintAll(emit, done) + b
    decreases n
  {
    if n > 0 {
      var t := take(b).value;
      var more := done + [t.value];
      assert more[..|more| - 1] == done;
      EachExact(take, emit, t.rest, n - 1, more);
      Assoc(PrintAll(emit, done), emit(t.value), t.rest);
    }
  }

  lemma {:induction false} EachPrinted<T>(take: Taker<T>, emit: Printer<T>, xs: seq<T>, m: nat, done: seq<T>, tail: Bytes)
    requires forall x <- xs :: ReadsBack(take, emit, x)
    ensures TakeEach(take, PrintAll(emit, xs) + tail, |xs| + m, done) == TakeEach(take, tail, m, done + xs)
    decreases |xs|
  {
    if xs == [] {
      assert PrintAll(emit, xs) + tail == tail && done + xs == done;
    } else {
      var front, last := xs[..|xs| - 1], xs[|xs| - 1];
      Assoc(PrintAll(emit, front), emit(last), tail);
      EachPrinted(take, emit, front, m + 1, done, emit(last) + tail);
      assert last in xs;
      assert take(emit(last) + tail) == Success(Taken(last, tail));
      Assoc(done, front, [last]);
      assert front + [last] == xs;
    }
  }

  function PrintList<T>(emit: Printer<T>, xs: seq<T>): Bytes {
    if |xs| < U64_LIMIT then BigSize(|xs|) + PrintAll(emit, xs) else []
  }

  /** An accepted list is its count followed by exactly its items, every byte used once. */
  lemma ListExact<T>(take: Taker<T>, emit: Printer<T>, max: u64, b: Bytes)
    requires TakesPrinted(take, emit) && ListOf(take, max, b).Success?
    ensures |ListOf(take, max, b).value| <= max && PrintList(emit, ListOf(take, max, b).value) == b
  {
    BigSizeExact(b);
    var count := TakeBigSize(b).value;
    EachExact(take, emit, count.rest, count.value, []);
    var items := TakeEach(take, count.rest, count.value, []).value;
    assert PrintAll(emit, items.value) + [] == PrintAll(emit, items.value);
    assert [] + count.rest == count.rest;
  }

  /** A printed list within the limit is accepted as itself. */
  lemma {:induction false} ListPrinted<T>(take: Taker<T>, emit: Printer<T>, max: u64, xs: seq<T>)
    requires |xs| <= max && forall x <- xs :: ReadsBack(take, emit, x)
    ensures ListOf(take, max, PrintList(emit, xs)) == Success(xs)
  {
    BigSizePrinted(|xs|, PrintAll(emit, xs));
    EachPrinted(take, emit, xs, 0, [], []);
    assert PrintAll(emit, xs) + [] == PrintAll(emit, xs) && [] + xs == xs;
  }

  // ----- one asset output -----

  datatype AssetOutput = AssetOutput(assetId: Bytes32, amount: u64, proof: Bytes)

  /** The first record of a type. */
  function Find(rs: seq<Record>, typeId: u64): Option<Bytes> {
    if rs == [] then None
    else if rs[0].typeId == typeId then Some(rs[0].value)
    else Find(rs[1..], typeId)
  }

  /** The first record whose type is not below `limit`: here the known types are 0 to `limit - 1`. */
  function Unsupported(rs: seq<Record>, limit: u64): Option<u64> {
    if rs == [] then None
    else if rs[0].typeId >= limit then Some(rs[0].typeId)
    else Unsupported(rs[1..], limit)
  }

  function ParseOutput(b: Bytes): Parsed<AssetOutput> {
    var rs := DecodeStream(b);
    if rs.Failure? then Failure(BlobTlv(rs.error))
    else if Unsupported(rs.value, 3).Some? then Failure(UnsupportedRecord(Unsupported(rs.value, 3).value))
    else
      var assetId, amount, proof := Find(rs.value, 0), Find(rs.value, 1), Find(rs.value, 2);
      if assetId.None? then Failure(MissingRecord(0))
      else if |assetId.value| != 32 then Failure(InvalidFieldLength(32, |assetId.value|))
      else if amount.None? then Failure(MissingRecord(1))
      else if |amount.value| != 8 then Failure(InvalidFieldLength(8, |amount.value|))
      else if proof.None? then Failure(MissingRecord(2))
      else
        FromBeBound(amount.value);
        Pow256Eight();
        Success(AssetOutput(assetId.value, FromBe(amount.value), proof.value))
  }

  function OutputRecords(o: AssetOutput): seq<Record> {
    [Record(0, o.assetId), Record(1, U64Be(o.amount)), Record(2, o.proof)]
  }

  function OutputBytes(o: AssetOutput): Bytes {
    if |o.proof| < U64_LIMIT then StreamBytes(OutputRecords(o)) else []
  }

  lemma FindThree(a: Record, b: Record, c: Record)
    requires a.typeId == 0 && b.typeId == 1 && c.typeId == 2
    ensures Find([a, b, c], 0) == Some(a.value) && Find([a, b, c], 1) == Some(b.value) && Find([a, b, c], 2) == Some(c.value)
    ensures Unsupported([a, b, c], 3).None?
  {
    assert [a, b, c][1..] == [b, c] && [b, c][1..] == [c] && [c][1..] == [];
    assert Find([c], 2) == Some(c.value) && Unsupported([c], 3).None?;
    assert Find([b, c], 1) == Some(b.value) && Find([b, c], 2) == Find([c], 2) && Unsupported([b, c], 3).None?;
  }

  lemma {:induction false} FindFound(rs: seq<Record>, typeId: u64)
    requires Find(rs, typeId).Some?
    ensures exists i :: 0 <= i < |rs| && rs[i] == Record(typeId, Find(rs, typeId).value)
  {
    if rs[0].typeId == typeId {
      assert rs[0] == Record(typeId, Find(rs, typeId).value);
    } else {
      FindFound(rs[1..], typeId);
      var i :| 0 <= i < |rs| - 1 && rs[1..][i] == Record(typeId, Find(rs[1..], typeId).value);
      assert rs[i + 1] == Record(typeId, Find(rs, typeId).value);
    }
  }

  lemma {:induction false} AllSupported(rs: seq<Record>, limit: u64, i: nat)
    requires Unsupported(rs, limit).None? && i < |rs|
    ensures rs[i].typeId < limit
  {
    if i > 0 {
      AllSupported(rs[1..], limit, i - 1);
    }
  }

  lemma {:induction false} TypeAtLeast(rs: seq<Record>, i: nat)
    requires Ascending(rs) && i < |rs|
    ensures rs[i].typeId >= i
  {
    if i > 0 {
      TypeAtLeast(rs, i - 1);
    }
  }

  /** Ascending types below three, all present: the three records in order. */
  lemma {:induction false} ThreeRecords(rs: seq<Record>)
    requires Ascending(rs) && Unsupported(rs, 3).None?
    requires Find(rs, 0).Some? && Find(rs, 1).Some? && Find(rs, 2).Some?
    ensures rs == [Record(0, Find(rs, 0).value), Record(1, Find(rs, 1).value), Record(2, Find(rs, 2).value)]
  {
    FindFound(rs, 0);
    FindFound(rs, 1);
    FindFound(rs, 2);
    var i :| 0 <= i < |rs| && rs[i] == Record(0, Find(rs, 0).value);
    var j :| 0 <= j < |rs| && rs[j] == Record(1, Find(rs, 1).value);
    var k :| 0 <= k < |rs| && rs[k] == Record(2, Find(rs, 2).value);
    TypeAtLeast(rs, i);
    TypeAtLeast(rs, j);
    TypeAtLeast(rs, k);
    AllSupported(rs, 3, |rs| - 1);
    TypeAtLeast(rs, |rs| - 1);
    assert i == 0 && |rs| == 3 && j == 1 && k == 2;
  }

  /** Only the printed form of an output is read as that output. */
  lemma OutputExact(b: Bytes)
    requires ParseOutput(b).Success?
    ensures |ParseOutput(b).value.proof| < U64_LIMIT && OutputBytes(ParseOutput(b).value) == b
  {
    var rs := DecodeStream(b).value;
    EncodeDecode(b);
    ThreeRecords(rs);
    var o := ParseOutput(b).value;
    ToFromBe(Find(rs, 1).value);
    assert rs == OutputRecords(o);
    assert rs[2] in rs;
  }

  lemma OutputPrinted(o: AssetOutput)
    requires |o.proof| < U64_LIMIT
    ensures ParseOutput(OutputBytes(o)) == Success(o)
  {
    var rs := OutputRecords(o);
    OrderFaultExact(rs);
    DecodeEncode(rs);
    FindThree(rs[0], rs[1], rs[2]);
    Pow256Eight();
    FromToBe(o.amount, 8);
  }

  // ----- lists of asset outputs -----

  function Amount(outputs: seq<AssetOutput>): nat {
    if outputs == [] then 0 else Amount(outputs[..|outputs| - 1]) + outputs[|outputs| - 1].amount
  }

  function TakeOutput(b: Bytes): Parsed<Taken<AssetOutput>> {
    var raw := ReadInline(b);
    if raw.Failure? then Failure(raw.error)
    else
      var o := ParseOutput(raw.value.value);
      if o.Failure? then Failure(o.error) else Success(Taken(o.value, raw.value.rest))
  }

  function PrintOutput(o: AssetOutput): Bytes {
    InlineBytes(OutputBytes(o))
  }

  /** The outputs with their total, which fits in 64 bits. */
  function OutputList(b: Bytes): Parsed<seq<AssetOutput>> {
    var outputs := ListOf(TakeOutput, MAX_OUTPUTS, b);
    if outputs.Failure? then outputs
    else if Amount(outputs.value) >= U64_LIMIT then Failure(AssetAmountOverflow)
    else outputs
  }

  /** The checked sum of the amounts, in order. */
  method SumAmounts(outputs: seq<AssetOutput>) returns (r: Option<u64>)
    ensures r == if Amount(outputs) < U64_LIMIT then Some(Amount(outputs)) else None
  {
    var sum: u64 := 0;
    assert outputs[..|outputs|] == outputs;
    for i := 0 to |outputs|
      invariant sum == Amount(outputs[..i])
    {
      assert outputs[..i + 1][..i] == outputs[..i];
      AmountGrows(outputs, i + 1);
      if sum + outputs[i].amount >= U64_LIMIT {
        return None;
      }
      sum := sum + outputs[i].amount;
    }
    return Some(sum);
  }

  lemma {:induction false} AmountGrows(outputs: seq<AssetOutput>, i: nat)
    requires i <= |outputs|
    ensures Amount(outputs[..i]) <= Amount(outputs)
    decreases |outputs| - i
  {
    if i == |outputs| {
      assert outputs[..i] == outputs;
    } else {
      AmountGrows(outputs, i + 1);
      assert outputs[..i + 1][..i] == outputs[..i];
    }
  }

  method ParseOutputList(b: Bytes) returns (r: Parsed<(seq<AssetOutput>, u64)>)
    ensures r.Success? <==> OutputList(b).Success?
    ensures r.Success? ==> r.value.0 == OutputList(b).value && r.value.1 == Amount(r.value.0)
    ensures r.Failure? ==> OutputList(b) == Failure(r.error)
  {
    var outputs := ParseList(TakeOutput, MAX_OUTPUTS, b);
    if outputs.Failure? {
      return Failure(outputs.error);
    }
    var sum := SumAmounts(outputs.value);
    if sum.None? {
      return Failure(AssetAmountOverflow);
    }
    return Success((outputs.value, sum.value));
  }

  function OutputListBytes(outputs: seq<AssetOutput>): Bytes {
    PrintList(PrintOutput, outputs)
  }

  lemma OutputsTaken()
    ensures TakesPrinted(TakeOutput, PrintOutput)
  {
    forall b: Bytes | TakeOutput(b).Success?
      ensures b == PrintOutput(TakeOutput(b).value.value) + TakeOutput(b).value.rest
    {
      InlineExact(b);
      OutputExact(ReadInline(b).value.value);
    }
  }

  /** The printed form of the output has a length that a 64-bit prefix can hold. */
  predicate Sized(o: AssetOutput) {
    |o.proof| < U64_LIMIT && |OutputBytes(o)| < U64_LIMIT
  }

  lemma OutputReadsBack(o: AssetOutput)
    requires Sized(o)
    ensures ReadsBack(TakeOutput, PrintOutput, o)
  {
    OutputPrinted(o);
    forall tail: Bytes
      ensures TakeOutput(PrintOutput(o) + tail) == Success(Taken(o, tail))
    {
      InlinePrinted(OutputBytes(o), tail);
    }
  }

  /** The output list parser accepts exactly the printed lists of at most 2048 outputs whose amounts
      add up, mathematically, to a 64-bit number: accepted bytes are the count and the outputs and
      nothing else. */
  lemma OutputListExact(b: Bytes)
    requires OutputList(b).Success?
    ensures var outputs := OutputList(b).value;
            |outputs| <= MAX_OUTPUTS && Amount(outputs) < U64_LIMIT && OutputListBytes(outputs) == b
  {
    OutputsTaken();
    ListExact(TakeOutput, PrintOutput, MAX_OUTPUTS, b);
  }

  lemma {:induction false} OutputListPrinted(outputs: seq<AssetOutput>)
    requires |outputs| <= MAX_OUTPUTS && Amount(outputs) < U64_LIMIT && forall o <- outputs :: Sized(o)
    ensures OutputList(OutputListBytes(outputs)) == Success(outputs)
  {
    forall o <- outputs
      ensures ReadsBack(TakeOutput, PrintOutput, o)
    {
      OutputReadsBack(o);
    }
    ListPrinted(TakeOutput, PrintOutput, MAX_OUTPUTS, outputs);
  }

  // ----- outputs of HTLCs -----

  datatype HtlcOutputs = HtlcOutputs(index: u64, outputs: seq<AssetOutput>)

  function TakeHtlc(b: Bytes): Parsed<Taken<HtlcOutputs>> {
    var index := ReadVarint(b);
    if index.Failure? then Failure(index.error)
    else
      var raw := ReadInline(index.value.rest);
      if raw.Failure? then Failure(raw.error)
      else
        var outputs := OutputList(raw.value.value);
        if outputs.Failure? then Failure(outputs.error)
        else Success(Taken(HtlcOutputs(index.value.value, outputs.value), raw.value.rest))
  }

  function PrintHtlc(h: HtlcOutputs): Bytes {
    BigSize(h.index) + InlineBytes(OutputListBytes(h.outputs))
  }

  /** The amounts of all outputs of all HTLCs. */
  function HtlcAmount(hs: seq<HtlcOutputs>): nat {
    if hs == [] then 0 else HtlcAmount(hs[..|hs| - 1]) + Amount(hs[|hs| - 1].outputs)
  }

  function HtlcOutputList(b: Bytes): Parsed<seq<HtlcOutputs>> {
    var hs := ListOf(TakeHtlc, MAX_HTLCS, b);
    if hs.Failure? then hs
    else if HtlcAmount(hs.value) >= U64_LIMIT then Failure(AssetAmountOverflow)
    else hs
  }

  /** The entries, the checked total each of them was parsed with, and the checked total of those. */
  datatype HtlcSummary = HtlcSummary(entries: seq<HtlcOutputs>, totals: seq<u64>, total: u64)

  predicate TotalsOf(hs: seq<HtlcOutputs>, totals: seq<u64>) {
    |totals| == |hs| && forall i | 0 <= i < |hs| :: totals[i] == Amount(hs[i].outputs)
  }

  function SumOf(totals: seq<u64>): nat {
    if totals == [] then 0 else SumOf(totals[..|totals| - 1]) + totals[|totals| - 1]
  }

  lemma {:induction false} SumGrows(totals: seq<u64>, i: nat)
    requires i <= |totals|
    ensures SumOf(totals[..i]) <= SumOf(totals)
    decreases |totals| - i
  {
    if i == |totals| {
      assert totals[..i] == totals;
    } else {
      SumGrows(totals, i + 1);
      assert totals[..i + 1][..i] == totals[..i];
    }
  }

  lemma {:induction false} TotalsAdd(hs: seq<HtlcOutputs>, totals: seq<u64>)
    requires TotalsOf(hs, totals)
    ensures SumOf(totals) == HtlcAmount(hs)
  {
    if hs != [] {
      TotalsAdd(hs[..|hs| - 1], totals[..|hs| - 1]);
    }
  }

  /** The checked sum of the entries' totals. */
  method SumTotals(totals: seq<u64>) returns (r: Option<u64>)
    ensures r == if SumOf(totals) < U64_LIMIT then Some(SumOf(totals)) else None
  {
    var sum: u64 := 0;
    assert totals[..|totals|] == totals;
    for i := 0 to |totals|
      invariant sum == SumOf(totals[..i])
    {
      assert totals[..i + 1][..i] == totals[..i];
      SumGrows(totals, i + 1);
      if sum + totals[i] >= U64_LIMIT {
        return None;
      }
      sum := sum + totals[i];
    }
    return Some(sum);
  }

  predicate TakesHtlc(take: Taker<HtlcOutputs>, b: Bytes) {
    take(b) == TakeHtlc(b)
  }

  /** One entry off the cursor: its index, its outputs, and their checked total. */
  method ParseHtlcEntry(ghost take: Taker<HtlcOutputs>, cursor: Bytes) returns (r: Parsed<Taken<(HtlcOutputs, u64)>>)
    requires forall b: Bytes :: TakesHtlc(take, b)
    ensures r.Success? ==> take(cursor) == Success(Taken(r.value.value.0, r.value.rest))
    ensures r.Success? ==> r.value.value.1 == Amount(r.value.value.0.outputs)
    ensures r.Failure? ==> take(cursor) == Failure(r.error)
  {
    assert TakesHtlc(take, cursor);
    var index := ReadVarint(cursor);
    if index.Failure? {
      return Failure(index.error);
    }
    var raw := ReadInline(index.value.rest);
    if raw.Failure? {
      return Failure(raw.error);
    }
    var outputs := ParseOutputList(raw.value.value);
    if outputs.Failure? {
      return Failure(outputs.error);
    }
    return Success(Taken((HtlcOutputs(index.value.value, outputs.value.0), outputs.value.1), raw.value.rest));
  }

  lemma {:induction false} EachStep<T>(take: Taker<T>, cursor: Bytes, n: nat, done: seq<T>, t: Parsed<Taken<T>>)
    requires n > 0 && take(cursor) == t
    ensures TakeEach(take, cursor, n, done) ==
              if t.Failure? then Failure(t.error) else TakeEach(take, t.value.rest, n - 1, done + [t.value.value])
  {
  }

  lemma TotalsSnoc(hs: seq<HtlcOutputs>, totals: seq<u64>, h: HtlcOutputs, total: u64)
    requires TotalsOf(hs, totals) && total == Amount(h.outputs)
    ensures TotalsOf(hs + [h], totals + [total])
  {
  }

  /** The loop over the entries, keeping the total of each. `take` is `TakeHtlc`. */
  method ParseHtlcEntries(ghost take: Taker<HtlcOutputs>, start: Bytes, n: nat)
      returns (r: Parsed<Taken<(seq<HtlcOutputs>, seq<u64>)>>)
    requires forall b: Bytes :: TakesHtlc(take, b)
    ensures r.Success? ==> TakeEach(take, start, n, []) == Success(Taken(r.value.value.0, r.value.rest))
    ensures r.Success? ==> TotalsOf(r.value.value.0, r.value.value.1)
    ensures r.Failure? ==> TakeEach(take, start, n, []) == Failure(r.error)
  {
    var cursor, entries: seq<HtlcOutputs>, totals: seq<u64> := start, [], [];
    for i := 0 to n
      invariant TotalsOf(entries, totals)
      invariant TakeEach(take, start, n, []) == TakeEach(take, cursor, n - i, entries)
    {
      var entry := ParseHtlcEntry(take, cursor);
      EachStep(take, cursor, n - i, entries, take(cursor));
      if entry.Failure? {
        return Failure(entry.error);
      }
      TotalsSnoc(entries, totals, entry.value.value.0, entry.value.value.1);
      cursor := entry.value.rest;
      entries := entries + [entry.value.value.0];
      totals := totals + [entry.value.value.1];
    }
    return Success(Taken((entries, totals), cursor));
  }

  /** The nested parser: the entries with their totals, then the sum of the totals. It accepts exactly what
      the grammar accepts with all amounts together below 2^64, and returns their mathematical sum. */
  method ParseHtlcOutputList(b: Bytes) returns (r: Parsed<HtlcSummary>)
    ensures r.Success? <==> ListOf(TakeHtlc, MAX_HTLCS, b).Success? && HtlcAmount(ListOf(TakeHtlc, MAX_HTLCS, b).value) < U64_LIMIT
    ensures r.Success? ==> HtlcOutputList(b) == Success(r.value.entries) && TotalsOf(r.value.entries, r.value.totals)
    ensures r.Success? ==> r.value.total == HtlcAmount(r.value.entries)
    ensures r.Failure? ==> HtlcOutputList(b) == Failure(r.error)
  {
    var count := ReadVarint(b);
    if count.Failure? {
      return Failure(count.error);
    }
    if count.value.value > MAX_HTLCS {
      return Failure(TooManyItems(count.value.value, MAX_HTLCS));
    }
    var items := ParseHtlcEntries(TakeHtlc, count.value.rest, count.value.value);
    if items.Failure? {
      return Failure(items.error);
    }
    if items.value.rest != [] {
      return Failure(TrailingBytes(|items.value.rest|));
    }
    var (entries, totals) := items.value.value;
    TotalsAdd(entries, totals);
    var total := SumTotals(totals);
    if total.None? {
      return Failure(AssetAmountOverflow);
    }
    return Success(HtlcSummary(entries, totals, total.value));
  }

  function HtlcListBytes(hs: seq<HtlcOutputs>): Bytes {
    PrintList(PrintHtlc, hs)
  }

  lemma HtlcsTaken()
    ensures TakesPrinted(TakeHtlc, PrintHtlc)
  {
    forall b: Bytes | TakeHtlc(b).Success?
      ensures b == PrintHtlc(TakeHtlc(b).value.value) + TakeHtlc(b).value.rest
    {
      BigSizeExact(b);
      var index := TakeBigSize(b).value;
      InlineExact(index.rest);
      var raw := ReadInline(index.rest).value;
      OutputListExact(raw.value);
      Assoc(BigSize(index.value), InlineBytes(raw.value), raw.rest);
    }
  }

  predicate HtlcSized(h: HtlcOutputs) {
    && |h.outputs| <= MAX_OUTPUTS && Amount(h.outputs) < U64_LIMIT
    && (forall o <- h.outputs :: Sized(o))
    && |OutputListBytes(h.outputs)| < U64_LIMIT
  }

  lemma HtlcReadsBack(h: HtlcOutputs)
    requires HtlcSized(h)
    ensures ReadsBack(TakeHtlc, PrintHtlc, h)
  {
    OutputListPrinted(h.outputs);
    var raw := OutputListBytes(h.outputs);
    forall tail: Bytes
      ensures TakeHtlc(PrintHtlc(h) + tail) == Success(Taken(h, tail))
    {
      Assoc(BigSize(h.index), InlineBytes(raw), tail);
      BigSizePrinted(h.index, InlineBytes(raw) + tail);
      InlinePrinted(raw, tail);
    }
  }

  /** Nested parsing is exact: accepted bytes are the printed form of at most 483 HTLC entries, each with
      at most 2048 outputs, and all amounts together fit in 64 bits. */
  lemma HtlcListExact(b: Bytes)
    requires HtlcOutputList(b).Success?
    ensures var hs := HtlcOutputList(b).value;
            |hs| <= MAX_HTLCS && HtlcAmount(hs) < U64_LIMIT && HtlcListBytes(hs) == b
  {
    HtlcsTaken();
    ListExact(TakeHtlc, PrintHtlc, MAX_HTLCS, b);
  }

  lemma {:induction false} HtlcListPrinted(hs: seq<HtlcOutputs>)
    requires |hs| <= MAX_HTLCS && HtlcAmount(hs) < U64_LIMIT && forall h <- hs :: HtlcSized(h)
    ensures HtlcOutputList(HtlcListBytes(hs)) == Success(hs)
  {
    forall h <- hs
      ensures ReadsBack(TakeHtlc, PrintHtlc, h)
    {
      HtlcReadsBack(h);
    }
    ListPrinted(TakeHtlc, PrintHtlc, MAX_HTLCS, hs);
  }

  // ----- lists of RFQ ids -----

  function TakeId(b: Bytes): Parsed<Taken<Bytes32>> {
    var t := TakeBytes(b, 32);
    if t.Failure? then Failure(t.error) else Success(Taken(t.value.value, t.value.rest))
  }

  function PrintId(id: Bytes32): Bytes {
    id
  }

  function RfqIdList(b: Bytes): Parsed<seq<Bytes32>> {
    ListOf(TakeId, MAX_RFQ_IDS, b)
  }

  /** An id list is accepted exactly as the count and the ids it prints to. */
  lemma RfqIdListExact(b: Bytes)
    requires RfqIdList(b).Success?
    ensures |RfqIdList(b).value| <= MAX_RFQ_IDS && PrintList(PrintId, RfqIdList(b).value) == b
  {
    forall x: Bytes | TakeId(x).Success?
      ensures x == PrintId(TakeId(x).value.value) + TakeId(x).value.rest
    {
      assert x == x[..32] + x[32..];
    }
    ListExact(TakeId, PrintId, MAX_RFQ_IDS, b);
  }

  lemma RfqIdListPrinted(ids: seq<Bytes32>)
    requires |ids| <= MAX_RFQ_IDS
    ensures RfqIdList(PrintList(PrintId, ids)) == Success(ids)
  {
    forall id <- ids
      ensures ReadsBack(TakeId, PrintId, id)
    {
      forall tail: Bytes
        ensures TakeId(PrintId(id) + tail) == Success(Taken(id, tail))
      {
        assert (id + tail)[..32] == id && (id + tail)[32..] == tail;
      }
    }
    ListPrinted(TakeId, PrintId, MAX_RFQ_IDS, ids);
  }

  // ----- tap leaves -----

  datatype TapLeaf = TapLeaf(version: byte, script: Bytes)

  /** A version byte, the script length, and the script with its length once more. */
  function ParseTapLeaf(b: Bytes): Parsed<TapLeaf> {
    var version := TakeBytes(b, 1);
    if version.Failure? then Failure(version.error)
    else
      var declared := ReadVarint(version.value.rest);
      if declared.Failure? then Failure(declared.error)
      else if declared.value.value > MAX_SCRIPT_LEN then Failure(TooManyItems(declared.value.value, MAX_SCRIPT_LEN))
      else
        var script := ReadInline(declared.value.rest);
        if script.Failure? then Failure(script.error)
        else if script.value.rest != [] then Failure(TrailingBytes(|script.value.rest|))
        else if |script.value.value| != declared.value.value then Failure(ScriptLengthMismatch)
        else Success(TapLeaf(version.value.value[0], script.value.value))
  }

  function TapLeafBytes(l: TapLeaf): Bytes
    requires |l.script| < U64_LIMIT
  {
    [l.version] + (BigSize(|l.script|) + InlineBytes(l.script))
  }

  /** A leaf is accepted exactly when it is the printed form of a script within the limit. */
  lemma TapLeafExact(b: Bytes)
    requires ParseTapLeaf(b).Success?
    ensures var l := ParseTapLeaf(b).value; |l.script| <= MAX_SCRIPT_LEN && TapLeafBytes(l) == b
  {
    var rest := b[1..];
    assert b == [b[0]] + rest;
    BigSizeExact(rest);
    var declared := TakeBigSize(rest).value;
    InlineExact(declared.rest);
    var script := ReadInline(declared.rest).value;
    assert InlineBytes(script.value) + [] == InlineBytes(script.value);
  }

  lemma TapLeafPrinted(l: TapLeaf)
    requires |l.script| <= MAX_SCRIPT_LEN
    ensures ParseTapLeaf(TapLeafBytes(l)) == Success(l)
  {
    var rest := BigSize(|l.script|) + InlineBytes(l.script);
    var b := [l.version] + rest;
    assert b[..1] == [l.version] && b[1..] == rest;
    BigSizePrinted(|l.script|, InlineBytes(l.script));
    InlinePrinted(l.script, []);
    assert InlineBytes(l.script) + [] == InlineBytes(l.script);
  }
}
