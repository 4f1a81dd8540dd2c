/** BigSize integers and TLV streams (BOLT #1, "Type-Length-Value Format" and appendix A). */
module Tlv {
  import opened ByteBits
  import opened Primitives

  datatype Record = Record(typeId: u64, value: Bytes)

  datatype TlvError =
    | TruncatedBigSize
    | NonCanonicalBigSize(value: u64, minimum: u64)
    | TruncatedRecord(typeId: u64, expected: u64, remaining: nat)
    | DuplicateType(typeId: u64)
    | OutOfOrder(previous: u64, next: u64)
    | UnknownRequiredType(typeId: u64)

  // ----- BigSize -----

  function BigSize(v: u64): (b: Bytes)
    ensures |b| > 0
  {
    if v < 0xfd then [v]
    else if v < 0x1_0000 then [0xfd] + ToBe(v, 2)
    else if v < 0x1_0000_0000 then [0xfe] + ToBe(v, 4)
    else [0xff] + ToBe(v, 8)
  }

  /** A value read from the front of a cursor, and the cursor after it. */
  datatype Taken<+T> = Taken(value: T, rest: Bytes)

  /** The big-endian integer of `width` bytes at the front, if it could not have been printed shorter. */
  function TakeWide(b: Bytes, width: nat, minimum: u64): Result<Taken<u64>, TlvError>
    requires width <= 8
  {
    if |b| < width then Failure(TruncatedBigSize)
    else
      FromBeBound(b[..width]);
      Pow256Grows(width, 8);
      Pow256Eight();
      var v := FromBe(b[..width]);
      if v < minimum then Failure(NonCanonicalBigSize(v, minimum)) else Success(Taken(v, b[width..]))
  }

  function TakeBigSize(b: Bytes): Result<Taken<u64>, TlvError> {
    if b == [] then Failure(TruncatedBigSize)
    else if b[0] < 0xfd then Success(Taken(b[0], b[1..]))
    else if b[0] == 0xfd then TakeWide(b[1..], 2, 0xfd)
    else if b[0] == 0xfe then TakeWide(b[1..], 4, 0x1_0000)
    else TakeWide(b[1..], 8, 0x1_0000_0000)
  }

  lemma {:induction false} Pow256Grows(m: nat, n: nat)
    requires m <= n
    ensures Pow256(m) <= Pow256(n)
  {
    if m < n {
      Pow256Grows(m, n - 1);
    }
  }

  lemma {:induction false} TakeWidePrinted(v: u64, width: nat, minimum: u64, rest: Bytes)
    requires width <= 8 && v < Pow256(width) && v >= minimum
    ensures TakeWide(ToBe(v, width) + rest, width, minimum) == Success(Taken(v, rest))
  {
    var b := ToBe(v, width) + rest;
    assert b[..width] == ToBe(v, width) && b[width..] == rest;
    FromToBe(v, width);
  }

  lemma {:induction false} TakeWideExact(b: Bytes, width: nat, minimum: u64)
    requires width <= 8 && TakeWide(b, width, minimum).Success?
    ensures var t := TakeWide(b, width, minimum).value;
            b == ToBe(t.value, width) + t.rest && minimum <= t.value < Pow256(width)
  {
    ToFromBe(b[..width]);
    FromBeBound(b[..width]);
    assert b == b[..width] + b[width..];
  }

  lemma SmallPowers()
    ensures Pow256(2) == 0x1_0000 && Pow256(4) == 0x1_0000_0000
  {
    assert Pow256(1) == 256;
    assert Pow256(3) == 256 * Pow256(2);
  }

  /** What was printed is read back, with whatever follows it left over. */
  lemma BigSizePrinted(v: u64, rest: Bytes)
    ensures TakeBigSize(BigSize(v) + rest) == Success(Taken(v, rest))
  {
    SmallPowers();
    Pow256Eight();
    var b := BigSize(v) + rest;
    if v < 0xfd {
      assert b[1..] == rest;
    } else if v < 0x1_0000 {
      assert b[1..] == ToBe(v, 2) + rest;
      TakeWidePrinted(v, 2, 0xfd, rest);
    } else if v < 0x1_0000_0000 {
      assert b[1..] == ToBe(v, 4) + rest;
      TakeWidePrinted(v, 4, 0x1_0000, rest);
    } else {
      assert b[1..] == ToBe(v, 8) + rest;
      TakeWidePrinted(v, 8, 0x1_0000_0000, rest);
    }
  }

  /** Only the canonical printing of a value is read as that value. */
  lemma BigSizeExact(b: Bytes)
    requires TakeBigSize(b).Success?
    ensures var t := TakeBigSize(b).value; b == BigSize(t.value) + t.rest
  {
    SmallPowers();
    Pow256Eight();
    var t := TakeBigSize(b).value;
    assert b == [b[0]] + b[1..];
    if b[0] == 0xfd {
      TakeWideExact(b[1..], 2, 0xfd);
      assert BigSize(t.value) + t.rest == [0xfd] + (ToBe(t.value, 2) + t.rest);
    } else if b[0] == 0xfe {
      TakeWideExact(b[1..], 4, 0x1_0000);
      assert BigSize(t.value) + t.rest == [0xfe] + (ToBe(t.value, 4) + t.rest);
    } else if b[0] == 0xff {
      TakeWideExact(b[1..], 8, 0x1_0000_0000);
      assert BigSize(t.value) + t.rest == [0xff] + (ToBe(t.value, 8) + t.rest);
    }
  }

  // ----- counted bytes -----

  /** A byte string with its BigSize length in front. */
  function Inline(v: Bytes): Bytes
    requires |v| < U64_LIMIT
  {
    BigSize(|v|) + v
  }

  // ----- records -----

  function RecordBytes(r: Record): (b: Bytes)
    requires |r.value| < U64_LIMIT
    ensures |b| > 0
  {
    BigSize(r.typeId) + Inline(r.value)
  }

  function TakeRecord(b: Bytes): Result<Taken<Record>, TlvError> {
    var typeId := TakeBigSize(b);
    if typeId.Failure? then Failure(typeId.error)
    else
      var len := TakeBigSize(typeId.value.rest);
      if len.Failure? then Failure(len.error)
      else
        var n, rest := len.value.value, len.value.rest;
        if |rest| < n then Failure(TruncatedRecord(typeId.value.value, n, |rest|))
        else Success(Taken(Record(typeId.value.value, rest[..n]), rest[n..]))
  }

  lemma RecordPrinted(r: Record, rest: Bytes)
    requires |r.value| < U64_LIMIT
    ensures TakeRecord(RecordBytes(r) + rest) == Success(Taken(r, rest))
  {
    var tail := r.value + rest;
    Assoc(BigSize(|r.value|), r.value, rest);
    Assoc(BigSize(r.typeId), Inline(r.value), rest);
    BigSizePrinted(r.typeId, BigSize(|r.value|) + tail);
    BigSizePrinted(|r.value|, tail);
    assert tail[..|r.value|] == r.value && tail[|r.value|..] == rest;
  }

  lemma RecordExact(b: Bytes)
    requires TakeRecord(b).Success?
    ensures var t := TakeRecord(b).value;
            |t.value.value| < U64_LIMIT && b == RecordBytes(t.value) + t.rest
  {
    BigSizeExact(b);
    var typeId := TakeBigSize(b).value;
    BigSizeExact(typeId.rest);
    var len := TakeBigSize(typeId.rest).value;
    var v, rest := len.rest[..len.value], len.rest[len.value..];
    assert len.rest == v + rest;
    var x, y := BigSize(typeId.value), BigSize(|v|);
    Assoc(y, v, rest);
    Assoc(x, y + v, rest);
  }

  // ----- streams -----

  predicate Fits(rs: seq<Record>) {
    forall r <- rs :: |r.value| < U64_LIMIT
  }

  function StreamBytes(rs: seq<Record>): Bytes
    requires Fits(rs)
  {
    if rs == [] then [] else StreamBytes(rs[..|rs| - 1]) + RecordBytes(rs[|rs| - 1])
  }

  /** Types have to be strictly ascending. */
  function OrderFault(rs: seq<Record>): Option<TlvError> {
    if |rs| < 2 then None
    else
      var n := |rs| - 1;
      var earlier := OrderFault(rs[..n]);
      if earlier.Some? then earlier
      else if rs[n].typeId == rs[n - 1].typeId then Some(DuplicateType(rs[n].typeId))
      else if rs[n].typeId < rs[n - 1].typeId then Some(OutOfOrder(rs[n - 1].typeId, rs[n].typeId))
      else None
  }

  predicate Ascending(rs: seq<Record>) {
    forall i, j | 0 <= i < j < |rs| :: rs[i].typeId < rs[j].typeId
  }

  lemma {:induction false} OrderFaultExact(rs: seq<Record>)
    ensures OrderFault(rs).None? <==> Ascending(rs)
  {
    if |rs| >= 2 {
      var n := |rs| - 1;
      OrderFaultExact(rs[..n]);
      if Ascending(rs) {
        assert Ascending(rs[..n]) && rs[n - 1].typeId < rs[n].typeId;
      }
    }
  }

  function EncodeStream(rs: seq<Record>): Result<Bytes, TlvError>
    requires Fits(rs)
  {
    if OrderFault(rs).Some? then Failure(OrderFault(rs).value) else Success(StreamBytes(rs))
  }

  /** All records of a byte string, whatever their order. */
  function ReadRecords(b: Bytes, done: seq<Record>): Result<seq<Record>, TlvError>
    decreases |b|
  {
    if b == [] then Success(done)
    else
      var t := TakeRecord(b);
      if t.Failure? then Failure(t.error)
      else
        RecordExact(b);
        ReadRecords(t.value.rest, done + [t.value.value])
  }

  function DecodeStream(b: Bytes): Result<seq<Record>, TlvError> {
    var rs := ReadRecords(b, []);
    if rs.Failure? then rs
    else if OrderFault(rs.value).Some? then Failure(OrderFault(rs.value).value)
    else rs
  }

  /** The stream read with a cursor that moves behind one record after the other. */
  method Decode(b: Bytes) returns (r: Result<seq<Record>, TlvError>)
    ensures r == DecodeStream(b)
  {
    var cursor := b;
    var records: seq<Record> := [];
    while cursor != []
      invariant ReadRecords(b, []) == ReadRecords(cursor, records)
      decreases |cursor|
    {
      var t := TakeRecord(cursor);
      if t.Failure? {
        return Failure(t.error);
      }
      RecordExact(cursor);
      cursor := t.value.rest;
      records := records + [t.value.value];
    }
    var fault := OrderFault(records);
    if fault.Some? {
      return Failure(fault.value);
    }
    return Success(records);
  }

  lemma {:induction false} FrontFits(rs: seq<Record>)
    requires rs != [] && Fits(rs)
    ensures Fits(rs[..|rs| - 1]) && |rs[|rs| - 1].value| < U64_LIMIT
    ensures StreamBytes(rs) == StreamBytes(rs[..|rs| - 1]) + RecordBytes(rs[|rs| - 1])
  {
    assert forall r <- rs[..|rs| - 1] :: r in rs;
    assert rs[|rs| - 1] in rs;
  }

  lemma {:induction false} RecordNotEmpty(r: Record)
    requires |r.value| < U64_LIMIT
    ensures RecordBytes(r) != []
  {
    assert |BigSize(r.typeId)| > 0;
  }

  lemma {:induction false} ReadOne(b: Bytes, done: seq<Record>, r: Record, rest: Bytes)
    requires TakeRecord(b) == Success(Taken(r, rest)) && b != []
    ensures ReadRecords(b, done) == ReadRecords(rest, done + [r])
  {
  }

  /** Reading past these bytes comes to the same as having read these records. */
  ghost predicate Skips(a: Bytes, rs: seq<Record>) {
    forall done: seq<Record>, tail: Bytes :: ReadRecords(a + tail, done) == ReadRecords(tail, done + rs)
  }

  lemma {:induction false} SkipsOne(r: Record)
    requires |r.value| < U64_LIMIT
    ensures Skips(RecordBytes(r), [r])
  {
    RecordNotEmpty(r);
    forall done: seq<Record>, tail: Bytes
      ensures ReadRecords(RecordBytes(r) + tail, done) == ReadRecords(tail, done + [r])
    {
      RecordPrinted(r, tail);
      ReadOne(RecordBytes(r) + tail, done, r, tail);
    }
  }

  lemma {:induction false} SkipsBoth(a: Bytes, rs: seq<Record>, b: Bytes, ts: seq<Record>)
    requires Skips(a, rs) && Skips(b, ts)
    ensures Skips(a + b, rs + ts)
  {
    forall done: seq<Record>, tail: Bytes
      ensures ReadRecords(a + b + tail, done) == ReadRecords(tail, done + (rs + ts))
    {
      Assoc(a, b, tail);
      Assoc(done, rs, ts);
      assert ReadRecords(a + (b + tail), done) == ReadRecords(b + tail, done + rs);
      assert ReadRecords(b + tail, done + rs) == ReadRecords(tail, done + rs + ts);
    }
  }

  lemma {:induction false} SkipsNothing()
    ensures Skips([], [])
  {
    forall done: seq<Record>, tail: Bytes
      ensures ReadRecords([] + tail, done) == ReadRecords(tail, done + [])
    {
      assert [] + tail == tail && done + [] == done;
    }
  }

  lemma {:induction false} StreamSkips(rs: seq<Record>)
    requires Fits(rs)
    ensures Skips(StreamBytes(rs), rs)
  {
    if rs == [] {
      SkipsNothing();
    } else {
      var front, last := rs[..|rs| - 1], rs[|rs| - 1];
      FrontFits(rs);
      StreamSkips(front);
      SkipsOne(last);
      SkipsBoth(StreamBytes(front), front, RecordBytes(last), [last]);
      assert front + [last] == rs;
    }
  }

  lemma {:induction false} ReadPrinted(rs: seq<Record>, done: seq<Record>, tail: Bytes)
    requires Fits(rs)
    ensures ReadRecords(StreamBytes(rs) + tail, done) == ReadRecords(tail, done + rs)
  {
    StreamSkips(rs);
  }

  lemma {:induction false} ReadExact(b: Bytes, done: seq<Record>)
    requires Fits(done) && ReadRecords(b, done).Success?
    ensures Fits(ReadRecords(b, done).value)
    ensures StreamBytes(ReadRecords(b, done).value) == StreamBytes(done) + b
    decreases |b|
  {
    if b == [] {
      assert StreamBytes(done) + b == StreamBytes(done);
    } else {
      RecordExact(b);
      var t := TakeRecord(b).value;
      var more := done + [t.value];
      assert more[..|more| - 1] == done;
      ReadExact(t.rest, more);
      Assoc(StreamBytes(done), RecordBytes(t.value), t.rest);
    }
  }

  /** Decoding what was encoded gives the records back. */
  lemma DecodeEncode(rs: seq<Record>)
    requires Fits(rs) && EncodeStream(rs).Success?
    ensures DecodeStream(EncodeStream(rs).value) == Success(rs)
  {
    ReadPrinted(rs, [], []);
    assert StreamBytes(rs) + [] == StreamBytes(rs) && [] + rs == rs;
  }

  /** Whatever is decoded encodes to the very same bytes: a stream has one form. */
  lemma EncodeDecode(b: Bytes)
    requires DecodeStream(b).Success?
    ensures Fits(DecodeStream(b).value) && EncodeStream(DecodeStream(b).value) == Success(b)
    ensures Ascending(DecodeStream(b).value)
  {
    ReadExact(b, []);
    assert StreamBytes([]) + b == b;
    OrderFaultExact(DecodeStream(b).value);
  }

  /** Types outside `known` have to be odd. */
  function UnknownRequired(rs: seq<Record>, known: seq<u64>): Option<TlvError> {
    if rs == [] then None
    else
      var r := rs[|rs| - 1];
      var earlier := UnknownRequired(rs[..|rs| - 1], known);
      if earlier.Some? then earlier
      else if r.typeId !in known && r.typeId % 2 == 0 then Some(UnknownRequiredType(r.typeId))
      else None
  }

  // ----- records by type -----

  /** The map a record list is collected into: the last record of a type wins. */
  function ByType(rs: seq<Record>): map<u64, Bytes> {
    if rs == [] then map[] else ByType(rs[..|rs| - 1])[rs[|rs| - 1].typeId := rs[|rs| - 1].value]
  }

  predicate DistinctTypes(rs: seq<Record>) {
    forall i, j | 0 <= i < j < |rs| :: rs[i].typeId != rs[j].typeId
  }

  lemma ByTypeStep(front: seq<Record>, last: Record, t: u64, v: Bytes)
    requires DistinctTypes(front + [last])
    requires (t in ByType(front) && ByType(front)[t] == v) <==> Record(t, v) in front
    ensures (t in ByType(front)[last.typeId := last.value] && ByType(front)[last.typeId := last.value][t] == v)
              <==> Record(t, v) in front + [last]
  {
    if Record(t, v) in front {
      var i :| 0 <= i < |front| && front[i] == Record(t, v);
      assert (front + [last])[i].typeId != (front + [last])[|front|].typeId;
    }
  }

  lemma {:induction false} ByTypeHolds(rs: seq<Record>)
    requires DistinctTypes(rs)
    ensures forall t: u64, v: Bytes :: (t in ByType(rs) && ByType(rs)[t] == v) <==> Record(t, v) in rs
  {
    if rs != [] {
      var front, last := rs[..|rs| - 1], rs[|rs| - 1];
      ByTypeHolds(front);
      assert rs == front + [last];
      forall t: u64, v: Bytes
        ensures (t in ByType(rs) && ByType(rs)[t] == v) <==> Record(t, v) in rs
      {
        ByTypeStep(front, last, t, v);
      }
    }
  }

  /** The same records in another order give the same map. */
  lemma {:induction false} SameRecordsSameMap(xs: seq<Record>, ys: seq<Record>)
    requires DistinctTypes(xs) && DistinctTypes(ys) && multiset(xs) == multiset(ys)
    ensures ByType(xs) == ByType(ys)
  {
    ByTypeHolds(xs);
    ByTypeHolds(ys);
    assert forall r :: r in xs <==> r in multiset(xs);
    assert forall r :: r in ys <==> r in multiset(ys);
    var x, y := ByType(xs), ByType(ys);
    forall t: u64
      ensures (t in x <==> t in y) && (t in x ==> x[t] == y[t])
    {
      if t in x {
        assert Record(t, x[t]) in xs;
        assert Record(t, x[t]) in ys;
      }
      if t in y {
        assert Record(t, y[t]) in ys;
        assert Record(t, y[t]) in xs;
      }
    }
  }

  // ----- sorting by type -----

  function InsertRecord(rs: seq<Record>, r: Record): (s: seq<Record>)
    ensures multiset(s) == multiset(rs) + multiset{r}
  {
    if rs == [] || rs[|rs| - 1].typeId <= r.typeId then rs + [r]
    else
      assert rs == rs[..|rs| - 1] + [rs[|rs| - 1]];
      InsertRecord(rs[..|rs| - 1], r) + [rs[|rs| - 1]]
  }

  function SortRecords(rs: seq<Record>): (s: seq<Record>)
    ensures multiset(s) == multiset(rs)
  {
    if rs == [] then []
    else
      assert rs == rs[..|rs| - 1] + [rs[|rs| - 1]];
      InsertRecord(SortRecords(rs[..|rs| - 1]), rs[|rs| - 1])
  }

  lemma AscendingSnoc(rs: seq<Record>, last: Record)
    requires Ascending(rs) && forall x <- rs :: x.typeId < last.typeId
    ensures Ascending(rs + [last])
  {
  }

  lemma LastIsGreatest(rs: seq<Record>)
    requires Ascending(rs) && rs != []
    ensures forall x <- rs :: x.typeId <= rs[|rs| - 1].typeId
  {
  }

  lemma {:induction false} InsertAscending(rs: seq<Record>, r: Record)
    requires Ascending(rs) && forall x <- rs :: x.typeId != r.typeId
    ensures Ascending(InsertRecord(rs, r))
  {
    if rs == [] {
    } else {
      var front, last := rs[..|rs| - 1], rs[|rs| - 1];
      LastIsGreatest(rs);
      if last.typeId > r.typeId {
        InsertAscending(front, r);
        forall x <- InsertRecord(front, r)
          ensures x.typeId < last.typeId
        {
          assert x in multiset(InsertRecord(front, r));
        }
        AscendingSnoc(InsertRecord(front, r), last);
      } else {
        assert last in rs;
        AscendingSnoc(rs, r);
      }
    }
  }

  lemma {:induction false} SortAscending(rs: seq<Record>)
    requires DistinctTypes(rs)
    ensures Ascending(SortRecords(rs))
  {
    if rs != [] {
      var front, last := rs[..|rs| - 1], rs[|rs| - 1];
      SortAscending(front);
      forall x <- SortRecords(front)
        ensures x.typeId != last.typeId
      {
        assert x in multiset(SortRecords(front));
        assert x in front;
        var i :| 0 <= i < |front| && front[i] == x;
        assert rs[i].typeId != rs[|rs| - 1].typeId;
      }
      InsertAscending(SortRecords(front), last);
    }
  }

  lemma AscendingDistinct(rs: seq<Record>)
    requires Ascending(rs)
    ensures DistinctTypes(rs)
  {
  }

  /** A list of records of distinct types survives sorting, encoding, decoding and collecting. */
  lemma {:induction false} SortedStreamRoundTrip(rs: seq<Record>)
    requires DistinctTypes(rs) && Fits(rs)
    ensures Fits(SortRecords(rs))
    ensures var encoded := EncodeStream(SortRecords(rs));
            && encoded.Success? && DecodeStream(encoded.value) == Success(SortRecords(rs))
            && ByType(SortRecords(rs)) == ByType(rs)
  {
    var s := SortRecords(rs);
    forall r <- s
      ensures |r.value| < U64_LIMIT
    {
      assert r in multiset(s);
    }
    SortAscending(rs);
    OrderFaultExact(s);
    DecodeEncode(s);
    AscendingDistinct(s);
    SameRecordsSameMap(rs, s);
  }
}
