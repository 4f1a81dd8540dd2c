/** Messages whose optional fields are TLV records: collected, sorted, encoded, and looked up again. */
module TlvFields {
  import opened ByteBits
  import opened Primitives
  import opened Tlv

  /** One field of a message; a field without a value has no record. */
  datatype Field = Field(typeId: u64, value: Option<Bytes>)

  function Flatten(fs: seq<Field>): seq<Record> {
    if fs == [] then []
    else
      var f := fs[|fs| - 1];
      Flatten(fs[..|fs| - 1]) + if f.value.Some? then [Record(f.typeId, f.value.value)] else []
  }

  predicate DistinctFields(fs: seq<Field>) {
    forall i, j | 0 <= i < j < |fs| :: fs[i].typeId != fs[j].typeId
  }

  predicate FieldsFit(fs: seq<Field>) {
    forall f <- fs :: f.value.Some? ==> |f.value.value| < U64_LIMIT
  }

  function Get(m: map<u64, Bytes>, t: u64): Option<Bytes> {
    if t in m then Some(m[t]) else None
  }

  /** Every record comes from a field. */
  lemma {:induction false} FlattenFrom(fs: seq<Field>, r: Record)
    requires r in Flatten(fs)
    ensures Field(r.typeId, Some(r.value)) in fs
  {
    var front, f := fs[..|fs| - 1], fs[|fs| - 1];
    if r in Flatten(front) {
      FlattenFrom(front, r);
    } else {
      assert f == Field(r.typeId, Some(r.value));
    }
  }

  lemma {:induction false} FlattenDistinct(fs: seq<Field>)
    requires DistinctFields(fs)
    ensures DistinctTypes(Flatten(fs))
  {
    if fs != [] {
      var front, f := fs[..|fs| - 1], fs[|fs| - 1];
      FlattenDistinct(front);
      forall r <- Flatten(front)
        ensures r.typeId != f.typeId
      {
        FlattenFrom(front, r);
        var i :| 0 <= i < |front| && front[i] == Field(r.typeId, Some(r.value));
        assert fs[i].typeId != fs[|fs| - 1].typeId;
      }
    }
  }

  lemma {:induction false} FlattenFits(fs: seq<Field>)
    requires FieldsFit(fs)
    ensures Tlv.Fits(Flatten(fs))
  {
    forall r <- Flatten(fs)
      ensures |r.value| < U64_LIMIT
    {
      FlattenFrom(fs, r);
    }
  }

  /** Looking a field up gives its value, or nothing when it has none. */
  lemma {:induction false} FlattenGet(fs: seq<Field>, i: nat)
    requires DistinctFields(fs) && i < |fs|
    ensures Get(ByType(Flatten(fs)), fs[i].typeId) == fs[i].value
  {
    var rs, f := Flatten(fs), fs[i];
    FlattenDistinct(fs);
    ByTypeHolds(rs);
    if f.value.Some? {
      FlattenHas(fs, i);
    } else if f.typeId in ByType(rs) {
      var r := Record(f.typeId, ByType(rs)[f.typeId]);
      assert r in rs;
      FlattenFrom(fs, r);
      var j :| 0 <= j < |fs| && fs[j] == Field(r.typeId, Some(r.value));
      assert fs[j].typeId == fs[i].typeId;
    }
  }

  lemma {:induction false} FlattenHas(fs: seq<Field>, i: nat)
    requires i < |fs| && fs[i].value.Some?
    ensures Record(fs[i].typeId, fs[i].value.value) in Flatten(fs)
  {
    if i < |fs| - 1 {
      FlattenHas(fs[..|fs| - 1], i);
    }
  }

  function EncodeFields(fs: seq<Field>): Result<Bytes, TlvError>
    requires FieldsFit(fs)
  {
    FlattenFits(fs);
    SortFits(Flatten(fs));
    EncodeStream(SortRecords(Flatten(fs)))
  }

  lemma {:induction false} SortFits(rs: seq<Record>)
    requires Tlv.Fits(rs)
    ensures Tlv.Fits(SortRecords(rs))
  {
    forall r <- SortRecords(rs)
      ensures |r.value| < U64_LIMIT
    {
      assert r in multiset(SortRecords(rs));
    }
  }

  lemma {:induction false} KnownOnly(rs: seq<Record>, known: seq<u64>)
    requires forall r <- rs :: r.typeId in known
    ensures UnknownRequired(rs, known).None?
  {
    if rs != [] {
      KnownOnly(rs[..|rs| - 1], known);
    }
  }

  lemma {:induction false} KeysFromRecords(rs: seq<Record>)
    ensures forall t <- ByType(rs) :: exists r <- rs :: r.typeId == t
  {
    if rs != [] {
      var front, last := rs[..|rs| - 1], rs[|rs| - 1];
      KeysFromRecords(front);
      assert rs == front + [last];
      forall t <- ByType(rs)
        ensures exists r <- rs :: r.typeId == t
      {
        if t == last.typeId {
          assert last in rs;
        } else {
          assert t in ByType(front);
          var r :| r in front && r.typeId == t;
          assert r in rs;
        }
      }
    }
  }

  /** What is encoded from fields of distinct known types decodes to records that carry exactly those
      fields, in whatever order the fields were given. */
  lemma {:induction false} FieldsRoundTrip(fs: seq<Field>, known: seq<u64>)
    requires DistinctFields(fs) && FieldsFit(fs) && forall f <- fs :: f.typeId in known
    ensures EncodeFields(fs).Success?
    ensures var rs := DecodeStream(EncodeFields(fs).value);
            && rs.Success? && UnknownRequired(rs.value, known).None?
            && (forall i | 0 <= i < |fs| :: Get(ByType(rs.value), fs[i].typeId) == fs[i].value)
            && forall t <- ByType(rs.value) :: t in known
  {
    var rs := Flatten(fs);
    FlattenFits(fs);
    FlattenDistinct(fs);
    SortedStreamRoundTrip(rs);
    forall r <- SortRecords(rs)
      ensures r.typeId in known
    {
      assert r in multiset(SortRecords(rs));
      FlattenFrom(fs, r);
    }
    KnownOnly(SortRecords(rs), known);
    KeysFromRecords(SortRecords(rs));
    forall i | 0 <= i < |fs|
      ensures Get(ByType(SortRecords(rs)), fs[i].typeId) == fs[i].value
    {
      FlattenGet(fs, i);
    }
  }

  // ----- a fixed table of types with the values of one message -----

  function Fields(ts: seq<u64>, vs: seq<Option<Bytes>>): (fs: seq<Field>)
    requires |ts| == |vs|
    ensures |fs| == |ts| && forall i | 0 <= i < |ts| :: fs[i] == Field(ts[i], vs[i])
  {
    if ts == [] then [] else Fields(ts[..|ts| - 1], vs[..|vs| - 1]) + [Field(ts[|ts| - 1], vs[|vs| - 1])]
  }

  /** Short enough for a 64-bit length. */
  predicate Short(v: Option<Bytes>) {
    v.Some? ==> |v.value| < U64_LIMIT
  }

  lemma {:induction false} ShortFields(ts: seq<u64>, vs: seq<Option<Bytes>>)
    requires |ts| == |vs| && forall v <- vs :: Short(v)
    ensures FieldsFit(Fields(ts, vs))
  {
    forall f <- Fields(ts, vs)
      ensures Short(f.value)
    {
      var i :| 0 <= i < |ts| && Fields(ts, vs)[i] == f;
      assert vs[i] in vs;
    }
  }

  /** The values of a message, encoded under distinct types, are all found under their types again. */
  lemma {:induction false} FieldsDecode(ts: seq<u64>, vs: seq<Option<Bytes>>)
    requires |ts| == |vs| && (forall i, j | 0 <= i < j < |ts| :: ts[i] != ts[j]) && forall v <- vs :: Short(v)
    ensures FieldsFit(Fields(ts, vs)) && EncodeFields(Fields(ts, vs)).Success?
    ensures var rs := DecodeStream(EncodeFields(Fields(ts, vs)).value);
            && rs.Success? && UnknownRequired(rs.value, ts).None?
            && (forall i | 0 <= i < |ts| :: Get(ByType(rs.value), ts[i]) == vs[i])
            && forall t <- ByType(rs.value) :: t in ts
  {
    var fs := Fields(ts, vs);
    ShortFields(ts, vs);
    forall f <- fs
      ensures f.typeId in ts
    {
      var i :| 0 <= i < |fs| && fs[i] == f;
      assert ts[i] in ts;
    }
    FieldsRoundTrip(fs, ts);
    var m := ByType(DecodeStream(EncodeFields(fs).value).value);
    forall i | 0 <= i < |ts|
      ensures Get(m, ts[i]) == vs[i]
    {
      assert Get(m, fs[i].typeId) == fs[i].value;
    }
  }
}
