/** The wire form of a compressed proof: a node count, the nodes, and 256 packed bits. */
module MssmtBytes {
  import opened ByteBits
  import opened Primitives
  import opened KeyBits
  import opened MssmtSpec
  import opened MssmtCodec

  // ----- packed bits, least significant first -----

  function BitsValue(bits: seq<bool>): nat {
    if bits == [] then 0 else (if bits[0] then 1 else 0) + 2 * BitsValue(bits[1..])
  }

  lemma {:induction false} BitsValueBit(bits: seq<bool>, j: nat)
    ensures BitsValue(bits) < Pow2(|bits|)
    ensures BitOf(BitsValue(bits), j) == (j < |bits| && bits[j])
  {
    if bits == [] {
      ZeroBit(j);
    } else {
      BitsValueBit(bits[1..], if j > 0 then j - 1 else 0);
      assert BitsValue(bits) / 2 == BitsValue(bits[1..]);
    }
  }

  function PackedByte(bits: seq<bool>, i: nat): byte
    requires |bits| == MAX_TREE_LEVELS && i < BIT_BYTES
  {
    ByteBound();
    BitsValueBit(bits[8 * i..8 * i + 8], 0);
    BitsValue(bits[8 * i..8 * i + 8])
  }

  function PackedBytes(bits: seq<bool>, n: nat): (s: Bytes)
    requires |bits| == MAX_TREE_LEVELS && n <= BIT_BYTES
    ensures |s| == n
  {
    if n == 0 then [] else PackedBytes(bits, n - 1) + [PackedByte(bits, n - 1)]
  }

  function PackBits(bits: seq<bool>): Bytes32
    requires |bits| == MAX_TREE_LEVELS
  {
    PackedBytes(bits, BIT_BYTES)
  }

  function UnpackedBits(bytes: Bytes32, n: nat): (bits: seq<bool>)
    requires n <= MAX_TREE_LEVELS
    ensures |bits| == n
  {
    if n == 0 then [] else UnpackedBits(bytes, n - 1) + [BitAt(bytes, n - 1)]
  }

  function UnpackBits(bytes: Bytes32): (bits: seq<bool>)
    ensures |bits| == MAX_TREE_LEVELS
  {
    UnpackedBits(bytes, MAX_TREE_LEVELS)
  }

  lemma {:induction false} PackedByteAt(bits: seq<bool>, n: nat, i: nat)
    requires |bits| == MAX_TREE_LEVELS && i < n <= BIT_BYTES
    ensures PackedBytes(bits, n)[i] == PackedByte(bits, i)
  {
    if i < n - 1 {
      PackedByteAt(bits, n - 1, i);
    }
  }

  lemma {:induction false} UnpackedBitAt(bytes: Bytes32, n: nat, d: nat)
    requires d < n <= MAX_TREE_LEVELS
    ensures UnpackedBits(bytes, n)[d] == BitAt(bytes, d)
  {
    if d < n - 1 {
      UnpackedBitAt(bytes, n - 1, d);
    }
  }

  lemma PackBitsAt(bits: seq<bool>, d: nat)
    requires |bits| == MAX_TREE_LEVELS && d < MAX_TREE_LEVELS
    ensures BitAt(PackBits(bits), d) == bits[d]
  {
    var i, j := d / 8, d % 8;
    PackedByteAt(bits, BIT_BYTES, i);
    BitsValueBit(bits[8 * i..8 * i + 8], j);
  }

  lemma UnpackPack(bits: seq<bool>)
    requires |bits| == MAX_TREE_LEVELS
    ensures UnpackBits(PackBits(bits)) == bits
  {
    forall d: nat | d < MAX_TREE_LEVELS
      ensures UnpackBits(PackBits(bits))[d] == bits[d]
    {
      UnpackedBitAt(PackBits(bits), MAX_TREE_LEVELS, d);
      PackBitsAt(bits, d);
    }
  }

  lemma PackUnpack(bytes: Bytes32)
    ensures PackBits(UnpackBits(bytes)) == bytes
  {
    forall d: nat | d < MAX_TREE_LEVELS
      ensures BitAt(PackBits(UnpackBits(bytes)), d) == BitAt(bytes, d)
    {
      PackBitsAt(UnpackBits(bytes), d);
      UnpackedBitAt(bytes, MAX_TREE_LEVELS, d);
    }
    KeyFromBits(PackBits(UnpackBits(bytes)), bytes);
  }

  /** The packing loop of the source, setting one bit at a time in a zeroed array. */
  method Pack(bits: seq<bool>) returns (packed: Bytes32)
    requires |bits| == MAX_TREE_LEVELS
    ensures packed == PackBits(bits)
  {
    packed := ZERO32;
    forall d: nat | d < MAX_TREE_LEVELS
      ensures !BitAt(packed, d)
    {
      ZeroBit(d % 8);
    }
    for index := 0 to MAX_TREE_LEVELS
      invariant forall d: nat | d < MAX_TREE_LEVELS :: BitAt(packed, d) == (d < index && bits[d])
    {
      if bits[index] {
        forall d: nat | d < MAX_TREE_LEVELS
          ensures BitAt(FlipAt(packed, index), d) == if d == index then !BitAt(packed, d) else BitAt(packed, d)
        {
          FlipAtBit(packed, index, d);
        }
        packed := packed[index / 8 := SetByteBit(packed[index / 8], index % 8)];
      }
    }
    forall d: nat | d < MAX_TREE_LEVELS
      ensures BitAt(packed, d) == BitAt(PackBits(bits), d)
    {
      PackBitsAt(bits, d);
    }
    KeyFromBits(packed, PackBits(bits));
  }

  method Unpack(bytes: Bytes32) returns (bits: seq<bool>)
    ensures bits == UnpackBits(bytes)
  {
    bits := [];
    for i := 0 to 32
      invariant bits == UnpackedBits(bytes, 8 * i)
    {
      for bit := 0 to 8
        invariant bits == UnpackedBits(bytes, 8 * i + bit)
      {
        assert (8 * i + bit) / 8 == i && (8 * i + bit) % 8 == bit;
        bits := bits + [BitOf(bytes[i], bit)];
      }
    }
  }

  // ----- nodes -----

  function NodeBytes(node: Node): (s: Bytes)
    ensures |s| == NODE_SIZE
  {
    node.hash + U64Be(node.sum)
  }

  function NodeFrom(s: Bytes): Node
    requires |s| == NODE_SIZE
  {
    Pow256Eight();
    FromBeBound(s[32..]);
    Node(s[..32], FromBe(s[32..]))
  }

  lemma NodeRoundTrip(node: Node)
    ensures NodeFrom(NodeBytes(node)) == node
  {
    var s := NodeBytes(node);
    assert s[..32] == node.hash && s[32..] == U64Be(node.sum);
    Pow256Eight();
    FromToBe(node.sum, 8);
  }

  lemma BytesRoundTrip(s: Bytes)
    requires |s| == NODE_SIZE
    ensures NodeBytes(NodeFrom(s)) == s
  {
    ToFromBe(s[32..]);
    assert s == s[..32] + s[32..];
  }

  function NodesBytes(nodes: seq<Node>): (s: Bytes)
    ensures |s| == NODE_SIZE * |nodes|
  {
    if nodes == [] then [] else NodesBytes(nodes[..|nodes| - 1]) + NodeBytes(nodes[|nodes| - 1])
  }

  function NodesFrom(s: Bytes, count: nat): (nodes: seq<Node>)
    requires |s| == NODE_SIZE * count
    ensures |nodes| == count
  {
    if count == 0 then []
    else
      var cut := NODE_SIZE * (count - 1);
      NodesFrom(s[..cut], count - 1) + [NodeFrom(s[cut..])]
  }

  lemma {:induction false} NodesRoundTrip(nodes: seq<Node>)
    ensures NodesFrom(NodesBytes(nodes), |nodes|) == nodes
  {
    if nodes != [] {
      var last := |nodes| - 1;
      NodeRoundTrip(nodes[last]);
      NodesRoundTrip(nodes[..last]);
      var s := NodesBytes(nodes);
      assert s[..NODE_SIZE * last] == NodesBytes(nodes[..last]) && s[NODE_SIZE * last..] == NodeBytes(nodes[last]);
    }
  }

  lemma {:induction false} NodesBytesRoundTrip(s: Bytes, count: nat)
    requires |s| == NODE_SIZE * count
    ensures NodesBytes(NodesFrom(s, count)) == s
  {
    if count > 0 {
      var cut := NODE_SIZE * (count - 1);
      BytesRoundTrip(s[cut..]);
      NodesBytesRoundTrip(s[..cut], count - 1);
      assert NodesFrom(s, count)[..count - 1] == NodesFrom(s[..cut], count - 1);
      assert s == s[..cut] + s[cut..];
    }
  }

  // ----- the proof encoding -----

  const MAX_U16: nat := 65535

  function Encode(c: Compressed): Result<Bytes, MssmtError> {
    if |c.bits| != MAX_TREE_LEVELS then Failure(InvalidProofLength(MAX_TREE_LEVELS, |c.bits|))
    else if |c.nodes| > MAX_U16 then Failure(TooManyNodes)
    else Success(ToBe(|c.nodes|, 2) + NodesBytes(c.nodes) + PackBits(c.bits))
  }

  function Decode(bytes: Bytes): Result<Compressed, MssmtError> {
    if |bytes| < 2 + BIT_BYTES then Failure(TruncatedProof)
    else
      var count := FromBe(bytes[..2]);
      var nodesEnd := 2 + count * NODE_SIZE;
      if |bytes| != nodesEnd + BIT_BYTES then
        Failure(InvalidCompressedProofLength(nodesEnd + BIT_BYTES, |bytes|))
      else
        var bits := UnpackBits(bytes[nodesEnd..]);
        if ClearBits(bits, MAX_TREE_LEVELS) != count then
          Failure(CompressedProofNodeCount(ClearBits(bits, MAX_TREE_LEVELS), count))
        else Success(Compressed(bits, NodesFrom(bytes[2..nodesEnd], count)))
  }

  /** The encoding loop of the source. */
  method EncodeProof(c: Compressed) returns (r: Result<Bytes, MssmtError>)
    ensures r == Encode(c)
  {
    if |c.bits| != MAX_TREE_LEVELS {
      return Failure(InvalidProofLength(MAX_TREE_LEVELS, |c.bits|));
    }
    if |c.nodes| > MAX_U16 {
      return Failure(TooManyNodes);
    }
    var out := ToBe(|c.nodes|, 2);
    for i := 0 to |c.nodes|
      invariant out == ToBe(|c.nodes|, 2) + NodesBytes(c.nodes[..i])
    {
      assert c.nodes[..i + 1][..i] == c.nodes[..i];
      out := out + c.nodes[i].hash;
      out := out + U64Be(c.nodes[i].sum);
    }
    assert c.nodes[..|c.nodes|] == c.nodes;
    var packed := Pack(c.bits);
    r := Success(out + packed);
  }

  /** The decoding loop of the source, with its cursor. */
  method DecodeProof(bytes: Bytes) returns (r: Result<Compressed, MssmtError>)
    ensures r == Decode(bytes)
  {
    if |bytes| < 2 + BIT_BYTES {
      return Failure(TruncatedProof);
    }
    var count := FromBe(bytes[..2]);
    var expectedLen := 2 + count * NODE_SIZE + BIT_BYTES;
    if |bytes| != expectedLen {
      return Failure(InvalidCompressedProofLength(expectedLen, |bytes|));
    }
    var cursor := 2;
    var nodes: seq<Node> := [];
    for i := 0 to count
      invariant cursor == 2 + NODE_SIZE * i && nodes == NodesFrom(bytes[2..cursor], i)
    {
      ghost var read, next := bytes[2..cursor], bytes[2..cursor + NODE_SIZE];
      ghost var entry := bytes[cursor..cursor + NODE_SIZE];
      assert next[..NODE_SIZE * i] == read && next[NODE_SIZE * i..] == entry;
      assert entry[..32] == bytes[cursor..cursor + 32] && entry[32..] == bytes[cursor + 32..cursor + 40];
      var hash := bytes[cursor..cursor + 32];
      cursor := cursor + 32;
      Pow256Eight();
      FromBeBound(bytes[cursor..cursor + 8]);
      var sum := FromBe(bytes[cursor..cursor + 8]);
      cursor := cursor + 8;
      nodes := nodes + [Node(hash, sum)];
    }
    assert bytes[cursor..cursor + BIT_BYTES] == bytes[2 + count * NODE_SIZE..];
    var bits := Unpack(bytes[cursor..cursor + BIT_BYTES]);
    var expectedNodes := CountClear(bits);
    if expectedNodes != |nodes| {
      return Failure(CompressedProofNodeCount(expectedNodes, |nodes|));
    }
    r := Success(Compressed(bits, nodes));
  }

  lemma {:induction false} CountBytes(n: nat)
    requires n <= MAX_U16
    ensures FromBe(ToBe(n, 2)) == n
  {
    assert Pow256(2) == 65536;
    FromToBe(n, 2);
  }

  /** Every 256-bit form with at most 65535 nodes encodes; it decodes to itself exactly when
      its nodes are as many as its clear bits, and is refused with both counts otherwise. */
  lemma DecodeEncode(c: Compressed)
    requires |c.bits| == MAX_TREE_LEVELS && |c.nodes| <= MAX_U16
    ensures Encode(c).Success?
    ensures Decode(Encode(c).value)
         == if WellCounted(c) then Success(c)
            else Failure(CompressedProofNodeCount(ClearBits(c.bits, MAX_TREE_LEVELS), |c.nodes|))
  {
    var bytes := Encode(c).value;
    var nodesEnd := 2 + |c.nodes| * NODE_SIZE;
    assert bytes[..2] == ToBe(|c.nodes|, 2);
    assert bytes[2..nodesEnd] == NodesBytes(c.nodes);
    assert bytes[nodesEnd..] == PackBits(c.bits);
    CountBytes(|c.nodes|);
    UnpackPack(c.bits);
    NodesRoundTrip(c.nodes);
  }

  /** A form that lists no node for its clear bit encodes, and its encoding is refused. */
  lemma MiscountedRefused()
    ensures var encoded := Encode(Compressed(FirstClear(), []));
            encoded.Success? && Decode(encoded.value) == Failure(CompressedProofNodeCount(1, 0))
  {
    FirstClearCount(MAX_TREE_LEVELS);
    DecodeEncode(Compressed(FirstClear(), []));
  }

  /** Decoding accepts one byte string per form. */
  lemma EncodeDecode(bytes: Bytes)
    requires Decode(bytes).Success?
    ensures WellCounted(Decode(bytes).value) && Encode(Decode(bytes).value) == Success(bytes)
  {
    var c := Decode(bytes).value;
    var count := FromBe(bytes[..2]);
    var nodesEnd := 2 + count * NODE_SIZE;
    assert Pow256(2) == 65536;
    FromBeBound(bytes[..2]);
    ToFromBe(bytes[..2]);
    NodesBytesRoundTrip(bytes[2..nodesEnd], count);
    PackUnpack(bytes[nodesEnd..]);
    assert bytes == bytes[..2] + bytes[2..nodesEnd] + bytes[nodesEnd..];
  }
}
