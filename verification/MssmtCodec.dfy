/** The compressed form of a proof and its byte encoding. */
module MssmtCodec {
  import opened ByteBits
  import opened Primitives
  import opened KeyBits
  import opened MssmtSpec
  import opened MssmtProof

  const NODE_SIZE: nat := 40
  const BIT_BYTES: nat := 32

  /** One bit per sibling: set when it is the empty node of its level; the others are listed. */
  datatype Compressed = Compressed(bits: seq<bool>, nodes: seq<Node>)

  /** The empty node of each depth, computed once and then only looked up. The codec does not
      depend on how: it round-trips for any table. */
  type EmptyTable = s: seq<Node> | |s| == MAX_TREE_LEVELS + 1 witness seq(257, _ => Node(ZERO32, 0))

  method BuildEmptyTable(sha: Sha256) returns (table: EmptyTable)
    ensures forall depth: nat | depth <= MAX_TREE_LEVELS :: table[depth] == EmptyNode(sha, depth)
  {
    var nodes := seq(MAX_TREE_LEVELS + 1, _ => Node(ZERO32, 0));
    nodes := nodes[MAX_TREE_LEVELS := LeafNode(sha, EMPTY_LEAF)];
    for depth := MAX_TREE_LEVELS downto 0
      invariant |nodes| == MAX_TREE_LEVELS + 1
      invariant forall d: nat | depth <= d <= MAX_TREE_LEVELS :: nodes[d] == EmptyNode(sha, d)
    {
      assert nodes[depth + 1] == EmptyNode(sha, depth + 1);
      var below := nodes[depth + 1];
      nodes := nodes[depth := BranchNode(sha, below, below).value];
      assert nodes[depth] == EmptyNode(sha, depth);
    }
    table := nodes;
  }

  /** The empty node that sibling `index` of a proof is compared with. */
  function EmptyAt(table: EmptyTable, index: nat): Node
    requires index < MAX_TREE_LEVELS
  {
    table[MAX_TREE_LEVELS - index]
  }

  // ----- compression -----

  function EmptyBits(table: EmptyTable, s: seq<Node>, n: nat): (bits: seq<bool>)
    requires n <= |s| == MAX_TREE_LEVELS
    ensures |bits| == n
  {
    if n == 0 then [] else EmptyBits(table, s, n - 1) + [s[n - 1] == EmptyAt(table, n - 1)]
  }

  function KeptNodes(table: EmptyTable, s: seq<Node>, n: nat): seq<Node>
    requires n <= |s| == MAX_TREE_LEVELS
  {
    if n == 0 then []
    else KeptNodes(table, s, n - 1) + (if s[n - 1] == EmptyAt(table, n - 1) then [] else [s[n - 1]])
  }

  function Compress(table: EmptyTable, proof: Proof): Result<Compressed, MssmtError> {
    if |proof.siblings| != MAX_TREE_LEVELS then
      Failure(InvalidProofLength(MAX_TREE_LEVELS, |proof.siblings|))
    else
      Success(Compressed(EmptyBits(table, proof.siblings, MAX_TREE_LEVELS), KeptNodes(table, proof.siblings, MAX_TREE_LEVELS)))
  }

  method CompressProof(table: EmptyTable, proof: Proof) returns (r: Result<Compressed, MssmtError>)
    ensures r == Compress(table, proof)
  {
    if |proof.siblings| != MAX_TREE_LEVELS {
      return Failure(InvalidProofLength(MAX_TREE_LEVELS, |proof.siblings|));
    }
    var bits, nodes := [], [];
    for index := 0 to MAX_TREE_LEVELS
      invariant bits == EmptyBits(table, proof.siblings, index)
      invariant nodes == KeptNodes(table, proof.siblings, index)
    {
      var node := proof.siblings[index];
      if node == EmptyAt(table, index) {
        bits := bits + [true];
      } else {
        bits := bits + [false];
        nodes := nodes + [node];
      }
    }
    r := Success(Compressed(bits, nodes));
  }

  // ----- decompression -----

  /** How many of the first `n` bits are clear. */
  function ClearBits(bits: seq<bool>, n: nat): (count: nat)
    requires n <= |bits|
    ensures count <= n
  {
    if n == 0 then 0 else ClearBits(bits, n - 1) + (if bits[n - 1] then 0 else 1)
  }

  lemma {:induction false} ClearBitsGrows(bits: seq<bool>, m: nat, n: nat)
    requires m <= n <= |bits|
    ensures ClearBits(bits, m) <= ClearBits(bits, n)
  {
    if m < n {
      ClearBitsGrows(bits, m, n - 1);
    }
  }

  /** The node of each clear bit is listed, and nothing else. */
  predicate WellCounted(c: Compressed) {
    |c.bits| == MAX_TREE_LEVELS && ClearBits(c.bits, MAX_TREE_LEVELS) == |c.nodes|
  }

  /** The listed node that a clear bit stands for. */
  function NodeOfBit(c: Compressed, index: nat): Node
    requires WellCounted(c) && index < MAX_TREE_LEVELS && !c.bits[index]
  {
    ClearBitsGrows(c.bits, index + 1, MAX_TREE_LEVELS);
    c.nodes[ClearBits(c.bits, index)]
  }

  function Expand(table: EmptyTable, c: Compressed, n: nat): (s: seq<Node>)
    requires WellCounted(c) && n <= MAX_TREE_LEVELS
    ensures |s| == n
  {
    if n == 0 then []
    else Expand(table, c, n - 1) + [if c.bits[n - 1] then EmptyAt(table, n - 1) else NodeOfBit(c, n - 1)]
  }

  function Decompress(table: EmptyTable, c: Compressed): Result<Proof, MssmtError> {
    if |c.bits| != MAX_TREE_LEVELS then Failure(InvalidProofLength(MAX_TREE_LEVELS, |c.bits|))
    else if ClearBits(c.bits, MAX_TREE_LEVELS) != |c.nodes| then
      Failure(CompressedProofNodeCount(ClearBits(c.bits, MAX_TREE_LEVELS), |c.nodes|))
    else Success(Proof(Expand(table, c, MAX_TREE_LEVELS)))
  }

  method CountClear(bits: seq<bool>) returns (count: nat)
    ensures count == ClearBits(bits, |bits|)
  {
    count := 0;
    for i := 0 to |bits|
      invariant count == ClearBits(bits, i)
    {
      if !bits[i] {
        count := count + 1;
      }
    }
  }

  method DecompressProof(table: EmptyTable, c: Compressed) returns (r: Result<Proof, MssmtError>)
    ensures r == Decompress(table, c)
  {
    if |c.bits| != MAX_TREE_LEVELS {
      return Failure(InvalidProofLength(MAX_TREE_LEVELS, |c.bits|));
    }
    var expected := CountClear(c.bits);
    if expected != |c.nodes| {
      return Failure(CompressedProofNodeCount(expected, |c.nodes|));
    }
    var nextNode := 0;
    var siblings := [];
    for index := 0 to MAX_TREE_LEVELS
      invariant nextNode == ClearBits(c.bits, index) && siblings == Expand(table, c, index)
    {
      ClearBitsGrows(c.bits, index + 1, MAX_TREE_LEVELS);
      if c.bits[index] {
        siblings := siblings + [EmptyAt(table, index)];
      } else {
        siblings := siblings + [c.nodes[nextNode]];
        nextNode := nextNode + 1;
      }
    }
    r := Success(Proof(siblings));
  }

  // ----- the two directions -----

  lemma {:induction false} EmptyBitAt(table: EmptyTable, s: seq<Node>, n: nat, i: nat)
    requires i < n <= |s| == MAX_TREE_LEVELS
    ensures EmptyBits(table, s, n)[i] == (s[i] == EmptyAt(table, i))
  {
    if i < n - 1 {
      EmptyBitAt(table, s, n - 1, i);
    }
  }

  lemma {:induction false} KeptCount(table: EmptyTable, s: seq<Node>, n: nat)
    requires n <= |s| == MAX_TREE_LEVELS
    ensures |KeptNodes(table, s, n)| == ClearBits(EmptyBits(table, s, MAX_TREE_LEVELS), n)
  {
    if n > 0 {
      KeptCount(table, s, n - 1);
      EmptyBitAt(table, s, MAX_TREE_LEVELS, n - 1);
    }
  }

  lemma {:induction false} KeptPrefix(table: EmptyTable, s: seq<Node>, m: nat, n: nat)
    requires m <= n <= |s| == MAX_TREE_LEVELS
    ensures KeptNodes(table, s, m) <= KeptNodes(table, s, n)
  {
    if m < n {
      KeptPrefix(table, s, m, n - 1);
    }
  }

  /** In the compression of `s`, a clear bit finds its own sibling again. */
  lemma {:induction false} KeptNodeAt(table: EmptyTable, s: seq<Node>, i: nat)
    requires i < |s| == MAX_TREE_LEVELS && s[i] != EmptyAt(table, i)
    ensures var bits, nodes := EmptyBits(table, s, MAX_TREE_LEVELS), KeptNodes(table, s, MAX_TREE_LEVELS);
            ClearBits(bits, i) < |nodes| && nodes[ClearBits(bits, i)] == s[i]
  {
    KeptCount(table, s, i);
    KeptPrefix(table, s, i + 1, MAX_TREE_LEVELS);
  }

  lemma {:induction false} ExpandCompressed(table: EmptyTable, s: seq<Node>, c: Compressed, n: nat)
    requires n <= |s| == MAX_TREE_LEVELS && WellCounted(c)
    requires c == Compressed(EmptyBits(table, s, MAX_TREE_LEVELS), KeptNodes(table, s, MAX_TREE_LEVELS))
    ensures Expand(table, c, n) == s[..n]
  {
    if n > 0 {
      ExpandCompressed(table, s, c, n - 1);
      EmptyBitAt(table, s, MAX_TREE_LEVELS, n - 1);
      if s[n - 1] != EmptyAt(table, n - 1) {
        KeptNodeAt(table, s, n - 1);
      }
      assert s[..n] == s[..n - 1] + [s[n - 1]];
    }
  }

  /** Compression loses nothing. */
  lemma DecompressCompress(table: EmptyTable, proof: Proof)
    requires |proof.siblings| == MAX_TREE_LEVELS
    ensures WellCounted(Compress(table, proof).value)
    ensures Decompress(table, Compress(table, proof).value) == Success(proof)
  {
    KeptCount(table, proof.siblings, MAX_TREE_LEVELS);
    ExpandCompressed(table, proof.siblings, Compress(table, proof).value, MAX_TREE_LEVELS);
    assert proof.siblings[..MAX_TREE_LEVELS] == proof.siblings;
  }

  /** No listed node is the empty node of its level. */
  predicate Canonical(table: EmptyTable, c: Compressed)
    requires WellCounted(c)
  {
    forall i: nat | i < MAX_TREE_LEVELS && !c.bits[i] :: NodeOfBit(c, i) != EmptyAt(table, i)
  }

  lemma {:induction false} ExpandAt(table: EmptyTable, c: Compressed, n: nat, i: nat)
    requires WellCounted(c) && i < n <= MAX_TREE_LEVELS
    ensures Expand(table, c, n)[i] == if c.bits[i] then EmptyAt(table, i) else NodeOfBit(c, i)
  {
    if i < n - 1 {
      ExpandAt(table, c, n - 1, i);
    }
  }

  /** The bits say which siblings are empty. */
  predicate BitsMark(table: EmptyTable, bits: seq<bool>, s: seq<Node>) {
    && |s| == |bits| == MAX_TREE_LEVELS
    && forall i: nat | i < MAX_TREE_LEVELS :: bits[i] == (s[i] == EmptyAt(table, i))
  }

  lemma {:induction false} MarkedBits(table: EmptyTable, bits: seq<bool>, s: seq<Node>, n: nat)
    requires BitsMark(table, bits, s) && n <= MAX_TREE_LEVELS
    ensures EmptyBits(table, s, n) == bits[..n]
  {
    if n > 0 {
      MarkedBits(table, bits, s, n - 1);
      assert bits[..n] == bits[..n - 1] + [bits[n - 1]];
    }
  }

  lemma MarkedNodesStep(table: EmptyTable, c: Compressed, s: seq<Node>, i: nat)
    requires WellCounted(c) && i < |s| == MAX_TREE_LEVELS
    requires c.bits[i] == (s[i] == EmptyAt(table, i))
    requires !c.bits[i] ==> s[i] == NodeOfBit(c, i)
    requires KeptNodes(table, s, i) <= c.nodes && |KeptNodes(table, s, i)| == ClearBits(c.bits, i)
    ensures KeptNodes(table, s, i + 1) <= c.nodes && |KeptNodes(table, s, i + 1)| == ClearBits(c.bits, i + 1)
  {
    ClearBitsGrows(c.bits, i + 1, MAX_TREE_LEVELS);
  }

  lemma {:induction false} MarkedNodes(table: EmptyTable, c: Compressed, s: seq<Node>, n: nat)
    requires WellCounted(c) && BitsMark(table, c.bits, s) && n <= MAX_TREE_LEVELS
    requires forall i: nat | i < MAX_TREE_LEVELS && !c.bits[i] :: s[i] == NodeOfBit(c, i)
    ensures KeptNodes(table, s, n) <= c.nodes && |KeptNodes(table, s, n)| == ClearBits(c.bits, n)
  {
    if n > 0 {
      MarkedNodes(table, c, s, n - 1);
      MarkedNodesStep(table, c, s, n - 1);
    }
  }

  /** Recompressing gives the same form back exactly when it was canonical. */
  lemma CompressDecompress(table: EmptyTable, c: Compressed)
    requires WellCounted(c)
    ensures Decompress(table, c).Success?
    ensures Compress(table, Decompress(table, c).value) == Success(c) <==> Canonical(table, c)
  {
    var s := Expand(table, c, MAX_TREE_LEVELS);
    forall i: nat | i < MAX_TREE_LEVELS
      ensures s[i] == if c.bits[i] then EmptyAt(table, i) else NodeOfBit(c, i)
    {
      ExpandAt(table, c, MAX_TREE_LEVELS, i);
    }
    if Canonical(table, c) {
      MarkedBits(table, c.bits, s, MAX_TREE_LEVELS);
      MarkedNodes(table, c, s, MAX_TREE_LEVELS);
      assert c.bits[..MAX_TREE_LEVELS] == c.bits;
      assert KeptNodes(table, s, MAX_TREE_LEVELS) == c.nodes;
    } else {
      var i: nat :| i < MAX_TREE_LEVELS && !c.bits[i] && NodeOfBit(c, i) == EmptyAt(table, i);
      EmptyBitAt(table, s, MAX_TREE_LEVELS, i);
    }
  }

  /** Only the first bit is clear. */
  function FirstClear(): seq<bool> {
    seq(MAX_TREE_LEVELS, i => i != 0)
  }

  lemma {:induction false} FirstClearCount(n: nat)
    requires 0 < n <= MAX_TREE_LEVELS
    ensures |FirstClear()| == MAX_TREE_LEVELS && ClearBits(FirstClear(), n) == 1
  {
    if n > 1 {
      FirstClearCount(n - 1);
    }
  }

  /** A well-counted form that lists an empty node does not come back. */
  lemma ListedEmptyNodeLost(table: EmptyTable)
    ensures var c := Compressed(FirstClear(), [EmptyAt(table, 0)]);
            WellCounted(c) && Decompress(table, c).Success? && Compress(table, Decompress(table, c).value) != Success(c)
  {
    var c := Compressed(FirstClear(), [EmptyAt(table, 0)]);
    FirstClearCount(MAX_TREE_LEVELS);
    assert !c.bits[0] && NodeOfBit(c, 0) == EmptyAt(table, 0);
    CompressDecompress(table, c);
  }
}
