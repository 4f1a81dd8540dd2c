/** The Merkle-sum sparse Merkle tree as a recursive hash-sum over its leaves: the simple form
    that the level-by-level construction has to agree with. */
module MssmtSpec {
  import opened ByteBits
  import opened Primitives
  import opened KeyBits

  datatype Node = Node(hash: Bytes32, sum: u64)

  datatype Leaf = Leaf(value: Bytes, sum: u64)

  type Leaves = map<Bytes32, Leaf>

  const EMPTY_LEAF: Leaf := Leaf([], 0)

  datatype MssmtError =
    | AmountOverflow
    | DuplicateKey(key: Bytes32)
    | EmptyLeafInsertion(key: Bytes32)
    | InvalidProofLength(expected: nat, actual: nat)
    | InvalidCompressedProofLength(expected: nat, actual: nat)
    | TruncatedProof
    | TooManyNodes
    | CompressedProofNodeCount(expected: nat, actual: nat)

  function LeafPreimage(leaf: Leaf): Bytes {
    leaf.value + U64Be(leaf.sum)
  }

  function LeafNode(sha: Sha256, leaf: Leaf): Node {
    Node(sha(LeafPreimage(leaf)), leaf.sum)
  }

  /** A branch commits to both child hashes and to the total sum only. */
  function BranchPreimage(left: Bytes32, right: Bytes32, sum: u64): Bytes {
    left + right + U64Be(sum)
  }

  function BranchNode(sha: Sha256, left: Node, right: Node): Result<Node, MssmtError> {
    if left.sum + right.sum >= U64_LIMIT then Failure(AmountOverflow)
    else
      var sum: u64 := left.sum + right.sum;
      Success(Node(sha(BranchPreimage(left.hash, right.hash, sum)), sum))
  }

  function EmptyNode(sha: Sha256, depth: nat): (n: Node)
    requires depth <= MAX_TREE_LEVELS
    ensures n.sum == 0
    decreases MAX_TREE_LEVELS - depth, sha
  {
    if depth == MAX_TREE_LEVELS then LeafNode(sha, EMPTY_LEAF)
    else
      var child := EmptyNode(sha, depth + 1);
      BranchNode(sha, child, child).value
  }

  /** Joining two subtrees, left first, as the `?` operator sequences them. */
  function Join(sha: Sha256, left: Result<Node, MssmtError>, right: Result<Node, MssmtError>)
    : Result<Node, MssmtError>
  {
    if left.Failure? then left
    else if right.Failure? then right
    else BranchNode(sha, left.value, right.value)
  }

  function LeafAt(leaves: Leaves, key: Bytes32): Leaf {
    if key in leaves then leaves[key] else EMPTY_LEAF
  }

  /** The hash-sum of all leaves whose key starts with the `depth` bits of `p`. */
  ghost function Subtree(sha: Sha256, leaves: Leaves, p: Bytes32, depth: nat): Result<Node, MssmtError>
    requires depth <= MAX_TREE_LEVELS
    decreases MAX_TREE_LEVELS - depth, sha, leaves, p
  {
    if depth == MAX_TREE_LEVELS then Success(LeafNode(sha, LeafAt(leaves, p)))
    else Join(sha, Subtree(sha, leaves, p, depth + 1), Subtree(sha, leaves, SiblingPrefix(p, depth), depth + 1))
  }

  ghost function Root(sha: Sha256, leaves: Leaves): Result<Node, MssmtError> {
    Subtree(sha, leaves, ZERO32, 0)
  }

  // ----- sums over leaves -----

  ghost function SumOf(leaves: Leaves): nat {
    if leaves == map[] then 0
    else
      var k :| k in leaves;
      leaves[k].sum + SumOf(leaves - {k})
  }

  ghost function Under(leaves: Leaves, p: Bytes32, depth: nat): Leaves {
    map k | k in leaves && PrefixKey(k, depth) == p :: leaves[k]
  }

  lemma {:induction false} SumOfRemove(leaves: Leaves, key: Bytes32)
    requires key in leaves
    ensures SumOf(leaves) == leaves[key].sum + SumOf(leaves - {key})
    decreases |leaves|
  {
    var k :| k in leaves && SumOf(leaves) == leaves[k].sum + SumOf(leaves - {k});
    if k != key {
      SumOfRemove(leaves - {k}, key);
      SumOfRemove(leaves - {key}, k);
      assert leaves - {k} - {key} == leaves - {key} - {k};
    }
  }

  lemma UnionRemove<K, V>(a: map<K, V>, b: map<K, V>, k: K)
    requires k in a && k !in b
    ensures (a + b) - {k} == (a - {k}) + b
    ensures k in a + b && (a + b)[k] == a[k]
    ensures |a - {k}| < |a|
  {
    assert (a - {k}).Keys == a.Keys - {k};
  }

  lemma {:induction false} SumOfUnion(a: Leaves, b: Leaves)
    requires a.Keys !! b.Keys
    ensures SumOf(a + b) == SumOf(a) + SumOf(b)
    decreases |a|
  {
    if a == map[] {
      assert a + b == b;
    } else {
      var k :| k in a;
      UnionRemove(a, b, k);
      SumOfRemove(a, k);
      SumOfRemove(a + b, k);
      SumOfUnion(a - {k}, b);
    }
  }

  lemma {:induction false} SumOfUnderAtMost(leaves: Leaves, p: Bytes32, depth: nat)
    ensures SumOf(Under(leaves, p, depth)) <= SumOf(leaves)
  {
    var part := Under(leaves, p, depth);
    var rest := leaves - part.Keys;
    assert leaves == part + rest;
    SumOfUnion(part, rest);
  }

  /** The leaves under a prefix are those under its left child and those under its right child. */
  lemma UnderSplits(leaves: Leaves, p: Bytes32, depth: nat)
    requires depth < MAX_TREE_LEVELS && IsPrefix(p, depth)
    ensures var l, r := Under(leaves, p, depth + 1), Under(leaves, SiblingPrefix(p, depth), depth + 1);
            l.Keys !! r.Keys && Under(leaves, p, depth) == l + r
  {
    var right := SiblingPrefix(p, depth);
    var all, l, r := Under(leaves, p, depth), Under(leaves, p, depth + 1), Under(leaves, right, depth + 1);
    forall k | k in leaves
      ensures k in all <==> k in l || k in r
      ensures !(k in l && k in r)
    {
      UnderChild(k, p, depth);
    }
  }

  lemma UnderFull(leaves: Leaves, p: Bytes32)
    ensures Under(leaves, p, MAX_TREE_LEVELS) == if p in leaves then map[p := leaves[p]] else map[]
  {
    forall k | k in leaves
      ensures PrefixKey(k, MAX_TREE_LEVELS) == k
    {
      PrefixEnds(k);
    }
  }

  lemma UnderRoot(leaves: Leaves)
    ensures Under(leaves, ZERO32, 0) == leaves
  {
    forall k | k in leaves
      ensures PrefixKey(k, 0) == ZERO32
    {
      PrefixEnds(k);
    }
  }

  /** What `SubtreeSum` states of one subtree. */
  ghost predicate CarriesSum(s: Result<Node, MssmtError>, total: nat) {
    if total < U64_LIMIT then s.Success? && s.value.sum == total else s == Failure(AmountOverflow)
  }

  lemma SumUnderFull(leaves: Leaves, p: Bytes32)
    ensures SumOf(Under(leaves, p, MAX_TREE_LEVELS)) == LeafAt(leaves, p).sum
  {
    UnderFull(leaves, p);
    if p in leaves {
      var one := map[p := leaves[p]];
      SumOfRemove(one, p);
      assert one - {p} == map[];
    }
  }

  lemma SumUnderSplits(leaves: Leaves, p: Bytes32, depth: nat)
    requires depth < MAX_TREE_LEVELS && IsPrefix(p, depth)
    ensures SumOf(Under(leaves, p, depth))
         == SumOf(Under(leaves, p, depth + 1)) + SumOf(Under(leaves, SiblingPrefix(p, depth), depth + 1))
  {
    UnderSplits(leaves, p, depth);
    SumOfUnion(Under(leaves, p, depth + 1), Under(leaves, SiblingPrefix(p, depth), depth + 1));
  }

  lemma SubtreeSumStep(sha: Sha256, leaves: Leaves, p: Bytes32, depth: nat)
    requires depth < MAX_TREE_LEVELS && IsPrefix(p, depth)
    requires CarriesSum(Subtree(sha, leaves, p, depth + 1), SumOf(Under(leaves, p, depth + 1)))
    requires var right := SiblingPrefix(p, depth);
             CarriesSum(Subtree(sha, leaves, right, depth + 1), SumOf(Under(leaves, right, depth + 1)))
    ensures CarriesSum(Subtree(sha, leaves, p, depth), SumOf(Under(leaves, p, depth)))
  {
    SumUnderSplits(leaves, p, depth);
  }

  /** A subtree exists exactly when the sum of the leaves under it fits in 64 bits, and then
      carries that sum, whatever the hash function. */
  lemma {:induction false} SubtreeSum(sha: Sha256, leaves: Leaves, p: Bytes32, depth: nat)
    requires depth <= MAX_TREE_LEVELS && IsPrefix(p, depth)
    ensures CarriesSum(Subtree(sha, leaves, p, depth), SumOf(Under(leaves, p, depth)))
    decreases MAX_TREE_LEVELS - depth
  {
    if depth == MAX_TREE_LEVELS {
      SumUnderFull(leaves, p);
    } else {
      ChildrenOf(p, depth);
      SubtreeSum(sha, leaves, p, depth + 1);
      SubtreeSum(sha, leaves, SiblingPrefix(p, depth), depth + 1);
      SubtreeSumStep(sha, leaves, p, depth);
    }
  }

  /** The two leaf maps hold the same leaves under a prefix. */
  ghost predicate AgreeUnder(a: Leaves, b: Leaves, p: Bytes32, depth: nat) {
    forall k: Bytes32 | PrefixKey(k, depth) == p :: LeafAt(a, k) == LeafAt(b, k)
  }

  lemma AgreeUnderChild(a: Leaves, b: Leaves, p: Bytes32, child: Bytes32, depth: nat)
    requires AgreeUnder(a, b, p, depth) && PrefixKey(child, depth) == p
    ensures AgreeUnder(a, b, child, depth + 1)
  {
    forall k: Bytes32 | PrefixKey(k, depth + 1) == child
      ensures LeafAt(a, k) == LeafAt(b, k)
    {
      PrefixOfPrefix(k, depth + 1, depth);
    }
  }

  /** A subtree reads only the leaves under its prefix. */
  lemma {:induction false} SubtreeLocal(sha: Sha256, a: Leaves, b: Leaves, p: Bytes32, depth: nat)
    requires depth <= MAX_TREE_LEVELS && IsPrefix(p, depth) && AgreeUnder(a, b, p, depth)
    ensures Subtree(sha, a, p, depth) == Subtree(sha, b, p, depth)
    decreases MAX_TREE_LEVELS - depth
  {
    if depth < MAX_TREE_LEVELS {
      var right := SiblingPrefix(p, depth);
      ChildrenOf(p, depth);
      AgreeUnderChild(a, b, p, p, depth);
      AgreeUnderChild(a, b, p, right, depth);
      SubtreeLocal(sha, a, b, p, depth + 1);
      SubtreeLocal(sha, a, b, right, depth + 1);
    }
  }

  /** A subtree without leaves is the precomputed empty node of its depth. */
  lemma {:induction false} SubtreeEmpty(sha: Sha256, p: Bytes32, depth: nat)
    requires depth <= MAX_TREE_LEVELS
    ensures Subtree(sha, map[], p, depth) == Success(EmptyNode(sha, depth))
    decreases MAX_TREE_LEVELS - depth
  {
    if depth < MAX_TREE_LEVELS {
      SubtreeEmpty(sha, p, depth + 1);
      SubtreeEmpty(sha, SiblingPrefix(p, depth), depth + 1);
    }
  }
}
