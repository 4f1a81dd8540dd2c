/** Inclusion and exclusion proofs: what they compute, what they bind, and how they update a root. */
module MssmtProof {
  import opened Primitives
  import opened KeyBits
  import opened MssmtSpec

  datatype Proof = Proof(siblings: seq<Node>)

  /** The node reached after hashing the leaf with the first `n` siblings, deepest level first. */
  function Climb(sha: Sha256, key: Bytes32, leaf: Leaf, siblings: seq<Node>, n: nat): Result<Node, MssmtError>
    requires n <= |siblings| == MAX_TREE_LEVELS
  {
    if n == 0 then Success(LeafNode(sha, leaf))
    else
      var below := Climb(sha, key, leaf, siblings, n - 1);
      if below.Failure? then below
      else StepUp(sha, BitAt(key, MAX_TREE_LEVELS - n), below.value, siblings[n - 1])
  }

  /** One step of the climb: the node so far is the right child or the left one. */
  function StepUp(sha: Sha256, isRight: bool, below: Node, side: Node): Result<Node, MssmtError> {
    if isRight then BranchNode(sha, side, below) else BranchNode(sha, below, side)
  }

  function RootFor(sha: Sha256, proof: Proof, key: Bytes32, leaf: Leaf): Result<Node, MssmtError> {
    if |proof.siblings| != MAX_TREE_LEVELS then
      Failure(InvalidProofLength(MAX_TREE_LEVELS, |proof.siblings|))
    else Climb(sha, key, leaf, proof.siblings, MAX_TREE_LEVELS)
  }

  function Verify(sha: Sha256, proof: Proof, key: Bytes32, leaf: Leaf, root: Node): Result<bool, MssmtError> {
    var r := RootFor(sha, proof, key, leaf);
    if r.Failure? then Failure(r.error) else Success(r.value == root)
  }

  /** The hashing loop of the source. */
  method ComputeRoot(sha: Sha256, proof: Proof, key: Bytes32, leaf: Leaf) returns (r: Result<Node, MssmtError>)
    ensures r == RootFor(sha, proof, key, leaf)
  {
    if |proof.siblings| != MAX_TREE_LEVELS {
      return Failure(InvalidProofLength(MAX_TREE_LEVELS, |proof.siblings|));
    }
    var current := LeafNode(sha, leaf);
    for index := 0 to MAX_TREE_LEVELS
      invariant Climb(sha, key, leaf, proof.siblings, index) == Success(current)
    {
      var depth := MAX_TREE_LEVELS - 1 - index;
      var sibling := proof.siblings[index];
      var next := if !BitAt(key, depth) then BranchNode(sha, current, sibling) else BranchNode(sha, sibling, current);
      assert Climb(sha, key, leaf, proof.siblings, index + 1) == next;
      if next.Failure? {
        FailureClimbs(sha, key, leaf, proof.siblings, index + 1, MAX_TREE_LEVELS);
        return next;
      }
      current := next.value;
    }
    r := Success(current);
  }

  lemma {:induction false} FailureClimbs(sha: Sha256, key: Bytes32, leaf: Leaf, siblings: seq<Node>, m: nat, n: nat)
    requires m <= n <= |siblings| == MAX_TREE_LEVELS
    requires Climb(sha, key, leaf, siblings, m).Failure?
    ensures Climb(sha, key, leaf, siblings, n) == Climb(sha, key, leaf, siblings, m)
  {
    if m < n {
      FailureClimbs(sha, key, leaf, siblings, m, n - 1);
    }
  }

  // ----- binding -----

  /** The bytes hashed by step `n` of the climb. */
  function StepPreimage(sha: Sha256, key: Bytes32, leaf: Leaf, siblings: seq<Node>, n: nat): Bytes
    requires n <= |siblings| == MAX_TREE_LEVELS
    requires Climb(sha, key, leaf, siblings, n).Success?
  {
    if n == 0 then LeafPreimage(leaf)
    else
      var below := Climb(sha, key, leaf, siblings, n - 1).value;
      var side := siblings[n - 1];
      StepBytes(BitAt(key, MAX_TREE_LEVELS - n), below, side)
  }

  function StepBytes(isRight: bool, below: Node, side: Node): Bytes
    requires below.sum + side.sum < U64_LIMIT
  {
    if isRight then BranchPreimage(side.hash, below.hash, side.sum + below.sum)
    else BranchPreimage(below.hash, side.hash, below.sum + side.sum)
  }

  /** Walks two proofs of one key down from step `n` to the first step that hashed different bytes. */
  function FirstDifference(sha: Sha256, key: Bytes32, a: Leaf, s: seq<Node>, b: Leaf, t: seq<Node>, n: nat): (Bytes, Bytes)
    requires n <= |s| == |t| == MAX_TREE_LEVELS
    requires Climb(sha, key, a, s, n).Success? && Climb(sha, key, b, t, n).Success?
  {
    var pair := (StepPreimage(sha, key, a, s, n), StepPreimage(sha, key, b, t, n));
    if n == 0 || pair.0 != pair.1 then pair else FirstDifference(sha, key, a, s, b, t, n - 1)
  }

  lemma BranchPreimageInjective(l: Bytes32, r: Bytes32, x: u64, l': Bytes32, r': Bytes32, x': u64)
    requires BranchPreimage(l, r, x) == BranchPreimage(l', r', x')
    ensures l == l' && r == r' && x == x'
  {
    SplitAt(l + r, U64Be(x), l' + r', U64Be(x'));
    SplitAt(l, r, l', r');
    U64BeInjective(x, x');
  }

  lemma StepBytesInjective(isRight: bool, p: Node, u: Node, q: Node, v: Node)
    requires p.sum + u.sum < U64_LIMIT && q.sum + v.sum < U64_LIMIT
    requires StepBytes(isRight, p, u) == StepBytes(isRight, q, v)
    ensures p.hash == q.hash && u.hash == v.hash && p.sum + u.sum == q.sum + v.sum
  {
    if isRight {
      BranchPreimageInjective(u.hash, p.hash, u.sum + p.sum, v.hash, q.hash, v.sum + q.sum);
    } else {
      BranchPreimageInjective(p.hash, u.hash, p.sum + u.sum, q.hash, v.hash, q.sum + v.sum);
    }
  }

  lemma LeafPreimageInjective(a: Leaf, b: Leaf)
    requires LeafPreimage(a) == LeafPreimage(b)
    ensures a == b
  {
    assert |LeafPreimage(a)| == |a.value| + 8 && |LeafPreimage(b)| == |b.value| + 8;
    SplitAt(a.value, U64Be(a.sum), b.value, U64Be(b.sum));
    U64BeInjective(a.sum, b.sum);
  }

  /** Two claims agree up to step `n`. */
  predicate SameUpTo(sha: Sha256, key: Bytes32, a: Leaf, s: seq<Node>, b: Leaf, t: seq<Node>, n: nat)
    requires n <= |s| == |t| == MAX_TREE_LEVELS
  {
    a == b && s[..n] == t[..n] && Climb(sha, key, a, s, n) == Climb(sha, key, b, t, n)
  }

  lemma SameHashed(sha: Sha256, key: Bytes32, a: Leaf, s: seq<Node>, b: Leaf, t: seq<Node>, n: nat)
    requires 0 < n <= |s| == |t| == MAX_TREE_LEVELS
    requires Climb(sha, key, a, s, n).Success? && Climb(sha, key, b, t, n).Success?
    requires StepPreimage(sha, key, a, s, n) == StepPreimage(sha, key, b, t, n)
    ensures Climb(sha, key, a, s, n - 1).value.hash == Climb(sha, key, b, t, n - 1).value.hash
    ensures SameUpTo(sha, key, a, s, b, t, n - 1) ==> SameUpTo(sha, key, a, s, b, t, n)
  {
    var p, q := Climb(sha, key, a, s, n - 1).value, Climb(sha, key, b, t, n - 1).value;
    StepBytesInjective(BitAt(key, MAX_TREE_LEVELS - n), p, s[n - 1], q, t[n - 1]);
    if SameUpTo(sha, key, a, s, b, t, n - 1) {
      assert s[n - 1] == t[n - 1];
      assert s[..n] == s[..n - 1] + [s[n - 1]] && t[..n] == t[..n - 1] + [t[n - 1]];
    }
  }

  /** Equal hashes at one step force equal leaves and equal siblings below it, or yield a
      collision. A branch commits to its total only, so the siblings' sums follow from the
      totals once the nodes on the path agree. */
  lemma {:induction false} EqualHashesBind(sha: Sha256, key: Bytes32, a: Leaf, s: seq<Node>, b: Leaf, t: seq<Node>, n: nat)
    requires n <= |s| == |t| == MAX_TREE_LEVELS
    requires Climb(sha, key, a, s, n).Success? && Climb(sha, key, b, t, n).Success?
    requires Climb(sha, key, a, s, n).value.hash == Climb(sha, key, b, t, n).value.hash
    ensures IsCollision(sha, FirstDifference(sha, key, a, s, b, t, n)) || SameUpTo(sha, key, a, s, b, t, n)
  {
    if StepPreimage(sha, key, a, s, n) == StepPreimage(sha, key, b, t, n) {
      if n == 0 {
        LeafPreimageInjective(a, b);
      } else {
        SameHashed(sha, key, a, s, b, t, n);
        EqualHashesBind(sha, key, a, s, b, t, n - 1);
      }
    }
  }

  /** Two proofs of one key under one root carry the same leaf and the same siblings, or the
      walk down them ends at two byte strings with the same hash. */
  lemma {:induction false} ProofBinding(sha: Sha256, key: Bytes32, a: Leaf, s: Proof, b: Leaf, t: Proof, root: Node)
    requires Verify(sha, s, key, a, root) == Success(true)
    requires Verify(sha, t, key, b, root) == Success(true)
    ensures || (a == b && s == t)
            || IsCollision(sha, FirstDifference(sha, key, a, s.siblings, b, t.siblings, MAX_TREE_LEVELS))
  {
    EqualHashesBind(sha, key, a, s.siblings, b, t.siblings, MAX_TREE_LEVELS);
    assert s.siblings[..MAX_TREE_LEVELS] == s.siblings && t.siblings[..MAX_TREE_LEVELS] == t.siblings;
  }

  // ----- proofs of a tree -----

  /** The sibling of `key` below `depth`, in the tree of `leaves`. */
  ghost function SiblingAt(sha: Sha256, leaves: Leaves, key: Bytes32, depth: nat): (n: Node)
    requires depth < MAX_TREE_LEVELS && SumOf(leaves) < U64_LIMIT
    ensures Subtree(sha, leaves, SiblingPrefix(key, depth), depth + 1) == Success(n)
  {
    SiblingIsPrefix(key, depth);
    SubtreeSum(sha, leaves, SiblingPrefix(key, depth), depth + 1);
    SumOfUnderAtMost(leaves, SiblingPrefix(key, depth), depth + 1);
    Subtree(sha, leaves, SiblingPrefix(key, depth), depth + 1).value
  }

  ghost function ProofOf(sha: Sha256, leaves: Leaves, key: Bytes32): (proof: Proof)
    requires SumOf(leaves) < U64_LIMIT
    ensures |proof.siblings| == MAX_TREE_LEVELS
  {
    Proof(seq(MAX_TREE_LEVELS, i requires 0 <= i < MAX_TREE_LEVELS => SiblingAt(sha, leaves, key, MAX_TREE_LEVELS - 1 - i)))
  }

  lemma SiblingIsPrefix(key: Bytes32, depth: nat)
    requires depth < MAX_TREE_LEVELS
    ensures IsPrefix(SiblingPrefix(key, depth), depth + 1)
    ensures SiblingPrefix(key, depth) != PrefixKey(key, depth + 1)
  {
    PrefixStep(key, depth);
    PrefixOfPrefix(key, depth, depth);
    ChildrenOf(PrefixKey(key, depth), depth);
  }

  /** Storing a leaf; storing the empty leaf deletes. */
  function Update(leaves: Leaves, key: Bytes32, leaf: Leaf): Leaves {
    if leaf == EMPTY_LEAF then leaves - {key} else leaves[key := leaf]
  }

  lemma {:induction false} SiblingUnchanged(sha: Sha256, leaves: Leaves, key: Bytes32, leaf: Leaf, depth: nat)
    requires depth < MAX_TREE_LEVELS
    ensures var side := SiblingPrefix(key, depth);
            Subtree(sha, Update(leaves, key, leaf), side, depth + 1) == Subtree(sha, leaves, side, depth + 1)
  {
    SiblingIsPrefix(key, depth);
    SubtreeLocal(sha, Update(leaves, key, leaf), leaves, SiblingPrefix(key, depth), depth + 1);
  }

  lemma SubtreeOnPath(sha: Sha256, leaves: Leaves, key: Bytes32, depth: nat)
    requires depth < MAX_TREE_LEVELS
    ensures var below := Subtree(sha, leaves, PrefixKey(key, depth + 1), depth + 1);
            var side := Subtree(sha, leaves, SiblingPrefix(key, depth), depth + 1);
            Subtree(sha, leaves, PrefixKey(key, depth), depth)
              == if BitAt(key, depth) then Join(sha, side, below) else Join(sha, below, side)
  {
    PrefixStep(key, depth);
  }

  lemma StepFollowsUpdate(sha: Sha256, leaves: Leaves, key: Bytes32, leaf: Leaf, depth: nat)
    requires depth < MAX_TREE_LEVELS && SumOf(leaves) < U64_LIMIT
    ensures var next := Update(leaves, key, leaf);
            var below := Subtree(sha, next, PrefixKey(key, depth + 1), depth + 1);
            Subtree(sha, next, PrefixKey(key, depth), depth)
              == if below.Failure? then below
                 else StepUp(sha, BitAt(key, depth), below.value, SiblingAt(sha, leaves, key, depth))
  {
    var next := Update(leaves, key, leaf);
    SubtreeOnPath(sha, next, key, depth);
    SiblingUnchanged(sha, leaves, key, leaf, depth);
    var below := Subtree(sha, next, PrefixKey(key, depth + 1), depth + 1);
    var side := Subtree(sha, next, SiblingPrefix(key, depth), depth + 1);
    assert side == Success(SiblingAt(sha, leaves, key, depth));
    assert if BitAt(key, depth) then Subtree(sha, next, PrefixKey(key, depth), depth) == Join(sha, side, below)
                                else Subtree(sha, next, PrefixKey(key, depth), depth) == Join(sha, below, side);
  }

  /** Climbing a new leaf along the old siblings follows the updated tree. */
  lemma {:induction false} ClimbFollowsUpdate(sha: Sha256, leaves: Leaves, key: Bytes32, leaf: Leaf, n: nat)
    requires n <= MAX_TREE_LEVELS && SumOf(leaves) < U64_LIMIT
    ensures Climb(sha, key, leaf, ProofOf(sha, leaves, key).siblings, n)
         == Subtree(sha, Update(leaves, key, leaf), PrefixKey(key, MAX_TREE_LEVELS - n), MAX_TREE_LEVELS - n)
  {
    if n == 0 {
      PrefixEnds(key);
    } else {
      var depth := MAX_TREE_LEVELS - n;
      ClimbFollowsUpdate(sha, leaves, key, leaf, n - 1);
      StepFollowsUpdate(sha, leaves, key, leaf, depth);
      assert ProofOf(sha, leaves, key).siblings[n - 1] == SiblingAt(sha, leaves, key, depth);
    }
  }

  /** The old proof of any key, present or absent, computes the root after storing any leaf
      there, overflow included: a tree can be updated by someone who only holds its root. */
  lemma {:induction false} StatelessUpdate(sha: Sha256, leaves: Leaves, key: Bytes32, leaf: Leaf)
    requires SumOf(leaves) < U64_LIMIT
    ensures RootFor(sha, ProofOf(sha, leaves, key), key, leaf) == Root(sha, Update(leaves, key, leaf))
  {
    ClimbFollowsUpdate(sha, leaves, key, leaf, MAX_TREE_LEVELS);
    PrefixEnds(key);
  }

  predicate NoEmptyLeaf(leaves: Leaves) {
    EMPTY_LEAF !in leaves.Values
  }

  lemma UpdateSame(leaves: Leaves, key: Bytes32)
    requires NoEmptyLeaf(leaves)
    ensures Update(leaves, key, LeafAt(leaves, key)) == leaves
  {
    if key in leaves {
      assert leaves[key] in leaves.Values;
    }
  }

  /** What checking a tree's own proof answers, for any leaf and any claimed root: it is an
      error when storing the leaf would overflow, and otherwise says whether storing the leaf
      would leave exactly that root, hash and sum. */
  lemma {:induction false} VerifyDecides(sha: Sha256, leaves: Leaves, key: Bytes32, leaf: Leaf, root: Node)
    requires SumOf(leaves) < U64_LIMIT
    ensures Verify(sha, ProofOf(sha, leaves, key), key, leaf, root) == Success(true)
       <==> Root(sha, Update(leaves, key, leaf)) == Success(root)
    ensures Verify(sha, ProofOf(sha, leaves, key), key, leaf, root) == Success(false)
       <==> Root(sha, Update(leaves, key, leaf)).Success? && Root(sha, Update(leaves, key, leaf)) != Success(root)
  {
    StatelessUpdate(sha, leaves, key, leaf);
  }

  /** Every key has a proof under the current root: of its leaf, or, when it is absent, of the
      empty leaf. The same proof and leaf verify under no other node. */
  lemma {:induction false} OwnProofVerifies(sha: Sha256, leaves: Leaves, key: Bytes32, root: Node)
    requires SumOf(leaves) < U64_LIMIT && NoEmptyLeaf(leaves)
    ensures Root(sha, leaves).Success?
    ensures key in leaves ==>
      Verify(sha, ProofOf(sha, leaves, key), key, leaves[key], root) == Success(Root(sha, leaves) == Success(root))
    ensures key !in leaves ==>
      Verify(sha, ProofOf(sha, leaves, key), key, EMPTY_LEAF, root) == Success(Root(sha, leaves) == Success(root))
  {
    TotalBoundsRoot(sha, leaves);
    UpdateSame(leaves, key);
    VerifyDecides(sha, leaves, key, LeafAt(leaves, key), root);
  }

  lemma {:induction false} TotalBoundsRoot(sha: Sha256, leaves: Leaves)
    requires SumOf(leaves) < U64_LIMIT
    ensures Root(sha, leaves).Success?
  {
    var start := ZERO32;
    PrefixEnds(start);
    SubtreeSum(sha, leaves, start, 0);
    SumOfUnderAtMost(leaves, start, 0);
  }

  /** Against the root of a tree, any leaf with any proof: the stored leaf, or the empty leaf of
      an absent key, verifies with the tree's own siblings, and whatever else verifies exhibits
      a collision. */
  lemma {:induction false} OnlyStoredLeafVerifies(sha: Sha256, leaves: Leaves, key: Bytes32, leaf: Leaf, proof: Proof, root: Node)
    requires SumOf(leaves) < U64_LIMIT && NoEmptyLeaf(leaves)
    requires Root(sha, leaves) == Success(root)
    ensures leaf == LeafAt(leaves, key) && proof == ProofOf(sha, leaves, key) ==>
      Verify(sha, proof, key, leaf, root) == Success(true)
    ensures RootFor(sha, ProofOf(sha, leaves, key), key, LeafAt(leaves, key)).Success?
    ensures Verify(sha, proof, key, leaf, root) == Success(true) ==>
      || (leaf == LeafAt(leaves, key) && proof == ProofOf(sha, leaves, key))
      || (RootFor(sha, proof, key, leaf).Success?
          && IsCollision(sha, FirstDifference(sha, key, leaf, proof.siblings,
                           LeafAt(leaves, key), ProofOf(sha, leaves, key).siblings, MAX_TREE_LEVELS)))
  {
    OwnProofVerifies(sha, leaves, key, root);
    UpdateSame(leaves, key);
    StatelessUpdate(sha, leaves, key, LeafAt(leaves, key));
    if Verify(sha, proof, key, leaf, root) == Success(true) {
      ProofBinding(sha, key, leaf, proof, LeafAt(leaves, key), ProofOf(sha, leaves, key), root);
    }
  }

  /** A root binds every leaf: where two trees with equal roots differ, their own proofs of
      that key both verify under it and lead to a collision. */
  lemma {:induction false} RootBindsLeaf(sha: Sha256, a: Leaves, b: Leaves, key: Bytes32, root: Node)
    requires SumOf(a) < U64_LIMIT && NoEmptyLeaf(a) && SumOf(b) < U64_LIMIT && NoEmptyLeaf(b)
    requires Root(sha, a) == Root(sha, b) == Success(root)
    ensures Verify(sha, ProofOf(sha, a, key), key, LeafAt(a, key), root) == Success(true)
    ensures Verify(sha, ProofOf(sha, b, key), key, LeafAt(b, key), root) == Success(true)
    ensures RootFor(sha, ProofOf(sha, a, key), key, LeafAt(a, key)).Success?
    ensures RootFor(sha, ProofOf(sha, b, key), key, LeafAt(b, key)).Success?
    ensures || LeafAt(a, key) == LeafAt(b, key)
            || IsCollision(sha, FirstDifference(sha, key, LeafAt(a, key), ProofOf(sha, a, key).siblings,
                                                LeafAt(b, key), ProofOf(sha, b, key).siblings, MAX_TREE_LEVELS))
  {
    OnlyStoredLeafVerifies(sha, a, key, LeafAt(a, key), ProofOf(sha, a, key), root);
    OnlyStoredLeafVerifies(sha, b, key, LeafAt(b, key), ProofOf(sha, b, key), root);
    ProofBinding(sha, key, LeafAt(a, key), ProofOf(sha, a, key), LeafAt(b, key), ProofOf(sha, b, key), root);
  }
}
