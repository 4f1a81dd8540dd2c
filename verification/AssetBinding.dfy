/** The root derived from asset leaves fixes the leaves. */
module AssetBinding {
  import opened ByteBits
  import opened Primitives
  import opened KeyBits
  import opened MssmtSpec
  import opened MssmtProof
  import opened MssmtTree
  import opened AssetRoot

  /** A key's preimage tells the leaf and its position. */
  lemma {:induction false} KeyPreimageInjective(a: AssetLeaf, i: u64, b: AssetLeaf, j: u64)
    requires KeyPreimage(a, i) == KeyPreimage(b, j)
    ensures a == b && i == j
  {
    var d := Ascii(KEY_DOMAIN);
    var x1, y1 := d + a.assetId, d + b.assetId;
    var x2, y2 := x1 + a.scriptKey, y1 + b.scriptKey;
    var x3, y3 := x2 + U64Be(a.amount), y2 + U64Be(b.amount);
    SplitAt(x3, U64Be(i), y3, U64Be(j));
    SplitAt(x2, U64Be(a.amount), y2, U64Be(b.amount));
    SplitAt(x1, a.scriptKey, y1, b.scriptKey);
    SplitAt(d, a.assetId, d, b.assetId);
    U64BeInjective(i, j);
    U64BeInjective(a.amount, b.amount);
  }

  /** A leaf of the tree tells the asset leaf it stands for. */
  lemma {:induction false} LeafValueInjective(a: AssetLeaf, b: AssetLeaf)
    requires LeafValue(a) == LeafValue(b)
    ensures a == b
  {
    SplitAt(a.assetId + a.scriptKey, U64Be(a.amount), b.assetId + b.scriptKey, U64Be(b.amount));
    SplitAt(a.assetId, a.scriptKey, b.assetId, b.scriptKey);
    U64BeInjective(a.amount, b.amount);
  }

  /** The leaves of a derived tree, by key. */
  function LeavesOf(sha: Sha256, sorted: seq<AssetLeaf>): Leaves
    requires |sorted| <= U64_LIMIT && Collect(Items(sha, sorted)).Success?
  {
    Collect(Items(sha, sorted)).value
  }

  lemma {:induction false} CollectedAt(sha: Sha256, sorted: seq<AssetLeaf>, i: nat)
    requires i < |sorted| <= U64_LIMIT && Collect(Items(sha, sorted)).Success?
    ensures var (key, leaf) := ItemOf(sha, sorted[i], i);
            key in LeavesOf(sha, sorted) && LeavesOf(sha, sorted)[key] == leaf
  {
    CollectLast(sha, sorted);
    if i < |sorted| - 1 {
      CollectedAt(sha, sorted[..|sorted| - 1], i);
    }
  }

  // ----- two lists with one root -----

  /** The two trees' own proofs of a key lead to a collision. */
  ghost predicate PathCollides(sha: Sha256, a: Leaves, b: Leaves, key: Bytes32)
    requires SumOf(a) < U64_LIMIT && SumOf(b) < U64_LIMIT
  {
    && RootFor(sha, ProofOf(sha, a, key), key, LeafAt(a, key)).Success?
    && RootFor(sha, ProofOf(sha, b, key), key, LeafAt(b, key)).Success?
    && IsCollision(sha, FirstDifference(sha, key, LeafAt(a, key), ProofOf(sha, a, key).siblings,
                                        LeafAt(b, key), ProofOf(sha, b, key).siblings, MAX_TREE_LEVELS))
  }

  ghost predicate PositionsCollide(sha: Sha256, x: seq<AssetLeaf>, y: seq<AssetLeaf>, i: nat, j: nat) {
    && i < |x| <= U64_LIMIT && j < |y| <= U64_LIMIT
    && IsCollision(sha, (KeyPreimage(x[i], i), KeyPreimage(y[j], j)))
  }

  predicate Derives(sha: Sha256, sorted: seq<AssetLeaf>) {
    |sorted| <= U64_LIMIT && Total(sorted) < U64_LIMIT && Collect(Items(sha, sorted)).Success?
  }

  /** Where two lists with one root collide: in the keys of two positions, or on the path to a key. */
  ghost predicate ListsCollide(sha: Sha256, x: seq<AssetLeaf>, y: seq<AssetLeaf>)
    requires Derives(sha, x) && Derives(sha, y)
  {
    CollectedTotal(sha, x);
    CollectedTotal(sha, y);
    || (exists i: nat, j: nat :: PositionsCollide(sha, x, y, i, j))
    || (exists i: nat | i < |x| :: PathCollides(sha, LeavesOf(sha, x), LeavesOf(sha, y), sha(KeyPreimage(x[i], i))))
  }

  lemma {:induction false} DerivedRoot(sha: Sha256, leaves: seq<AssetLeaf>)
    requires |leaves| <= U64_LIMIT && DeriveRoot(sha, leaves).Success?
    ensures Derives(sha, Sort(leaves))
    ensures Root(sha, LeavesOf(sha, Sort(leaves)))
              == Success(Node(DeriveRoot(sha, leaves).value.hash, DeriveRoot(sha, leaves).value.sum))
  {
    SameLength(leaves);
    DeriveRootOutcome(sha, leaves);
  }

  /** A position of the one list is the same in the other, or they collide. */
  lemma {:induction false} SamePosition(sha: Sha256, x: seq<AssetLeaf>, y: seq<AssetLeaf>, i: nat, root: Node)
    requires Derives(sha, x) && Derives(sha, y) && i < |x|
    requires Root(sha, LeavesOf(sha, x)) == Root(sha, LeavesOf(sha, y)) == Success(root)
    ensures (i < |y| && y[i] == x[i]) || ListsCollide(sha, x, y)
  {
    CollectedTotal(sha, x);
    CollectedTotal(sha, y);
    CollectedNonEmpty(Items(sha, x));
    CollectedNonEmpty(Items(sha, y));
    CollectedAt(sha, x, i);
    var a, b, key := LeavesOf(sha, x), LeavesOf(sha, y), sha(KeyPreimage(x[i], i));
    RootBindsLeaf(sha, a, b, key, root);
    if LeafAt(a, key) == LeafAt(b, key) {
      assert |LeafValue(x[i])| == 73;
      assert key in b;
      var j := CollectedKeys(sha, y, key);
      if KeyPreimage(x[i], i) == KeyPreimage(y[j], j) {
        KeyPreimageInjective(x[i], i, y[j], j);
      } else {
        assert PositionsCollide(sha, x, y, i, j);
      }
    } else {
      assert PathCollides(sha, a, b, key);
    }
  }

  /** The one list starts like the other. */
  predicate Starts(x: seq<AssetLeaf>, y: seq<AssetLeaf>) {
    |x| <= |y| && forall i | 0 <= i < |x| :: y[i] == x[i]
  }

  lemma {:induction false} RootStarts(sha: Sha256, x: seq<AssetLeaf>, y: seq<AssetLeaf>, root: Node)
    requires Derives(sha, x) && Derives(sha, y)
    requires Root(sha, LeavesOf(sha, x)) == Root(sha, LeavesOf(sha, y)) == Success(root)
    ensures Starts(x, y) || ListsCollide(sha, x, y)
  {
    if x != [] && !ListsCollide(sha, x, y) {
      SamePosition(sha, x, y, |x| - 1, root);
      forall i | 0 <= i < |x|
        ensures y[i] == x[i]
      {
        SamePosition(sha, x, y, i, root);
      }
    }
  }

  /** Two lists of leaves with one derived root are the same leaves: nothing but a collision between the keys of
      two positions, or on the path to a key, gives two different lists one root. */
  lemma {:induction false} RootBindsLeaves(sha: Sha256, xs: seq<AssetLeaf>, ys: seq<AssetLeaf>)
    requires |xs| <= U64_LIMIT && |ys| <= U64_LIMIT
    requires DeriveRoot(sha, xs).Success? && DeriveRoot(sha, xs) == DeriveRoot(sha, ys)
    ensures Derives(sha, Sort(xs)) && Derives(sha, Sort(ys))
    ensures || multiset(xs) == multiset(ys)
            || ListsCollide(sha, Sort(xs), Sort(ys)) || ListsCollide(sha, Sort(ys), Sort(xs))
  {
    DerivedRoot(sha, xs);
    DerivedRoot(sha, ys);
    SortedBinds(sha, Sort(xs), Sort(ys), Root(sha, LeavesOf(sha, Sort(xs))).value);
  }

  lemma {:induction false} SortedBinds(sha: Sha256, x: seq<AssetLeaf>, y: seq<AssetLeaf>, root: Node)
    requires Derives(sha, x) && Derives(sha, y)
    requires Root(sha, LeavesOf(sha, x)) == Root(sha, LeavesOf(sha, y)) == Success(root)
    ensures x == y || ListsCollide(sha, x, y) || ListsCollide(sha, y, x)
  {
    RootStarts(sha, x, y, root);
    RootStarts(sha, y, x, root);
  }
}
