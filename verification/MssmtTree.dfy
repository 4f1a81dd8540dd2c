/** The level-by-level construction of the tree, and the tree object built on it. */
module MssmtTree {
  import opened ByteBits
  import opened Primitives
  import opened KeyBits
  import opened MssmtSpec
  import opened MssmtProof

  type Level = map<Bytes32, Node>

  function Lookup(level: Level, p: Bytes32, default: Node): Node {
    if p in level then level[p] else default
  }

  /** The pruned level at `depth` stands for every subtree of that depth: looking a prefix up,
      with the empty node as default, gives the recursive hash-sum of the leaves under it. */
  ghost predicate LevelRefines(sha: Sha256, leaves: Leaves, level: Level, depth: nat)
    requires depth <= MAX_TREE_LEVELS
  {
    && (forall p | p in level :: IsPrefix(p, depth))
    && (forall p: Bytes32 | IsPrefix(p, depth) ::
          Subtree(sha, leaves, p, depth) == Success(Lookup(level, p, EmptyNode(sha, depth))))
  }

  /** No level above the leaves stores an empty subtree. */
  predicate Pruned(sha: Sha256, level: Level, depth: nat)
    requires depth <= MAX_TREE_LEVELS
  {
    depth < MAX_TREE_LEVELS ==> EmptyNode(sha, depth) !in level.Values
  }

  ghost predicate LevelOk(sha: Sha256, leaves: Leaves, level: Level, depth: nat)
    requires depth <= MAX_TREE_LEVELS
  {
    LevelRefines(sha, leaves, level, depth) && Pruned(sha, level, depth)
  }

  ghost predicate LevelsRefine(sha: Sha256, leaves: Leaves, levels: seq<Level>) {
    && |levels| == MAX_TREE_LEVELS + 1
    && forall depth: nat | depth <= MAX_TREE_LEVELS :: LevelOk(sha, leaves, levels[depth], depth)
  }

  // ----- one level -----

  datatype ChildPair = ChildPair(left: Option<Node>, right: Option<Node>)

  function Child(level: Level, p: Bytes32): Option<Node> {
    if p in level then Some(level[p]) else None
  }

  function ChildrenIn(level: Level, p: Bytes32, depth: nat): ChildPair
    requires depth < MAX_TREE_LEVELS
  {
    ChildPair(Child(level, p), Child(level, SiblingPrefix(p, depth)))
  }

  ghost predicate PrefixesOf(level: Level, depth: nat) {
    forall k | k in level :: IsPrefix(k, depth)
  }

  /** `grouped` holds, for each parent that has one, the children found in `done`. */
  ghost predicate GroupedBy(grouped: map<Bytes32, ChildPair>, done: Level, depth: nat)
    requires depth < MAX_TREE_LEVELS
  {
    && (forall p | p in grouped :: IsPrefix(p, depth) && grouped[p] == ChildrenIn(done, p, depth))
    && (forall k | k in done :: PrefixKey(k, depth) in grouped)
  }

  /** A key one bit longer than its parent is the parent's left or right child, by its last bit. */
  lemma KeyIsChild(key: Bytes32, depth: nat)
    requires depth < MAX_TREE_LEVELS && IsPrefix(key, depth + 1)
    ensures var p := PrefixKey(key, depth);
            && IsPrefix(p, depth)
            && key == (if BitAt(key, depth) then SiblingPrefix(p, depth) else p)
            && p != SiblingPrefix(p, depth)
  {
    PrefixStep(key, depth);
    PrefixOfPrefix(key, depth, depth);
    ChildrenOf(PrefixKey(key, depth), depth);
  }

  lemma GroupStep(grouped: map<Bytes32, ChildPair>, done: Level, key: Bytes32, node: Node, depth: nat)
    requires depth < MAX_TREE_LEVELS && IsPrefix(key, depth + 1) && key !in done
    requires GroupedBy(grouped, done, depth)
    ensures var p := PrefixKey(key, depth);
            var pair := if p in grouped then grouped[p] else ChildPair(None, None);
            var grown := if BitAt(key, depth) then pair.(right := Some(node)) else pair.(left := Some(node));
            && (if BitAt(key, depth) then pair.right.None? else pair.left.None?)
            && GroupedBy(grouped[p := grown], done[key := node], depth)
  {
    var p := PrefixKey(key, depth);
    var right := SiblingPrefix(p, depth);
    KeyIsChild(key, depth);
    ChildrenOf(p, depth);
    assert p in done ==> PrefixKey(p, depth) in grouped;
    assert right in done ==> PrefixKey(right, depth) in grouped;
    forall q | q in grouped && q != p
      ensures ChildrenIn(done[key := node], q, depth) == ChildrenIn(done, q, depth)
    {
      ChildrenOf(q, depth);
    }
  }

  method GroupChildren(current: Level, depth: nat) returns (r: Result<map<Bytes32, ChildPair>, MssmtError>)
    requires depth < MAX_TREE_LEVELS && PrefixesOf(current, depth + 1)
    ensures r.Success? && GroupedBy(r.value, current, depth)
  {
    var grouped: map<Bytes32, ChildPair> := map[];
    var todo := current;
    ghost var done: Level := map[];
    while todo != map[]
      invariant todo.Keys !! done.Keys && current == done + todo
      invariant GroupedBy(grouped, done, depth)
      decreases |todo|
    {
      var key :| key in todo;
      var node := todo[key];
      assert key in current;
      GroupStep(grouped, done, key, node, depth);
      var parentKey := PrefixKey(key, depth);
      var children := if parentKey in grouped then grouped[parentKey] else ChildPair(None, None);
      if !BitAt(key, depth) {
        if children.left.Some? {
          return Failure(DuplicateKey(key));
        }
        grouped := grouped[parentKey := children.(left := Some(node))];
      } else {
        if children.right.Some? {
          return Failure(DuplicateKey(key));
        }
        grouped := grouped[parentKey := children.(right := Some(node))];
      }
      MoveKey(done, todo, key);
      done := done[key := node];
      todo := todo - {key};
    }
    assert done == current;
    r := Success(grouped);
  }

  lemma MoveKey(done: Level, todo: Level, key: Bytes32)
    requires key in todo && done.Keys !! todo.Keys
    ensures var d, t := done[key := todo[key]], todo - {key};
            d.Keys !! t.Keys && d + t == done + todo && |t| < |todo|
  {
    assert (todo - {key}).Keys == todo.Keys - {key};
  }

  function GetOr(o: Option<Node>, default: Node): Node {
    if o.Some? then o.value else default
  }

  function ParentOf(sha: Sha256, pair: ChildPair, depth: nat): Result<Node, MssmtError>
    requires depth < MAX_TREE_LEVELS
  {
    var empty := EmptyNode(sha, depth + 1);
    BranchNode(sha, GetOr(pair.left, empty), GetOr(pair.right, empty))
  }

  method BuildParents(sha: Sha256, grouped: map<Bytes32, ChildPair>, depth: nat) returns (r: Result<Level, MssmtError>)
    requires depth < MAX_TREE_LEVELS
    ensures r.Success? ==> forall p | p in grouped :: ParentOf(sha, grouped[p], depth).Success?
    ensures r.Success? ==> forall p :: p in r.value <==>
              p in grouped && ParentOf(sha, grouped[p], depth) != Success(EmptyNode(sha, depth))
    ensures r.Success? ==> forall p | p in r.value :: ParentOf(sha, grouped[p], depth) == Success(r.value[p])
    ensures r.Failure? ==> r.error == AmountOverflow
    ensures r.Failure? ==> exists p :: p in grouped && ParentOf(sha, grouped[p], depth).Failure?
  {
    var parents: Level := map[];
    var todo := grouped.Keys;
    while todo != {}
      invariant todo <= grouped.Keys
      invariant forall p | p in grouped && p !in todo :: ParentOf(sha, grouped[p], depth).Success?
      invariant forall p :: p in parents <==>
                  p in grouped && p !in todo && ParentOf(sha, grouped[p], depth) != Success(EmptyNode(sha, depth))
      invariant forall p | p in parents :: ParentOf(sha, grouped[p], depth) == Success(parents[p])
      decreases |todo|
    {
      var parentKey :| parentKey in todo;
      var children := grouped[parentKey];
      var left := GetOr(children.left, EmptyNode(sha, depth + 1));
      var right := GetOr(children.right, EmptyNode(sha, depth + 1));
      var parent := BranchNode(sha, left, right);
      if parent.Failure? {
        return Failure(parent.error);
      }
      if parent.value != EmptyNode(sha, depth) {
        parents := parents[parentKey := parent.value];
      }
      todo := todo - {parentKey};
    }
    r := Success(parents);
  }

  /** The children grouped under `p` join to the recursive subtree at `p`. */
  lemma {:induction false} ParentIsSubtree(sha: Sha256, leaves: Leaves, level: Level, grouped: map<Bytes32, ChildPair>, p: Bytes32, depth: nat)
    requires depth < MAX_TREE_LEVELS && IsPrefix(p, depth)
    requires LevelRefines(sha, leaves, level, depth + 1) && GroupedBy(grouped, level, depth)
    ensures p in grouped ==> ParentOf(sha, grouped[p], depth) == Subtree(sha, leaves, p, depth)
    ensures p !in grouped ==> Subtree(sha, leaves, p, depth) == Success(EmptyNode(sha, depth))
  {
    var right := SiblingPrefix(p, depth);
    ChildrenOf(p, depth);
    if p !in grouped {
      assert p in level ==> PrefixKey(p, depth) in grouped;
      assert right in level ==> PrefixKey(right, depth) in grouped;
    }
  }

  lemma {:induction false} LevelUp(sha: Sha256, leaves: Leaves, level: Level, grouped: map<Bytes32, ChildPair>, parents: Level, depth: nat)
    requires depth < MAX_TREE_LEVELS
    requires LevelRefines(sha, leaves, level, depth + 1) && GroupedBy(grouped, level, depth)
    requires forall p | p in grouped :: ParentOf(sha, grouped[p], depth).Success?
    requires forall p :: p in parents <==>
               p in grouped && ParentOf(sha, grouped[p], depth) != Success(EmptyNode(sha, depth))
    requires forall p | p in parents :: ParentOf(sha, grouped[p], depth) == Success(parents[p])
    ensures LevelRefines(sha, leaves, parents, depth) && Pruned(sha, parents, depth)
  {
    forall p: Bytes32 | IsPrefix(p, depth)
      ensures Subtree(sha, leaves, p, depth) == Success(Lookup(parents, p, EmptyNode(sha, depth)))
    {
      ParentIsSubtree(sha, leaves, level, grouped, p, depth);
    }
  }

  lemma {:induction false} OverflowMeansTotal(sha: Sha256, leaves: Leaves, level: Level, grouped: map<Bytes32, ChildPair>, depth: nat)
    requires depth < MAX_TREE_LEVELS
    requires LevelRefines(sha, leaves, level, depth + 1) && GroupedBy(grouped, level, depth)
    requires exists p :: p in grouped && ParentOf(sha, grouped[p], depth).Failure?
    ensures SumOf(leaves) >= U64_LIMIT
  {
    var p :| p in grouped && ParentOf(sha, grouped[p], depth).Failure?;
    ParentIsSubtree(sha, leaves, level, grouped, p, depth);
    SubtreeSum(sha, leaves, p, depth);
    SumOfUnderAtMost(leaves, p, depth);
  }

  lemma {:induction false} RootSum(sha: Sha256, leaves: Leaves)
    ensures CarriesSum(Root(sha, leaves), SumOf(leaves))
  {
    PrefixEnds(ZERO32);
    UnderRoot(leaves);
    SubtreeSum(sha, leaves, ZERO32, 0);
  }

  // ----- the whole tree -----

  method LeafLevel(sha: Sha256, leaves: Leaves) returns (level: Level)
    ensures LevelRefines(sha, leaves, level, MAX_TREE_LEVELS)
  {
    level := map[];
    var todo := leaves;
    while todo != map[]
      invariant forall k :: k in level <==> k in leaves && k !in todo
      invariant forall k | k in todo :: k in leaves && todo[k] == leaves[k]
      invariant forall k | k in level :: level[k] == LeafNode(sha, leaves[k])
      decreases |todo|
    {
      var key :| key in todo;
      level := level[key := LeafNode(sha, todo[key])];
      assert (todo - {key}).Keys == todo.Keys - {key};
      todo := todo - {key};
    }
    forall p | p in level
      ensures IsPrefix(p, MAX_TREE_LEVELS)
    {
      PrefixEnds(p);
    }
  }

  /** One round of the construction: the level at `depth` from the level below it. */
  method BuildLevel(sha: Sha256, ghost leaves: Leaves, current: Level, depth: nat) returns (r: Result<Level, MssmtError>)
    requires depth < MAX_TREE_LEVELS && LevelRefines(sha, leaves, current, depth + 1)
    ensures r.Success? ==> LevelRefines(sha, leaves, r.value, depth) && Pruned(sha, r.value, depth)
    ensures r.Failure? ==> r.error == AmountOverflow && SumOf(leaves) >= U64_LIMIT
  {
    var grouped := GroupChildren(current, depth);
    r := BuildParents(sha, grouped.value, depth);
    if r.Failure? {
      OverflowMeansTotal(sha, leaves, current, grouped.value, depth);
    } else {
      LevelUp(sha, leaves, current, grouped.value, r.value, depth);
    }
  }

  /** Builds every level bottom-up. It fails exactly when the leaf sums overflow 64 bits, and
      never with a duplicate key. */
  method Rebuild(sha: Sha256, leaves: Leaves) returns (r: Result<seq<Level>, MssmtError>)
    ensures r.Success? <==> SumOf(leaves) < U64_LIMIT
    ensures r.Success? ==> LevelsRefine(sha, leaves, r.value)
    ensures r.Failure? ==> r.error == AmountOverflow
  {
    var levels := NoLevels();
    var current := LeafLevel(sha, leaves);
    levels := levels[MAX_TREE_LEVELS := current];
    for depth := MAX_TREE_LEVELS downto 0
      invariant |levels| == MAX_TREE_LEVELS + 1 && current == levels[depth]
      invariant forall d: nat | depth <= d <= MAX_TREE_LEVELS :: LevelOk(sha, leaves, levels[d], d)
    {
      var parents := BuildLevel(sha, leaves, current, depth);
      if parents.Failure? {
        return Failure(parents.error);
      }
      current := parents.value;
      levels := levels[depth := current];
    }
    LevelZero(sha, leaves, levels[0]);
    r := Success(levels);
  }

  function NoLevels(): (levels: seq<Level>)
    ensures |levels| == MAX_TREE_LEVELS + 1
    ensures forall d: nat | d <= MAX_TREE_LEVELS :: levels[d] == map[]
  {
    seq(MAX_TREE_LEVELS + 1, _ => map[])
  }

  lemma {:induction false} LevelZero(sha: Sha256, leaves: Leaves, level: Level)
    requires LevelOk(sha, leaves, level, 0)
    ensures Root(sha, leaves) == Success(Lookup(level, ZERO32, EmptyNode(sha, 0)))
    ensures SumOf(leaves) < U64_LIMIT
  {
    PrefixEnds(ZERO32);
    RootSum(sha, leaves);
  }

  /** Distinct, non-empty leaves as a map; the first offending entry decides the error. */
  function Collect(items: seq<(Bytes32, Leaf)>): Result<Leaves, MssmtError> {
    if items == [] then Success(map[])
    else
      var rest := Collect(items[..|items| - 1]);
      var (key, leaf) := items[|items| - 1];
      if rest.Failure? then rest
      else if leaf == EMPTY_LEAF then Failure(EmptyLeafInsertion(key))
      else if key in rest.value then Failure(DuplicateKey(key))
      else Success(rest.value[key := leaf])
  }

  lemma {:induction false} CollectFailsEarly(items: seq<(Bytes32, Leaf)>, n: nat)
    requires n <= |items| && Collect(items[..n]).Failure?
    ensures Collect(items) == Collect(items[..n])
  {
    if n == |items| {
      assert items[..n] == items;
    } else {
      assert items[..|items| - 1][..n] == items[..n];
      CollectFailsEarly(items[..|items| - 1], n);
    }
  }

  lemma {:induction false} CollectedNonEmpty(items: seq<(Bytes32, Leaf)>)
    requires Collect(items).Success?
    ensures NoEmptyLeaf(Collect(items).value)
  {
    if items != [] {
      CollectedNonEmpty(items[..|items| - 1]);
    }
  }

  method CollectLeaves(items: seq<(Bytes32, Leaf)>) returns (r: Result<Leaves, MssmtError>)
    ensures r == Collect(items)
  {
    var leaves: Leaves := map[];
    for i := 0 to |items|
      invariant Collect(items[..i]) == Success(leaves)
    {
      var (key, leaf) := items[i];
      assert items[..i + 1][..i] == items[..i];
      if leaf == EMPTY_LEAF {
        CollectFailsEarly(items, i + 1);
        return Failure(EmptyLeafInsertion(key));
      }
      if key in leaves {
        CollectFailsEarly(items, i + 1);
        return Failure(DuplicateKey(key));
      }
      leaves := leaves[key := leaf];
    }
    assert items[..|items|] == items;
    r := Success(leaves);
  }

  // ----- the tree object -----

  class Tree {
    const sha: Sha256
    var leaves: Leaves
    var levels: seq<Level>
    var root: Node

    /** The stored levels and root are the recursive tree of the stored leaves. */
    ghost predicate Valid()
      reads this
    {
      && NoEmptyLeaf(leaves)
      && SumOf(leaves) < U64_LIMIT
      && LevelsRefine(sha, leaves, levels)
      && Root(sha, leaves) == Success(root)
    }

    constructor Built(sha: Sha256, leaves: Leaves, levels: seq<Level>)
      requires NoEmptyLeaf(leaves) && LevelsRefine(sha, leaves, levels)
      ensures Valid() && this.sha == sha && this.leaves == leaves
    {
      LevelZero(sha, leaves, levels[0]);
      this.sha, this.leaves, this.levels := sha, leaves, levels;
      root := Lookup(levels[0], ZERO32, EmptyNode(sha, 0));
    }

    /** The empty tree. */
    constructor (sha: Sha256)
      ensures Valid() && this.sha == sha && leaves == map[]
    {
      EmptyLevels(sha);
      this.sha, leaves, levels := sha, map[], NoLevels();
      root := EmptyNode(sha, 0);
    }

    static method FromLeaves(sha: Sha256, items: seq<(Bytes32, Leaf)>) returns (r: Result<Tree, MssmtError>)
      ensures r.Success? <==> Collect(items).Success? && SumOf(Collect(items).value) < U64_LIMIT
      ensures r.Success? ==> fresh(r.value) && r.value.Valid() && r.value.sha == sha && r.value.leaves == Collect(items).value
      ensures r.Failure? ==> r.error == if Collect(items).Failure? then Collect(items).error else AmountOverflow
    {
      var collected := CollectLeaves(items);
      if collected.Failure? {
        return Failure(collected.error);
      }
      CollectedNonEmpty(items);
      var levels := Rebuild(sha, collected.value);
      if levels.Failure? {
        return Failure(levels.error);
      }
      var tree := new Tree.Built(sha, collected.value, levels.value);
      r := Success(tree);
    }

    /** Stores a leaf, or deletes it when empty. The outcome is the one the old proof of the
        key predicts: the new root is the climbed one, or the climb overflows and nothing changes. */
    method Insert(key: Bytes32, leaf: Leaf) returns (r: Result<(), MssmtError>)
      requires Valid()
      modifies this
      ensures Valid()
      ensures match RootFor(sha, ProofOf(sha, old(leaves), key), key, leaf)
              case Success(node) => r.Success? && root == node && leaves == Update(old(leaves), key, leaf)
              case Failure(error) => r == Failure(error) && unchanged(this)
    {
      StatelessUpdate(sha, leaves, key, leaf);
      var next := Update(leaves, key, leaf);
      assert NoEmptyLeaf(next) by {
        UpdateKeepsNonEmpty(leaves, key, leaf);
      }
      RootSum(sha, next);
      var rebuilt := Rebuild(sha, next);
      if rebuilt.Failure? {
        return Failure(rebuilt.error);
      }
      LevelZero(sha, next, rebuilt.value[0]);
      leaves, levels := next, rebuilt.value;
      root := Lookup(levels[0], ZERO32, EmptyNode(sha, 0));
      r := Success(());
    }

    /** Deleting never overflows. */
    method Delete(key: Bytes32) returns (r: Result<(), MssmtError>)
      requires Valid()
      modifies this
      ensures Valid()
      ensures r.Success? && leaves == old(leaves) - {key}
    {
      SumOfRestriction(leaves, {key});
      RootSum(sha, leaves - {key});
      StatelessUpdate(sha, leaves, key, EMPTY_LEAF);
      r := Insert(key, EMPTY_LEAF);
    }

    method Prove(key: Bytes32) returns (proof: Proof)
      requires Valid()
      ensures proof == ProofOf(sha, leaves, key)
    {
      var siblings := seq(MAX_TREE_LEVELS, _ => Node(ZERO32, 0));
      for depth := 0 to MAX_TREE_LEVELS
        invariant |siblings| == MAX_TREE_LEVELS
        invariant forall d: nat | d < depth :: siblings[MAX_TREE_LEVELS - 1 - d] == SiblingAt(sha, leaves, key, d)
      {
        SiblingIsPrefix(key, depth);
        assert LevelOk(sha, leaves, levels[depth + 1], depth + 1);
        var sibling := Lookup(levels[depth + 1], SiblingPrefix(key, depth), EmptyNode(sha, depth + 1));
        siblings := siblings[MAX_TREE_LEVELS - 1 - depth := sibling];
      }
      proof := Proof(siblings);
      forall i | 0 <= i < MAX_TREE_LEVELS
        ensures siblings[i] == ProofOf(sha, leaves, key).siblings[i]
      {
        assert siblings[MAX_TREE_LEVELS - 1 - (MAX_TREE_LEVELS - 1 - i)] == SiblingAt(sha, leaves, key, MAX_TREE_LEVELS - 1 - i);
      }
    }

    /** The two halves of the tree, whose branch is the root. */
    method RootChildren() returns (left: Node, right: Node)
      requires Valid()
      ensures BranchNode(sha, left, right) == Success(root)
      ensures Subtree(sha, leaves, ZERO32, 1) == Success(left)
      ensures Subtree(sha, leaves, ZERO32[0 := 1], 1) == Success(right)
    {
      var rightKey := ZERO32[0 := 1];
      PrefixEnds(ZERO32);
      FirstBit(ZERO32);
      Halves(sha, leaves, levels[1], ZERO32, rightKey, 0, 1);
      left := Lookup(levels[1], ZERO32, EmptyNode(sha, 1));
      right := Lookup(levels[1], rightKey, EmptyNode(sha, 1));
    }

    method Get(key: Bytes32) returns (leaf: Option<Leaf>)
      requires Valid()
      ensures leaf == if LeafAt(leaves, key) == EMPTY_LEAF then None else Some(LeafAt(leaves, key))
    {
      leaf := if key in leaves then Some(leaves[key]) else None;
      assert key in leaves ==> leaves[key] in leaves.Values;
    }
  }

  lemma UpdateKeepsNonEmpty(leaves: Leaves, key: Bytes32, leaf: Leaf)
    requires NoEmptyLeaf(leaves)
    ensures NoEmptyLeaf(Update(leaves, key, leaf))
  {
    var next := Update(leaves, key, leaf);
    forall k | k in next
      ensures next[k] != EMPTY_LEAF
    {
      assert k != key ==> leaves[k] in leaves.Values;
    }
  }

  lemma {:induction false} SumOfRestriction(leaves: Leaves, keys: set<Bytes32>)
    ensures SumOf(leaves - keys) <= SumOf(leaves)
  {
    var kept := leaves - keys;
    var rest := leaves - kept.Keys;
    assert leaves == kept + rest;
    SumOfUnion(kept, rest);
  }

  lemma EmptyLevels(sha: Sha256)
    ensures LevelsRefine(sha, map[], NoLevels())
    ensures Root(sha, map[]) == Success(EmptyNode(sha, 0))
  {
    SubtreeEmpty(sha, ZERO32, 0);
    forall d: nat | d <= MAX_TREE_LEVELS
      ensures LevelOk(sha, map[], NoLevels()[d], d)
    {
      EmptyLevelOk(sha, d);
    }
  }

  lemma EmptyLevelOk(sha: Sha256, depth: nat)
    requires depth <= MAX_TREE_LEVELS
    ensures LevelOk(sha, map[], map[], depth)
  {
    forall p: Bytes32
      ensures Subtree(sha, map[], p, depth) == Success(EmptyNode(sha, depth))
    {
      SubtreeEmpty(sha, p, depth);
    }
  }

  lemma {:induction false} Halves(sha: Sha256, leaves: Leaves, level: Level, p: Bytes32, right: Bytes32, depth: nat, below: nat)
    requires depth < MAX_TREE_LEVELS && below == depth + 1 && IsPrefix(p, depth) && right == FlipAt(p, depth)
    requires LevelOk(sha, leaves, level, below)
    ensures var empty := EmptyNode(sha, below);
            var l, r := Lookup(level, p, empty), Lookup(level, right, empty);
            && Subtree(sha, leaves, p, below) == Success(l)
            && Subtree(sha, leaves, right, below) == Success(r)
            && Subtree(sha, leaves, p, depth) == BranchNode(sha, l, r)
  {
    SiblingOfPrefix(p, depth);
  }
}
