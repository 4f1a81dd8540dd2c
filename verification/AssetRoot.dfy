/** Asset leaves, the hash-sum root derived from a list of them, and split conservation. */
module AssetRoot {
  import opened ByteBits
  import opened Primitives
  import opened KeyBits
  import opened MssmtSpec
  import opened MssmtProof
  import opened MssmtTree

  datatype AssetLeaf = AssetLeaf(assetId: Bytes32, scriptKey: Key33, amount: u64)

  datatype AssetError =
    | AmountOverflowed
    | AmountNotConserved(input: u64, output: u64)
    | EmptyInputSet
    | MismatchedAssetId(expected: Bytes32, actual: Bytes32)
    | Mssmt(error: MssmtError)

  function CheckedAdd(a: u64, b: u64): Result<u64, AssetError> {
    if a + b < U64_LIMIT then Success(a + b) else Failure(AmountOverflowed)
  }

  /** The mathematical total, without any width. */
  function Total(leaves: seq<AssetLeaf>): nat {
    if leaves == [] then 0 else Total(leaves[..|leaves| - 1]) + leaves[|leaves| - 1].amount
  }

  // ----- the order leaves are sorted by -----

  /** Lexicographic order on byte strings of one length. */
  predicate BytesLe(a: Bytes, b: Bytes)
    requires |a| == |b|
  {
    a == [] || a[0] < b[0] || (a[0] == b[0] && BytesLe(a[1..], b[1..]))
  }

  lemma {:induction false} BytesLeTotal(a: Bytes, b: Bytes)
    requires |a| == |b|
    ensures BytesLe(a, b) || BytesLe(b, a)
    ensures BytesLe(a, b) && BytesLe(b, a) ==> a == b
  {
    if a != [] {
      BytesLeTotal(a[1..], b[1..]);
      assert a == [a[0]] + a[1..] && b == [b[0]] + b[1..];
    }
  }

  lemma {:induction false} BytesLeTransitive(a: Bytes, b: Bytes, c: Bytes)
    requires |a| == |b| == |c| && BytesLe(a, b) && BytesLe(b, c)
    ensures BytesLe(a, c)
  {
    if a != [] && a[0] == b[0] == c[0] {
      BytesLeTransitive(a[1..], b[1..], c[1..]);
    }
  }

  /** By asset id, then script key, then amount. */
  predicate LeafLe(a: AssetLeaf, b: AssetLeaf) {
    if a.assetId != b.assetId then BytesLe(a.assetId, b.assetId)
    else if a.scriptKey != b.scriptKey then BytesLe(a.scriptKey, b.scriptKey)
    else a.amount <= b.amount
  }

  lemma LeafLeTotal(a: AssetLeaf, b: AssetLeaf)
    ensures LeafLe(a, b) || LeafLe(b, a)
    ensures LeafLe(a, b) && LeafLe(b, a) ==> a == b
  {
    BytesLeTotal(a.assetId, b.assetId);
    BytesLeTotal(a.scriptKey, b.scriptKey);
  }

  lemma LeafLeTransitive(a: AssetLeaf, b: AssetLeaf, c: AssetLeaf)
    requires LeafLe(a, b) && LeafLe(b, c)
    ensures LeafLe(a, c)
  {
    BytesLeTotal(a.assetId, b.assetId);
    BytesLeTotal(b.assetId, c.assetId);
    BytesLeTotal(a.scriptKey, b.scriptKey);
    BytesLeTotal(b.scriptKey, c.scriptKey);
    if a.assetId != b.assetId && b.assetId != c.assetId {
      BytesLeTransitive(a.assetId, b.assetId, c.assetId);
    }
    if a.scriptKey != b.scriptKey && b.scriptKey != c.scriptKey && a.assetId == b.assetId == c.assetId {
      BytesLeTransitive(a.scriptKey, b.scriptKey, c.scriptKey);
    }
  }

  predicate Sorted(s: seq<AssetLeaf>) {
    forall i, j | 0 <= i < j < |s| :: LeafLe(s[i], s[j])
  }

  function Insert(s: seq<AssetLeaf>, x: AssetLeaf): (r: seq<AssetLeaf>)
    ensures multiset(r) == multiset(s) + multiset{x}
  {
    if s == [] || LeafLe(s[|s| - 1], x) then s + [x]
    else
      assert s == s[..|s| - 1] + [s[|s| - 1]];
      Insert(s[..|s| - 1], x) + [s[|s| - 1]]
  }

  /** The sorted list; any other sorting of the same leaves is equal, by `SortedUnique`. */
  function Sort(s: seq<AssetLeaf>): (r: seq<AssetLeaf>)
    ensures multiset(r) == multiset(s)
  {
    if s == [] then []
    else
      assert s == s[..|s| - 1] + [s[|s| - 1]];
      Insert(Sort(s[..|s| - 1]), s[|s| - 1])
  }

  lemma {:induction false} InsertSorted(s: seq<AssetLeaf>, x: AssetLeaf)
    requires Sorted(s)
    ensures Sorted(Insert(s, x))
  {
    if s != [] {
      var last := s[|s| - 1];
      LeafLeTotal(last, x);
      if LeafLe(last, x) {
        forall i | 0 <= i < |s|
          ensures LeafLe(s[i], x)
        {
          if i < |s| - 1 {
            LeafLeTransitive(s[i], last, x);
          }
        }
      } else {
        var head := s[..|s| - 1];
        InsertSorted(head, x);
        forall y | y in Insert(head, x)
          ensures LeafLe(y, last)
        {
          assert y in multiset(Insert(head, x));
        }
      }
    }
  }

  lemma {:induction false} SortSorted(s: seq<AssetLeaf>)
    ensures Sorted(Sort(s))
  {
    if s != [] {
      SortSorted(s[..|s| - 1]);
      InsertSorted(Sort(s[..|s| - 1]), s[|s| - 1]);
    }
  }

  lemma SortedLast(a: seq<AssetLeaf>, b: seq<AssetLeaf>)
    requires Sorted(a) && Sorted(b) && multiset(a) == multiset(b) && a != [] && b != []
    ensures a[|a| - 1] == b[|b| - 1]
  {
    var x, y := a[|a| - 1], b[|b| - 1];
    assert x in multiset(b) && y in multiset(a);
    var i :| 0 <= i < |a| && a[i] == y;
    var j :| 0 <= j < |b| && b[j] == x;
    LeafLeTotal(x, y);
  }

  lemma DropLast<T>(s: seq<T>)
    requires s != []
    ensures s == s[..|s| - 1] + [s[|s| - 1]]
    ensures multiset(s[..|s| - 1]) == multiset(s) - multiset{s[|s| - 1]}
  {
    assert s == s[..|s| - 1] + [s[|s| - 1]];
    assert multiset(s) == multiset(s[..|s| - 1]) + multiset{s[|s| - 1]};
  }

  lemma SameSize<T>(a: seq<T>, b: seq<T>)
    requires multiset(a) == multiset(b)
    ensures |a| == |b|
  {
    assert |multiset(a)| == |a| && |multiset(b)| == |b|;
  }

  /** The leaf order is total, so a multiset of leaves has one sorted list. */
  lemma {:induction false} SortedUnique(a: seq<AssetLeaf>, b: seq<AssetLeaf>)
    requires Sorted(a) && Sorted(b) && multiset(a) == multiset(b)
    ensures a == b
  {
    SameSize(a, b);
    if a != [] {
      SortedLast(a, b);
      DropLast(a);
      DropLast(b);
      SortedUnique(a[..|a| - 1], b[..|b| - 1]);
    }
  }

  lemma {:induction false} SortOfPermutation(a: seq<AssetLeaf>, b: seq<AssetLeaf>)
    requires multiset(a) == multiset(b)
    ensures Sort(a) == Sort(b)
  {
    SortSorted(a);
    SortSorted(b);
    SortedUnique(Sort(a), Sort(b));
  }

  // ----- the root -----

  const KEY_DOMAIN: string := "tap-ldk:synthetic-asset-mssmt-key:v1"

  /** The bytes hashed into a leaf's synthetic key; they end in the leaf's position. */
  function KeyPreimage(leaf: AssetLeaf, index: u64): Bytes {
    Ascii(KEY_DOMAIN) + leaf.assetId + leaf.scriptKey + U64Be(leaf.amount) + U64Be(index)
  }

  function LeafValue(leaf: AssetLeaf): Bytes {
    leaf.assetId + leaf.scriptKey + U64Be(leaf.amount)
  }

  function ItemOf(sha: Sha256, leaf: AssetLeaf, index: u64): (Bytes32, Leaf) {
    (sha(KeyPreimage(leaf, index)), Leaf(LeafValue(leaf), leaf.amount))
  }

  function Items(sha: Sha256, sorted: seq<AssetLeaf>): (items: seq<(Bytes32, Leaf)>)
    requires |sorted| <= U64_LIMIT
    ensures |items| == |sorted|
  {
    if sorted == [] then []
    else
      var last := |sorted| - 1;
      Items(sha, sorted[..last]) + [ItemOf(sha, sorted[last], last)]
  }

  /** Sort, add up, build the tree. */
  ghost function DeriveRoot(sha: Sha256, leaves: seq<AssetLeaf>): Result<RootHashSum, AssetError>
    requires |leaves| <= U64_LIMIT
  {
    var sorted := Sort(leaves);
    SameLength(leaves);
    if Total(sorted) >= U64_LIMIT then Failure(AmountOverflowed)
    else
      var collected := Collect(Items(sha, sorted));
      if collected.Failure? then Failure(Mssmt(collected.error))
      else
        var root := Root(sha, collected.value);
        if root.Failure? then Failure(Mssmt(root.error)) else Success(RootHashSum(root.value.hash, Total(sorted)))
  }

  lemma {:induction false} SameLength(leaves: seq<AssetLeaf>)
    ensures |Sort(leaves)| == |leaves|
  {
    assert |multiset(Sort(leaves))| == |Sort(leaves)| && |multiset(leaves)| == |leaves|;
  }

  lemma {:induction false} TotalGrows(s: seq<AssetLeaf>, n: nat)
    requires n <= |s|
    ensures Total(s[..n]) <= Total(s)
  {
    if n == |s| {
      assert s[..n] == s;
    } else {
      assert s[..|s| - 1][..n] == s[..n];
      TotalGrows(s[..|s| - 1], n);
    }
  }

  /** The accumulation loop of the source: the checked sum and the tree items. */
  method AddUp(sha: Sha256, sorted: seq<AssetLeaf>) returns (r: Result<(u64, seq<(Bytes32, Leaf)>), AssetError>)
    requires |sorted| <= U64_LIMIT
    ensures r == if Total(sorted) < U64_LIMIT then Success((Total(sorted), Items(sha, sorted))) else Failure(AmountOverflowed)
  {
    var sum: u64 := 0;
    var items: seq<(Bytes32, Leaf)> := [];
    for index := 0 to |sorted|
      invariant sum == Total(sorted[..index]) && items == Items(sha, sorted[..index])
    {
      assert sorted[..index + 1][..index] == sorted[..index];
      TotalGrows(sorted, index + 1);
      var next := CheckedAdd(sum, sorted[index].amount);
      if next.Failure? {
        return Failure(next.error);
      }
      sum := next.value;
      items := items + [ItemOf(sha, sorted[index], index)];
    }
    assert sorted[..|sorted|] == sorted;
    r := Success((sum, items));
  }

  method DeriveHashSumRoot(sha: Sha256, leaves: seq<AssetLeaf>) returns (r: Result<RootHashSum, AssetError>)
    requires |leaves| <= U64_LIMIT
    ensures r == DeriveRoot(sha, leaves)
  {
    var sorted := Sort(leaves);
    SameLength(leaves);
    var added := AddUp(sha, sorted);
    if added.Failure? {
      return Failure(added.error);
    }
    var (sum, items) := added.value;
    var tree := Tree.FromLeaves(sha, items);
    if Collect(items).Success? {
      RootSum(sha, Collect(items).value);
    }
    if tree.Failure? {
      return Failure(Mssmt(tree.error));
    }
    r := Success(RootHashSum(tree.value.root.hash, sum));
  }

  // ----- what the root depends on -----

  /** Taking one leaf out of a list takes it out of the multiset and its amount out of the total. */
  lemma {:induction false} TakeOut(b: seq<AssetLeaf>, k: nat)
    requires k < |b|
    ensures multiset(b[..k] + b[k + 1..]) == multiset(b) - multiset{b[k]}
    ensures Total(b) == Total(b[..k] + b[k + 1..]) + b[k].amount
  {
    assert b == b[..k] + [b[k]] + b[k + 1..];
    TotalOfConcat(b[..k], b[k + 1..]);
    TotalOfConcat(b[..k] + [b[k]], b[k + 1..]);
    TotalOfLast(b[..k], b[k]);
  }

  lemma {:induction false} TotalOfLast(a: seq<AssetLeaf>, x: AssetLeaf)
    ensures Total(a + [x]) == Total(a) + x.amount
  {
    assert (a + [x])[..|a|] == a;
  }

  lemma {:induction false} TotalOfMultiset(a: seq<AssetLeaf>, b: seq<AssetLeaf>)
    requires multiset(a) == multiset(b)
    ensures Total(a) == Total(b)
  {
    SameSize(a, b);
    if a != [] {
      var x := a[|a| - 1];
      DropLast(a);
      assert x in multiset(b);
      var k :| 0 <= k < |b| && b[k] == x;
      TakeOut(b, k);
      TotalOfMultiset(a[..|a| - 1], b[..k] + b[k + 1..]);
    }
  }

  lemma {:induction false} TotalOfConcat(a: seq<AssetLeaf>, b: seq<AssetLeaf>)
    ensures Total(a + b) == Total(a) + Total(b)
  {
    if b == [] {
      assert a + b == a;
    } else {
      assert (a + b)[..|a + b| - 1] == a + b[..|b| - 1];
      TotalOfConcat(a, b[..|b| - 1]);
    }
  }

  /** The root does not depend on the order of the leaves. */
  lemma RootOfPermutation(sha: Sha256, a: seq<AssetLeaf>, b: seq<AssetLeaf>)
    requires multiset(a) == multiset(b) && |a| <= U64_LIMIT && |b| <= U64_LIMIT
    ensures DeriveRoot(sha, a) == DeriveRoot(sha, b)
  {
    SortOfPermutation(a, b);
  }

  /** Collected leaves carry the same total as the list they come from. */
  lemma {:induction false} CollectedTotal(sha: Sha256, sorted: seq<AssetLeaf>)
    requires |sorted| <= U64_LIMIT && Collect(Items(sha, sorted)).Success?
    ensures SumOf(Collect(Items(sha, sorted)).value) == Total(sorted)
  {
    if sorted != [] {
      var last := |sorted| - 1;
      var items := Items(sha, sorted);
      assert items[..last] == Items(sha, sorted[..last]);
      CollectedTotal(sha, sorted[..last]);
      var before := Collect(items[..last]).value;
      var (key, leaf) := items[last];
      SumOfRemove(before[key := leaf], key);
      assert before[key := leaf] - {key} == before;
    }
  }

  /** Two positions of the sorted list whose synthetic keys coincide. */
  predicate KeysCollide(sha: Sha256, sorted: seq<AssetLeaf>, i: nat, j: nat) {
    && i < j < |sorted| <= U64_LIMIT
    && IsCollision(sha, (KeyPreimage(sorted[i], i), KeyPreimage(sorted[j], j)))
  }

  lemma KeyPreimagesDiffer(a: AssetLeaf, i: u64, b: AssetLeaf, j: u64)
    requires i != j
    ensures KeyPreimage(a, i) != KeyPreimage(b, j)
  {
    if KeyPreimage(a, i) == KeyPreimage(b, j) {
      var x := Ascii(KEY_DOMAIN) + a.assetId + a.scriptKey + U64Be(a.amount);
      var y := Ascii(KEY_DOMAIN) + b.assetId + b.scriptKey + U64Be(b.amount);
      SplitAt(x, U64Be(i), y, U64Be(j));
      U64BeInjective(i, j);
    }
  }

  lemma {:induction false} CollectedKeys(sha: Sha256, sorted: seq<AssetLeaf>, key: Bytes32) returns (i: nat)
    requires |sorted| <= U64_LIMIT && Collect(Items(sha, sorted)).Success?
    requires key in Collect(Items(sha, sorted)).value
    ensures i < |sorted| && sha(KeyPreimage(sorted[i], i)) == key
  {
    var last := |sorted| - 1;
    var items := Items(sha, sorted);
    assert items[..last] == Items(sha, sorted[..last]);
    if key == items[last].0 {
      i := last;
    } else {
      i := CollectedKeys(sha, sorted[..last], key);
    }
  }

  /** Synthetic leaves are never empty, and two of them share a key only by a hash collision. */
  lemma {:induction false} CollectFailure(sha: Sha256, sorted: seq<AssetLeaf>) returns (i: nat, j: nat)
    requires |sorted| <= U64_LIMIT && Collect(Items(sha, sorted)).Failure?
    ensures KeysCollide(sha, sorted, i, j)
    ensures Collect(Items(sha, sorted)) == Failure(DuplicateKey(sha(KeyPreimage(sorted[j], j))))
  {
    var last := |sorted| - 1;
    var items := Items(sha, sorted);
    assert items[..last] == Items(sha, sorted[..last]);
    if Collect(items[..last]).Failure? {
      i, j := CollectFailure(sha, sorted[..last]);
    } else {
      j := last;
      i := CollectedKeys(sha, sorted[..last], items[last].0);
      KeyPreimagesDiffer(sorted[i], i, sorted[j], j);
    }
  }

  lemma {:induction false} CollectLast(sha: Sha256, sorted: seq<AssetLeaf>)
    requires 0 < |sorted| <= U64_LIMIT && Collect(Items(sha, sorted)).Success?
    ensures var last := |sorted| - 1;
            var (key, leaf) := ItemOf(sha, sorted[last], last);
            var front := Collect(Items(sha, sorted[..last]));
            front.Success? && key !in front.value && Collect(Items(sha, sorted)).value == front.value[key := leaf]
  {
    var last := |sorted| - 1;
    var items := Items(sha, sorted);
    assert items[..last] == Items(sha, sorted[..last]) && items[last] == ItemOf(sha, sorted[last], last);
  }

  lemma {:induction false} KeyCollected(sha: Sha256, sorted: seq<AssetLeaf>, i: nat)
    requires i < |sorted| <= U64_LIMIT && Collect(Items(sha, sorted)).Success?
    ensures ItemOf(sha, sorted[i], i).0 in Collect(Items(sha, sorted)).value
  {
    CollectLast(sha, sorted);
    if i < |sorted| - 1 {
      KeyCollected(sha, sorted[..|sorted| - 1], i);
    }
  }

  lemma {:induction false} FrontCollected(sha: Sha256, sorted: seq<AssetLeaf>, n: nat)
    requires n <= |sorted| <= U64_LIMIT && Collect(Items(sha, sorted)).Success?
    ensures Collect(Items(sha, sorted[..n])).Success?
  {
    if n == |sorted| {
      assert sorted[..n] == sorted;
    } else {
      CollectLast(sha, sorted);
      FrontCollected(sha, sorted[..|sorted| - 1], n);
      assert sorted[..|sorted| - 1][..n] == sorted[..n];
    }
  }

  /** Two leaves with one key are always refused. */
  lemma {:induction false} CollisionRefused(sha: Sha256, sorted: seq<AssetLeaf>, i: nat, j: nat)
    requires KeysCollide(sha, sorted, i, j)
    ensures Collect(Items(sha, sorted)).Failure?
  {
    if Collect(Items(sha, sorted)).Success? {
      var upTo := sorted[..j + 1];
      FrontCollected(sha, sorted, j + 1);
      CollectLast(sha, upTo);
      assert upTo[..j] == sorted[..j];
      KeyCollected(sha, sorted[..j], i);
    }
  }

  /** No two leaves share a synthetic key. */
  ghost predicate KeysDistinct(sha: Sha256, leaves: seq<AssetLeaf>) {
    !exists i: nat, j: nat :: KeysCollide(sha, Sort(leaves), i, j)
  }

  /** The derivation succeeds exactly when the mathematical total fits in 64 bits and no two synthetic
      keys collide, and the separately accumulated sum is the sum the tree root carries. */
  lemma {:induction false} DeriveRootOutcome(sha: Sha256, leaves: seq<AssetLeaf>)
    requires |leaves| <= U64_LIMIT
    ensures var r := DeriveRoot(sha, leaves);
            if Total(leaves) >= U64_LIMIT then r == Failure(AmountOverflowed)
            else if KeysDistinct(sha, leaves) then r.Success? && r.value.sum == Total(leaves)
            else exists i: nat, j: nat :: KeysCollide(sha, Sort(leaves), i, j)
                   && r == Failure(Mssmt(DuplicateKey(sha(KeyPreimage(Sort(leaves)[j], j)))))
    ensures DeriveRoot(sha, leaves).Success? ==>
              |Sort(leaves)| <= U64_LIMIT && Collect(Items(sha, Sort(leaves))).Success? &&
              Root(sha, Collect(Items(sha, Sort(leaves))).value)
                == Success(Node(DeriveRoot(sha, leaves).value.hash, DeriveRoot(sha, leaves).value.sum))
  {
    var sorted := Sort(leaves);
    SameLength(leaves);
    TotalOfMultiset(sorted, leaves);
    if Total(leaves) < U64_LIMIT {
      if Collect(Items(sha, sorted)).Success? {
        CollectedTotal(sha, sorted);
        RootSum(sha, Collect(Items(sha, sorted)).value);
        if i: nat, j: nat :| KeysCollide(sha, sorted, i, j) {
          CollisionRefused(sha, sorted, i, j);
        }
      } else {
        var i, j := CollectFailure(sha, sorted);
      }
    }
  }

  ghost function ValidateSplit(sha: Sha256, input: u64, outputs: seq<AssetLeaf>): Result<RootHashSum, AssetError>
    requires |outputs| <= U64_LIMIT
  {
    var r := DeriveRoot(sha, outputs);
    if r.Failure? then r
    else if r.value.sum != input then Failure(AmountNotConserved(input, r.value.sum))
    else r
  }

  /** A split is accepted exactly when its outputs add up to the input and no two synthetic keys collide. */
  lemma {:induction false} SplitConserves(sha: Sha256, input: u64, outputs: seq<AssetLeaf>)
    requires |outputs| <= U64_LIMIT
    ensures ValidateSplit(sha, input, outputs).Success? <==> Total(outputs) == input && KeysDistinct(sha, outputs)
  {
    DeriveRootOutcome(sha, outputs);
  }

  /** One leaf always has a root, and the root carries its amount. */
  lemma SingleLeafRoot(sha: Sha256, leaf: AssetLeaf)
    ensures DeriveRoot(sha, [leaf]).Success? && DeriveRoot(sha, [leaf]).value.sum == leaf.amount
  {
    assert [leaf][..0] == [];
    assert Total([]) == 0;
    assert Total([leaf]) == leaf.amount;
    assert |Sort([leaf])| == |multiset(Sort([leaf]))| == 1;
    DeriveRootOutcome(sha, [leaf]);
  }

  // ----- merging inputs -----

  /** The outcome after looking at the first `n` inputs: the amount so far or the first error. */
  function MergeUpTo(inputs: seq<AssetLeaf>, n: nat): Result<u64, AssetError>
    requires n <= |inputs|
  {
    if n == 0 then Success(0)
    else
      var before := MergeUpTo(inputs, n - 1);
      if before.Failure? then before
      else if inputs[n - 1].assetId != inputs[0].assetId then
        Failure(MismatchedAssetId(inputs[0].assetId, inputs[n - 1].assetId))
      else CheckedAdd(before.value, inputs[n - 1].amount)
  }

  lemma {:induction false} MergeFailsEarly(inputs: seq<AssetLeaf>, m: nat, n: nat)
    requires m <= n <= |inputs| && MergeUpTo(inputs, m).Failure?
    ensures MergeUpTo(inputs, n) == MergeUpTo(inputs, m)
  {
    if m < n {
      MergeFailsEarly(inputs, m, n - 1);
    }
  }

  lemma {:induction false} MergeOutcome(inputs: seq<AssetLeaf>, n: nat)
    requires n <= |inputs|
    ensures MergeUpTo(inputs, n).Success? <==>
              Total(inputs[..n]) < U64_LIMIT && forall i | 0 <= i < n :: inputs[i].assetId == inputs[0].assetId
    ensures MergeUpTo(inputs, n).Success? ==> MergeUpTo(inputs, n).value == Total(inputs[..n])
  {
    if n > 0 {
      MergeOutcome(inputs, n - 1);
      assert inputs[..n][..n - 1] == inputs[..n - 1];
    }
  }

  /** Inputs of one asset merge into one leaf holding their whole amount. */
  method MergeSameAssetInputs(inputs: seq<AssetLeaf>) returns (r: Result<AssetLeaf, AssetError>)
    ensures r.Success? <==> inputs != [] && Total(inputs) < U64_LIMIT &&
                            forall i | 0 <= i < |inputs| :: inputs[i].assetId == inputs[0].assetId
    ensures r.Success? ==> r.value == AssetLeaf(inputs[0].assetId, inputs[0].scriptKey, Total(inputs))
    ensures r.Failure? ==> if inputs == [] then r.error == EmptyInputSet
                           else MergeUpTo(inputs, |inputs|) == Failure(r.error)
  {
    if inputs == [] {
      return Failure(EmptyInputSet);
    }
    var first := inputs[0];
    var amount: u64 := 0;
    assert inputs[..|inputs|] == inputs;
    MergeOutcome(inputs, |inputs|);
    for i := 0 to |inputs|
      invariant MergeUpTo(inputs, i) == Success(amount)
    {
      if inputs[i].assetId != first.assetId {
        MergeFailsEarly(inputs, i + 1, |inputs|);
        return Failure(MismatchedAssetId(first.assetId, inputs[i].assetId));
      }
      var next := CheckedAdd(amount, inputs[i].amount);
      if next.Failure? {
        MergeFailsEarly(inputs, i + 1, |inputs|);
        return Failure(next.error);
      }
      amount := next.value;
    }
    r := Success(AssetLeaf(first.assetId, first.scriptKey, amount));
  }
}
