/** Tree keys as bit strings: least significant bit of each byte first. */
module KeyBits {
  import opened ByteBits
  import opened Primitives

  const MAX_TREE_LEVELS: nat := 256

  predicate BitAt(key: Bytes32, depth: nat)
    requires depth < MAX_TREE_LEVELS
  {
    BitOf(key[depth / 8], depth % 8)
  }

  /** What the prefix mask leaves of the byte at index `i`. */
  function PrefixByte(b: byte, i: nat, prefixBits: nat): byte {
    if prefixBits >= 8 * i + 8 then b
    else if prefixBits <= 8 * i then 0
    else LowBits(b, prefixBits - 8 * i)
  }

  /** The first `n` bytes of `key`, masked. */
  function MaskedBytes(key: Bytes32, prefixBits: nat, n: nat): (s: Bytes)
    requires n <= 32
    ensures |s| == n
  {
    if n == 0 then [] else MaskedBytes(key, prefixBits, n - 1) + [PrefixByte(key[n - 1], n - 1, prefixBits)]
  }

  function PrefixKey(key: Bytes32, prefixBits: nat): Bytes32 {
    MaskedBytes(key, prefixBits, |key|)
  }

  function FlipAt(p: Bytes32, depth: nat): Bytes32
    requires depth < MAX_TREE_LEVELS
  {
    p[depth / 8 := FlipByte(p[depth / 8], depth % 8)]
  }

  function SiblingPrefix(key: Bytes32, depth: nat): Bytes32
    requires depth < MAX_TREE_LEVELS
  {
    FlipAt(PrefixKey(key, depth + 1), depth)
  }

  /** The masking loop of the source. */
  method MaskKey(key: Bytes32, prefixBits: nat) returns (out: Bytes32)
    requires prefixBits <= MAX_TREE_LEVELS
    ensures out == PrefixKey(key, prefixBits)
  {
    out := key;
    for byteIndex := 0 to 32
      invariant forall i :: 0 <= i < byteIndex ==> out[i] == PrefixByte(key[i], i, prefixBits)
      invariant forall i :: byteIndex <= i < 32 ==> out[i] == key[i]
    {
      var byteStart := byteIndex * 8;
      var byteEnd := byteStart + 8;
      if prefixBits >= byteEnd {
        continue;
      }
      if prefixBits <= byteStart {
        out := out[byteIndex := 0];
        continue;
      }
      out := out[byteIndex := LowBits(out[byteIndex], prefixBits - byteStart)];
    }
    forall i | 0 <= i < 32
      ensures out[i] == PrefixKey(key, prefixBits)[i]
    {
      MaskedByteAt(key, prefixBits, 32, i);
    }
  }

  lemma {:induction false} MaskedByteAt(key: Bytes32, prefixBits: nat, n: nat, i: nat)
    requires i < n <= 32
    ensures MaskedBytes(key, prefixBits, n)[i] == PrefixByte(key[i], i, prefixBits)
  {
    if i < n - 1 {
      MaskedByteAt(key, prefixBits, n - 1, i);
    }
  }

  // ----- whole keys -----

  /** A key is determined by its 256 bits. */
  lemma KeyFromBits(a: Bytes32, b: Bytes32)
    requires forall d: nat | d < MAX_TREE_LEVELS :: BitAt(a, d) == BitAt(b, d)
    ensures a == b
  {
    forall i | 0 <= i < 32
      ensures a[i] == b[i]
    {
      forall j: nat | j < 8
        ensures BitOf(a[i], j) == BitOf(b[i], j)
      {
        assert (8 * i + j) / 8 == i && (8 * i + j) % 8 == j;
        assert BitAt(a, 8 * i + j) == BitAt(b, 8 * i + j);
      }
      ByteBound();
      NumberFromBits(a[i], b[i], 8);
    }
  }

  /** `PrefixKey` keeps exactly the first `prefixBits` bits and clears the rest. */
  lemma PrefixKeyBit(key: Bytes32, prefixBits: nat, d: nat)
    requires d < MAX_TREE_LEVELS
    ensures BitAt(PrefixKey(key, prefixBits), d) == (d < prefixBits && BitAt(key, d))
  {
    var i, j := d / 8, d % 8;
    MaskedByteAt(key, prefixBits, 32, i);
    ZeroBit(j);
    if 8 * i < prefixBits < 8 * i + 8 {
      LowBitsBit(key[i], prefixBits - 8 * i, j);
    }
  }

  lemma FlipAtBit(p: Bytes32, depth: nat, d: nat)
    requires depth < MAX_TREE_LEVELS && d < MAX_TREE_LEVELS
    ensures BitAt(FlipAt(p, depth), d) == if d == depth then !BitAt(p, d) else BitAt(p, d)
  {
    var q := FlipAt(p, depth);
    if d / 8 == depth / 8 {
      FlipBitBit(p[d / 8], depth % 8, d % 8);
    } else {
      assert q[d / 8] == p[d / 8];
    }
    assert d == depth <==> d / 8 == depth / 8 && d % 8 == depth % 8;
  }

  /** `SiblingPrefix` keeps the bits above `depth`, flips the bit at `depth`, clears those below. */
  lemma SiblingPrefixBit(key: Bytes32, depth: nat, d: nat)
    requires depth < MAX_TREE_LEVELS && d < MAX_TREE_LEVELS
    ensures BitAt(SiblingPrefix(key, depth), d)
         == if d < depth then BitAt(key, d) else d == depth && !BitAt(key, d)
  {
    PrefixKeyBit(key, depth + 1, d);
    FlipAtBit(PrefixKey(key, depth + 1), depth, d);
  }

  /** `p` is a prefix of `depth` bits: everything from bit `depth` on is clear. */
  predicate IsPrefix(p: Bytes32, depth: nat) {
    PrefixKey(p, depth) == p
  }

  lemma PrefixOfPrefix(key: Bytes32, a: nat, b: nat)
    requires b <= a
    ensures PrefixKey(PrefixKey(key, a), b) == PrefixKey(key, b)
    ensures IsPrefix(PrefixKey(key, b), a)
  {
    var p := PrefixKey(key, a);
    var q := PrefixKey(key, b);
    forall d: nat | d < MAX_TREE_LEVELS
      ensures BitAt(PrefixKey(p, b), d) == BitAt(q, d)
      ensures BitAt(PrefixKey(q, a), d) == BitAt(q, d)
    {
      PrefixKeyBit(key, a, d);
      PrefixKeyBit(key, b, d);
      PrefixKeyBit(p, b, d);
      PrefixKeyBit(q, a, d);
    }
    KeyFromBits(PrefixKey(p, b), q);
    KeyFromBits(PrefixKey(q, a), q);
  }

  lemma PrefixEnds(key: Bytes32)
    ensures PrefixKey(key, 0) == ZERO32
    ensures PrefixKey(key, MAX_TREE_LEVELS) == key
  {
    forall i | 0 <= i < 32
      ensures PrefixKey(key, 0)[i] == 0 && PrefixKey(key, MAX_TREE_LEVELS)[i] == key[i]
    {
      MaskedByteAt(key, 0, 32, i);
      MaskedByteAt(key, MAX_TREE_LEVELS, 32, i);
    }
  }

  /** One more bit of a key is the left child of its prefix or the right child, and the
      sibling is the other one. The right child of a prefix `p` is `SiblingPrefix(p, depth)`. */
  lemma PrefixStep(key: Bytes32, depth: nat)
    requires depth < MAX_TREE_LEVELS
    ensures var p := PrefixKey(key, depth);
            && PrefixKey(key, depth + 1) == (if BitAt(key, depth) then SiblingPrefix(p, depth) else p)
            && SiblingPrefix(key, depth) == (if BitAt(key, depth) then p else SiblingPrefix(p, depth))
  {
    var p := PrefixKey(key, depth);
    var down, side := PrefixKey(key, depth + 1), SiblingPrefix(key, depth);
    var right := SiblingPrefix(p, depth);
    forall d: nat | d < MAX_TREE_LEVELS
      ensures BitAt(down, d) == BitAt(if BitAt(key, depth) then right else p, d)
      ensures BitAt(side, d) == BitAt(if BitAt(key, depth) then p else right, d)
    {
      PrefixKeyBit(key, depth, d);
      PrefixKeyBit(key, depth + 1, d);
      SiblingPrefixBit(p, depth, d);
      SiblingPrefixBit(key, depth, d);
    }
    if BitAt(key, depth) {
      KeyFromBits(down, right);
      KeyFromBits(side, p);
    } else {
      KeyFromBits(down, p);
      KeyFromBits(side, right);
    }
  }

  /** The two children of a prefix are distinct prefixes one bit longer, and extend it. */
  lemma ChildrenOf(p: Bytes32, depth: nat)
    requires depth < MAX_TREE_LEVELS && IsPrefix(p, depth)
    ensures IsPrefix(p, depth + 1) && IsPrefix(SiblingPrefix(p, depth), depth + 1)
    ensures PrefixKey(SiblingPrefix(p, depth), depth) == p
    ensures !BitAt(p, depth) && BitAt(SiblingPrefix(p, depth), depth)
    ensures p != SiblingPrefix(p, depth)
  {
    var r := SiblingPrefix(p, depth);
    PrefixOfPrefix(p, depth + 1, depth);
    forall d: nat | d < MAX_TREE_LEVELS
      ensures BitAt(PrefixKey(r, depth), d) == BitAt(p, d)
      ensures BitAt(PrefixKey(r, depth + 1), d) == BitAt(r, d)
      ensures d == depth ==> !BitAt(p, d) && BitAt(r, d)
    {
      PrefixKeyBit(p, depth, d);
      PrefixKeyBit(r, depth, d);
      PrefixKeyBit(r, depth + 1, d);
      SiblingPrefixBit(p, depth, d);
    }
    KeyFromBits(PrefixKey(r, depth), p);
    KeyFromBits(PrefixKey(r, depth + 1), r);
    assert !BitAt(p, depth) && BitAt(r, depth);
  }

  /** A key lies under `p` exactly when it lies under one of its children. */
  lemma UnderChild(key: Bytes32, p: Bytes32, depth: nat)
    requires depth < MAX_TREE_LEVELS && IsPrefix(p, depth)
    ensures var q := PrefixKey(key, depth + 1);
            && (PrefixKey(key, depth) == p <==> q == p || q == SiblingPrefix(p, depth))
            && p != SiblingPrefix(p, depth)
  {
    PrefixStep(key, depth);
    PrefixOfPrefix(key, depth + 1, depth);
    ChildrenOf(p, depth);
  }

  /** Below a clear bit of a prefix, flipping that bit is all there is to its sibling. */
  lemma SiblingOfPrefix(p: Bytes32, depth: nat)
    requires depth < MAX_TREE_LEVELS && IsPrefix(p, depth)
    ensures SiblingPrefix(p, depth) == FlipAt(p, depth)
    ensures IsPrefix(p, depth + 1) && IsPrefix(FlipAt(p, depth), depth + 1)
  {
    ChildrenOf(p, depth);
  }

  lemma FirstBit(z: Bytes32)
    requires z[0] == 0
    ensures FlipAt(z, 0) == z[0 := 1]
  {
    assert FlipByte(0, 0) == 1;
  }
}
