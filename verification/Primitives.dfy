/** Bytes, digests, machine integers and the two result datatypes shared by every module. */
module Primitives {
  import opened ByteBits

  type Bytes = seq<byte>

  /** A 32-byte array: a digest, an asset id, a tree key. */
  type Bytes32 = s: Bytes | |s| == 32 witness seq(32, _ => 0)

  /** A 33-byte compressed public key. */
  type Key33 = s: Bytes | |s| == 33 witness seq(33, _ => 0)

  function Zeros(n: nat): (s: Bytes)
    ensures |s| == n && forall i :: 0 <= i < n ==> s[i] == 0
  {
    seq(n, _ => 0)
  }

  const ZERO32: Bytes32 := Zeros(32)

  const U64_LIMIT: int := 0x1_0000_0000_0000_0000
  type u64 = x: int | 0 <= x < 0x1_0000_0000_0000_0000

  /** The hash is a parameter of everything that hashes: no property below assumes it injective. */
  type Sha256 = Bytes -> Bytes32

  /** A root digest together with the sum it commits to. */
  datatype RootHashSum = RootHashSum(hash: Bytes32, sum: u64)

  datatype Option<+T> = None | Some(value: T)

  datatype Result<+T, +E> = Success(value: T) | Failure(error: E) {
    predicate IsFailure() {
      Failure?
    }

    function PropagateFailure<U>(): Result<U, E>
      requires Failure?
    {
      Failure(error)
    }

    function Extract(): T
      requires Success?
    {
      value
    }
  }

  /** Two different byte strings with the same digest. */
  predicate IsCollision(sha: Sha256, pair: (Bytes, Bytes)) {
    pair.0 != pair.1 && sha(pair.0) == sha(pair.1)
  }

  /** The bytes of an ASCII literal, such as a hash domain. */
  function Ascii(s: string): (b: Bytes)
    ensures |b| == |s|
  {
    seq(|s|, i requires 0 <= i < |s| => s[i] as int % 256)
  }

  // ----- big-endian integers -----

  function Pow256(n: nat): (p: nat)
    ensures p > 0
  {
    if n == 0 then 1 else 256 * Pow256(n - 1)
  }

  /** The low `n` bytes of `x`, most significant first. */
  function ToBe(x: nat, n: nat): (s: Bytes)
    ensures |s| == n
  {
    if n == 0 then [] else ToBe(x / 256, n - 1) + [x % 256]
  }

  function FromBe(s: Bytes): nat {
    if s == [] then 0 else 256 * FromBe(s[..|s| - 1]) + s[|s| - 1]
  }

  function U64Be(x: u64): (s: Bytes)
    ensures |s| == 8
  {
    ToBe(x, 8)
  }

  lemma {:induction false} FromBeBound(s: Bytes)
    ensures FromBe(s) < Pow256(|s|)
  {
    if s != [] {
      FromBeBound(s[..|s| - 1]);
    }
  }

  /** Reading back what was printed. */
  lemma {:induction false} FromToBe(x: nat, n: nat)
    requires x < Pow256(n)
    ensures FromBe(ToBe(x, n)) == x
  {
    if n > 0 {
      FromToBe(x / 256, n - 1);
      var s := ToBe(x, n);
      assert s[..|s| - 1] == ToBe(x / 256, n - 1);
    }
  }

  /** Printing back what was read. */
  lemma {:induction false} ToFromBe(s: Bytes)
    ensures ToBe(FromBe(s), |s|) == s
  {
    if s != [] {
      ToFromBe(s[..|s| - 1]);
      var b := s[|s| - 1];
      assert FromBe(s) % 256 == b && FromBe(s) / 256 == FromBe(s[..|s| - 1]);
    }
  }

  lemma Pow256Eight()
    ensures Pow256(8) == U64_LIMIT
  {
    assert Pow256(4) == 0x1_0000_0000;
  }

  lemma U64BeInjective(x: u64, y: u64)
    requires U64Be(x) == U64Be(y)
    ensures x == y
  {
    Pow256Eight();
    FromToBe(x, 8);
    FromToBe(y, 8);
  }

  lemma Assoc<T>(a: seq<T>, b: seq<T>, c: seq<T>)
    ensures a + b + c == a + (b + c)
  {
  }

  /** Two concatenations whose parts have the same lengths agree part by part. */
  lemma SplitAt<T>(a: seq<T>, b: seq<T>, c: seq<T>, d: seq<T>)
    requires a + b == c + d && (|a| == |c| || |b| == |d|)
    ensures a == c && b == d
  {
    assert |a + b| == |c + d|;
    assert a == (a + b)[..|a|] && b == (a + b)[|a|..];
    assert c == (c + d)[..|c|] && d == (c + d)[|c|..];
  }

  // ----- byte strings put together from parts -----

  /** The parts one after another, as a hasher is fed with them. */
  function Concat(parts: seq<Bytes>): Bytes {
    if parts == [] then [] else Concat(parts[..|parts| - 1]) + parts[|parts| - 1]
  }

  function Digest(sha: Sha256, parts: seq<Bytes>): Bytes32 {
    sha(Concat(parts))
  }

  /** A byte string with its length in front. */
  function Counted(b: Bytes): Bytes {
    ToBe(|b|, 8) + b
  }

  predicate SameShape(xs: seq<Bytes>, ys: seq<Bytes>) {
    |xs| == |ys| && forall i | 0 <= i < |xs| :: |xs[i]| == |ys[i]|
  }

  /** Parts of the same lengths, except possibly one. */
  predicate SameShapeBut(xs: seq<Bytes>, ys: seq<Bytes>, k: nat) {
    |xs| == |ys| && forall i | 0 <= i < |xs| && i != k :: |xs[i]| == |ys[i]|
  }

  lemma {:induction false} ConcatSameLength(xs: seq<Bytes>, ys: seq<Bytes>)
    requires SameShape(xs, ys)
    ensures |Concat(xs)| == |Concat(ys)|
  {
    if xs != [] {
      ConcatSameLength(xs[..|xs| - 1], ys[..|ys| - 1]);
    }
  }

  /** Concatenations with at most one part of unknown length agree part by part. */
  lemma {:induction false} ConcatInjective(xs: seq<Bytes>, ys: seq<Bytes>, k: nat)
    requires SameShapeBut(xs, ys, k) && Concat(xs) == Concat(ys)
    ensures xs == ys
  {
    if xs != [] {
      var n := |xs| - 1;
      if n <= k {
        ConcatSameLength(xs[..n], ys[..n]);
      }
      SplitAt(Concat(xs[..n]), xs[n], Concat(ys[..n]), ys[n]);
      ConcatInjective(xs[..n], ys[..n], k);
      assert xs == xs[..n] + [xs[n]] && ys == ys[..n] + [ys[n]];
    }
  }

  /** A digest fixes the parts it was taken over, when at most one of them has an unknown length,
      unless the hash collides. */
  lemma DigestBinds(sha: Sha256, xs: seq<Bytes>, ys: seq<Bytes>, k: nat)
    requires SameShapeBut(xs, ys, k) && Digest(sha, xs) == Digest(sha, ys)
    ensures xs == ys || IsCollision(sha, (Concat(xs), Concat(ys)))
  {
    if Concat(xs) == Concat(ys) {
      ConcatInjective(xs, ys, k);
    }
  }

  lemma CountedInjective(x: Bytes, y: Bytes)
    requires Counted(x) == Counted(y)
    ensures x == y
  {
    SplitAt(ToBe(|x|, 8), x, ToBe(|y|, 8), y);
  }

  lemma {:induction false} ConcatStart(parts: seq<Bytes>)
    requires parts != []
    ensures parts[0] <= Concat(parts)
  {
    var front := parts[..|parts| - 1];
    if front == [] {
      assert Concat(front) == [];
    } else {
      ConcatStart(front);
    }
  }

  lemma {:induction false} ConcatCons(first: Bytes, rest: seq<Bytes>)
    ensures Concat([first] + rest) == first + Concat(rest)
  {
    var all := [first] + rest;
    if rest == [] {
      assert all[..0] == [];
    } else {
      assert all[..|all| - 1] == [first] + rest[..|rest| - 1];
      ConcatCons(first, rest[..|rest| - 1]);
    }
  }
}
