/** Proof chunks: splitting a proof for the wire, and the stateful reassembler. */
module ProofTransport {
  import opened ByteBits
  import opened Primitives

  const U32_LIMIT: int := 0x1_0000_0000
  type u32 = x: int | 0 <= x < 0x1_0000_0000

  datatype ProofChunk = ProofChunk(digest: Bytes32, index: u32, count: u32, bytes: Bytes, last: bool)

  datatype TransportError =
    | InvalidChunkSize
    | EmptyProof
    | InvalidChunkCount
    | ChunkIndexOutOfRange(index: u32, count: u32)
    | InvalidLastChunk(index: u32, count: u32)
    | MixedProofDigest
    | MixedChunkCount
    | DuplicateChunk(index: u32)
    | IncompleteProof
    | ProofDigestMismatch

  datatype Assembly = Incomplete(received: u32, expected: u32) | Complete(proof: Bytes)

  type Outcome = Result<Assembly, TransportError>

  // ----- splitting -----

  /** Consecutive pieces of `size` bytes, the last one possibly shorter. */
  function Pieces(proof: Bytes, size: nat): seq<Bytes>
    requires size > 0
  {
    if proof == [] then []
    else if |proof| <= size then [proof]
    else [proof[..size]] + Pieces(proof[size..], size)
  }

  /** The `as u32` cast: 64-bit sizes keep their low 32 bits. */
  function Truncate(x: nat): u32 {
    if x < U32_LIMIT then x else x % U32_LIMIT
  }

  function Split(sha: Sha256, proof: Bytes, size: nat): Result<seq<ProofChunk>, TransportError> {
    if size == 0 then Failure(InvalidChunkSize)
    else if proof == [] then Failure(EmptyProof)
    else
      var pieces := Pieces(proof, size);
      Success(seq(|pieces|, i requires 0 <= i < |pieces| => ChunkAt(sha(proof), pieces, i)))
  }

  function ChunkAt(digest: Bytes32, pieces: seq<Bytes>, i: nat): ProofChunk
    requires i < |pieces|
  {
    var index, count := Truncate(i), Truncate(|pieces|);
    ProofChunk(digest, index, count, pieces[i], Truncate(index + 1) == count)
  }

  lemma {:induction false} ConcatPieces(proof: Bytes, size: nat)
    requires size > 0
    ensures Concat(Pieces(proof, size)) == proof
    ensures proof != [] ==> Pieces(proof, size) != []
  {
    if |proof| > size {
      ConcatPieces(proof[size..], size);
      ConcatCons(proof[..size], Pieces(proof[size..], size));
    } else if proof != [] {
      ConcatCons(proof, []);
    }
  }

  // ----- one push -----

  /** What a reassembler holds. */
  datatype Held = Held(digest: Option<Bytes32>, count: Option<u32>, chunks: map<u32, Bytes>)

  const NOTHING_HELD: Held := Held(None, None, map[])

  predicate AllPresent(chunks: map<u32, Bytes>, n: u32) {
    forall i: u32 | i < n :: i in chunks
  }

  function Joined(chunks: map<u32, Bytes>, n: u32): Bytes
    requires AllPresent(chunks, n)
  {
    if n == 0 then [] else Joined(chunks, n - 1) + chunks[n - 1]
  }

  function WellFormed(c: ProofChunk): Result<(), TransportError> {
    if c.count == 0 then Failure(InvalidChunkCount)
    else if c.index >= c.count then Failure(ChunkIndexOutOfRange(c.index, c.count))
    else if c.last && c.index + 1 != c.count then Failure(InvalidLastChunk(c.index, c.count))
    else Success(())
  }

  /** The result of a push and what is held after it. Note that a duplicate is refused but has
      already replaced the stored bytes. */
  function Push(sha: Sha256, h: Held, c: ProofChunk): (Outcome, Held) {
    if WellFormed(c).Failure? then (Failure(WellFormed(c).error), h)
    else if h.digest.Some? && h.digest.value != c.digest then (Failure(MixedProofDigest), h)
    else
      var pinned := h.(digest := Some(c.digest));
      if h.count.Some? && h.count.value != c.count then (Failure(MixedChunkCount), pinned)
      else
        var next := Held(Some(c.digest), Some(c.count), h.chunks[c.index := c.bytes]);
        if c.index in h.chunks then (Failure(DuplicateChunk(c.index)), next)
        else if |next.chunks| != c.count then (Success(Incomplete(Truncate(|next.chunks|), c.count)), next)
        else if !AllPresent(next.chunks, c.count) then (Failure(IncompleteProof), next)
        else
          var proof := Joined(next.chunks, c.count);
          if sha(proof) != c.digest then (Failure(ProofDigestMismatch), next)
          else (Success(Complete(proof)), next)
  }

  class ProofReassembler {
    const sha: Sha256
    var digest: Option<Bytes32>
    var chunkCount: Option<u32>
    var chunks: map<u32, Bytes>

    function State(): Held
      reads this
    {
      Held(digest, chunkCount, chunks)
    }

    constructor (sha: Sha256)
      ensures this.sha == sha && State() == NOTHING_HELD
    {
      this.sha, digest, chunkCount, chunks := sha, None, None, map[];
    }

    method PushChunk(c: ProofChunk) returns (r: Outcome)
      modifies this
      ensures (r, State()) == Push(sha, old(State()), c)
    {
      if c.count == 0 {
        return Failure(InvalidChunkCount);
      }
      if c.index >= c.count {
        return Failure(ChunkIndexOutOfRange(c.index, c.count));
      }
      if c.last && c.index + 1 != c.count {
        return Failure(InvalidLastChunk(c.index, c.count));
      }
      match digest {
        case Some(d) =>
          if d != c.digest {
            return Failure(MixedProofDigest);
          }
        case None =>
          digest := Some(c.digest);
      }
      match chunkCount {
        case Some(n) =>
          if n != c.count {
            return Failure(MixedChunkCount);
          }
        case None =>
          chunkCount := Some(c.count);
      }
      var duplicate := c.index in chunks;
      chunks := chunks[c.index := c.bytes];
      if duplicate {
        return Failure(DuplicateChunk(c.index));
      }
      if |chunks| != c.count {
        return Success(Incomplete(Truncate(|chunks|), c.count));
      }
      var proof: Bytes := [];
      for index := 0 to c.count
        invariant chunks == old(chunks)[c.index := c.bytes] && digest == Some(c.digest) && chunkCount == Some(c.count)
        invariant AllPresent(chunks, index) && proof == Joined(chunks, index)
      {
        if index !in chunks {
          assert !AllPresent(chunks, c.count);
          return Failure(IncompleteProof);
        }
        proof := proof + chunks[index];
      }
      if sha(proof) != c.digest {
        return Failure(ProofDigestMismatch);
      }
      r := Success(Complete(proof));
    }
  }

  // ----- runs -----

  /** What is held after pushing all of `cs` into a new reassembler. */
  function HeldAfter(sha: Sha256, cs: seq<ProofChunk>): Held {
    if cs == [] then NOTHING_HELD else Push(sha, HeldAfter(sha, cs[..|cs| - 1]), cs[|cs| - 1]).1
  }

  /** The outcome of push number `i` of a run. */
  function OutcomeOf(sha: Sha256, cs: seq<ProofChunk>, i: nat): Outcome
    requires i < |cs|
  {
    Push(sha, HeldAfter(sha, cs[..i]), cs[i]).0
  }

  /** Everything held was announced by one well-formed chunk: the count and the digest are
      pinned together, and stored indices lie below the count. */
  predicate Consistent(h: Held) {
    && (h.digest.Some? <==> h.count.Some?)
    && (h.count.None? ==> h.chunks == map[])
    && (h.count.Some? ==> h.count.value > 0 && forall i | i in h.chunks :: i < h.count.value)
  }

  lemma {:induction false} RunConsistent(sha: Sha256, cs: seq<ProofChunk>)
    ensures Consistent(HeldAfter(sha, cs))
  {
    if cs != [] {
      RunConsistent(sha, cs[..|cs| - 1]);
    }
  }

  function Below(n: nat): (s: set<u32>)
    requires n <= U32_LIMIT
    ensures forall i: u32 :: i in s <==> i < n
  {
    if n == 0 then {} else Below(n - 1) + {n - 1}
  }

  lemma {:induction false} BelowSize(n: nat)
    requires n <= U32_LIMIT
    ensures |Below(n)| == n
  {
    if n > 0 {
      BelowSize(n - 1);
    }
  }

  /** Pigeonhole: as many indices as slots, all below the count, leave no slot out. */
  lemma Pigeonhole(chunks: map<u32, Bytes>, n: u32)
    requires |chunks| == n && forall i | i in chunks :: i < n
    ensures AllPresent(chunks, n)
  {
    BelowSize(n);
    assert chunks.Keys <= Below(n);
    if i: u32 :| i < n && i !in chunks {
      var rest := Below(n) - {i};
      assert chunks.Keys <= rest;
      SubsetSize(chunks.Keys, rest);
    }
  }

  lemma {:induction false} SubsetSize<T>(a: set<T>, b: set<T>)
    requires a <= b
    ensures |a| <= |b|
  {
    if a != {} {
      var x :| x in a;
      SubsetSize(a - {x}, b - {x});
    }
  }

  predicate Full(h: Held) {
    h.count.Some? && |h.chunks| == h.count.value
  }

  lemma {:induction false} PushConsistent(sha: Sha256, h: Held, c: ProofChunk)
    requires Consistent(h)
    ensures var next := Push(sha, h, c).1;
            && Consistent(next)
            && (h.digest.Some? ==> next.digest == h.digest && next.count == h.count)
            && (Full(h) ==> Full(next))
  {
    var next := Push(sha, h, c).1;
    if Full(h) && WellFormed(c).Success? && h.count.value == c.count {
      Pigeonhole(h.chunks, h.count.value);
      assert h.chunks[c.index := c.bytes].Keys == h.chunks.Keys;
    }
  }

  lemma {:induction false} PushCompletes(sha: Sha256, h: Held, c: ProofChunk)
    requires Consistent(h)
    ensures var (r, next) := Push(sha, h, c);
            && r != Failure(IncompleteProof)
            && (r.Success? && r.value.Complete? ==>
                  !Full(h) && Full(next) && next.digest == Some(sha(r.value.proof)) && next.chunks.Keys == Below(next.count.value))
  {
    var next := h.chunks[c.index := c.bytes];
    if WellFormed(c).Success? && (h.count.None? || h.count.value == c.count) {
      if |next| == c.count {
        Pigeonhole(next, c.count);
        assert next.Keys == Below(c.count);
      }
      if Full(h) {
        Pigeonhole(h.chunks, h.count.value);
      }
    }
  }

  /** One push from a consistent state: what a completed proof is, that the missing-chunk error
      never happens, and that a full reassembler stays full and completes nothing more. */
  lemma {:induction false} PushSafe(sha: Sha256, h: Held, c: ProofChunk)
    requires Consistent(h)
    ensures var (r, next) := Push(sha, h, c);
            && Consistent(next)
            && r != Failure(IncompleteProof)
            && (h.digest.Some? ==> next.digest == h.digest && next.count == h.count)
            && (r.Success? && r.value.Complete? ==>
                  !Full(h) && Full(next) && next.digest == Some(sha(r.value.proof)) && next.chunks.Keys == Below(next.count.value))
            && (Full(h) ==> Full(next))
  {
    PushConsistent(sha, h, c);
    PushCompletes(sha, h, c);
  }

  lemma {:induction false} FullStaysFull(sha: Sha256, cs: seq<ProofChunk>, m: nat, n: nat)
    requires m <= n <= |cs| && Full(HeldAfter(sha, cs[..m]))
    ensures Full(HeldAfter(sha, cs[..n]))
  {
    if m < n {
      FullStaysFull(sha, cs, m, n - 1);
      RunConsistent(sha, cs[..n - 1]);
      PushSafe(sha, HeldAfter(sha, cs[..n - 1]), cs[n - 1]);
      assert cs[..n][..n - 1] == cs[..n - 1];
    }
  }

  predicate CompletesAt(sha: Sha256, cs: seq<ProofChunk>, i: nat) {
    i < |cs| && OutcomeOf(sha, cs, i).Success? && OutcomeOf(sha, cs, i).value.Complete?
  }

  /** Over any run of pushes, accepted or refused: at most one completes, its proof hashes to
      the pinned digest, and no push ever reports a missing chunk. */
  lemma AnyRunSafe(sha: Sha256, cs: seq<ProofChunk>)
    ensures forall i: nat, j: nat | i < j :: !(CompletesAt(sha, cs, i) && CompletesAt(sha, cs, j))
    ensures forall i: nat | CompletesAt(sha, cs, i) ::
              HeldAfter(sha, cs[..i + 1]).digest == Some(sha(OutcomeOf(sha, cs, i).value.proof))
    ensures forall i: nat | i < |cs| :: OutcomeOf(sha, cs, i) != Failure(IncompleteProof)
  {
    forall i: nat | i < |cs|
      ensures OutcomeOf(sha, cs, i) != Failure(IncompleteProof)
      ensures CompletesAt(sha, cs, i) ==>
                && HeldAfter(sha, cs[..i + 1]).digest == Some(sha(OutcomeOf(sha, cs, i).value.proof))
                && Full(HeldAfter(sha, cs[..i + 1])) && !Full(HeldAfter(sha, cs[..i]))
    {
      RunConsistent(sha, cs[..i]);
      PushSafe(sha, HeldAfter(sha, cs[..i]), cs[i]);
      assert cs[..i + 1][..i] == cs[..i];
    }
    forall i: nat, j: nat | i < j && CompletesAt(sha, cs, i)
      ensures !CompletesAt(sha, cs, j)
    {
      if j < |cs| {
        FullStaysFull(sha, cs, i + 1, j);
      }
    }
  }

  /** Once pinned, the digest and the count never change. */
  lemma {:induction false} PinnedForGood(sha: Sha256, cs: seq<ProofChunk>, m: nat, n: nat)
    requires m <= n <= |cs| && HeldAfter(sha, cs[..m]).digest.Some?
    ensures HeldAfter(sha, cs[..n]).digest == HeldAfter(sha, cs[..m]).digest
    ensures HeldAfter(sha, cs[..n]).count == HeldAfter(sha, cs[..m]).count
  {
    if m < n {
      PinnedForGood(sha, cs, m, n - 1);
      RunConsistent(sha, cs[..n - 1]);
      PushSafe(sha, HeldAfter(sha, cs[..n - 1]), cs[n - 1]);
      assert cs[..n][..n - 1] == cs[..n - 1];
    }
  }

  // ----- any order -----

  /** The chunks of one split, in some order. */
  predicate Delivery(sha: Sha256, proof: Bytes, size: nat, cs: seq<ProofChunk>) {
    && size > 0 && proof != []
    && |Pieces(proof, size)| < U32_LIMIT
    && multiset(cs) == multiset(Split(sha, proof, size).value)
  }

  lemma {:induction false} SplitChunk(sha: Sha256, proof: Bytes, size: nat, c: ProofChunk)
    requires size > 0 && proof != [] && |Pieces(proof, size)| < U32_LIMIT
    requires c in Split(sha, proof, size).value
    ensures c.index < |Pieces(proof, size)|
    ensures c == ChunkAt(sha(proof), Pieces(proof, size), c.index)
  {
    var split := Split(sha, proof, size).value;
    var i :| 0 <= i < |split| && split[i] == c;
    assert c == ChunkAt(sha(proof), Pieces(proof, size), i);
  }

  lemma {:induction false} SplitDistinct(sha: Sha256, proof: Bytes, size: nat, c: ProofChunk)
    requires size > 0 && proof != [] && |Pieces(proof, size)| < U32_LIMIT
    ensures multiset(Split(sha, proof, size).value)[c] <= 1
  {
    var split := Split(sha, proof, size).value;
    forall i, j | 0 <= i < j < |split|
      ensures split[i] != split[j]
    {
      assert split[i].index == i && split[j].index == j;
    }
    OnceInSeq(split, c);
  }

  lemma TwiceInSeq<T>(s: seq<T>, i: nat, j: nat)
    requires i < j < |s| && s[i] == s[j]
    ensures multiset(s)[s[i]] >= 2
  {
    var a, b := s[..j], s[j..];
    assert s == a + b;
    assert a[i] == s[i] && b[0] == s[j];
    assert s[i] in multiset(a) && s[i] in multiset(b);
    assert multiset(s) == multiset(a) + multiset(b);
  }

  lemma {:induction false} OnceInSeq<T>(s: seq<T>, x: T)
    requires forall i, j | 0 <= i < j < |s| :: s[i] != s[j]
    ensures multiset(s)[x] <= 1
  {
    if s != [] {
      var head := s[..|s| - 1];
      OnceInSeq(head, x);
      assert s == head + [s[|s| - 1]];
      assert x == s[|s| - 1] ==> x !in head;
    }
  }

  /** A delivery brings each index once. */
  lemma DeliveryDistinct(sha: Sha256, proof: Bytes, size: nat, cs: seq<ProofChunk>, i: nat, j: nat)
    requires Delivery(sha, proof, size, cs) && i < j < |cs|
    ensures cs[i].index != cs[j].index
  {
    if cs[i].index == cs[j].index {
      var split := Split(sha, proof, size).value;
      assert cs[i] in multiset(split) && cs[j] in multiset(split);
      SplitChunk(sha, proof, size, cs[i]);
      SplitChunk(sha, proof, size, cs[j]);
      TwiceInSeq(cs, i, j);
      SplitDistinct(sha, proof, size, cs[i]);
    }
  }

  lemma {:induction false} DeliverySize(sha: Sha256, proof: Bytes, size: nat, cs: seq<ProofChunk>)
    requires Delivery(sha, proof, size, cs)
    ensures |cs| == |Pieces(proof, size)|
  {
    var split := Split(sha, proof, size).value;
    assert |multiset(cs)| == |cs| && |multiset(split)| == |split|;
  }

  /** Midway through a delivery the reassembler holds exactly the chunks delivered so far. */
  predicate Midway(sha: Sha256, proof: Bytes, size: nat, cs: seq<ProofChunk>, n: nat)
    requires size > 0 && n <= |cs| == |Pieces(proof, size)| < U32_LIMIT
  {
    var h := HeldAfter(sha, cs[..n]);
    && |h.chunks| == n
    && (forall k | k in h.chunks :: k < |cs| && h.chunks[k] == Pieces(proof, size)[k])
    && (forall k | k in h.chunks :: exists i :: 0 <= i < n && cs[i].index == k)
    && (if n == 0 then h == NOTHING_HELD else h.digest == Some(sha(proof)) && h.count == Some(|cs|))
  }

  lemma {:induction false} JoinedPieces(chunks: map<u32, Bytes>, pieces: seq<Bytes>, n: u32)
    requires n <= |pieces| && AllPresent(chunks, n) && forall k: u32 | k < n :: chunks[k] == pieces[k]
    ensures Joined(chunks, n) == Concat(pieces[..n])
  {
    if n > 0 {
      JoinedPieces(chunks, pieces, n - 1);
      assert pieces[..n][..n - 1] == pieces[..n - 1];
    }
  }

  /** A push that fits what is held and is not a duplicate. */
  lemma PushFresh(sha: Sha256, h: Held, c: ProofChunk)
    requires WellFormed(c).Success? && c.index !in h.chunks
    requires h == NOTHING_HELD || (h.digest == Some(c.digest) && h.count == Some(c.count))
    ensures var chunks := h.chunks[c.index := c.bytes];
            && Push(sha, h, c).1 == Held(Some(c.digest), Some(c.count), chunks)
            && |chunks| == |h.chunks| + 1
            && (|chunks| < c.count ==> Push(sha, h, c).0 == Success(Incomplete(|chunks|, c.count)))
            && (|chunks| == c.count && AllPresent(chunks, c.count) && sha(Joined(chunks, c.count)) == c.digest ==>
                  (Push(sha, h, c).0 == Success(Complete(Joined(chunks, c.count)))))
  {
    assert h.chunks[c.index := c.bytes].Keys == h.chunks.Keys + {c.index};
  }

  lemma {:induction false} NextIsFresh(sha: Sha256, proof: Bytes, size: nat, cs: seq<ProofChunk>, n: nat)
    requires Delivery(sha, proof, size, cs) && n < |cs| == |Pieces(proof, size)|
    requires Midway(sha, proof, size, cs, n)
    ensures cs[n].index !in HeldAfter(sha, cs[..n]).chunks
    ensures cs[n].index < |cs| && cs[n] == ChunkAt(sha(proof), Pieces(proof, size), cs[n].index)
  {
    var c := cs[n];
    assert c in multiset(Split(sha, proof, size).value);
    SplitChunk(sha, proof, size, c);
    if c.index in HeldAfter(sha, cs[..n]).chunks {
      var i :| 0 <= i < n && cs[i].index == c.index;
      DeliveryDistinct(sha, proof, size, cs, i, n);
    }
  }

  /** The chunks held after one more push. */
  lemma {:induction false} ChunksGrow(sha: Sha256, proof: Bytes, size: nat, cs: seq<ProofChunk>, n: nat)
    requires Delivery(sha, proof, size, cs) && n < |cs| == |Pieces(proof, size)|
    requires Midway(sha, proof, size, cs, n)
    ensures var chunks := HeldAfter(sha, cs[..n]).chunks[cs[n].index := cs[n].bytes];
            && (forall k | k in chunks :: k < |cs| && chunks[k] == Pieces(proof, size)[k])
            && (forall k | k in chunks :: exists i :: 0 <= i < n + 1 && cs[i].index == k)
  {
    NextIsFresh(sha, proof, size, cs, n);
    var chunks := HeldAfter(sha, cs[..n]).chunks[cs[n].index := cs[n].bytes];
    forall k | k in chunks
      ensures exists i :: 0 <= i < n + 1 && cs[i].index == k
    {
      if k == cs[n].index {
        assert cs[n].index == k;
      } else {
        var i :| 0 <= i < n && cs[i].index == k;
      }
    }
  }

  /** A full set of pieces joins to the proof. */
  lemma {:induction false} PiecesJoin(proof: Bytes, size: nat, chunks: map<u32, Bytes>, n: u32)
    requires size > 0 && n == |Pieces(proof, size)| == |chunks|
    requires forall k | k in chunks :: k < n && chunks[k] == Pieces(proof, size)[k]
    ensures AllPresent(chunks, n) && Joined(chunks, n) == proof
  {
    Pigeonhole(chunks, n);
    JoinedPieces(chunks, Pieces(proof, size), n);
    ConcatPieces(proof, size);
    assert Pieces(proof, size)[..n] == Pieces(proof, size);
  }

  /** The push of one more chunk, and what it answers. */
  lemma {:induction false} StepMidway(sha: Sha256, proof: Bytes, size: nat, cs: seq<ProofChunk>, n: nat)
    requires Delivery(sha, proof, size, cs) && n < |cs| == |Pieces(proof, size)|
    requires Midway(sha, proof, size, cs, n)
    ensures Midway(sha, proof, size, cs, n + 1)
    ensures OutcomeOf(sha, cs, n)
         == if n + 1 < |cs| then Success(Incomplete(n + 1, |cs|)) else Success(Complete(proof))
  {
    var c, h := cs[n], HeldAfter(sha, cs[..n]);
    NextIsFresh(sha, proof, size, cs, n);
    ChunksGrow(sha, proof, size, cs, n);
    PushFresh(sha, h, c);
    assert cs[..n + 1][..n] == cs[..n];
    if n + 1 == |cs| {
      PiecesJoin(proof, size, h.chunks[c.index := c.bytes], c.count);
    }
  }

  lemma {:induction false} AlwaysMidway(sha: Sha256, proof: Bytes, size: nat, cs: seq<ProofChunk>, n: nat)
    requires Delivery(sha, proof, size, cs) && n <= |cs| == |Pieces(proof, size)|
    ensures Midway(sha, proof, size, cs, n)
  {
    if n > 0 {
      AlwaysMidway(sha, proof, size, cs, n - 1);
      StepMidway(sha, proof, size, cs, n - 1);
    }
  }

  /** Whatever the order the chunks of a split arrive in, every push but the last reports how
      many are in, and the last returns exactly the original proof. */
  lemma {:induction false} AnyOrderReassembles(sha: Sha256, proof: Bytes, size: nat, cs: seq<ProofChunk>, i: nat)
    requires Delivery(sha, proof, size, cs) && i < |cs|
    ensures |cs| == |Pieces(proof, size)|
    ensures OutcomeOf(sha, cs, i)
         == if i + 1 < |cs| then Success(Incomplete(i + 1, |cs|)) else Success(Complete(proof))
  {
    DeliverySize(sha, proof, size, cs);
    AlwaysMidway(sha, proof, size, cs, i);
    StepMidway(sha, proof, size, cs, i);
  }
}
