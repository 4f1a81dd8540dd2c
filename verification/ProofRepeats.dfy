/** The reassembler under repeated and forged chunks: what a refused push changes, and exactly when a
    proof still completes. */
module ProofRepeats {
  import opened ByteBits
  import opened Primitives
  import opened ProofTransport

  // ----- what a refused push changes -----

  /** A refused push changes what is held exactly when its chunk is well formed, agrees with what is pinned
      or finds nothing pinned, and brings bytes that are not already stored under its index. */
  lemma {:induction false} RefusedChanges(sha: Sha256, h: Held, c: ProofChunk)
    requires Consistent(h) && Push(sha, h, c).0.Failure?
    ensures Push(sha, h, c).1 != h <==>
              && WellFormed(c).Success?
              && (h.digest.None? || (h.digest == Some(c.digest) && h.count == Some(c.count)))
              && (c.index !in h.chunks || h.chunks[c.index] != c.bytes)
  {
    assert h.chunks[c.index := c.bytes][c.index] == c.bytes;
    if c.index in h.chunks && h.chunks[c.index] == c.bytes {
      assert h.chunks[c.index := c.bytes] == h.chunks;
    }
  }

  // ----- what is held, without looking at hashes -----

  /** The digest and count of the first well-formed chunk. */
  function FirstPin(cs: seq<ProofChunk>): Option<(Bytes32, u32)> {
    if cs == [] then None
    else
      var front, c := FirstPin(cs[..|cs| - 1]), cs[|cs| - 1];
      if front.Some? then front
      else if WellFormed(c).Success? then Some((c.digest, c.count))
      else None
  }

  /** The last chunk of the run is well formed and carries the digest and count of the first. */
  predicate Writes(cs: seq<ProofChunk>)
    requires cs != []
  {
    var c := cs[|cs| - 1];
    WellFormed(c).Success? && FirstPin(cs) == Some((c.digest, c.count))
  }

  /** The bytes last written under each index. */
  function Written(cs: seq<ProofChunk>): map<u32, Bytes> {
    if cs == [] then map[]
    else
      var earlier, c := Written(cs[..|cs| - 1]), cs[|cs| - 1];
      if Writes(cs) then earlier[c.index := c.bytes] else earlier
  }

  lemma {:induction false} PushWrites(sha: Sha256, h: Held, c: ProofChunk, pin: Option<(Bytes32, u32)>)
    requires if pin.Some? then h.digest == Some(pin.value.0) && h.count == Some(pin.value.1) else h == NOTHING_HELD
    ensures var matches := WellFormed(c).Success? && (pin.Some? ==> pin.value == (c.digest, c.count));
            Push(sha, h, c).1 ==
              if matches then Held(Some(c.digest), Some(c.count), h.chunks[c.index := c.bytes]) else h
  {
  }

  /** After any run the pin is the digest and count of the first well-formed chunk, and the chunks are the
      bytes last written by the pushes that agree with it, accepted or refused. */
  lemma {:induction false} HeldIsWritten(sha: Sha256, cs: seq<ProofChunk>)
    ensures HeldAfter(sha, cs) ==
              match FirstPin(cs)
              case None => NOTHING_HELD
              case Some((digest, count)) => Held(Some(digest), Some(count), Written(cs))
    ensures FirstPin(cs).None? ==> Written(cs) == map[]
  {
    if cs != [] {
      var front := cs[..|cs| - 1];
      HeldIsWritten(sha, front);
      PushWrites(sha, HeldAfter(sha, front), cs[|cs| - 1], FirstPin(front));
    }
  }

  lemma {:induction false} FirstPinIsFirst(cs: seq<ProofChunk>, i: nat)
    requires i < |cs| && WellFormed(cs[i]).Success? && forall j | 0 <= j < i :: WellFormed(cs[j]).Failure?
    ensures FirstPin(cs) == Some((cs[i].digest, cs[i].count))
  {
    if i < |cs| - 1 {
      FirstPinIsFirst(cs[..|cs| - 1], i);
    } else {
      NoPinBefore(cs[..i]);
    }
  }

  lemma {:induction false} NoPinBefore(cs: seq<ProofChunk>)
    requires forall c <- cs :: WellFormed(c).Failure?
    ensures FirstPin(cs).None?
  {
    if cs != [] {
      NoPinBefore(cs[..|cs| - 1]);
    }
  }

  // ----- when a proof completes -----

  /** Push number `i` brings the last missing index. */
  predicate Fills(cs: seq<ProofChunk>, i: nat) {
    && i < |cs| && Writes(cs[..i + 1])
    && cs[i].index !in Written(cs[..i]) && |Written(cs[..i + 1])| == cs[i].count
  }

  /** The bytes last written under the indices below `n`, joined. */
  function JoinWritten(cs: seq<ProofChunk>, n: u32): Bytes {
    if AllPresent(Written(cs), n) then Joined(Written(cs), n) else []
  }

  lemma {:induction false} OnePush(sha: Sha256, h: Held, c: ProofChunk)
    requires Consistent(h)
    ensures var r := Push(sha, h, c).0;
            var matches := WellFormed(c).Success? && (h.digest.Some? ==> h.digest.value == c.digest && h.count.value == c.count);
            var chunks := h.chunks[c.index := c.bytes];
            && (r.Success? && r.value.Complete? <==>
                  && matches && c.index !in h.chunks && |chunks| == c.count
                  && AllPresent(chunks, c.count) && sha(Joined(chunks, c.count)) == c.digest)
            && (matches && |chunks| == c.count ==> AllPresent(chunks, c.count))
            && (r.Success? && r.value.Complete? ==> r.value.proof == Joined(chunks, c.count))
  {
    var chunks := h.chunks[c.index := c.bytes];
    if WellFormed(c).Success? && (h.digest.Some? ==> h.count.value == c.count) && |chunks| == c.count {
      Pigeonhole(chunks, c.count);
    }
  }

  /** For every run, whatever is repeated or forged in it: push number `i` completes exactly when it brings
      the last missing index and the bytes last written by then hash to the digest; they are the proof. */
  lemma {:induction false} CompletesExactly(sha: Sha256, cs: seq<ProofChunk>, i: nat)
    requires i < |cs|
    ensures CompletesAt(sha, cs, i) <==>
              Fills(cs, i) && sha(JoinWritten(cs[..i + 1], cs[i].count)) == cs[i].digest
    ensures CompletesAt(sha, cs, i) ==>
              OutcomeOf(sha, cs, i) == Success(Complete(JoinWritten(cs[..i + 1], cs[i].count)))
  {
    var front := cs[..i];
    assert cs[..i + 1][..i] == front;
    HeldIsWritten(sha, front);
    RunConsistent(sha, front);
    OnePush(sha, HeldAfter(sha, front), cs[i]);
  }

  lemma {:induction false} FillsFull(sha: Sha256, cs: seq<ProofChunk>, i: nat)
    requires Fills(cs, i)
    ensures Full(HeldAfter(sha, cs[..i + 1]))
  {
    HeldIsWritten(sha, cs[..i + 1]);
  }

  /** The last missing index arrives at most once. */
  lemma {:induction false} FillsOnce(sha: Sha256, cs: seq<ProofChunk>, i: nat, j: nat)
    requires i < j && Fills(cs, i)
    ensures !Fills(cs, j)
  {
    if j < |cs| {
      FillsFull(sha, cs, i);
      FullStaysFull(sha, cs, i + 1, j);
      assert cs[..j + 1][..j] == cs[..j];
      HeldIsWritten(sha, cs[..j]);
      RunConsistent(sha, cs[..j]);
      var h := HeldAfter(sha, cs[..j]);
      Pigeonhole(h.chunks, h.count.value);
    }
  }

  /** A run completes at all exactly when, at the push that brings the last missing index, the bytes last
      written hash to the digest: one refused forgery before it is enough to lose the proof for good. */
  lemma {:induction false} EverCompletes(sha: Sha256, cs: seq<ProofChunk>)
    ensures (exists i: nat :: CompletesAt(sha, cs, i)) ==> exists i: nat :: Fills(cs, i)
    ensures forall i: nat | Fills(cs, i) ::
              (exists j: nat :: CompletesAt(sha, cs, j)) <==> sha(JoinWritten(cs[..i + 1], cs[i].count)) == cs[i].digest
  {
    forall j: nat | CompletesAt(sha, cs, j)
      ensures Fills(cs, j) && sha(JoinWritten(cs[..j + 1], cs[j].count)) == cs[j].digest
    {
      CompletesExactly(sha, cs, j);
    }
    forall i: nat | Fills(cs, i)
      ensures (exists j: nat :: CompletesAt(sha, cs, j)) <==> sha(JoinWritten(cs[..i + 1], cs[i].count)) == cs[i].digest
    {
      CompletesExactly(sha, cs, i);
      if j: nat :| CompletesAt(sha, cs, j) && j != i {
        FillsOnce(sha, cs, if i < j then i else j, if i < j then j else i);
      }
    }
  }

  // ----- the chunks of one split -----

  /** Every well-formed chunk of the run claims to be of this split; its bytes may be forged. */
  predicate ClaimsSplit(sha: Sha256, proof: Bytes, size: nat, cs: seq<ProofChunk>)
    requires size > 0
  {
    forall c <- cs | WellFormed(c).Success? :: c.digest == sha(proof) && c.count == |Pieces(proof, size)|
  }

  lemma {:induction false} ClaimedPin(sha: Sha256, proof: Bytes, size: nat, cs: seq<ProofChunk>)
    requires size > 0 && ClaimsSplit(sha, proof, size, cs)
    ensures FirstPin(cs).Some? ==> FirstPin(cs).value.0 == sha(proof) && FirstPin(cs).value.1 == |Pieces(proof, size)|
    ensures FirstPin(cs).None? <==> forall c <- cs :: WellFormed(c).Failure?
  {
    if cs != [] {
      var front, c := cs[..|cs| - 1], cs[|cs| - 1];
      ClaimedPin(sha, proof, size, front);
      assert forall x <- cs :: x in front || x == c;
    }
  }

  /** In such a run every well-formed push writes, and the run completes exactly when the bytes written last
      hash to the digest of the proof at the push that brings the last missing index. */
  lemma {:induction false} ForgedSplit(sha: Sha256, proof: Bytes, size: nat, cs: seq<ProofChunk>)
    requires size > 0 && ClaimsSplit(sha, proof, size, cs)
    ensures cs != [] ==> (Writes(cs) <==> WellFormed(cs[|cs| - 1]).Success?)
    ensures forall i: nat | Fills(cs, i) ::
              (exists j: nat :: CompletesAt(sha, cs, j)) <==>
                cs[i].count == |Pieces(proof, size)| && sha(JoinWritten(cs[..i + 1], cs[i].count)) == sha(proof)
    ensures (exists j: nat :: CompletesAt(sha, cs, j)) ==> exists i: nat :: Fills(cs, i)
  {
    ClaimedPin(sha, proof, size, cs);
    EverCompletes(sha, cs);
    assert forall i: nat | Fills(cs, i) :: cs[i] in cs && cs[..i + 1][i] == cs[i];
  }

  /** Every well-formed chunk of the run is one of the split, with any repeats. */
  predicate Genuine(sha: Sha256, proof: Bytes, size: nat, cs: seq<ProofChunk>) {
    && size > 0 && proof != [] && |Pieces(proof, size)| < U32_LIMIT
    && forall c <- cs | WellFormed(c).Success? :: c in Split(sha, proof, size).value
  }

  lemma {:induction false} GenuineWritten(sha: Sha256, proof: Bytes, size: nat, cs: seq<ProofChunk>)
    requires Genuine(sha, proof, size, cs)
    ensures forall k <- Written(cs) :: k < |Pieces(proof, size)| && Written(cs)[k] == Pieces(proof, size)[k]
  {
    if cs != [] {
      var front, c := cs[..|cs| - 1], cs[|cs| - 1];
      assert forall x <- front :: x in cs;
      GenuineWritten(sha, proof, size, front);
      if Writes(cs) {
        assert c in cs;
        SplitChunk(sha, proof, size, c);
      }
    }
  }

  /** Repeats of genuine chunks do no harm: the push that brings the last missing index completes with the
      proof. */
  lemma {:induction false} RepeatsHarmless(sha: Sha256, proof: Bytes, size: nat, cs: seq<ProofChunk>, i: nat)
    requires Genuine(sha, proof, size, cs) && Fills(cs, i)
    ensures OutcomeOf(sha, cs, i) == Success(Complete(proof))
  {
    var upTo := cs[..i + 1];
    assert forall x <- upTo :: x in cs;
    assert upTo[i] == cs[i] && cs[i] in cs;
    SplitChunk(sha, proof, size, cs[i]);
    GenuineWritten(sha, proof, size, upTo);
    PiecesJoin(proof, size, Written(upTo), cs[i].count);
    CompletesExactly(sha, cs, i);
  }

  // ----- one refused push that loses the proof -----

  /** A first chunk, a forgery of it, and the second chunk. */
  function Forgery(sha: Sha256, x: Bytes, y: Bytes, f: Bytes): seq<ProofChunk> {
    var d := sha(x + y);
    [ProofChunk(d, 0, 2, x, false), ProofChunk(d, 0, 2, f, false), ProofChunk(d, 1, 2, y, true)]
  }

  lemma {:induction false} ForgeryHeld(sha: Sha256, x: Bytes, y: Bytes, f: Bytes)
    ensures var cs, d := Forgery(sha, x, y, f), sha(x + y);
            && HeldAfter(sha, cs[..1]) == Held(Some(d), Some(2), map[0 := x])
            && HeldAfter(sha, cs[..2]) == Held(Some(d), Some(2), map[0 := f])
            && HeldAfter(sha, cs[..3]) == Held(Some(d), Some(2), map[0 := f, 1 := y])
  {
    var cs := Forgery(sha, x, y, f);
    assert cs[..1][..0] == [] && cs[..2][..1] == cs[..1] && cs[..3][..2] == cs[..2];
    assert HeldAfter(sha, cs[..1]) == Push(sha, NOTHING_HELD, cs[0]).1;
    assert HeldAfter(sha, cs[..2]) == Push(sha, HeldAfter(sha, cs[..1]), cs[1]).1;
    assert HeldAfter(sha, cs[..3]) == Push(sha, HeldAfter(sha, cs[..2]), cs[2]).1;
  }

  /** The forgery is refused as a duplicate, the second chunk then fails the digest, and nothing pushed
      after that, genuine or not, completes a proof. */
  lemma {:induction false} ForgeryLosesProof(sha: Sha256, x: Bytes, y: Bytes, f: Bytes, more: seq<ProofChunk>)
    requires sha(f + y) != sha(x + y)
    ensures var cs := Forgery(sha, x, y, f) + more;
            && OutcomeOf(sha, cs, 0) == Success(Incomplete(1, 2))
            && OutcomeOf(sha, cs, 1) == Failure(DuplicateChunk(0))
            && OutcomeOf(sha, cs, 2) == Failure(ProofDigestMismatch)
            && forall i: nat :: !CompletesAt(sha, cs, i)
  {
    var cs, three := Forgery(sha, x, y, f) + more, Forgery(sha, x, y, f);
    ForgeryHeld(sha, x, y, f);
    assert cs[..0] == [] && cs[..1] == three[..1] && cs[..2] == three[..2] && cs[..3] == three[..3];
    var chunks := map[0 := f, 1 := y];
    JoinedTwo(chunks, f, y);
    forall i: nat | i < |cs|
      ensures !CompletesAt(sha, cs, i)
    {
      if i >= 3 {
        FullStaysFull(sha, cs, 3, i);
        RunConsistent(sha, cs[..i]);
        PushSafe(sha, HeldAfter(sha, cs[..i]), cs[i]);
      }
    }
  }

  lemma {:induction false} JoinedTwo(chunks: map<u32, Bytes>, f: Bytes, y: Bytes)
    requires 0 in chunks && 1 in chunks && chunks[0] == f && chunks[1] == y
    ensures AllPresent(chunks, 2) && Joined(chunks, 2) == f + y
  {
    assert Joined(chunks, 0) == [];
    assert Joined(chunks, 1) == f;
  }
}
