/** The hash chain of a channel's commitments: its latest output id fixes the whole history. */
module CommitmentHistory {
  import opened ByteBits
  import opened Primitives
  import opened Text
  import opened Channels
  import opened CommitmentState
  import opened CommitmentLedger
  import opened CommitmentReplay
  import CommitmentStore
  import ProofReplay
  import TapVm

  /** Everything about a commitment that its output id is derived from, and the ids themselves. The
      witness digest, the nonce and the signature are not among it. */
  datatype Facts = Facts(
    number: u64,
    local: u64,
    remote: u64,
    stateDigest: Bytes32,
    virtualTxId: Bytes32,
    entry: HistoryEntry)

  function FactsOf(k: Commitment): Facts {
    Facts(k.number, k.local, k.remote, k.stateDigest, k.virtualTxId, EntryOf(k))
  }

  predicate SameFacts(xs: seq<Commitment>, ys: seq<Commitment>) {
    |xs| == |ys| && forall i | 0 <= i < |xs| :: FactsOf(xs[i]) == FactsOf(ys[i])
  }

  /** The preimage of the output id of a commitment. */
  function Preimage(st: State, k: Commitment): Bytes {
    Concat(HistoryParts(st, k.number, k.local, k.remote, k.stateDigest, k.virtualTxId, k.priorOutputId))
  }

  /** Walks both histories back from the end to the last place where the preimages differ. */
  function HistoryCollision(a: State, xs: seq<Commitment>, b: State, ys: seq<Commitment>): (Bytes, Bytes) {
    if xs == [] || ys == [] then ([], [])
    else
      var x, y := Preimage(a, xs[|xs| - 1]), Preimage(b, ys[|ys| - 1]);
      if x != y then (x, y) else HistoryCollision(a, xs[..|xs| - 1], b, ys[..|ys| - 1])
  }

  /** Two views of one channel. */
  predicate SameView(a: State, b: State) {
    a.channelId == b.channelId && a.assetId == b.assetId && a.fundingOutputId == b.fundingOutputId
  }

  /** A history that fails on some first commitments fails the same way on all of them. */
  lemma {:induction false} RecordsFailEarly(env: Env, st: State, cs: seq<Commitment>, n: nat)
    requires n <= |cs| && CommitmentRecords(env, st, cs[..n]).Failure?
    ensures CommitmentRecords(env, st, cs) == CommitmentRecords(env, st, cs[..n])
  {
    if n == |cs| {
      assert cs[..n] == cs;
    } else {
      assert cs[..|cs| - 1][..n] == cs[..n];
      RecordsFailEarly(env, st, cs[..|cs| - 1], n);
    }
  }

  /** The record of the next commitment, checked against the output id it has to build on. */
  method NextRecord(env: Env, st: State, ghost earlier: seq<Commitment>, priorOutputId: Text, k: Commitment)
      returns (r: Result<ProofReplay.Record, CommitmentError>)
    requires CommitmentRecords(env, st, earlier).Success? && priorOutputId == TipOf(st, earlier)
    ensures var records := CommitmentRecords(env, st, earlier + [k]);
            if r.Success? then records == Success(CommitmentRecords(env, st, earlier).value + [r.value])
            else records == Failure(r.error)
  {
    assert (earlier + [k])[..|earlier|] == earlier;
    if !Linked(env, st, priorOutputId, k) {
      return Failure(UnexplainedHistory);
    }
    var split := CheckSplit(st, k.local, k.remote);
    if split.Some? {
      return Failure(split.value);
    }
    return Success(UpdateRecord(env, st, EntryOf(k)));
  }

  /** Collects the records of a run of commitments, carrying the output id the next has to build on. */
  method CollectRecords(env: Env, st: State, cs: seq<Commitment>)
      returns (r: Result<seq<ProofReplay.Record>, CommitmentError>)
    ensures r == CommitmentRecords(env, st, cs)
  {
    var records := [IssuanceRecord(env, st), FundingRecord(env, st)];
    var priorOutputId := st.fundingOutputId;
    var i := 0;
    while i < |cs|
      invariant 0 <= i <= |cs|
      invariant priorOutputId == TipOf(st, cs[..i])
      invariant CommitmentRecords(env, st, cs[..i]) == Success(records)
    {
      assert cs[..i + 1] == cs[..i] + [cs[i]];
      var next := NextRecord(env, st, cs[..i], priorOutputId, cs[i]);
      if next.Failure? {
        RecordsFailEarly(env, st, cs, i + 1);
        return Failure(next.error);
      }
      records := records + [next.value];
      priorOutputId := cs[i].outputId;
      i := i + 1;
    }
    assert cs[..i] == cs;
    return Success(records);
  }

  method ProofHistoryRecords(env: Env, st: State) returns (r: Result<seq<ProofReplay.Record>, CommitmentError>)
    ensures r == Records(env, st)
  {
    var cs := InOrder(st.commitments);
    r := CollectRecords(env, st, cs);
    if r.Success? && !NamesLatest(st, LatestEntry(st, cs)) {
      return Failure(UnexplainedHistory);
    }
  }

  lemma LinkedId(env: Env, st: State, prior: Text, k: Commitment)
    requires Linked(env, st, prior, k)
    ensures k.outputId == UpdateOutputId(st, k.number, env.sha(Preimage(st, k)))
    ensures k.priorOutputId == prior && k.recordId == UpdateRecordId(st, k.number) && k.transitionId == k.virtualTxId
  {
  }

  lemma PartsShape(a: State, x: Commitment, b: State, y: Commitment)
    requires SameView(a, b)
    ensures var p := HistoryParts(a, x.number, x.local, x.remote, x.stateDigest, x.virtualTxId, x.priorOutputId);
            var q := HistoryParts(b, y.number, y.local, y.remote, y.stateDigest, y.virtualTxId, y.priorOutputId);
            SameShapeBut(p, q, 8)
  {
    var p := HistoryParts(a, x.number, x.local, x.remote, x.stateDigest, x.virtualTxId, x.priorOutputId);
    var q := HistoryParts(b, y.number, y.local, y.remote, y.stateDigest, y.virtualTxId, y.priorOutputId);
    assert |p[0]| == |q[0]| && |p[1]| == |q[1]|;
    assert forall i | 2 <= i < 8 :: |p[i]| == |q[i]|;
  }

  lemma PartsInjective(a: State, x: Commitment, b: State, y: Commitment)
    requires HistoryParts(a, x.number, x.local, x.remote, x.stateDigest, x.virtualTxId, x.priorOutputId)
          == HistoryParts(b, y.number, y.local, y.remote, y.stateDigest, y.virtualTxId, y.priorOutputId)
    ensures x.number == y.number && x.local == y.local && x.remote == y.remote
    ensures x.stateDigest == y.stateDigest && x.virtualTxId == y.virtualTxId && x.priorOutputId == y.priorOutputId
  {
    var p := HistoryParts(a, x.number, x.local, x.remote, x.stateDigest, x.virtualTxId, x.priorOutputId);
    var q := HistoryParts(b, y.number, y.local, y.remote, y.stateDigest, y.virtualTxId, y.priorOutputId);
    assert p[3] == q[3] && p[4] == q[4] && p[5] == q[5] && p[6] == q[6] && p[7] == q[7] && p[8] == q[8];
    U64BeInjective(x.number, y.number);
    U64BeInjective(x.local, y.local);
    U64BeInjective(x.remote, y.remote);
    CountedInjective(x.priorOutputId, y.priorOutputId);
  }

  lemma PreimageInjective(a: State, x: Commitment, b: State, y: Commitment)
    requires SameView(a, b) && Preimage(a, x) == Preimage(b, y)
    ensures x.number == y.number && x.local == y.local && x.remote == y.remote
    ensures x.stateDigest == y.stateDigest && x.virtualTxId == y.virtualTxId && x.priorOutputId == y.priorOutputId
  {
    var p := HistoryParts(a, x.number, x.local, x.remote, x.stateDigest, x.virtualTxId, x.priorOutputId);
    var q := HistoryParts(b, y.number, y.local, y.remote, y.stateDigest, y.virtualTxId, y.priorOutputId);
    PartsShape(a, x, b, y);
    ConcatInjective(p, q, 8);
    PartsInjective(a, x, b, y);
  }

  /** Two linked commitments with one output id have one preimage or collide; with one preimage they
      agree on every fact. */
  lemma OutputIdBinds(env: Env, a: State, p: Text, x: Commitment, b: State, q: Text, y: Commitment)
    requires SameView(a, b) && Linked(env, a, p, x) && Linked(env, b, q, y) && x.outputId == y.outputId
    ensures if Preimage(a, x) == Preimage(b, y) then FactsOf(x) == FactsOf(y) && p == q
            else IsCollision(env.sha, (Preimage(a, x), Preimage(b, y)))
  {
    LinkedId(env, a, p, x);
    LinkedId(env, b, q, y);
    var d, e := env.sha(Preimage(a, x)), env.sha(Preimage(b, y));
    assert UpdateOutputId(b, y.number, e) == UpdateOutputId(a, y.number, e);
    UpdateOutputIdInjective(a, x.number, d, y.number, e);
    if Preimage(a, x) == Preimage(b, y) {
      PreimageInjective(a, x, b, y);
    }
  }

  lemma {:induction false} LastLinked(env: Env, st: State, cs: seq<Commitment>)
    requires cs != [] && CommitmentRecords(env, st, cs).Success?
    ensures CommitmentRecords(env, st, cs[..|cs| - 1]).Success?
    ensures Linked(env, st, TipOf(st, cs[..|cs| - 1]), cs[|cs| - 1]) && TipOf(st, cs) == cs[|cs| - 1].outputId
  {
    RecordsSnoc(env, st, cs);
  }

  /** The last commitments of two histories with one tip: either they collide, or they agree and the
      histories before them have one tip again. */
  lemma {:induction false} ChainStep(env: Env, a: State, xs: seq<Commitment>, b: State, ys: seq<Commitment>)
    requires SameView(a, b) && xs != [] && ys != [] && TipOf(a, xs) == TipOf(b, ys)
    requires CommitmentRecords(env, a, xs).Success? && CommitmentRecords(env, b, ys).Success?
    ensures var m, n := |xs| - 1, |ys| - 1;
            && CommitmentRecords(env, a, xs[..m]).Success? && CommitmentRecords(env, b, ys[..n]).Success?
            && if Preimage(a, xs[m]) == Preimage(b, ys[n]) then
                 FactsOf(xs[m]) == FactsOf(ys[n]) && TipOf(a, xs[..m]) == TipOf(b, ys[..n])
               else IsCollision(env.sha, (Preimage(a, xs[m]), Preimage(b, ys[n])))
  {
    var m, n := |xs| - 1, |ys| - 1;
    LastLinked(env, a, xs);
    LastLinked(env, b, ys);
    OutputIdBinds(env, a, TipOf(a, xs[..m]), xs[m], b, TipOf(b, ys[..n]), ys[n]);
  }

  lemma SameFactsSnoc(xs: seq<Commitment>, ys: seq<Commitment>)
    requires xs != [] && ys != [] && SameFacts(xs[..|xs| - 1], ys[..|ys| - 1])
    requires FactsOf(xs[|xs| - 1]) == FactsOf(ys[|ys| - 1])
    ensures SameFacts(xs, ys)
  {
    assert forall i | 0 <= i < |xs| - 1 :: xs[i] == xs[..|xs| - 1][i] && ys[i] == ys[..|ys| - 1][i];
  }

  lemma {:induction false} CollisionStep(env: Env, a: State, xs: seq<Commitment>, b: State, ys: seq<Commitment>)
    requires xs != [] && ys != []
    ensures var x, y := Preimage(a, xs[|xs| - 1]), Preimage(b, ys[|ys| - 1]);
            HistoryCollision(a, xs, b, ys) ==
              if x != y then (x, y) else HistoryCollision(a, xs[..|xs| - 1], b, ys[..|ys| - 1])
  {
  }

  /** A commitment of one of the histories takes the name of the funding output. */
  predicate Reused(a: State, xs: seq<Commitment>, ys: seq<Commitment>) {
    exists k <- xs + ys :: k.outputId == a.fundingOutputId
  }

  lemma ReusedGrows(a: State, xs: seq<Commitment>, ys: seq<Commitment>, m: nat, n: nat)
    requires m <= |xs| && n <= |ys| && Reused(a, xs[..m], ys[..n])
    ensures Reused(a, xs, ys)
  {
    var k :| k in xs[..m] + ys[..n] && k.outputId == a.fundingOutputId;
    assert k in xs + ys;
  }

  lemma ReusedTip(a: State, xs: seq<Commitment>, ys: seq<Commitment>)
    requires (xs != [] && xs[|xs| - 1].outputId == a.fundingOutputId)
          || (ys != [] && ys[|ys| - 1].outputId == a.fundingOutputId)
    ensures Reused(a, xs, ys)
  {
    var k := if xs != [] && xs[|xs| - 1].outputId == a.fundingOutputId then xs[|xs| - 1] else ys[|ys| - 1];
    assert k in xs + ys;
  }

  /** Two linked histories with one tip are the same, or collide, or one of them runs through the name of
      the funding output. */
  lemma {:induction false} ChainBinds(env: Env, a: State, xs: seq<Commitment>, b: State, ys: seq<Commitment>)
    requires SameView(a, b) && TipOf(a, xs) == TipOf(b, ys)
    requires CommitmentRecords(env, a, xs).Success? && CommitmentRecords(env, b, ys).Success?
    ensures SameFacts(xs, ys) || IsCollision(env.sha, HistoryCollision(a, xs, b, ys)) || Reused(a, xs, ys)
  {
    if xs == [] || ys == [] {
      if xs != [] || ys != [] {
        ReusedTip(a, xs, ys);
      }
    } else {
      var m, n := |xs| - 1, |ys| - 1;
      ChainStep(env, a, xs, b, ys);
      CollisionStep(env, a, xs, b, ys);
      if Preimage(a, xs[m]) == Preimage(b, ys[n]) {
        ChainBinds(env, a, xs[..m], b, ys[..n]);
        if SameFacts(xs[..m], ys[..n]) {
          SameFactsSnoc(xs, ys);
        } else if Reused(a, xs[..m], ys[..n]) {
          ReusedGrows(a, xs, ys, m, n);
        }
      }
    }
  }

  /** In a history that replays no commitment takes the name of the funding output. */
  lemma {:induction false} ReplayedNotReused(env: Env, st: State, cs: seq<Commitment>, p: ProofReplay.Progress)
    requires CommitmentRecords(env, st, cs).Success?
    requires ProofReplay.Replay(env.rules, CommitmentRecords(env, st, cs).value) == Success(p)
    ensures forall k <- cs :: k.outputId != st.fundingOutputId
  {
    if cs != [] {
      var front, k := cs[..|cs| - 1], cs[|cs| - 1];
      ReplayBefore(env, st, cs, p);
      var q := ProofReplay.Replay(env.rules, CommitmentRecords(env, st, front).value).value;
      ReplayedNotReused(env, st, front, q);
      HistoryReplayed(env, st, front, q);
      NextReplayed(env, st, front, q, EntryOf(k));
      assert forall x <- cs :: x in front || x == k;
    }
  }

  lemma CheckedNotReused(env: Env, a: State, b: State)
    requires CheckHistory(env, a).None? && CheckHistory(env, b).None? && SameView(a, b)
    ensures !Reused(a, InOrder(a.commitments), InOrder(b.commitments))
  {
    CheckedHistory(env, a);
    CheckedHistory(env, b);
    ReplayedNotReused(env, a, InOrder(a.commitments), ProofReplay.Replay(env.rules, Records(env, a).value).value);
    ReplayedNotReused(env, b, InOrder(b.commitments), ProofReplay.Replay(env.rules, Records(env, b).value).value);
  }

  /** Two states of one channel whose histories link up and name the same latest output hold the same
      commitments in the same order, up to nonces, witnesses and signatures, unless the histories exhibit
      a hash collision or run through the name of the funding output. */
  lemma {:induction false} RecordsBinding(env: Env, a: State, b: State)
    requires SameView(a, b) && Records(env, a).Success? && Records(env, b).Success?
    requires a.latestOutputId == b.latestOutputId
    ensures var xs, ys := InOrder(a.commitments), InOrder(b.commitments);
            SameFacts(xs, ys) || IsCollision(env.sha, HistoryCollision(a, xs, b, ys)) || Reused(a, xs, ys)
  {
    ChainBinds(env, a, InOrder(a.commitments), b, InOrder(b.commitments));
  }

  /** Of two states of one channel that pass the history check: the latest output ids are the same exactly
      when the commitments are, in the same order, up to nonces, witnesses and signatures, unless the
      histories exhibit a hash collision. */
  lemma {:induction false} HistoryBinding(env: Env, a: State, b: State)
    requires SameView(a, b) && CheckHistory(env, a).None? && CheckHistory(env, b).None?
    ensures var xs, ys := InOrder(a.commitments), InOrder(b.commitments);
            && (SameFacts(xs, ys) ==> a.latestOutputId == b.latestOutputId)
            && (a.latestOutputId == b.latestOutputId ==>
                  SameFacts(xs, ys) || IsCollision(env.sha, HistoryCollision(a, xs, b, ys)))
  {
    CheckedHistory(env, a);
    CheckedHistory(env, b);
    CheckedNotReused(env, a, b);
    if a.latestOutputId == b.latestOutputId {
      RecordsBinding(env, a, b);
    }
  }

  // ----- what the latest output id says about the commitments by number -----

  lemma {:induction false} InOrderSize(m: map<u64, Commitment>)
    ensures |InOrder(m)| == |m|
    decreases |m|
  {
    if m != map[] {
      var last := Greatest(m.Keys);
      assert (m - {last}).Keys == m.Keys - {last};
      InOrderSize(m - {last});
    }
  }

  lemma {:induction false} InOrderHolds(m: map<u64, Commitment>, n: u64) returns (i: nat)
    requires n in m
    ensures i < |InOrder(m)| && InOrder(m)[i] == m[n]
    decreases |m|
  {
    var last := Greatest(m.Keys);
    assert (m - {last}).Keys == m.Keys - {last};
    if n == last {
      i := |InOrder(m)| - 1;
    } else {
      i := InOrderHolds(m - {last}, n);
    }
  }

  /** Every commitment is kept under its own number. */
  predicate Numbered(m: map<u64, Commitment>) {
    forall n <- m :: m[n].number == n
  }

  lemma {:induction false} CheckedNumbered(env: Env, st: State, m: map<u64, Commitment>)
    requires CheckCommitments(env, st, m).None?
    ensures Numbered(m)
    decreases |m|
  {
    if m != map[] {
      var last := Greatest(m.Keys);
      assert (m - {last}).Keys == m.Keys - {last};
      CheckedNumbered(env, st, m - {last});
      assert forall n <- m :: n == last || (n in m - {last} && m[n] == (m - {last})[n]);
    }
  }

  predicate SameFactsAt(a: map<u64, Commitment>, b: map<u64, Commitment>) {
    a.Keys == b.Keys && forall n <- a :: FactsOf(a[n]) == FactsOf(b[n])
  }

  lemma {:induction false} FactsThere(a: map<u64, Commitment>, b: map<u64, Commitment>, n: u64)
    requires Numbered(a) && Numbered(b) && SameFacts(InOrder(a), InOrder(b)) && n in a
    ensures n in b && FactsOf(a[n]) == FactsOf(b[n])
  {
    var i := InOrderHolds(a, n);
    var m := InOrderFrom(b, i);
    assert FactsOf(InOrder(a)[i]) == FactsOf(InOrder(b)[i]);
  }

  lemma {:induction false} FactsByNumber(a: map<u64, Commitment>, b: map<u64, Commitment>)
    requires Numbered(a) && Numbered(b) && SameFacts(InOrder(a), InOrder(b))
    ensures SameFactsAt(a, b)
  {
    forall n: u64
      ensures n in a <==> n in b
      ensures n in a ==> n in b && FactsOf(a[n]) == FactsOf(b[n])
    {
      if n in a {
        FactsThere(a, b, n);
      }
      if n in b {
        FactsThere(b, a, n);
      }
    }
  }

  /** Two checked histories of one channel with one latest output are equally long, unless they collide. */
  lemma {:induction false} LatestOutputFixesLength(env: Env, a: State, b: State)
    requires SameView(a, b) && CheckHistory(env, a).None? && CheckHistory(env, b).None?
    requires a.latestOutputId == b.latestOutputId
    ensures || |a.commitments| == |b.commitments|
            || IsCollision(env.sha, HistoryCollision(a, InOrder(a.commitments), b, InOrder(b.commitments)))
  {
    HistoryBinding(env, a, b);
    InOrderSize(a.commitments);
    InOrderSize(b.commitments);
  }

  // ----- nonces, witnesses and signatures -----

  /** Two views of one channel, with the amount and the key that commitments are signed over. */
  predicate SameSigner(a: State, b: State) {
    SameView(a, b) && a.total == b.total && a.signingKey == b.signingKey
  }

  function UpdateOf(st: State, k: Commitment): TapVm.BalanceUpdate {
    VirtualUpdate(st, k.local, k.remote, k.nonce)
  }

  lemma AuthorityBinds(env: Env, a: State, x: Commitment, b: State, y: Commitment)
    requires SameSigner(a, b) && Authorized(env, a, x) && Authorized(env, b, y) && FactsOf(x) == FactsOf(y)
    ensures x == y || IsCollision(env.sha, TapVm.TxCollision(env.sha, UpdateOf(a, x), UpdateOf(b, y)))
  {
    TapVm.TxIdBinds(env.sha, UpdateOf(a, x), UpdateOf(b, y));
  }

  lemma AuthorityMoves(env: Env, a: State, b: State, k: Commitment)
    requires SameSigner(a, b)
    ensures Authorized(env, a, k) <==> Authorized(env, b, k)
  {
  }

  /** Where two histories collide: in the chain, or else in the transaction ids of two commitments that
      differ under one number. */
  ghost function LedgerCollision(env: Env, a: State, b: State): (Bytes, Bytes) {
    var chain := HistoryCollision(a, InOrder(a.commitments), b, InOrder(b.commitments));
    if IsCollision(env.sha, chain) then chain
    else if n :| n in a.commitments && n in b.commitments && a.commitments[n] != b.commitments[n]
                 && IsCollision(env.sha, TapVm.TxCollision(env.sha, UpdateOf(a, a.commitments[n]),
                                                           UpdateOf(b, b.commitments[n]))) then
      TapVm.TxCollision(env.sha, UpdateOf(a, a.commitments[n]), UpdateOf(b, b.commitments[n]))
    else ([], [])
  }

  lemma {:induction false} LedgerCollides(env: Env, a: State, b: State, n: u64)
    requires n in a.commitments && n in b.commitments && a.commitments[n] != b.commitments[n]
    requires IsCollision(env.sha, TapVm.TxCollision(env.sha, UpdateOf(a, a.commitments[n]), UpdateOf(b, b.commitments[n])))
    ensures IsCollision(env.sha, LedgerCollision(env, a, b))
  {
  }

  /** Checked states with one latest output hold the same facts under every number, or collide. */
  lemma {:induction false} CheckedFacts(env: Env, a: State, b: State)
    requires SameView(a, b) && CheckState(env, a).None? && CheckState(env, b).None?
    requires a.latestOutputId == b.latestOutputId
    ensures SameFactsAt(a.commitments, b.commitments) || IsCollision(env.sha, LedgerCollision(env, a, b))
  {
    StateChecked(env, a);
    StateChecked(env, b);
    CheckedNumbered(env, a, a.commitments);
    CheckedNumbered(env, b, b.commitments);
    HistoryBinding(env, a, b);
    if SameFacts(InOrder(a.commitments), InOrder(b.commitments)) {
      FactsByNumber(a.commitments, b.commitments);
    }
  }

  /** Under one number: with equal facts and the one commitment authorized, the other is the same exactly
      when it is authorized too, unless the hash collides. */
  lemma {:induction false} FactsFixCommitment(env: Env, a: State, b: State, n: u64)
    requires SameSigner(a, b) && SameFactsAt(a.commitments, b.commitments) && n in a.commitments
    requires Authorized(env, b, b.commitments[n])
    ensures || IsCollision(env.sha, LedgerCollision(env, a, b))
            || (a.commitments[n] == b.commitments[n] <==> Authorized(env, a, a.commitments[n]))
  {
    var x, y := a.commitments[n], b.commitments[n];
    AuthorityMoves(env, a, b, y);
    if Authorized(env, a, x) && x != y {
      AuthorityBinds(env, a, x, b, y);
      LedgerCollides(env, a, b, n);
    }
  }

  lemma {:induction false} SameWhere(a: map<u64, Commitment>, b: map<u64, Commitment>, fine: set<u64>)
    requires a.Keys == b.Keys && forall n <- a :: a[n] == b[n] <==> n in fine
    ensures a == b <==> forall n <- a :: n in fine
  {
  }

  lemma {:induction false} AllAuthorized(env: Env, a: State, b: State, collides: bool)
    requires a.commitments.Keys == b.commitments.Keys
    requires forall n <- a.commitments ::
               collides || (a.commitments[n] == b.commitments[n] <==> Authorized(env, a, a.commitments[n]))
    ensures collides || (a.commitments == b.commitments <==> AuthorizedTrack(env, a))
  {
    var fine := set n | n in a.commitments && Authorized(env, a, a.commitments[n]);
    if !collides {
      SameWhere(a.commitments, b.commitments, fine);
    }
  }

  lemma {:induction false} FactsFixLedger(env: Env, a: State, b: State)
    requires SameSigner(a, b) && SameFactsAt(a.commitments, b.commitments) && AuthorizedTrack(env, b)
    ensures || IsCollision(env.sha, LedgerCollision(env, a, b))
            || (a.commitments == b.commitments <==> AuthorizedTrack(env, a))
  {
    var collides := IsCollision(env.sha, LedgerCollision(env, a, b));
    forall n <- a.commitments
      ensures collides || (a.commitments[n] == b.commitments[n] <==> Authorized(env, a, a.commitments[n]))
    {
      FactsFixCommitment(env, a, b, n);
    }
    AllAuthorized(env, a, b, collides);
  }

  /** Of two checked states with one latest output: where the one holds an authorized commitment, the other
      holds the same one, nonce, witness and signature included, exactly when its own is authorized, unless
      the hash collides. */
  lemma {:induction false} LatestOutputFixesCommitment(env: Env, a: State, b: State, n: u64)
    requires SameSigner(a, b) && CheckState(env, a).None? && CheckState(env, b).None?
    requires a.latestOutputId == b.latestOutputId && n in a.commitments
    ensures || IsCollision(env.sha, LedgerCollision(env, a, b))
            || (n in b.commitments
                && (Authorized(env, b, b.commitments[n]) ==>
                      (a.commitments[n] == b.commitments[n] <==> Authorized(env, a, a.commitments[n]))))
  {
    CheckedFacts(env, a, b);
    if SameFactsAt(a.commitments, b.commitments) && Authorized(env, b, b.commitments[n]) {
      FactsFixCommitment(env, a, b, n);
    }
  }

  /** The same for whole ledgers: with one of them authorized throughout, the two are the same exactly when
      the other is. */
  lemma {:induction false} LatestOutputFixesLedger(env: Env, a: State, b: State)
    requires SameSigner(a, b) && CheckState(env, a).None? && CheckState(env, b).None?
    requires a.latestOutputId == b.latestOutputId && AuthorizedTrack(env, b)
    ensures || IsCollision(env.sha, LedgerCollision(env, a, b))
            || (a.commitments == b.commitments <==> AuthorizedTrack(env, a))
  {
    CheckedFacts(env, a, b);
    if SameFactsAt(a.commitments, b.commitments) {
      FactsFixLedger(env, a, b);
    }
  }

  /** Two runs of the ledger that bring a channel to one latest output id leave it with the same
      commitments, or a collision is exhibited. */
  lemma {:induction false} RunsBind(env: Env, p: seq<CommitmentStore.Op>, q: seq<CommitmentStore.Op>, id: Text)
    requires id in CommitmentStore.Run(env, p).channels && id in CommitmentStore.Run(env, q).channels
    requires var a, b := CommitmentStore.Run(env, p).channels[id], CommitmentStore.Run(env, q).channels[id];
             SameSigner(a, b) && a.latestOutputId == b.latestOutputId
    ensures var a, b := CommitmentStore.Run(env, p).channels[id], CommitmentStore.Run(env, q).channels[id];
            || IsCollision(env.sha, LedgerCollision(env, a, b))
            || (a.commitments == b.commitments && a.latest == b.latest
                && |CommitmentStore.Log(env, p, id)| == |CommitmentStore.Log(env, q, id)|)
  {
    var a, b := CommitmentStore.Run(env, p).channels[id], CommitmentStore.Run(env, q).channels[id];
    ReachableChecked(env, p, id);
    ReachableChecked(env, q, id);
    LatestOutputFixesLedger(env, a, b);
  }

  lemma {:induction false} ReachableChecked(env: Env, ops: seq<CommitmentStore.Op>, id: Text)
    requires id in CommitmentStore.Run(env, ops).channels
    ensures var st := CommitmentStore.Run(env, ops).channels[id];
            && CheckState(env, st).None? && AuthorizedTrack(env, st)
            && st.latest == |st.commitments| == |CommitmentStore.Log(env, ops, id)|
  {
    CommitmentStore.RunFine(env, ops);
    CommitmentStore.RunTracks(env, ops);
    var st := CommitmentStore.Run(env, ops).channels[id];
    var log := CommitmentStore.Log(env, ops, id);
    assert CommitmentStore.ChannelFine(env, id, st);
    assert Tracks(env, CommitmentStore.OpenedWith(env, ops, id).value, log, st);
    UpToSize(st.commitments, |log|);
  }

  /** Numbers 1 to n. */
  lemma {:induction false} UpToSize(m: map<u64, Commitment>, n: nat)
    requires n < U64_LIMIT && forall x: u64 :: x in m <==> 1 <= x <= n
    ensures |m| == n
    decreases n
  {
    if n == 0 {
      assert m == map[];
    } else {
      assert n in m;
      assert (m - {n}).Keys == m.Keys - {n};
      UpToSize(m - {n}, n - 1);
    }
  }

  // ----- what it does not say -----

  /** The state with another nonce, witness and signature on one commitment, and the nonce index to match. */
  function Forged(st: State, n: u64, nonce: Bytes32, proof: Bytes32, signature: Bytes32): State
    requires n in st.commitments
  {
    var k := st.commitments[n].(nonce := nonce, witnessDigest := proof, signature := signature);
    st.(commitments := st.commitments[n := k],
        usedNonces := (map x | x in st.usedNonces && st.usedNonces[x] != n :: st.usedNonces[x])[nonce := n])
  }

  lemma {:induction false} InOrderFacts(a: map<u64, Commitment>, b: map<u64, Commitment>)
    requires SameFactsAt(a, b)
    ensures SameFacts(InOrder(a), InOrder(b))
    decreases |a|
  {
    if a != map[] {
      var last := Greatest(a.Keys);
      assert (a - {last}).Keys == a.Keys - {last} && (b - {last}).Keys == b.Keys - {last};
      assert b != map[] by { assert last in b; }
      InOrderFacts(a - {last}, b - {last});
    }
  }

  /** The records of a history depend on nothing but the facts. */
  lemma {:induction false} FactsFixRecords(env: Env, a: State, xs: seq<Commitment>, b: State, ys: seq<Commitment>)
    requires SameChannel(a, b) && SameFacts(xs, ys)
    ensures CommitmentRecords(env, a, xs) == CommitmentRecords(env, b, ys)
    ensures TipOf(a, xs) == TipOf(b, ys) && (xs != [] ==> LatestEntry(a, xs) == LatestEntry(b, ys))
  {
    if xs != [] {
      var n := |xs| - 1;
      FactsFixRecords(env, a, xs[..n], b, ys[..n]);
      assert FactsOf(xs[n]) == FactsOf(ys[n]);
      LinkedFacts(env, a, b, TipOf(a, xs[..n]), xs[n], ys[n]);
    }
  }

  lemma LinkedFacts(env: Env, a: State, b: State, prior: Text, x: Commitment, y: Commitment)
    requires SameChannel(a, b) && FactsOf(x) == FactsOf(y)
    ensures Linked(env, a, prior, x) == Linked(env, b, prior, y)
    ensures UpdateRecord(env, a, EntryOf(x)) == UpdateRecord(env, b, EntryOf(y))
    ensures CheckSplit(a, x.local, x.remote) == CheckSplit(b, y.local, y.remote)
  {
    LinkedFrame(env, a, b, prior, x);
  }

  lemma {:induction false} FactsFixCommitments(env: Env, a: State, x: map<u64, Commitment>, b: State, y: map<u64, Commitment>)
    requires SameChannel(a, b) && SameFactsAt(x, y)
    ensures CheckCommitments(env, a, x) == CheckCommitments(env, b, y)
    decreases |x|
  {
    if x != map[] {
      var last := Greatest(x.Keys);
      assert (x - {last}).Keys == x.Keys - {last} && (y - {last}).Keys == y.Keys - {last};
      assert y != map[] by { assert last in y; }
      FactsFixCommitments(env, a, x - {last}, b, y - {last});
      assert FactsOf(x[last]) == FactsOf(y[last]);
    }
  }

  /** For every state: another nonce, witness and signature on a commitment leave the records, and so the
      history check and the latest output id, as they were. */
  lemma {:induction false} ForgeryUnseen(env: Env, st: State, n: u64, nonce: Bytes32, proof: Bytes32, signature: Bytes32)
    requires n in st.commitments
    ensures var f := Forged(st, n, nonce, proof, signature);
            && Records(env, f) == Records(env, st) && CheckHistory(env, f) == CheckHistory(env, st)
            && f.latestOutputId == st.latestOutputId
  {
    var f := Forged(st, n, nonce, proof, signature);
    assert SameFactsAt(st.commitments, f.commitments);
    InOrderFacts(st.commitments, f.commitments);
    FactsFixRecords(env, st, InOrder(st.commitments), f, InOrder(f.commitments));
    HistoryFrame(env, st, f);
  }

  lemma {:induction false} HistoryFrame(env: Env, a: State, b: State)
    requires SameChannel(a, b) && Records(env, a) == Records(env, b) && a.latest == b.latest
    requires a.latestRecordId == b.latestRecordId && a.latestOutputId == b.latestOutputId
    requires a.latestTransitionId == b.latestTransitionId
    ensures CheckHistory(env, a) == CheckHistory(env, b)
  {
  }

  lemma ForgedDiffers(env: Env, st: State, n: u64, nonce: Bytes32, proof: Bytes32, signature: Bytes32)
    requires n in st.commitments
    ensures var f, k := Forged(st, n, nonce, proof, signature), st.commitments[n];
            && (f.commitments == st.commitments <==>
                  nonce == k.nonce && proof == k.witnessDigest && signature == k.signature)
            && (nonce == k.nonce && f.commitments != st.commitments && Authorized(env, st, k) ==>
                  !Authorized(env, f, f.commitments[n]))
  {
    var f := Forged(st, n, nonce, proof, signature);
    assert f.commitments[n] == st.commitments[n] ==> f.commitments == st.commitments;
  }

  lemma ForgedParts(env: Env, st: State, n: u64, nonce: Bytes32, proof: Bytes32, signature: Bytes32)
    requires n in st.commitments && NoncesIndexed(st)
    ensures var f := Forged(st, n, nonce, proof, signature);
            && NoncesIndexed(f) && SameChannel(st, f) && SameFactsAt(st.commitments, f.commitments)
            && f.latest == st.latest && f.local == st.local && f.remote == st.remote && f.revoked == st.revoked
            && CheckMonitor(env, f) == CheckMonitor(env, st)
  {
  }

  lemma {:induction false} PartsPass(env: Env, st: State, f: State)
    requires CheckState(env, st).None? && NoncesIndexed(f) && SameChannel(st, f)
    requires f.latest == st.latest && f.local == st.local && f.remote == st.remote && f.revoked == st.revoked
    requires CheckMonitor(env, f) == CheckMonitor(env, st) && CheckHistory(env, f) == CheckHistory(env, st)
    requires CheckCommitments(env, f, f.commitments) == CheckCommitments(env, st, st.commitments)
    ensures CheckState(env, f).None?
  {
    StateChecked(env, st);
    StateChecked(env, f);
  }

  /** For every state that passes its check: so it does with another nonce, witness and signature on a
      commitment, under the same latest output id. With only the witness or the signature changed the
      commitment is no longer authorized. */
  lemma {:induction false} ForgeryPasses(env: Env, st: State, n: u64, nonce: Bytes32, proof: Bytes32, signature: Bytes32)
    requires n in st.commitments && CheckState(env, st).None?
    ensures var f, k := Forged(st, n, nonce, proof, signature), st.commitments[n];
            && CheckState(env, f).None? && f.latestOutputId == st.latestOutputId
            && (f.commitments == st.commitments <==>
                  nonce == k.nonce && proof == k.witnessDigest && signature == k.signature)
            && (nonce == k.nonce && f.commitments != st.commitments && Authorized(env, st, k) ==>
                  !Authorized(env, f, f.commitments[n]))
  {
    var f := Forged(st, n, nonce, proof, signature);
    StateChecked(env, st);
    ForgedParts(env, st, n, nonce, proof, signature);
    ForgeryUnseen(env, st, n, nonce, proof, signature);
    FactsFixCommitments(env, st, st.commitments, f, f.commitments);
    PartsPass(env, st, f);
    ForgedDiffers(env, st, n, nonce, proof, signature);
  }
}
