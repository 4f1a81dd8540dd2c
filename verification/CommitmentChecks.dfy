/** What passes the check on the history of a commitment state, whatever the state. */
module CommitmentChecks {
  import opened ByteBits
  import opened Primitives
  import opened Text
  import opened Channels
  import opened CommitmentState
  import opened CommitmentReplay
  import opened CommitmentOpening
  import Conservation = ReplayConservation
  import R = ProofReplay

  // ----- the chain of commitments -----

  /** Each commitment carries the names and the link that follow from its contents and the one before it, and
      splits the total. */
  predicate Chained(env: Env, st: State, cs: seq<Commitment>) {
    cs == []
    || var front, k := cs[..|cs| - 1], cs[|cs| - 1];
       Chained(env, st, front) && Linked(env, st, TipOf(st, front), k) && k.local + k.remote == st.total
  }

  lemma {:induction false} ChainedAt(env: Env, st: State, cs: seq<Commitment>, i: nat)
    requires Chained(env, st, cs) && i < |cs|
    ensures Linked(env, st, TipOf(st, cs[..i]), cs[i])
  {
    if i < |cs| - 1 {
      ChainedAt(env, st, cs[..|cs| - 1], i);
      assert cs[..|cs| - 1][..i] == cs[..i];
    }
  }

  lemma {:induction false} RecordsExactly(env: Env, st: State, cs: seq<Commitment>)
    ensures CommitmentRecords(env, st, cs).Success? <==> Chained(env, st, cs)
  {
    if cs != [] {
      RecordsExactly(env, st, cs[..|cs| - 1]);
    }
  }

  // ----- the names -----

  /** No commitment before it has its number, and the funding none of its names. */
  predicate NewNames(st: State, front: seq<Commitment>, k: Commitment) {
    && k.virtualTxId != ZERO32 && k.recordId != st.fundingRecordId && k.outputId != st.fundingOutputId
    && forall j | 0 <= j < |front| :: front[j].number != k.number
  }

  /** No two commitments have one number, none has a transaction id of zero or a name of the funding. */
  predicate NamesFree(st: State, cs: seq<Commitment>) {
    forall i | 0 <= i < |cs| :: NewNames(st, cs[..i], cs[i])
  }

  lemma {:induction false} NamesFreeSnoc(st: State, cs: seq<Commitment>)
    requires cs != []
    ensures var front, k := cs[..|cs| - 1], cs[|cs| - 1];
            NamesFree(st, cs) <==> NamesFree(st, front) && NewNames(st, front, k)
  {
    var front := cs[..|cs| - 1];
    assert forall i | 0 <= i < |front| :: front[i] == cs[i] && front[..i] == cs[..i];
  }

  /** Exactly the records and outputs of the funding and the commitments are known. */
  predicate Knows(st: State, cs: seq<Commitment>, p: R.Progress) {
    && p.seen == {FundingInputId(st), st.fundingRecordId} + (set k <- cs :: k.recordId)
    && p.outputs.Keys == {FundingInputId(st), st.fundingOutputId} + (set k <- cs :: k.outputId)
  }

  lemma {:induction false} LinkedNames(env: Env, st: State, prior: Text, k: Commitment) returns (d: Bytes32)
    requires Linked(env, st, prior, k)
    ensures k.priorOutputId == prior && k.transitionId == k.virtualTxId
    ensures k.recordId == UpdateRecordId(st, k.number) && k.outputId == UpdateOutputId(st, k.number, d)
  {
    d := Digest(env.sha, HistoryParts(st, k.number, k.local, k.remote, k.stateDigest, k.virtualTxId, prior));
  }

  /** The names of two linked commitments meet exactly when their numbers do. */
  lemma {:induction false} NamesMeet(env: Env, st: State, prior: Text, k: Commitment, before: Text, x: Commitment)
    requires Linked(env, st, prior, k) && Linked(env, st, before, x)
    ensures k.recordId == x.recordId <==> k.number == x.number
    ensures k.outputId == x.outputId ==> k.number == x.number
  {
    var d := LinkedNames(env, st, prior, k);
    var e := LinkedNames(env, st, before, x);
    if k.recordId == x.recordId {
      UpdateRecordIdInjective(st, k.number, x.number);
    }
    if k.outputId == x.outputId {
      UpdateOutputIdInjective(st, k.number, d, x.number, e);
    }
  }

  /** The names of `k` meet those of a commitment before it only with its number. */
  predicate MeetsByNumber(front: seq<Commitment>, k: Commitment) {
    forall j | 0 <= j < |front| ::
      && (k.recordId == front[j].recordId <==> k.number == front[j].number)
      && (k.outputId == front[j].outputId ==> k.number == front[j].number)
  }

  /** What the link of a commitment says about its names. */
  predicate Fits(st: State, front: seq<Commitment>, k: Commitment) {
    && k.priorOutputId == TipOf(st, front) && k.transitionId == k.virtualTxId
    && k.recordId != [] && k.outputId != []
    && k.recordId != FundingInputId(st) && k.outputId != FundingInputId(st)
    && MeetsByNumber(front, k)
  }

  lemma {:induction false} MeetsAt(env: Env, st: State, front: seq<Commitment>, k: Commitment, j: nat)
    requires Chained(env, st, front) && Linked(env, st, TipOf(st, front), k) && j < |front|
    ensures k.recordId == front[j].recordId <==> k.number == front[j].number
    ensures k.outputId == front[j].outputId ==> k.number == front[j].number
  {
    ChainedAt(env, st, front, j);
    NamesMeet(env, st, TipOf(st, front), k, TipOf(st, front[..j]), front[j]);
  }

  lemma {:induction false} LinkedFits(env: Env, st: State, front: seq<Commitment>, k: Commitment)
    requires Chained(env, st, front) && Linked(env, st, TipOf(st, front), k)
    ensures Fits(st, front, k)
  {
    var d := LinkedNames(env, st, TipOf(st, front), k);
    LedgerIds(st, k.number, d);
    forall j | 0 <= j < |front|
      ensures k.recordId == front[j].recordId <==> k.number == front[j].number
      ensures k.outputId == front[j].outputId ==> k.number == front[j].number
    {
      MeetsAt(env, st, front, k, j);
    }
  }

  lemma {:induction false} NextNames(st: State, front: seq<Commitment>, k: Commitment, p: R.Progress)
    requires Knows(st, front, p) && Fits(st, front, k)
    ensures k.virtualTxId != ZERO32 && k.recordId !in p.seen && k.outputId !in p.outputs <==> NewNames(st, front, k)
  {
    forall j | 0 <= j < |front|
      ensures front[j].recordId in p.seen && front[j].outputId in p.outputs
    {
      assert front[j] in front;
    }
    if x :| x in front && x.outputId == k.outputId {
      var j :| 0 <= j < |front| && front[j] == x;
    }
    if x :| x in front && x.recordId == k.recordId {
      var j :| 0 <= j < |front| && front[j] == x;
    }
  }

  // ----- the replay of the chain -----

  function TipExplained(env: Env, st: State, cs: seq<Commitment>): R.Explanation {
    if cs == [] then FundingExplained(env, st) else UpdateExplained(env, st, EntryOf(cs[|cs| - 1]))
  }

  /** The replay has come to the commitments: nothing but the tip is accepted any more. */
  ghost predicate Reached(env: Env, st: State, cs: seq<Commitment>, p: R.Progress) {
    && Replayed(env, st, cs, p) && Knows(st, cs, p) && p.accepted == map[TipOf(st, cs) := TipExplained(env, st, cs)]
  }

  lemma {:induction false} FundingReached(env: Env, st: State)
    ensures var replay := R.Replay(env.rules, CommitmentRecords(env, st, []).value);
            && (replay.Success? <==> OpensHistory(env, st))
            && (replay.Success? ==> Reached(env, st, [], replay.value))
  {
    FundingReplays(env, st);
    var replay := R.Replay(env.rules, CommitmentRecords(env, st, []).value);
    if replay.Success? {
      HistoryReplayed(env, st, [], replay.value);
      FundingKnown(env, st);
    }
  }

  lemma {:induction false} FundingKnown(env: Env, st: State)
    requires R.Replay(env.rules, [IssuanceRecord(env, st), FundingRecord(env, st)]).Success?
    ensures var p := R.Replay(env.rules, [IssuanceRecord(env, st), FundingRecord(env, st)]).value;
            Knows(st, [], p) && p.accepted.Keys == {st.fundingOutputId}
  {
    var i, f := IssuanceRecord(env, st), FundingRecord(env, st);
    assert [i, f][..1] == [i] && [i, f][1] == f && [i][..0] == [];
    IssuanceReplays(env, st);
    assert R.Replay(env.rules, []) == Success(R.NOTHING_REPLAYED);
    R.IssuanceStep(env.rules, R.NOTHING_REPLAYED, i);
    R.MoveStep(env.rules, R.Replay(env.rules, [i]).value, f);
  }

  lemma {:induction false} NextReached(env: Env, st: State, front: seq<Commitment>, k: Commitment, p: R.Progress)
    requires Reached(env, st, front, p) && Fits(st, front, k)
    ensures var step := R.Step(env.rules, p, UpdateRecord(env, st, EntryOf(k)));
            (step.Success? <==> NewNames(st, front, k)) && (step.Success? ==> Reached(env, st, front + [k], step.value))
  {
    NextNames(st, front, k, p);
    NextReplayed(env, st, front, p, EntryOf(k));
    var step := R.Step(env.rules, p, UpdateRecord(env, st, EntryOf(k)));
    if step.Success? {
      ReplayedGrows(env, st, front, p, k);
      KnowsMore(st, front, k, p, step.value);
      TipMoves(env, st, front, k, p.accepted, step.value.accepted);
    }
  }

  lemma {:induction false} TipMoves(env: Env, st: State, front: seq<Commitment>, k: Commitment,
                                    accepted: map<Text, R.Explanation>, next: map<Text, R.Explanation>)
    requires accepted == map[TipOf(st, front) := TipExplained(env, st, front)] && k.priorOutputId == TipOf(st, front)
    requires next == (accepted - {k.priorOutputId})[k.outputId := UpdateExplained(env, st, EntryOf(k))]
    ensures next == map[TipOf(st, front + [k]) := TipExplained(env, st, front + [k])]
  {
    assert accepted - {k.priorOutputId} == map[];
  }

  lemma {:induction false} KnowsMore(st: State, front: seq<Commitment>, k: Commitment, p: R.Progress, next: R.Progress)
    requires Knows(st, front, p) && next.seen == p.seen + {k.recordId}
    requires next.outputs.Keys == p.outputs.Keys + {k.outputId}
    ensures Knows(st, front + [k], next)
  {
    assert (set x <- front + [k] :: x.recordId) == (set x <- front :: x.recordId) + {k.recordId};
    assert (set x <- front + [k] :: x.outputId) == (set x <- front :: x.outputId) + {k.outputId};
  }

  /** A linked chain replays exactly when the funding does and its names are free. */
  lemma {:induction false} ChainReplays(env: Env, st: State, cs: seq<Commitment>)
    requires Chained(env, st, cs)
    ensures CommitmentRecords(env, st, cs).Success?
    ensures var replay := R.Replay(env.rules, CommitmentRecords(env, st, cs).value);
            && (replay.Success? <==> OpensHistory(env, st) && NamesFree(st, cs))
            && (replay.Success? ==> Reached(env, st, cs, replay.value))
  {
    RecordsExactly(env, st, cs);
    if cs == [] {
      FundingReached(env, st);
    } else {
      var front, k := cs[..|cs| - 1], cs[|cs| - 1];
      assert cs == front + [k];
      NamesFreeSnoc(st, cs);
      ChainReplays(env, st, front);
      ReplayLast(env, st, cs);
      var replay := R.Replay(env.rules, CommitmentRecords(env, st, front).value);
      LinkedFits(env, st, front, k);
      if replay.Success? {
        NextReached(env, st, front, k, replay.value);
      }
    }
  }

  lemma {:induction false} ReplayLast(env: Env, st: State, cs: seq<Commitment>)
    requires cs != [] && CommitmentRecords(env, st, cs).Success?
    ensures var front, k := cs[..|cs| - 1], cs[|cs| - 1];
            && CommitmentRecords(env, st, front).Success?
            && var before := R.Replay(env.rules, CommitmentRecords(env, st, front).value);
               R.Replay(env.rules, CommitmentRecords(env, st, cs).value) ==
                 if before.Failure? then before
                 else R.Step(env.rules, before.value, UpdateRecord(env, st, EntryOf(k)))
  {
    RecordsSnoc(env, st, cs);
    var records := CommitmentRecords(env, st, cs).value;
    assert records[..|records| - 1] == CommitmentRecords(env, st, cs[..|cs| - 1]).value;
  }

  // ----- conservation -----

  lemma {:induction false} ChainIssues(env: Env, st: State, cs: seq<Commitment>, asset: Bytes32)
    requires CommitmentRecords(env, st, cs).Success?
    ensures Conservation.Issued(CommitmentRecords(env, st, cs).value, asset) == if asset == st.assetId then st.total else 0
  {
    var records := CommitmentRecords(env, st, cs).value;
    if cs == [] {
      var i, f := IssuanceRecord(env, st), FundingRecord(env, st);
      assert records[..1] == [i] && records[1] == f && [i][..0] == [];
      Conservation.OneCreated(i.outputs[0], asset);
      assert Conservation.Issued([i], asset) == Conservation.Issued([], asset) + Conservation.Created(i.outputs, asset);
    } else {
      RecordsSnoc(env, st, cs);
      ChainIssues(env, st, cs[..|cs| - 1], asset);
      assert records[..|records| - 1] == CommitmentRecords(env, st, cs[..|cs| - 1]).value;
    }
  }

  /** The history of a state that passes its check accepts one output, which holds the whole channel; so it
      conserves every asset, and consumes no output twice. */
  lemma {:induction false} HistoryConserves(env: Env, st: State)
    requires CheckHistory(env, st).None?
    ensures Records(env, st).Success? && R.Replay(env.rules, Records(env, st).value).Success?
    ensures var p := R.Replay(env.rules, Records(env, st).value).value;
            && p.accepted.Keys == {st.latestOutputId} && p.accepted[st.latestOutputId].output.amount == st.total
            && p.accepted[st.latestOutputId].output.assetId == st.assetId
            && Conservation.Conserved(p, Records(env, st).value) && Conservation.UsedOnce(Records(env, st).value)
  {
    var cs := InOrder(st.commitments);
    HistoryExactly(env, st);
    ChainReplays(env, st, cs);
    var records := Records(env, st).value;
    var p := R.Replay(env.rules, records).value;
    CheckedHistory(env, st);
    forall asset: Bytes32
      ensures Conservation.Held(p.accepted, asset) == Conservation.Issued(records, asset)
    {
      ChainIssues(env, st, cs, asset);
      Conservation.HeldAt(p.accepted, st.latestOutputId, asset);
      assert p.accepted - {st.latestOutputId} == map[];
    }
    Conservation.ReplayConserves(env.rules, records, p);
  }

  // ----- the check on the history -----

  /** The latest names of a state are those of its last commitment, or of the funding. */
  predicate LatestNamed(st: State, cs: seq<Commitment>) {
    if cs == [] then
      && st.latest == 0 && st.latestRecordId == st.fundingRecordId && st.latestOutputId == st.fundingOutputId
      && st.latestTransitionId == st.fundingTransitionId
    else
      var k := cs[|cs| - 1];
      && st.latest != 0 && st.latestRecordId == k.recordId && st.latestOutputId == k.outputId
      && st.latestTransitionId == k.virtualTxId
  }

  predicate HistoryInOrder(env: Env, st: State) {
    var cs := InOrder(st.commitments);
    OpensHistory(env, st) && Chained(env, st, cs) && NamesFree(st, cs) && LatestNamed(st, cs)
  }

  lemma {:induction false} TipChecks(env: Env, st: State, p: R.Progress)
    requires var cs := InOrder(st.commitments);
             && Records(env, st).Success? && Chained(env, st, cs) && R.Replay(env.rules, Records(env, st).value) == Success(p)
             && Reached(env, st, cs, p) && NamesLatest(st, LatestEntry(st, cs))
    ensures CheckHistory(env, st).None? <==> (st.latest == 0 <==> InOrder(st.commitments) == [])
  {
    var cs := InOrder(st.commitments);
    assert st.latestOutputId == TipOf(st, cs);
    assert p.accepted[st.latestOutputId] == TipExplained(env, st, cs);
  }

  lemma {:induction false} NamesLatestExactly(env: Env, st: State, cs: seq<Commitment>)
    requires Chained(env, st, cs)
    ensures NamesLatest(st, LatestEntry(st, cs)) && (st.latest == 0 <==> cs == []) <==> LatestNamed(st, cs)
  {
    if cs != [] {
      var n := |cs| - 1;
      var d := LinkedNames(env, st, TipOf(st, cs[..n]), cs[n]);
    }
  }

  /** For every state: its history passes the check exactly when the funding replays, the commitments in the
      order of their numbers are a chain of free names, and the state names the last of them. */
  lemma {:induction false} HistoryExactly(env: Env, st: State)
    ensures CheckHistory(env, st).None? <==> HistoryInOrder(env, st)
  {
    var cs := InOrder(st.commitments);
    RecordsExactly(env, st, cs);
    if Chained(env, st, cs) {
      ChainReplays(env, st, cs);
      NamesLatestExactly(env, st, cs);
      if NamesLatest(st, LatestEntry(st, cs)) && OpensHistory(env, st) && NamesFree(st, cs) {
        TipChecks(env, st, R.Replay(env.rules, Records(env, st).value).value);
      }
    }
  }
}
