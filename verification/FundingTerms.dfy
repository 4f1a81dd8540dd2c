/** What a funding request has to bring to be funded, told on the request itself, and what the channel it
    opens holds. */
module FundingTerms {
  import opened ByteBits
  import opened Primitives
  import opened Text
  import opened Channels
  import opened Funding
  import opened FundingRuns
  import R = ProofReplay
  import T = ReplayTotals

  // ----- the inputs -----

  /** The proof passes its own check, holds the asset and has funded no channel. */
  predicate Spendable(env: FundEnv, assetId: Bytes32, spent: map<Text, Text>, p: Proof) {
    env.verifies(assetId, p) && p.assetId == assetId && ProofId(p) !in spent
  }

  lemma {:induction false} DistinctSnoc(ids: seq<Text>, id: Text)
    ensures Distinct(ids + [id]) <==> Distinct(ids) && id !in ids
  {
    var all := ids + [id];
    assert forall i | 0 <= i < |ids| :: all[i] == ids[i];
    if Distinct(all) {
      assert forall i, j | 0 <= i < j < |ids| :: all[i] != all[j];
      assert forall i | 0 <= i < |ids| :: all[i] != all[|ids|];
    }
  }

  predicate AllSpendable(env: FundEnv, assetId: Bytes32, spent: map<Text, Text>, proofs: seq<Proof>) {
    forall p <- proofs :: Spendable(env, assetId, spent, p)
  }

  lemma {:induction false} AllSpendableSnoc(env: FundEnv, assetId: Bytes32, spent: map<Text, Text>, front: seq<Proof>, p: Proof)
    ensures AllSpendable(env, assetId, spent, front + [p]) <==>
              AllSpendable(env, assetId, spent, front) && Spendable(env, assetId, spent, p)
  {
    assert forall x <- front + [p] :: x in front || x == p;
    assert forall x <- front :: x in front + [p];
    assert p in front + [p];
  }

  lemma {:induction false} InputsStep(env: FundEnv, assetId: Bytes32, proofs: seq<Proof>, spent: map<Text, Text>)
    requires proofs != []
    ensures var front, p := proofs[..|proofs| - 1], proofs[|proofs| - 1];
            && ProofIds(proofs) == ProofIds(front) + [ProofId(p)] && proofs == front + [p]
            && (InputsFault(env, assetId, proofs, spent).None? <==>
                  && InputsFault(env, assetId, front, spent).None?
                  && Spendable(env, assetId, spent, p) && ProofId(p) !in ProofIds(front))
  {
  }

  /** The inputs of one side have no fault exactly when every one of them is spendable and none is given
      twice. */
  lemma {:induction false} InputsExactly(env: FundEnv, assetId: Bytes32, proofs: seq<Proof>, spent: map<Text, Text>)
    ensures InputsFault(env, assetId, proofs, spent).None? <==>
              Distinct(ProofIds(proofs)) && AllSpendable(env, assetId, spent, proofs)
  {
    if proofs != [] {
      var front, p := proofs[..|proofs| - 1], proofs[|proofs| - 1];
      InputsExactly(env, assetId, front, spent);
      InputsStep(env, assetId, proofs, spent);
      DistinctSnoc(ProofIds(front), ProofId(p));
      AllSpendableSnoc(env, assetId, spent, front, p);
    }
  }

  /** Behind inputs without a fault the next one is refused for the first thing wrong with it. */
  lemma {:induction false} FirstInputFault(env: FundEnv, assetId: Bytes32, proofs: seq<Proof>, spent: map<Text, Text>, i: nat)
    requires i < |proofs| && Distinct(ProofIds(proofs[..i])) && AllSpendable(env, assetId, spent, proofs[..i])
    requires !Spendable(env, assetId, spent, proofs[i]) || ProofId(proofs[i]) in ProofIds(proofs[..i])
    ensures var p := proofs[i];
            InputsFault(env, assetId, proofs, spent) ==
              Some(if !env.verifies(assetId, p) then InvalidProof
                   else if p.assetId != assetId then ProofAssetMismatch
                   else if ProofId(p) in ProofIds(proofs[..i]) then SpentProof(CurrentRequest())
                   else SpentProof(spent[ProofId(p)]))
  {
    InputsExactly(env, assetId, proofs[..i], spent);
    NextInputFault(env, assetId, proofs[..i], proofs[i], spent);
    assert proofs[..i + 1] == proofs[..i] + [proofs[i]];
    InputsFaultStops(env, assetId, proofs, spent, i + 1);
  }

  lemma {:induction false} NextInputFault(env: FundEnv, assetId: Bytes32, front: seq<Proof>, p: Proof, spent: map<Text, Text>)
    requires InputsFault(env, assetId, front, spent).None?
    requires !Spendable(env, assetId, spent, p) || ProofId(p) in ProofIds(front)
    ensures InputsFault(env, assetId, front + [p], spent) ==
              Some(if !env.verifies(assetId, p) then InvalidProof
                   else if p.assetId != assetId then ProofAssetMismatch
                   else if ProofId(p) in ProofIds(front) then SpentProof(CurrentRequest())
                   else SpentProof(spent[ProofId(p)]))
  {
    var all := front + [p];
    assert all[..|all| - 1] == front && all[|all| - 1] == p;
  }

  // ----- the replay of the funding -----

  function InputParts(p: Proof, encoded: Bytes): seq<Bytes> {
    [Ascii("tap-ldk:asset-channel-funding-input-history:v1"), ProofId(p), encoded]
  }

  /** The proof can be replayed as the issuance of its amount. */
  predicate Issues(env: FundEnv, p: Proof) {
    && env.encode(p).Some? && Digest(env.sha, InputParts(p, env.encode(p).value)) != ZERO32
    && p.amount != 0 && env.rules.outpointOk(p.anchor)
    && env.rules.leafRoot(p.assetId, p.scriptKey, p.amount) == p.root
  }

  predicate AllIssue(env: FundEnv, proofs: seq<Proof>) {
    forall p <- proofs :: Issues(env, p)
  }

  predicate AllEncode(env: FundEnv, proofs: seq<Proof>) {
    forall p <- proofs :: env.encode(p).Some?
  }

  lemma {:induction false} AllIssueSnoc(env: FundEnv, front: seq<Proof>, p: Proof)
    ensures AllIssue(env, front + [p]) <==> AllIssue(env, front) && Issues(env, p)
    ensures AllEncode(env, front + [p]) <==> AllEncode(env, front) && env.encode(p).Some?
  {
    assert forall x <- front + [p] :: x in front || x == p;
    assert forall x <- front :: x in front + [p];
    assert p in front + [p];
  }

  function InputOutput(p: Proof): R.Output {
    R.Output(ProofId(p), p.assetId, p.amount, p.scriptKey, p.anchor, p.root, R.Accepted)
  }

  function InputRecordId(p: Proof): Text {
    Ascii("asset-channel-funding-input:") + ProofId(p)
  }

  /** The replay has seen the issuances of exactly these proofs. */
  predicate Issued(progress: R.Progress, proofs: seq<Proof>) {
    && progress.seen == (set p <- proofs :: InputRecordId(p))
    && progress.outputs.Keys == (set p <- proofs :: ProofId(p))
    && forall p <- proofs :: progress.outputs[ProofId(p)].output == InputOutput(p)
  }

  lemma {:induction false} InputIdsDiffer(a: Proof, b: Proof)
    ensures InputRecordId(a) == InputRecordId(b) <==> ProofId(a) == ProofId(b)
    ensures InputRecordId(a) != [] && ProofId(a) != []
  {
    var d := Ascii("asset-channel-funding-input:");
    if InputRecordId(a) == InputRecordId(b) {
      SplitAt(d, ProofId(a), d, ProofId(b));
    }
  }

  lemma {:induction false} IssuedNext(front: seq<Proof>, p: Proof, progress: R.Progress, next: R.Progress, e: R.Explanation)
    requires Issued(progress, front) && ProofId(p) !in progress.outputs && e.output == InputOutput(p)
    requires next.seen == progress.seen + {InputRecordId(p)} && next.outputs == progress.outputs[ProofId(p) := e]
    ensures Issued(next, front + [p])
  {
    assert forall x <- front + [p] :: x in front || x == p;
    assert forall x <- front :: x in front + [p];
    assert p in front + [p];
  }

  lemma {:induction false} IssuedNames(progress: R.Progress, front: seq<Proof>, p: Proof)
    requires Issued(progress, front)
    ensures InputRecordId(p) in progress.seen <==> ProofId(p) in ProofIds(front)
    ensures ProofId(p) in progress.outputs <==> ProofId(p) in ProofIds(front)
  {
    IdAmong(front, ProofId(p));
    forall x <- front
      ensures InputRecordId(x) == InputRecordId(p) <==> ProofId(x) == ProofId(p)
    {
      InputIdsDiffer(x, p);
    }
  }

  lemma {:induction false} IssueOne(env: FundEnv, front: seq<Proof>, p: Proof, progress: R.Progress)
    requires Issued(progress, front) && env.encode(p).Some?
    ensures var next := R.Step(env.rules, progress, FundingInputRecord(p, env.sha, env.encode(p).value));
            && (next.Success? <==> Issues(env, p) && ProofId(p) !in ProofIds(front))
            && (next.Success? ==> Issued(next.value, front + [p]))
  {
    var rec := FundingInputRecord(p, env.sha, env.encode(p).value);
    R.IssuanceStep(env.rules, progress, rec);
    InputIdsDiffer(p, p);
    IssuedNames(progress, front, p);
    var next := R.Step(env.rules, progress, rec);
    if next.Success? {
      IssuedNext(front, p, progress, next.value, R.Explanation(InputOutput(p), rec.id, rec.kind, rec.transitionId, []));
    }
  }

  lemma {:induction false} IdAmong(proofs: seq<Proof>, id: Text)
    ensures id in ProofIds(proofs) <==> exists p <- proofs :: ProofId(p) == id
  {
    if p :| p in proofs && ProofId(p) == id {
      var i :| 0 <= i < |proofs| && proofs[i] == p;
      assert ProofIds(proofs)[i] == id;
    }
    if id in ProofIds(proofs) {
      var i :| 0 <= i < |proofs| && ProofIds(proofs)[i] == id;
      assert proofs[i] in proofs;
    }
  }

  lemma {:induction false} RecordsStep(env: FundEnv, front: seq<Proof>, p: Proof)
    ensures var all, earlier := InputRecords(env, front + [p]), InputRecords(env, front);
            && (all.Success? <==> earlier.Success? && env.encode(p).Some?)
            && (all.Success? ==>
                  R.Replay(env.rules, all.value) ==
                    var before := R.Replay(env.rules, earlier.value);
                    if before.Failure? then before
                    else R.Step(env.rules, before.value, FundingInputRecord(p, env.sha, env.encode(p).value)))
  {
    assert (front + [p])[..|front|] == front;
    var earlier := InputRecords(env, front);
    if earlier.Success? && env.encode(p).Some? {
      var rec := FundingInputRecord(p, env.sha, env.encode(p).value);
      assert (earlier.value + [rec])[..|earlier.value|] == earlier.value;
    }
  }

  /** The issuances of the inputs replay exactly when each does and no proof is there twice. */
  lemma {:induction false} InputsReplay(env: FundEnv, proofs: seq<Proof>)
    ensures var records := InputRecords(env, proofs);
            && (records.Success? <==> AllEncode(env, proofs))
            && (records.Success? ==>
                  var replay := R.Replay(env.rules, records.value);
                  && (replay.Success? <==> Distinct(ProofIds(proofs)) && AllIssue(env, proofs))
                  && (replay.Success? ==> Issued(replay.value, proofs)))
  {
    if proofs != [] {
      var n := |proofs| - 1;
      var front, p := proofs[..n], proofs[n];
      assert proofs == front + [p] && ProofIds(proofs) == ProofIds(front) + [ProofId(p)];
      InputsReplay(env, front);
      RecordsStep(env, front, p);
      AllIssueSnoc(env, front, p);
      DistinctSnoc(ProofIds(front), ProofId(p));
      var earlier := InputRecords(env, front);
      if earlier.Success? && env.encode(p).Some? {
        var before := R.Replay(env.rules, earlier.value);
        if before.Success? {
          IssueOne(env, front, p, before.value);
        }
      }
    }
  }

  // ----- the funding record -----

  lemma {:induction false} HexDigits(b: Bytes)
    ensures forall i | 0 <= i < |Hex(b)| :: Hex(b)[i] != 115
  {
    if b != [] {
      HexDigits(b[..|b| - 1]);
    }
  }

  /** The names of the funding are none of the inputs'. */
  lemma {:induction false} FundingNamesDiffer(id: Text, p: Proof)
    ensures FundingOutputId(id) != ProofId(p) && FundingRecordId(id) != InputRecordId(p)
    ensures FundingOutputId(id) != [] && FundingRecordId(id) != []
  {
    HexDigits(p.assetId);
    assert ProofId(p)[1] == Hex(p.assetId)[1];
    assert FundingOutputId(id)[1] == 115;
    assert InputRecordId(p)[21] == 45 && FundingRecordId(id)[21] == 58;
  }

  /** Proofs and their sums. */
  lemma {:induction false} InputSumAmounts(progress: R.Progress, proofs: seq<Proof>)
    requires T.Known(progress, ProofIds(proofs))
    requires forall i | 0 <= i < |proofs| :: progress.outputs[ProofId(proofs[i])].output.amount == proofs[i].amount
    ensures T.InputSum(progress, ProofIds(proofs)) == Amounts(proofs)
  {
    if proofs != [] {
      var front := proofs[..|proofs| - 1];
      var ids := ProofIds(proofs);
      assert ids[..|ids| - 1] == ProofIds(front);
      assert forall i | 0 <= i < |front| :: front[i] == proofs[i] && ids[i] == ProofIds(front)[i];
      InputSumAmounts(progress, front);
    }
  }

  lemma {:induction false} AmountsAdd(a: seq<Proof>, b: seq<Proof>)
    ensures Amounts(a + b) == Amounts(a) + Amounts(b)
  {
    if b == [] {
      assert a + b == a;
    } else {
      assert (a + b)[..|a + b| - 1] == a + b[..|b| - 1];
      AmountsAdd(a, b[..|b| - 1]);
    }
  }

  lemma {:induction false} AmountsPositive(env: FundEnv, proofs: seq<Proof>)
    requires proofs != [] && AllIssue(env, proofs)
    ensures Amounts(proofs) > 0
  {
    assert proofs[|proofs| - 1] in proofs;
    assert Issues(env, proofs[|proofs| - 1]);
  }

  function FundingOutput(env: FundEnv, q: FundingRequest, channelId: Text, total: u64): R.Output {
    R.Output(FundingOutputId(channelId), q.assetId, total, q.scriptKey, q.outpoint,
             env.rules.leafRoot(q.assetId, q.scriptKey, total), R.ChannelLocked)
  }

  function FundingRecordOf(env: FundEnv, q: FundingRequest, channelId: Text, transition: Bytes32, total: u64): R.Record {
    R.Record(FundingRecordId(channelId), R.ChannelFunding, transition, ProofIds(q.localInputs + q.remoteInputs),
             [FundingOutput(env, q, channelId, total)])
  }

  lemma {:induction false} IssuedAt(progress: R.Progress, proofs: seq<Proof>)
    requires Issued(progress, proofs)
    ensures T.Kept(progress) && T.Known(progress, ProofIds(proofs))
    ensures forall i | 0 <= i < |proofs| :: progress.outputs[ProofId(proofs[i])].output == InputOutput(proofs[i])
  {
    assert forall i | 0 <= i < |proofs| :: proofs[i] in proofs;
  }

  lemma {:induction false} FundingFresh(progress: R.Progress, proofs: seq<Proof>, id: Text)
    requires Issued(progress, proofs)
    ensures FundingRecordId(id) !in progress.seen && FundingOutputId(id) !in progress.outputs
    ensures FundingOutputId(id) != [] && FundingRecordId(id) != []
  {
    forall p <- proofs
      ensures FundingOutputId(id) != ProofId(p) && FundingRecordId(id) != InputRecordId(p)
    {
      FundingNamesDiffer(id, p);
    }
    assert FundingOutputId(id)[0] == 97 && FundingRecordId(id)[0] == 97;
  }

  /** The inputs of a funding that can be replayed so far. */
  predicate Ready(env: FundEnv, assetId: Bytes32, proofs: seq<Proof>, total: u64) {
    && proofs != [] && Distinct(ProofIds(proofs)) && AllIssue(env, proofs)
    && (forall p <- proofs :: p.assetId == assetId) && Amounts(proofs) == total
  }

  lemma {:induction false} FundingCreates(env: FundEnv, q: FundingRequest, id: Text, transition: Bytes32, total: u64)
    requires FundingOutputId(id) != [] && total != 0
    ensures var outputs := FundingRecordOf(env, q, id, transition, total).outputs;
            && T.OutputSum(outputs) == total && T.OutputIds(outputs) == [FundingOutputId(id)]
            && (T.Creatable(env.rules, R.ChannelFunding, outputs) <==> env.rules.outpointOk(q.outpoint))
  {
    var outputs := FundingRecordOf(env, q, id, transition, total).outputs;
    assert outputs[..0] == [];
    assert T.InOrder(env.rules, R.ChannelFunding, outputs[0]) <==> env.rules.outpointOk(q.outpoint);
  }

  lemma {:induction false} InputsConsumable(progress: R.Progress, proofs: seq<Proof>)
    requires Issued(progress, proofs) && Distinct(ProofIds(proofs))
    ensures T.Consumable(progress, R.ChannelFunding, ProofIds(proofs))
  {
    IssuedAt(progress, proofs);
    var ids := ProofIds(proofs);
    forall i | 0 <= i < |ids|
      ensures R.AllowsInput(R.ChannelFunding, progress.outputs[ids[i]].output.state)
    {
      assert progress.outputs[ProofId(proofs[i])].output == InputOutput(proofs[i]);
    }
  }

  lemma {:induction false} FundingConsumes(env: FundEnv, assetId: Bytes32, proofs: seq<Proof>, total: u64, progress: R.Progress)
    requires Issued(progress, proofs) && Ready(env, assetId, proofs, total)
    ensures T.Kept(progress) && T.Consumable(progress, R.ChannelFunding, ProofIds(proofs))
    ensures T.InputSum(progress, ProofIds(proofs)) == total && total > 0
    ensures forall i | 0 <= i < |proofs| :: progress.outputs[ProofIds(proofs)[i]].output.assetId == assetId
  {
    InputsConsumable(progress, proofs);
    IssuedAt(progress, proofs);
    forall i | 0 <= i < |proofs|
      ensures progress.outputs[ProofId(proofs[i])].output.amount == proofs[i].amount
      ensures progress.outputs[ProofIds(proofs)[i]].output.assetId == assetId
    {
      assert progress.outputs[ProofId(proofs[i])].output == InputOutput(proofs[i]);
      assert proofs[i] in proofs;
    }
    InputSumAmounts(progress, proofs);
    AmountsPositive(env, proofs);
  }

  /** What the funding record has to satisfy once the inputs are issued. */
  lemma {:induction false} FundingStep(env: FundEnv, q: FundingRequest, id: Text, transition: Bytes32, total: u64,
                                       progress: R.Progress)
    requires Issued(progress, q.localInputs + q.remoteInputs)
    requires Ready(env, q.assetId, q.localInputs + q.remoteInputs, total)
    ensures var next := R.Step(env.rules, progress, FundingRecordOf(env, q, id, transition, total));
            && (next.Success? <==> transition != ZERO32 && env.rules.outpointOk(q.outpoint))
            && (next.Success? ==>
                  && FundingOutputId(id) in next.value.accepted
                  && next.value.accepted[FundingOutputId(id)].output == FundingOutput(env, q, id, total))
  {
    var proofs := q.localInputs + q.remoteInputs;
    var rec, o := FundingRecordOf(env, q, id, transition, total), FundingOutput(env, q, id, total);
    FundingConsumes(env, q.assetId, proofs, total, progress);
    FundingFresh(progress, proofs, id);
    FundingCreates(env, q, id, transition, total);
    T.OneOutputReplayable(env.rules, progress, rec, o);
    T.MergeStep(env.rules, progress, rec, o);
  }

  /** The proof history of a funding has no fault exactly when every input can be issued, none is given
      twice, the funding's transition is not zero and its outpoint is one. */
  lemma {:induction false} HistoryExactly(env: FundEnv, q: FundingRequest, id: Text, transition: Bytes32, total: u64)
    requires var proofs := q.localInputs + q.remoteInputs;
             proofs != [] && (forall p <- proofs :: p.assetId == q.assetId) && Amounts(proofs) == total
    ensures var proofs := q.localInputs + q.remoteInputs;
            HistoryFault(env, q, id, transition, total).None? <==>
              && AllIssue(env, proofs) && Distinct(ProofIds(proofs))
              && transition != ZERO32 && env.rules.outpointOk(q.outpoint)
  {
    var proofs := q.localInputs + q.remoteInputs;
    var rec := FundingRecordOf(env, q, id, transition, total);
    InputsReplay(env, proofs);
    var records := InputRecords(env, proofs);
    if records.Success? {
      assert (records.value + [rec])[..|records.value|] == records.value;
      var progress := R.Replay(env.rules, records.value);
      if progress.Success? {
        FundingStep(env, q, id, transition, total, progress.value);
      }
    }
  }

  // ----- what a request has to bring -----

  /** The id, the transition and the commitment of the channel a request asks for, from the request. */
  function AskedId(env: FundEnv, q: FundingRequest): Text
    requires Amounts(q.localInputs) + Amounts(q.remoteInputs) < U64_LIMIT
  {
    ChannelId(env.sha, q.localPeer, q.remotePeer, q.assetId, q.outpoint, q.scriptKey, Amounts(q.localInputs),
              Amounts(q.remoteInputs), ProofIds(q.localInputs) + ProofIds(q.remoteInputs))
  }

  function AskedTransition(env: FundEnv, q: FundingRequest): Bytes32
    requires Amounts(q.localInputs) + Amounts(q.remoteInputs) < U64_LIMIT
  {
    FundingTransition(env.sha, AskedId(env, q), q.assetId, q.outpoint, q.scriptKey, Amounts(q.localInputs),
                      Amounts(q.remoteInputs), ProofIds(q.localInputs) + ProofIds(q.remoteInputs))
  }

  /** The request is addressed, and its proofs can be spent: each passes its check for the asset asked for,
      holds that asset, descends from the one genesis and has funded no channel, and none is given twice, on
      one side or on both. */
  predicate InputsInOrder(env: FundEnv, spent: map<Text, Text>, q: FundingRequest) {
    var inputs := q.localInputs + q.remoteInputs;
    && !env.blank(q.localPeer) && !env.blank(q.remotePeer) && !env.blank(q.outpoint)
    && inputs != [] && Distinct(ProofIds(inputs)) && AllSpendable(env, q.assetId, spent, inputs) && OneGenesis(inputs)
  }

  /** The proofs' amounts fit, the virtual machine accepts the transfer, and the commitment exists under the
      root expected of it. */
  predicate TermsInOrder(env: FundEnv, q: FundingRequest)
    requires q.localInputs + q.remoteInputs != []
  {
    var inputs, total := q.localInputs + q.remoteInputs, Amounts(q.localInputs) + Amounts(q.remoteInputs);
    && total < U64_LIMIT && env.vmAccepts(q, ProofIds(inputs), total)
    && var tap := env.tapCommitment(q.assetId, inputs[0].genesis, q.scriptKey, total);
       tap.Some? && (q.expectedRoot.None? || q.expectedRoot == Some(tap.value.root))
  }

  function TermsOf(env: FundEnv, q: FundingRequest): (t: Terms)
    requires q.localInputs + q.remoteInputs != [] && TermsInOrder(env, q)
    ensures t.local == Amounts(q.localInputs) && t.remote == Amounts(q.remoteInputs) && Fits(t)
  {
    var inputs, local, remote := q.localInputs + q.remoteInputs, Amounts(q.localInputs), Amounts(q.remoteInputs);
    Terms(inputs[0].genesis, local, remote,
          env.tapCommitment(q.assetId, inputs[0].genesis, q.scriptKey, local + remote).value)
  }

  /** What LDK and the replay of the proof history ask of a channel with these ids and terms. */
  predicate OutsideInOrder(env: FundEnv, q: FundingRequest, t: Terms, id: Text, transition: Bytes32) {
    var inputs := q.localInputs + q.remoteInputs;
    && |inputs| < 0x1_0000 && env.ldkAccepts(q, id, t.genesis, t.tap, t.local, t.remote, |inputs|)
    && AllIssue(env, inputs) && Distinct(ProofIds(inputs)) && transition != ZERO32 && env.rules.outpointOk(q.outpoint)
  }

  predicate Fundable(env: FundEnv, s: FundStore, q: FundingRequest) {
    && InputsInOrder(env, s.spent, q) && TermsInOrder(env, q)
    && TermsOf(env, q).tap.root.sum == TermsOf(env, q).local + TermsOf(env, q).remote
    && AskedId(env, q) !in s.channels
    && OutsideInOrder(env, q, TermsOf(env, q), AskedId(env, q), AskedTransition(env, q))
  }

  /** The part of the terms that is checked before the inputs are added up. */
  lemma {:induction false} SidesExactly(env: FundEnv, spent: map<Text, Text>, q: FundingRequest)
    ensures var inputs := q.localInputs + q.remoteInputs;
            && ProofIds(inputs) == ProofIds(q.localInputs) + ProofIds(q.remoteInputs)
            && (Distinct(ProofIds(inputs)) && AllSpendable(env, q.assetId, spent, inputs) <==>
                  && InputsFault(env, q.assetId, q.localInputs, spent).None?
                  && InputsFault(env, q.assetId, q.remoteInputs, spent).None?
                  && forall id <- ProofIds(q.localInputs) :: id !in ProofIds(q.remoteInputs))
  {
    var a, b := q.localInputs, q.remoteInputs;
    InputsExactly(env, q.assetId, a, spent);
    InputsExactly(env, q.assetId, b, spent);
    IdsAdd(a, b);
    DistinctAdd(ProofIds(a), ProofIds(b));
    SpendableAdd(env, q.assetId, spent, a, b);
  }

  lemma {:induction false} IdsAdd(a: seq<Proof>, b: seq<Proof>)
    ensures ProofIds(a + b) == ProofIds(a) + ProofIds(b)
  {
    var x, y := ProofIds(a + b), ProofIds(a) + ProofIds(b);
    assert forall i | 0 <= i < |x| :: x[i] == y[i];
  }

  lemma {:induction false} DistinctAdd(a: seq<Text>, b: seq<Text>)
    ensures Distinct(a + b) <==> Distinct(a) && Distinct(b) && forall x <- a :: x !in b
    decreases |b|
  {
    if b == [] {
      assert a + b == a;
    } else {
      var front, last := b[..|b| - 1], b[|b| - 1];
      assert a + b == (a + front) + [last] && b == front + [last];
      DistinctAdd(a, front);
      DistinctSnoc(a + front, last);
      DistinctSnoc(front, last);
      assert (forall x <- a :: x !in b) <==> (forall x <- a :: x !in front) && last !in a;
    }
  }

  lemma {:induction false} SpendableAdd(env: FundEnv, assetId: Bytes32, spent: map<Text, Text>, a: seq<Proof>, b: seq<Proof>)
    ensures AllSpendable(env, assetId, spent, a + b) <==>
              AllSpendable(env, assetId, spent, a) && AllSpendable(env, assetId, spent, b)
  {
    assert forall x <- a + b :: x in a || x in b;
    assert forall x <- a :: x in a + b;
    assert forall x <- b :: x in a + b;
  }

  lemma {:induction false} AgreedFacts(env: FundEnv, spent: map<Text, Text>, q: FundingRequest)
    requires Agree(env, spent, q).Success?
    ensures !env.blank(q.localPeer) && !env.blank(q.remotePeer) && !env.blank(q.outpoint)
    ensures InputsFault(env, q.assetId, q.localInputs, spent).None?
    ensures InputsFault(env, q.assetId, q.remoteInputs, spent).None?
    ensures var inputs := q.localInputs + q.remoteInputs;
            && inputs != [] && OneGenesis(inputs) && TermsInOrder(env, q) && Agree(env, spent, q).value == TermsOf(env, q)
  {
  }

  lemma {:induction false} AgreePasses(env: FundEnv, spent: map<Text, Text>, q: FundingRequest)
    requires !env.blank(q.localPeer) && !env.blank(q.remotePeer) && !env.blank(q.outpoint)
    requires InputsFault(env, q.assetId, q.localInputs, spent).None?
    requires InputsFault(env, q.assetId, q.remoteInputs, spent).None?
    requires var inputs := q.localInputs + q.remoteInputs;
             inputs != [] && OneGenesis(inputs) && TermsInOrder(env, q)
    ensures Agree(env, spent, q).Success?
  {
  }

  lemma {:induction false} AskedChannel(env: FundEnv, q: FundingRequest, t: Terms)
    requires Fits(t) && t.local == Amounts(q.localInputs) && t.remote == Amounts(q.remoteInputs)
    ensures var c := NewChannel(env, q, t);
            && c.channelId == AskedId(env, q) && c.totalAmount == t.local + t.remote && c.fundingRoot == t.tap.root
            && c.localProofIds == ProofIds(q.localInputs) && c.remoteProofIds == ProofIds(q.remoteInputs)
    ensures var c := NewChannel(env, q, t);
            FundingTransition(env.sha, c.channelId, q.assetId, q.outpoint, q.scriptKey, t.local, t.remote, Spent(c))
              == AskedTransition(env, q)
  {
  }

  lemma {:induction false} OutsideSplit(env: FundEnv, q: FundingRequest, t: Terms, c: StoredChannel, transition: Bytes32)
    requires transition == FundingTransition(env.sha, c.channelId, q.assetId, q.outpoint, q.scriptKey, t.local, t.remote,
                                             Spent(c))
    ensures OutsideFault(env, q, t, c).None? <==>
              && |q.localInputs + q.remoteInputs| < 0x1_0000
              && env.ldkAccepts(q, c.channelId, t.genesis, t.tap, t.local, t.remote, |q.localInputs + q.remoteInputs|)
              && HistoryFault(env, q, c.channelId, transition, c.totalAmount).None?
  {
  }

  predicate AllOf(assetId: Bytes32, proofs: seq<Proof>) {
    forall p <- proofs :: p.assetId == assetId
  }

  lemma {:induction false} OutsideExactly(env: FundEnv, q: FundingRequest, t: Terms, c: StoredChannel, transition: Bytes32)
    requires transition == FundingTransition(env.sha, c.channelId, q.assetId, q.outpoint, q.scriptKey, t.local, t.remote,
                                             Spent(c))
    requires q.localInputs + q.remoteInputs != [] && AllOf(q.assetId, q.localInputs + q.remoteInputs)
    requires c.totalAmount == Amounts(q.localInputs) + Amounts(q.remoteInputs)
    ensures OutsideFault(env, q, t, c).None? <==> OutsideInOrder(env, q, t, c.channelId, transition)
  {
    OutsideSplit(env, q, t, c, transition);
    AmountsAdd(q.localInputs, q.remoteInputs);
    HistoryExactly(env, q, c.channelId, transition, c.totalAmount);
  }

  lemma {:induction false} PlanExactly(env: FundEnv, s: FundStore, q: FundingRequest)
    ensures Plan(env, s, q).Success? <==>
              && Agree(env, s.spent, q).Success?
              && var t := Agree(env, s.spent, q).value;
                 Fits(t) && NewChannel(env, q, t).channelId !in s.channels && OutsideFault(env, q, t, NewChannel(env, q, t)).None?
    ensures Plan(env, s, q).Success? ==> Plan(env, s, q).value == NewChannel(env, q, Agree(env, s.spent, q).value)
  {
  }

  lemma {:induction false} AgreedAllOf(env: FundEnv, spent: map<Text, Text>, q: FundingRequest)
    requires Agree(env, spent, q).Success?
    ensures AllOf(q.assetId, q.localInputs + q.remoteInputs)
  {
    AgreedFacts(env, spent, q);
    InputsExactly(env, q.assetId, q.localInputs, spent);
    InputsExactly(env, q.assetId, q.remoteInputs, spent);
    SpendableAdd(env, q.assetId, spent, q.localInputs, q.remoteInputs);
  }

  /** What is left to be asked once the terms are agreed. */
  lemma {:induction false} PlannedExactly(env: FundEnv, s: FundStore, q: FundingRequest, t: Terms)
    requires Agree(env, s.spent, q) == Success(t)
    requires Fits(t) && t.local == Amounts(q.localInputs) && t.remote == Amounts(q.remoteInputs)
    ensures Plan(env, s, q).Success? <==>
              && AskedId(env, q) !in s.channels
              && OutsideInOrder(env, q, t, AskedId(env, q), AskedTransition(env, q))
    ensures Plan(env, s, q).Success? ==>
              var c := Plan(env, s, q).value;
              && c.totalAmount == t.local + t.remote && c.fundingRoot == t.tap.root
              && c.localProofIds == ProofIds(q.localInputs) && c.remoteProofIds == ProofIds(q.remoteInputs)
  {
    AgreedFacts(env, s.spent, q);
    AgreedAllOf(env, s.spent, q);
    PlanExactly(env, s, q);
    AskedChannel(env, q, t);
    OutsideExactly(env, q, t, NewChannel(env, q, t), AskedTransition(env, q));
  }

  /** The inputs of agreed terms are in order when no proof is on both sides. */
  lemma {:induction false} AgreedInputs(env: FundEnv, spent: map<Text, Text>, q: FundingRequest)
    ensures InputsInOrder(env, spent, q) && TermsInOrder(env, q) <==>
              && Agree(env, spent, q).Success?
              && forall id <- ProofIds(q.localInputs) :: id !in ProofIds(q.remoteInputs)
    ensures InputsInOrder(env, spent, q) && TermsInOrder(env, q) ==> Agree(env, spent, q) == Success(TermsOf(env, q))
  {
    SidesExactly(env, spent, q);
    if Agree(env, spent, q).Success? {
      AgreedFacts(env, spent, q);
    }
    if InputsInOrder(env, spent, q) && TermsInOrder(env, q) {
      AgreePasses(env, spent, q);
    }
  }

  predicate Disjoint(a: seq<Text>, b: seq<Text>) {
    forall id <- a :: id !in b
  }

  lemma {:induction false} FundedWhen(env: FundEnv, s: FundStore, q: FundingRequest)
    requires FundingFine(env, s)
    ensures Fund(env, s, q).0.Success? <==> Storable(Plan(env, s, q))
    ensures Agree(env, s.spent, q).Failure? ==> Plan(env, s, q).Failure?
  {
    FundOutcome(env, s, q);
  }

  /** A planned channel whose sides share nothing and whose root carries the total. */
  predicate Storable(r: Result<StoredChannel, FundingError>) {
    r.Success? && Disjoint(r.value.localProofIds, r.value.remoteProofIds) && r.value.fundingRoot.sum == r.value.totalAmount
  }

  lemma {:induction false} StorableWhen(r: Result<StoredChannel, FundingError>, t: Terms, a: seq<Text>, b: seq<Text>,
                                        unused: bool, outside: bool)
    requires r.Success? <==> unused && outside
    requires r.Success? ==>
               && r.value.totalAmount == t.local + t.remote && r.value.fundingRoot == t.tap.root
               && r.value.localProofIds == a && r.value.remoteProofIds == b
    ensures Storable(r) <==> Disjoint(a, b) && t.tap.root.sum == t.local + t.remote && unused && outside
  {
  }

  /** With agreed terms. */
  lemma {:induction false} FundedAgreed(env: FundEnv, s: FundStore, q: FundingRequest, t: Terms)
    requires Agree(env, s.spent, q) == Success(t)
    requires Fits(t) && t.local == Amounts(q.localInputs) && t.remote == Amounts(q.remoteInputs)
    ensures Storable(Plan(env, s, q)) <==>
            && Disjoint(ProofIds(q.localInputs), ProofIds(q.remoteInputs))
            && t.tap.root.sum == t.local + t.remote && AskedId(env, q) !in s.channels
            && OutsideInOrder(env, q, t, AskedId(env, q), AskedTransition(env, q))
  {
    PlannedExactly(env, s, q, t);
    StorableWhen(Plan(env, s, q), t, ProofIds(q.localInputs), ProofIds(q.remoteInputs), AskedId(env, q) !in s.channels,
                 OutsideInOrder(env, q, t, AskedId(env, q), AskedTransition(env, q)));
  }

  lemma {:induction false} FundableAgreed(env: FundEnv, s: FundStore, q: FundingRequest)
    ensures Fundable(env, s, q) <==>
              && Agree(env, s.spent, q).Success?
              && var t := Agree(env, s.spent, q).value;
                 && Disjoint(ProofIds(q.localInputs), ProofIds(q.remoteInputs))
                 && Fits(t) && t.local == Amounts(q.localInputs) && t.remote == Amounts(q.remoteInputs)
                 && t.tap.root.sum == t.local + t.remote && AskedId(env, q) !in s.channels
                 && OutsideInOrder(env, q, t, AskedId(env, q), AskedTransition(env, q))
  {
    AgreedInputs(env, s.spent, q);
  }

  /** In a store that passes its check, exactly the requests in order are funded: every proof of both sides
      passes its check for the asset, holds that asset, has the one genesis and funded no channel, none is
      given twice, the amounts fit, the machine and LDK accept, the commitment carries the whole amount under
      the expected root, the channel is new, and every input can be issued in its history. */
  lemma {:induction false} FundedExactly(env: FundEnv, s: FundStore, q: FundingRequest)
    requires FundingFine(env, s)
    ensures Fund(env, s, q).0.Success? <==> Fundable(env, s, q)
  {
    FundedWhen(env, s, q);
    FundableAgreed(env, s, q);
    if Agree(env, s.spent, q).Success? {
      AgreedFacts(env, s.spent, q);
      FundedAgreed(env, s, q, Agree(env, s.spent, q).value);
    }
  }

  // ----- the channel that was funded -----

  /** The channel holds what the request brought. */
  predicate Holds(env: FundEnv, q: FundingRequest, c: StoredChannel)
    requires q.localInputs + q.remoteInputs != []
  {
    var inputs := q.localInputs + q.remoteInputs;
    var tap := env.tapCommitment(q.assetId, inputs[0].genesis, q.scriptKey, c.totalAmount);
    && c.localPeer == q.localPeer && c.remotePeer == q.remotePeer && c.assetId == q.assetId
    && c.fundingOutpoint == q.outpoint && c.fundingScriptKey == q.scriptKey && c.genesisOutpoint == inputs[0].genesis
    && c.localBalance == Amounts(q.localInputs) && c.remoteBalance == Amounts(q.remoteInputs)
    && c.totalAmount == c.localBalance + c.remoteBalance == c.fundingRoot.sum
    && tap.Some? && c.fundingRoot == tap.value.root && (q.expectedRoot.Some? ==> q.expectedRoot.value == c.fundingRoot)
    && c.localProofIds == ProofIds(q.localInputs) && c.remoteProofIds == ProofIds(q.remoteInputs)
    && c.monitor.commitmentNumber == 0
  }

  /** The index has the spent proofs added, each for the channel. */
  predicate Adds(spent: map<Text, Text>, ids: seq<Text>, channelId: Text, next: map<Text, Text>) {
    && (forall id <- next :: if id in ids then next[id] == channelId else id in spent && next[id] == spent[id])
    && (forall id <- ids :: id in next) && (forall id <- spent :: id in next)
  }

  lemma {:induction false} NewChannelHolds(env: FundEnv, q: FundingRequest)
    requires q.localInputs + q.remoteInputs != [] && TermsInOrder(env, q)
    requires TermsOf(env, q).tap.root.sum == TermsOf(env, q).local + TermsOf(env, q).remote
    ensures Holds(env, q, NewChannel(env, q, TermsOf(env, q)))
  {
    NewChannelFields(env, q, TermsOf(env, q));
  }

  /** A funded request leaves a channel that holds exactly what it brought, free of faults and under an unused
      id, and its proofs, which had funded nothing, spent for that channel; nothing else changes. */
  lemma {:induction false} FundedHolds(env: FundEnv, s: FundStore, q: FundingRequest)
    requires FundingFine(env, s) && Fund(env, s, q).0.Success?
    ensures var inputs, c, next := q.localInputs + q.remoteInputs, Fund(env, s, q).0.value, Fund(env, s, q).1;
            && inputs != [] && Holds(env, q, c) && ChannelFault(env, c.channelId, c).None?
            && c.channelId !in s.channels && next.channels == s.channels[c.channelId := c] && next.version == s.version
            && Adds(s.spent, ProofIds(inputs), c.channelId, next.spent)
            && forall p <- inputs :: ProofId(p) !in s.spent
  {
    FundedExactly(env, s, q);
    FundOutcome(env, s, q);
    Planned(env, s, q);
    PlanExactly(env, s, q);
    AgreedInputs(env, s.spent, q);
    NewChannelHolds(env, q);
    IdsAdd(q.localInputs, q.remoteInputs);
    var c := Plan(env, s, q).value;
    EnterEffect(s.spent, Spent(c), c.channelId);
  }

  // ----- runs -----

  /** After every run, exactly the requests in order are funded, and any other changes nothing. */
  lemma {:induction false} RunFundsExactly(env: FundEnv, qs: seq<FundingRequest>, q: FundingRequest)
    ensures Accepted(env, Run(env, qs), q) <==> Fundable(env, Run(env, qs), q)
    ensures !Fundable(env, Run(env, qs), q) ==> Run(env, qs + [q]) == Run(env, qs)
  {
    RunFine(env, qs);
    FundedExactly(env, Run(env, qs), q);
    FundOutcome(env, Run(env, qs), q);
    assert (qs + [q])[..|qs|] == qs;
  }

  /** After every run, a request with one proof that fails its check, is of another asset or another genesis,
      or is spent already is refused, and changes nothing. */
  lemma {:induction false} BadProofRefused(env: FundEnv, qs: seq<FundingRequest>, q: FundingRequest, p: Proof)
    requires p in q.localInputs + q.remoteInputs
    requires || !env.verifies(q.assetId, p) || p.assetId != q.assetId || ProofId(p) in Run(env, qs).spent
             || p.genesis != (q.localInputs + q.remoteInputs)[0].genesis
    ensures !Accepted(env, Run(env, qs), q) && Run(env, qs + [q]) == Run(env, qs)
  {
    RunFundsExactly(env, qs, q);
    var spent, inputs := Run(env, qs).spent, q.localInputs + q.remoteInputs;
    if AllSpendable(env, q.assetId, spent, inputs) {
      assert Spendable(env, q.assetId, spent, p);
    }
  }

  lemma {:induction false} LastRequest(env: FundEnv, qs: seq<FundingRequest>, id: Text)
    requires id in Run(env, qs).channels
    ensures qs != []
    ensures var s, q := Run(env, qs[..|qs| - 1]), qs[|qs| - 1];
            || (id in s.channels && s.channels[id] == Run(env, qs).channels[id])
            || Fund(env, s, q).0 == Success(Run(env, qs).channels[id])
  {
    var m := |qs| - 1;
    RunFine(env, qs[..m]);
    FundOutcome(env, Run(env, qs[..m]), qs[m]);
  }

  /** The request was in order for the store, and the channel holds what it brought. */
  predicate Origin(env: FundEnv, s: FundStore, q: FundingRequest, c: StoredChannel) {
    Fundable(env, s, q) && q.localInputs + q.remoteInputs != [] && Holds(env, q, c)
  }

  lemma {:induction false} FundedFrom(env: FundEnv, s: FundStore, q: FundingRequest, c: StoredChannel)
    requires FundingFine(env, s) && Fund(env, s, q).0 == Success(c)
    ensures Origin(env, s, q, c)
  {
    FundedExactly(env, s, q);
    FundedHolds(env, s, q);
  }

  lemma {:induction false} SameOrigin(env: FundEnv, qs: seq<FundingRequest>, m: nat, n: nat, c: StoredChannel)
    requires n < m <= |qs| && Origin(env, Run(env, qs[..m][..n]), qs[..m][n], c)
    ensures Origin(env, Run(env, qs[..n]), qs[n], c)
  {
    assert qs[..m][..n] == qs[..n];
  }

  /** Where a channel of a run came from: the requests before, and the request that funded it. */
  lemma {:induction false} ChannelFunded(env: FundEnv, qs: seq<FundingRequest>, id: Text) returns (n: nat)
    requires id in Run(env, qs).channels
    ensures n < |qs| && Origin(env, Run(env, qs[..n]), qs[n], Run(env, qs).channels[id])
  {
    LastRequest(env, qs, id);
    var m, c := |qs| - 1, Run(env, qs).channels[id];
    var s := Run(env, qs[..m]);
    if id in s.channels && s.channels[id] == c {
      n := ChannelFunded(env, qs[..m], id);
      SameOrigin(env, qs, m, n, c);
    } else {
      RunFine(env, qs[..m]);
      FundedFrom(env, s, qs[m], c);
      n := m;
    }
  }
}
