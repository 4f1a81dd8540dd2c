/** What a record of a proof history has to satisfy to be replayed, whatever it consumes and creates, and
    what the replay adds up to. */
module ReplayTotals {
  import opened ByteBits
  import opened Primitives
  import opened Text
  import opened ProofReplay

  // ----- what a record consumes -----

  predicate NoRepeat(ids: seq<Text>) {
    forall i, j | 0 <= i < j < |ids| :: ids[i] != ids[j]
  }

  lemma {:induction false} NoRepeatSnoc(ids: seq<Text>, id: Text)
    ensures NoRepeat(ids + [id]) <==> NoRepeat(ids) && id !in ids
  {
    var all := ids + [id];
    assert forall i | 0 <= i < |ids| :: all[i] == ids[i];
    if NoRepeat(all) {
      assert forall i, j | 0 <= i < j < |ids| :: all[i] != all[j];
      assert forall i | 0 <= i < |ids| :: all[i] != all[|ids|];
    }
  }

  /** Every output is explained under its own id. */
  predicate Kept(p: Progress) {
    forall id <- p.outputs :: p.outputs[id].output.id == id
  }

  predicate Known(p: Progress, ids: seq<Text>) {
    forall i | 0 <= i < |ids| :: ids[i] in p.outputs
  }

  /** The ids are of different outputs, each in a state the record may consume. */
  predicate Consumable(p: Progress, kind: TransitionKind, ids: seq<Text>) {
    && NoRepeat(ids) && Known(p, ids)
    && forall i | 0 <= i < |ids| :: AllowsInput(kind, p.outputs[ids[i]].output.state)
  }

  lemma {:induction false} ConsumableSnoc(p: Progress, kind: TransitionKind, ids: seq<Text>)
    requires ids != []
    ensures var front, id := ids[..|ids| - 1], ids[|ids| - 1];
            Consumable(p, kind, ids) <==>
              && Consumable(p, kind, front) && id !in front && id in p.outputs
              && AllowsInput(kind, p.outputs[id].output.state)
  {
    var front, id := ids[..|ids| - 1], ids[|ids| - 1];
    assert ids == front + [id];
    NoRepeatSnoc(front, id);
    assert forall i | 0 <= i < |front| :: front[i] == ids[i];
  }

  function PriorOf(p: Progress, id: Text): Prior
    requires id in p.outputs
  {
    var o := p.outputs[id].output;
    Prior(o.id, o.state, o.amount, o.anchor)
  }

  function PriorsOf(p: Progress, ids: seq<Text>): (priors: seq<Prior>)
    requires Known(p, ids)
    ensures |priors| == |ids| && forall i | 0 <= i < |ids| :: priors[i] == PriorOf(p, ids[i])
  {
    if ids == [] then [] else PriorsOf(p, ids[..|ids| - 1]) + [PriorOf(p, ids[|ids| - 1])]
  }

  /** The inputs are collected exactly when they can be consumed, each once. */
  lemma {:induction false} PriorsExactly(p: Progress, kind: TransitionKind, ids: seq<Text>)
    ensures Priors(p, kind, ids).Success? <==> Consumable(p, kind, ids)
    ensures Consumable(p, kind, ids) ==> Priors(p, kind, ids).value == PriorsOf(p, ids)
  {
    if ids != [] {
      PriorsExactly(p, kind, ids[..|ids| - 1]);
      ConsumableSnoc(p, kind, ids);
    }
  }

  /** The mathematical sum of the amounts. */
  function InputSum(p: Progress, ids: seq<Text>): nat
    requires Known(p, ids)
  {
    if ids == [] then 0 else InputSum(p, ids[..|ids| - 1]) + p.outputs[ids[|ids| - 1]].output.amount
  }

  lemma {:induction false} PriorTotalSnoc(priors: seq<Prior>, x: Prior)
    ensures PriorTotal(priors + [x]) ==
              var earlier := PriorTotal(priors);
              if earlier.Failure? then earlier
              else if earlier.value + x.amount >= U64_LIMIT then Failure(ReplayAmountOverflow)
              else Success(earlier.value + x.amount)
  {
    var all := priors + [x];
    assert all[..|all| - 1] == priors && all[|all| - 1] == x;
  }

  lemma {:induction false} PriorTotalExactly(p: Progress, ids: seq<Text>)
    requires Known(p, ids)
    ensures PriorTotal(PriorsOf(p, ids)) ==
              if InputSum(p, ids) < U64_LIMIT then Success(InputSum(p, ids)) else Failure(ReplayAmountOverflow)
  {
    if ids != [] {
      var front, id := ids[..|ids| - 1], ids[|ids| - 1];
      PriorTotalExactly(p, front);
      PriorTotalSnoc(PriorsOf(p, front), PriorOf(p, id));
    }
  }

  // ----- what a record creates -----

  function OutputIds(outputs: seq<Output>): (ids: seq<Text>)
    ensures |ids| == |outputs| && forall i | 0 <= i < |outputs| :: ids[i] == outputs[i].id
  {
    if outputs == [] then [] else OutputIds(outputs[..|outputs| - 1]) + [outputs[|outputs| - 1].id]
  }

  function OutputSum(outputs: seq<Output>): nat {
    if outputs == [] then 0 else OutputSum(outputs[..|outputs| - 1]) + outputs[|outputs| - 1].amount
  }

  /** The output is in order by itself: named, in a state the record may create, of some amount, at an
      outpoint, with the root of its one leaf. */
  predicate InOrder(rules: Rules, kind: TransitionKind, o: Output) {
    && o.id != [] && AllowsOutput(kind, o.state) && o.amount != 0 && rules.outpointOk(o.anchor)
    && o.root == rules.leafRoot(o.assetId, o.scriptKey, o.amount)
  }

  predicate Creatable(rules: Rules, kind: TransitionKind, outputs: seq<Output>) {
    NoRepeat(OutputIds(outputs)) && forall i | 0 <= i < |outputs| :: InOrder(rules, kind, outputs[i])
  }

  lemma {:induction false} CreatableSnoc(rules: Rules, kind: TransitionKind, outputs: seq<Output>)
    requires outputs != []
    ensures var front, o := outputs[..|outputs| - 1], outputs[|outputs| - 1];
            && OutputIds(outputs) == OutputIds(front) + [o.id]
            && (Creatable(rules, kind, outputs) <==>
                  Creatable(rules, kind, front) && InOrder(rules, kind, o) && o.id !in OutputIds(front))
  {
    var front, o := outputs[..|outputs| - 1], outputs[|outputs| - 1];
    NoRepeatSnoc(OutputIds(front), o.id);
    assert forall i | 0 <= i < |front| :: front[i] == outputs[i];
  }

  lemma {:induction false} IdListed(outputs: seq<Output>, id: Text)
    ensures id in OutputIds(outputs) <==> exists e <- outputs :: e.id == id
  {
    if e :| e in outputs && e.id == id {
      var i :| 0 <= i < |outputs| && outputs[i] == e;
      assert OutputIds(outputs)[i] == id;
    }
    if id in OutputIds(outputs) {
      var i :| 0 <= i < |outputs| && OutputIds(outputs)[i] == id;
      assert outputs[i] in outputs;
    }
  }

  /** The outputs are totalled exactly when each is in order, none is named twice, and their mathematical
      sum fits. */
  lemma {:induction false} OutputsExactly(rules: Rules, kind: TransitionKind, outputs: seq<Output>)
    ensures OutputTotal(rules, kind, outputs).Success? <==>
              Creatable(rules, kind, outputs) && OutputSum(outputs) < U64_LIMIT
    ensures OutputTotal(rules, kind, outputs).Success? ==>
              OutputTotal(rules, kind, outputs).value == OutputSum(outputs)
  {
    if outputs != [] {
      var front, o := outputs[..|outputs| - 1], outputs[|outputs| - 1];
      OutputsExactly(rules, kind, front);
      CreatableSnoc(rules, kind, outputs);
      IdListed(front, o.id);
      assert CheckOutput(rules, kind, o).None? <==> InOrder(rules, kind, o);
    }
  }

  // ----- one record -----

  predicate Fresh(p: Progress, outputs: seq<Output>) {
    forall i | 0 <= i < |outputs| :: outputs[i].id !in p.outputs
  }

  predicate AssetsMatch(p: Progress, priors: seq<Prior>, outputs: seq<Output>) {
    forall i | 0 <= i < |outputs| :: SameAsset(p, priors, outputs[i].assetId)
  }

  function Explained(rec: Record, priors: seq<Prior>, o: Output): Explanation {
    Explanation(o, rec.id, rec.kind, rec.transitionId, priors)
  }

  /** The map with the outputs entered: each explained by the record, the rest as it was. */
  ghost predicate MapEnters(m: map<Text, Explanation>, rec: Record, priors: seq<Prior>, outputs: seq<Output>,
                      next: map<Text, Explanation>)
  {
    && (forall id :: id in next <==> id in m || id in OutputIds(outputs))
    && (forall id <- m | id !in OutputIds(outputs) :: next[id] == m[id])
    && (forall i | 0 <= i < |outputs| :: next[OutputIds(outputs)[i]] == Explained(rec, priors, outputs[i]))
  }

  ghost predicate Enters(p: Progress, rec: Record, priors: seq<Prior>, outputs: seq<Output>, next: Progress) {
    && next.seen == p.seen
    && MapEnters(p.outputs, rec, priors, outputs, next.outputs)
    && MapEnters(p.accepted, rec, priors, outputs, next.accepted)
  }

  lemma {:induction false} MapEntersSnoc(m: map<Text, Explanation>, rec: Record, priors: seq<Prior>, front: seq<Output>,
                                         o: Output, mid: map<Text, Explanation>)
    requires MapEnters(m, rec, priors, front, mid) && o.id !in OutputIds(front)
    requires OutputIds(front + [o]) == OutputIds(front) + [o.id]
    ensures MapEnters(m, rec, priors, front + [o], mid[o.id := Explained(rec, priors, o)])
  {
    var ids, all := OutputIds(front), front + [o];
    forall i | 0 <= i < |all|
      ensures mid[o.id := Explained(rec, priors, o)][OutputIds(all)[i]] == Explained(rec, priors, all[i])
    {
      if i < |front| {
        assert OutputIds(all)[i] == ids[i] && all[i] == front[i];
        assert ids[i] in ids;
      }
    }
  }

  lemma {:induction false} FreshSnoc(p: Progress, priors: seq<Prior>, front: seq<Output>, o: Output)
    ensures Fresh(p, front + [o]) <==> Fresh(p, front) && o.id !in p.outputs
    ensures AssetsMatch(p, priors, front + [o]) <==> AssetsMatch(p, priors, front) && SameAsset(p, priors, o.assetId)
  {
    var all := front + [o];
    assert forall i | 0 <= i < |front| :: all[i] == front[i];
    assert all[|front|] == o;
  }

  /** Outputs in order are entered exactly when they are new and of the asset of the inputs. */
  lemma {:induction false} AddedExactly(rules: Rules, p: Progress, rec: Record, priors: seq<Prior>, outputs: seq<Output>)
    requires Creatable(rules, rec.kind, outputs)
    ensures var added := AddOutputs(p, rec, priors, outputs);
            && (added.Success? <==> Fresh(p, outputs) && AssetsMatch(p, priors, outputs))
            && (added.Success? ==> Enters(p, rec, priors, outputs, added.value))
  {
    if outputs != [] {
      var front, o := outputs[..|outputs| - 1], outputs[|outputs| - 1];
      assert outputs == front + [o];
      CreatableSnoc(rules, rec.kind, outputs);
      AddedExactly(rules, p, rec, priors, front);
      FreshSnoc(p, priors, front, o);
      var earlier := AddOutputs(p, rec, priors, front);
      if earlier.Success? && o.id !in earlier.value.outputs {
        MapEntersSnoc(p.outputs, rec, priors, front, o, earlier.value.outputs);
        MapEntersSnoc(p.accepted, rec, priors, front, o, earlier.value.accepted);
      }
    }
  }

  /** Inputs and outputs are all of one asset. */
  predicate OneAsset(p: Progress, rec: Record)
    requires Known(p, rec.inputs)
  {
    rec.inputs == []
    || var asset := p.outputs[rec.inputs[0]].output.assetId;
       && (forall i | 0 <= i < |rec.inputs| :: p.outputs[rec.inputs[i]].output.assetId == asset)
       && (forall i | 0 <= i < |rec.outputs| :: rec.outputs[i].assetId == asset)
  }

  /** Named, new, over some transition; with inputs unless it is an issuance, and with outputs. */
  predicate Identified(p: Progress, rec: Record) {
    && rec.id != [] && rec.id !in p.seen && rec.transitionId != ZERO32
    && (rec.kind.Issuance? <==> rec.inputs == []) && rec.outputs != []
  }

  /** Everything a record has to satisfy. */
  predicate Replayable(rules: Rules, p: Progress, rec: Record) {
    && Identified(p, rec)
    && Consumable(p, rec.kind, rec.inputs) && Creatable(rules, rec.kind, rec.outputs) && Fresh(p, rec.outputs)
    && OutputSum(rec.outputs) < U64_LIMIT
    && (rec.kind.Issuance? || InputSum(p, rec.inputs) == OutputSum(rec.outputs))
    && OneAsset(p, rec)
  }

  lemma {:induction false} AssetsAgree(p: Progress, rec: Record)
    requires Kept(p) && Known(p, rec.inputs)
    ensures var priors := PriorsOf(p, rec.inputs);
            OneAsset(p, rec) <==>
              PriorsAgree(p, priors) && (rec.inputs != [] ==> AssetsMatch(p, priors, rec.outputs))
  {
  }

  /** The progress the outputs are entered into. */
  function Consumed(p: Progress, rec: Record): Progress {
    p.(seen := p.seen + {rec.id}, accepted := p.accepted - (set id <- rec.inputs))
  }

  /** What is left of a record's checks once its inputs and outputs are totalled. */
  function Settle(p: Progress, rec: Record, priors: seq<Prior>, input: nat, output: u64): Result<Progress, ReplayError> {
    if input >= U64_LIMIT then Failure(ReplayAmountOverflow)
    else if !rec.kind.Issuance? && input != output then Failure(ReplayAmountNotConserved(input, output))
    else if !PriorsAgree(p, priors) then Failure(ReplayAssetMismatch)
    else AddOutputs(Consumed(p, rec), rec, priors, rec.outputs)
  }

  lemma {:induction false} StepSettles(rules: Rules, p: Progress, rec: Record)
    ensures Step(rules, p, rec).Success? ==>
              && Identified(p, rec) && Consumable(p, rec.kind, rec.inputs)
              && Creatable(rules, rec.kind, rec.outputs) && OutputSum(rec.outputs) < U64_LIMIT
    ensures Identified(p, rec) && Consumable(p, rec.kind, rec.inputs)
            && Creatable(rules, rec.kind, rec.outputs) && OutputSum(rec.outputs) < U64_LIMIT ==>
              Step(rules, p, rec) ==
                Settle(p, rec, PriorsOf(p, rec.inputs), InputSum(p, rec.inputs), OutputSum(rec.outputs))
  {
    PriorsExactly(p, rec.kind, rec.inputs);
    OutputsExactly(rules, rec.kind, rec.outputs);
    if Consumable(p, rec.kind, rec.inputs) {
      PriorTotalExactly(p, rec.inputs);
    }
    assert CheckIdentity(p, rec).None? <==> Identified(p, rec);
  }

  /** The record has been replayed: its inputs are no longer accepted, its outputs are, each explained by the
      record and the inputs. */
  ghost predicate Replayed(p: Progress, rec: Record, next: Progress)
    requires Known(p, rec.inputs)
  {
    && next.seen == p.seen + {rec.id}
    && MapEnters(p.outputs, rec, PriorsOf(p, rec.inputs), rec.outputs, next.outputs)
    && MapEnters(p.accepted - (set id <- rec.inputs), rec, PriorsOf(p, rec.inputs), rec.outputs, next.accepted)
  }

  /** For every record, of any kind, with any inputs and outputs: it is replayed exactly when it is named and
      new, its inputs are different known outputs it may consume, its outputs are new and in order, the
      amounts add up as mathematical numbers, and all of it is of one asset. */
  lemma {:induction false} StepExactly(rules: Rules, p: Progress, rec: Record)
    requires Kept(p)
    ensures Step(rules, p, rec).Success? <==> Replayable(rules, p, rec)
    ensures Step(rules, p, rec).Success? ==> Replayed(p, rec, Step(rules, p, rec).value)
  {
    StepSettles(rules, p, rec);
    if Identified(p, rec) && Consumable(p, rec.kind, rec.inputs)
       && Creatable(rules, rec.kind, rec.outputs) && OutputSum(rec.outputs) < U64_LIMIT {
      SettleExactly(rules, p, rec);
    }
  }

  lemma {:induction false} SettleExactly(rules: Rules, p: Progress, rec: Record)
    requires Kept(p) && Identified(p, rec) && Consumable(p, rec.kind, rec.inputs)
    requires Creatable(rules, rec.kind, rec.outputs) && OutputSum(rec.outputs) < U64_LIMIT
    ensures var s := Settle(p, rec, PriorsOf(p, rec.inputs), InputSum(p, rec.inputs), OutputSum(rec.outputs));
            && (s.Success? <==> Replayable(rules, p, rec))
            && (s.Success? ==> Replayed(p, rec, s.value))
  {
    var priors, q := PriorsOf(p, rec.inputs), Consumed(p, rec);
    AssetsAgree(p, rec);
    AddedExactly(rules, q, rec, priors, rec.outputs);
    assert Fresh(q, rec.outputs) <==> Fresh(p, rec.outputs);
    assert AssetsMatch(q, priors, rec.outputs) <==> AssetsMatch(p, priors, rec.outputs);
  }

  lemma {:induction false} OneOutputReplayable(rules: Rules, p: Progress, rec: Record, o: Output)
    requires !rec.kind.Issuance? && rec.outputs == [o] && rec.inputs != [] && Consumable(p, rec.kind, rec.inputs)
    requires forall i | 0 <= i < |rec.inputs| :: p.outputs[rec.inputs[i]].output.assetId == o.assetId
    requires InputSum(p, rec.inputs) == OutputSum(rec.outputs) == o.amount
    requires rec.id != [] && rec.id !in p.seen && o.id !in p.outputs
    ensures Replayable(rules, p, rec) <==> rec.transitionId != ZERO32 && Creatable(rules, rec.kind, [o])
  {
  }

  /** A record that merges outputs of one asset into one of their sum. */
  lemma {:induction false} MergeStep(rules: Rules, p: Progress, rec: Record, o: Output)
    requires Kept(p) && rec.outputs == [o] && Known(p, rec.inputs)
    requires Replayable(rules, p, rec) <==> rec.transitionId != ZERO32 && Creatable(rules, rec.kind, [o])
    ensures var next := Step(rules, p, rec);
            && (next.Success? <==> rec.transitionId != ZERO32 && Creatable(rules, rec.kind, [o]))
            && (next.Success? ==> o.id in next.value.accepted && next.value.accepted[o.id].output == o)
  {
    StepExactly(rules, p, rec);
    assert OutputIds(rec.outputs)[0] == o.id;
  }
}
