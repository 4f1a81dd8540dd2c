/** Replaying a proof history: records consume earlier outputs and explain new ones. */
module ProofReplay {
  import opened ByteBits
  import opened Primitives
  import opened Text

  datatype HistoryState =
    Accepted | Rejected | Unresolved | Pending | Stale | Spent | ChannelLocked | Closed | Swept

  datatype TransitionKind =
    | Issuance
    | Split
    | Transfer
    | ChannelFunding
    | CommitmentUpdate
    | CooperativeClose
    | UnilateralClose
    | SecondLevelHtlc
    | Sweep
    | ProofExport

  predicate ExplainsBalance(s: HistoryState) {
    s.Accepted? || s.ChannelLocked? || s.Closed? || s.Swept?
  }

  predicate AllowsInput(kind: TransitionKind, s: HistoryState) {
    match kind
    case Issuance => false
    case Split | Transfer | ChannelFunding => s.Accepted?
    case CommitmentUpdate | CooperativeClose | UnilateralClose => s.ChannelLocked?
    case SecondLevelHtlc | Sweep => s.Closed?
    case ProofExport => ExplainsBalance(s)
  }

  predicate AllowsOutput(kind: TransitionKind, s: HistoryState) {
    match kind
    case Issuance | Split | Transfer | ProofExport => s.Accepted?
    case ChannelFunding | CommitmentUpdate => s.ChannelLocked?
    case CooperativeClose | UnilateralClose | SecondLevelHtlc => s.Closed?
    case Sweep => s.Swept?
  }

  datatype Output = Output(
    id: Text,
    assetId: Bytes32,
    amount: u64,
    scriptKey: Key33,
    anchor: Text,
    root: RootHashSum,
    state: HistoryState)

  datatype Record = Record(
    id: Text,
    kind: TransitionKind,
    transitionId: Bytes32,
    inputs: seq<Text>,
    outputs: seq<Output>)

  datatype Prior = Prior(outputId: Text, state: HistoryState, amount: u64, anchor: Text)

  /** An output together with the record that explains it. */
  datatype Explanation = Explanation(
    output: Output,
    recordId: Text,
    kind: TransitionKind,
    transitionId: Bytes32,
    priors: seq<Prior>)

  datatype ReplayError =
    | EmptyRecordId
    | DuplicateRecord
    | ZeroTransitionId
    | UnexpectedInputs
    | MissingInputs
    | MissingOutputs
    | DuplicateInput
    | MissingInput
    | InvalidInputState
    | EmptyOutputId
    | DuplicateOutput
    | InvalidOutputState
    | ZeroOutputAmount
    | MalformedOutputAnchor
    | OutputRootMismatch
    | ReplayAmountOverflow
    | ReplayAmountNotConserved(input: u64, output: u64)
    | ReplayAssetMismatch

  /** What the replay asks of its surroundings: the outpoint parser, and the hash-sum root of the
      one leaf `(asset, key, amount)`. */
  datatype Rules = Rules(outpointOk: Text -> bool, leafRoot: (Bytes32, Key33, u64) -> RootHashSum)

  /** The maps built up by the replay. */
  datatype Progress = Progress(
    seen: set<Text>,
    outputs: map<Text, Explanation>,
    accepted: map<Text, Explanation>)

  function CheckIdentity(p: Progress, rec: Record): Option<ReplayError> {
    if rec.id == [] then Some(EmptyRecordId)
    else if rec.id in p.seen then Some(DuplicateRecord)
    else if rec.transitionId == ZERO32 then Some(ZeroTransitionId)
    else if rec.kind.Issuance? && rec.inputs != [] then Some(UnexpectedInputs)
    else if !rec.kind.Issuance? && rec.inputs == [] then Some(MissingInputs)
    else if rec.outputs == [] then Some(MissingOutputs)
    else None
  }

  function Priors(p: Progress, kind: TransitionKind, inputs: seq<Text>): Result<seq<Prior>, ReplayError> {
    if inputs == [] then Success([])
    else
      var front, id := inputs[..|inputs| - 1], inputs[|inputs| - 1];
      var earlier := Priors(p, kind, front);
      if earlier.Failure? then earlier
      else if id in front then Failure(DuplicateInput)
      else if id !in p.outputs then Failure(MissingInput)
      else
        var o := p.outputs[id].output;
        if !AllowsInput(kind, o.state) then Failure(InvalidInputState)
        else Success(earlier.value + [Prior(o.id, o.state, o.amount, o.anchor)])
  }

  function CheckOutput(rules: Rules, kind: TransitionKind, o: Output): Option<ReplayError> {
    if o.id == [] then Some(EmptyOutputId)
    else if !AllowsOutput(kind, o.state) then Some(InvalidOutputState)
    else if o.amount == 0 then Some(ZeroOutputAmount)
    else if !rules.outpointOk(o.anchor) then Some(MalformedOutputAnchor)
    else if rules.leafRoot(o.assetId, o.scriptKey, o.amount) != o.root then Some(OutputRootMismatch)
    else None
  }

  function OutputTotal(rules: Rules, kind: TransitionKind, outputs: seq<Output>): Result<u64, ReplayError> {
    if outputs == [] then Success(0)
    else
      var front, o := outputs[..|outputs| - 1], outputs[|outputs| - 1];
      var earlier := OutputTotal(rules, kind, front);
      if earlier.Failure? then earlier
      else if o.id != [] && exists e <- front :: e.id == o.id then Failure(DuplicateOutput)
      else if CheckOutput(rules, kind, o).Some? then Failure(CheckOutput(rules, kind, o).value)
      else if earlier.value + o.amount >= U64_LIMIT then Failure(ReplayAmountOverflow)
      else Success(earlier.value + o.amount)
  }

  function PriorTotal(priors: seq<Prior>): Result<u64, ReplayError> {
    if priors == [] then Success(0)
    else
      var earlier := PriorTotal(priors[..|priors| - 1]);
      var amount := priors[|priors| - 1].amount;
      if earlier.Failure? then earlier
      else if earlier.value + amount >= U64_LIMIT then Failure(ReplayAmountOverflow)
      else Success(earlier.value + amount)
  }

  predicate SameAsset(p: Progress, priors: seq<Prior>, assetId: Bytes32) {
    forall x <- priors :: x.outputId in p.outputs && p.outputs[x.outputId].output.assetId == assetId
  }

  predicate PriorsAgree(p: Progress, priors: seq<Prior>) {
    priors == [] || (priors[0].outputId in p.outputs
                     && SameAsset(p, priors, p.outputs[priors[0].outputId].output.assetId))
  }

  /** Enters the new outputs, one by one. */
  function AddOutputs(p: Progress, rec: Record, priors: seq<Prior>, outputs: seq<Output>):
      Result<Progress, ReplayError>
  {
    if outputs == [] then Success(p)
    else
      var o := outputs[|outputs| - 1];
      var earlier := AddOutputs(p, rec, priors, outputs[..|outputs| - 1]);
      if earlier.Failure? then earlier
      else if o.id in earlier.value.outputs then Failure(DuplicateOutput)
      else if !SameAsset(p, priors, o.assetId) then Failure(ReplayAssetMismatch)
      else
        var e := Explanation(o, rec.id, rec.kind, rec.transitionId, priors);
        var q := earlier.value;
        Success(q.(outputs := q.outputs[o.id := e],
                   accepted := if ExplainsBalance(o.state) then q.accepted[o.id := e] else q.accepted))
  }

  /** One record. The anchor policy of the replay assumes every anchor confirmed, so it refuses none. */
  function Step(rules: Rules, p: Progress, rec: Record): Result<Progress, ReplayError> {
    if CheckIdentity(p, rec).Some? then Failure(CheckIdentity(p, rec).value)
    else
      var priors := Priors(p, rec.kind, rec.inputs);
      if priors.Failure? then Failure(priors.error)
      else
        var total := OutputTotal(rules, rec.kind, rec.outputs);
        if total.Failure? then Failure(total.error)
        else
          var input := PriorTotal(priors.value);
          if input.Failure? then Failure(input.error)
          else if !rec.kind.Issuance? && input.value != total.value then
            Failure(ReplayAmountNotConserved(input.value, total.value))
          else if !PriorsAgree(p, priors.value) then Failure(ReplayAssetMismatch)
          else
            var consumed := set id <- rec.inputs;
            var q := p.(seen := p.seen + {rec.id}, accepted := p.accepted - consumed);
            AddOutputs(q, rec, priors.value, rec.outputs)
  }

  const NOTHING_REPLAYED: Progress := Progress({}, map[], map[])

  function Replay(rules: Rules, records: seq<Record>): Result<Progress, ReplayError> {
    if records == [] then Success(NOTHING_REPLAYED)
    else
      var earlier := Replay(rules, records[..|records| - 1]);
      if earlier.Failure? then earlier else Step(rules, earlier.value, records[|records| - 1])
  }

  // ----- records with one output and at most one input -----

  /** The output is one the record may create. */
  predicate OutputOk(rules: Rules, p: Progress, kind: TransitionKind, o: Output) {
    && CheckOutput(rules, kind, o).None?
    && o.id !in p.outputs
  }

  /** When an issuance of one output is replayed, and what it leaves. */
  lemma IssuanceStep(rules: Rules, p: Progress, rec: Record)
    requires rec.kind == Issuance && rec.inputs == [] && |rec.outputs| == 1
    ensures var o := rec.outputs[0];
            Step(rules, p, rec).Success? <==>
              CheckIdentity(p, rec).None? && OutputOk(rules, p, rec.kind, o)
    ensures var o := rec.outputs[0];
            var e := Explanation(o, rec.id, rec.kind, rec.transitionId, []);
            Step(rules, p, rec).Success? ==>
              Step(rules, p, rec).value ==
                Progress(p.seen + {rec.id}, p.outputs[o.id := e], p.accepted[o.id := e])
  {
    var o := rec.outputs[0];
    assert rec.outputs[..0] == [];
    var consumed := set id <- rec.inputs;
    assert p.accepted - consumed == p.accepted;
    assert OutputTotal(rules, rec.kind, []) == Success(0);
    var q := p.(seen := p.seen + {rec.id}, accepted := p.accepted - consumed);
    assert AddOutputs(q, rec, [], []) == Success(q);
  }

  lemma {:induction false} OnePrior(p: Progress, kind: TransitionKind, id: Text)
    requires id in p.outputs && p.outputs[id].output.id == id
    ensures var i := p.outputs[id].output;
            Priors(p, kind, [id]) ==
              if AllowsInput(kind, i.state) then Success([Prior(id, i.state, i.amount, i.anchor)])
              else Failure(InvalidInputState)
  {
    var ids := [id];
    assert ids[..|ids| - 1] == [] && ids[|ids| - 1] == id;
    assert Priors(p, kind, []) == Success([]);
    var i := p.outputs[id].output;
    if AllowsInput(kind, i.state) {
      var prior := Prior(id, i.state, i.amount, i.anchor);
      assert [] + [prior] == [prior];
    }
  }

  lemma OnePriorTotal(p: Progress, prior: Prior)
    requires prior.outputId in p.outputs
    ensures PriorTotal([prior]) == Success(prior.amount) && PriorsAgree(p, [prior])
  {
    var priors := [prior];
    assert priors[..|priors| - 1] == [];
    assert PriorTotal([]) == Success(0);
  }

  lemma {:induction false} OneOutput(rules: Rules, rec: Record)
    requires |rec.outputs| == 1
    ensures var check := CheckOutput(rules, rec.kind, rec.outputs[0]);
            OutputTotal(rules, rec.kind, rec.outputs) ==
              if check.Some? then Failure(check.value) else Success(rec.outputs[0].amount)
  {
    assert rec.outputs[..0] == [];
    assert OutputTotal(rules, rec.kind, []) == Success(0);
  }

  lemma {:induction false} AddOne(q: Progress, rec: Record, prior: Prior)
    requires |rec.outputs| == 1 && prior.outputId in q.outputs
    ensures var o := rec.outputs[0];
            var e := Explanation(o, rec.id, rec.kind, rec.transitionId, [prior]);
            var added := AddOutputs(q, rec, [prior], rec.outputs);
            && (added.Success? <==>
                  o.id !in q.outputs && q.outputs[prior.outputId].output.assetId == o.assetId)
            && (added.Success? && ExplainsBalance(o.state) ==>
                  added.value == Progress(q.seen, q.outputs[o.id := e], q.accepted[o.id := e]))
  {
    assert rec.outputs[..0] == [];
    assert AddOutputs(q, rec, [prior], []) == Success(q);
    assert prior in [prior];
  }

  /** When a record moving one output to one output is replayed, and what it leaves. */
  lemma MoveStep(rules: Rules, p: Progress, rec: Record)
    requires (rec.kind.ChannelFunding? || rec.kind.CommitmentUpdate?) && |rec.inputs| == 1 && |rec.outputs| == 1
    requires rec.inputs[0] in p.outputs && p.outputs[rec.inputs[0]].output.id == rec.inputs[0]
    ensures var i := p.outputs[rec.inputs[0]].output;
            var o := rec.outputs[0];
            Step(rules, p, rec).Success? <==>
              && CheckIdentity(p, rec).None?
              && AllowsInput(rec.kind, i.state)
              && OutputOk(rules, p, rec.kind, o)
              && i.amount == o.amount && i.assetId == o.assetId
    ensures var i := p.outputs[rec.inputs[0]].output;
            var o := rec.outputs[0];
            var e := Explanation(o, rec.id, rec.kind, rec.transitionId,
                                 [Prior(i.id, i.state, i.amount, i.anchor)]);
            Step(rules, p, rec).Success? ==>
              Step(rules, p, rec).value ==
                Progress(p.seen + {rec.id}, p.outputs[o.id := e], (p.accepted - {i.id})[o.id := e])
  {
    var i := p.outputs[rec.inputs[0]].output;
    var prior := Prior(i.id, i.state, i.amount, i.anchor);
    assert rec.inputs == [i.id];
    OnePrior(p, rec.kind, i.id);
    OnePriorTotal(p, prior);
    OneOutput(rules, rec);
    var consumed := set id <- rec.inputs;
    assert consumed == {i.id};
    var q := p.(seen := p.seen + {rec.id}, accepted := p.accepted - consumed);
    AddOne(q, rec, prior);
  }
}
