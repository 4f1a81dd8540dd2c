/** The stages an output goes through in a proof history, from its issuance into a channel and out of it. */
module ReplayLifecycle {
  import opened ByteBits
  import opened Primitives
  import opened Text
  import opened ProofReplay
  import opened ReplayTotals
  import ReplayConservation

  predicate AllIn(priors: seq<Prior>, states: set<HistoryState>) {
    priors != [] && forall x <- priors :: x.state in states
  }

  /** How an output came into its state: accepted by issuance, transfer, split or export; locked in a channel
      from accepted outputs by funding, or from locked ones by an update; closed from locked outputs, or from
      closed ones by a second-level HTLC; swept from closed ones. There is no other way and no other state. */
  predicate Follows(e: Explanation) {
    match e.output.state
    case Accepted =>
      || (e.kind.Issuance? && e.priors == [])
      || ((e.kind.Split? || e.kind.Transfer?) && AllIn(e.priors, {Accepted}))
      || (e.kind.ProofExport? && AllIn(e.priors, {Accepted, ChannelLocked, Closed, Swept}))
    case ChannelLocked =>
      || (e.kind.ChannelFunding? && AllIn(e.priors, {Accepted}))
      || (e.kind.CommitmentUpdate? && AllIn(e.priors, {ChannelLocked}))
    case Closed =>
      || ((e.kind.CooperativeClose? || e.kind.UnilateralClose?) && AllIn(e.priors, {ChannelLocked}))
      || (e.kind.SecondLevelHtlc? && AllIn(e.priors, {Closed}))
    case Swept => e.kind.Sweep? && AllIn(e.priors, {Closed})
    case _ => false
  }

  /** The states a record may consume and create are exactly those that follow each other. */
  lemma {:induction false} StagesExactly(e: Explanation)
    ensures Follows(e) <==>
              && AllowsOutput(e.kind, e.output.state) && (e.kind.Issuance? <==> e.priors == [])
              && forall x <- e.priors :: AllowsInput(e.kind, x.state)
  {
    if x :| x in e.priors && !AllowsInput(e.kind, x.state) {
      assert !Follows(e);
    }
  }

  /** The explanation is by this record, with the inputs as they stood in `p`. */
  predicate ExplainedBy(p: Progress, rec: Record, id: Text, e: Explanation) {
    && id in OutputIds(rec.outputs) && e.output.id == id && e.output in rec.outputs
    && e.recordId == rec.id && e.kind == rec.kind && e.transitionId == rec.transitionId
    && Known(p, rec.inputs) && e.priors == PriorsOf(p, rec.inputs) && Follows(e)
  }

  lemma {:induction false} StepExplains(rules: Rules, p: Progress, rec: Record, next: Progress, id: Text)
    requires Kept(p) && Step(rules, p, rec) == Success(next) && id in next.outputs && id !in p.outputs
    ensures ExplainedBy(p, rec, id, next.outputs[id])
  {
    StepExactly(rules, p, rec);
    assert id in OutputIds(rec.outputs);
    var i := ReplayConservation.CreatesSome(rules, rec.kind, rec.outputs, id);
    var e := next.outputs[id];
    assert e == Explanation(rec.outputs[i], rec.id, rec.kind, rec.transitionId, PriorsOf(p, rec.inputs));
    assert InOrder(rules, rec.kind, rec.outputs[i]);
    forall x <- e.priors
      ensures AllowsInput(e.kind, x.state)
    {
      var j :| 0 <= j < |e.priors| && e.priors[j] == x;
      assert x == PriorOf(p, rec.inputs[j]);
    }
    StagesExactly(e);
  }

  lemma {:induction false} StepKeepsOutputs(rules: Rules, p: Progress, rec: Record, next: Progress, id: Text)
    requires Kept(p) && Step(rules, p, rec) == Success(next) && id in p.outputs
    ensures id in next.outputs && next.outputs[id] == p.outputs[id]
  {
    StepExactly(rules, p, rec);
    if id in OutputIds(rec.outputs) {
      var i := ReplayConservation.CreatesSome(rules, rec.kind, rec.outputs, id);
      assert false;
    }
  }

  /** Every output of a replayed history was created by one of its records, from outputs of earlier records
      in the states they had there, and went through the stages in order; no later record changes it. */
  lemma {:induction false} OutputExplained(rules: Rules, records: seq<Record>, p: Progress, id: Text) returns (n: nat)
    requires Replay(rules, records) == Success(p) && id in p.outputs
    ensures n < |records| && Replay(rules, records[..n]).Success?
    ensures id !in Replay(rules, records[..n]).value.outputs
    ensures ExplainedBy(Replay(rules, records[..n]).value, records[n], id, p.outputs[id])
  {
    var front, rec := records[..|records| - 1], records[|records| - 1];
    ReplayConservation.ReplayStep(rules, records);
    var q := Replay(rules, front).value;
    ReplayConservation.ReplayCoherent(rules, front, q);
    if id in q.outputs {
      StepKeepsOutputs(rules, q, rec, p, id);
      n := OutputExplained(rules, front, q, id);
      assert front[..n] == records[..n];
    } else {
      StepExplains(rules, q, rec, p, id);
      n := |records| - 1;
    }
  }
}
