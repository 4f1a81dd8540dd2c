/** What the balances accepted by a replay add up to, against what was issued. */
module ReplayConservation {
  import opened ByteBits
  import opened Primitives
  import opened Text
  import opened ProofReplay
  import opened ReplayTotals

  // ----- balances -----

  /** The amount an explanation holds of an asset. */
  function Of(e: Explanation, asset: Bytes32): nat {
    if e.output.assetId == asset then e.output.amount else 0
  }

  /** What the explanations hold together of an asset. */
  ghost function Held(m: map<Text, Explanation>, asset: Bytes32): nat
    decreases |m|
  {
    if m == map[] then 0
    else
      var id :| id in m;
      assert (m - {id}).Keys == m.Keys - {id};
      Of(m[id], asset) + Held(m - {id}, asset)
  }

  lemma {:induction false} HeldAt(m: map<Text, Explanation>, id: Text, asset: Bytes32)
    requires id in m
    ensures Held(m, asset) == Of(m[id], asset) + Held(m - {id}, asset)
    decreases |m|
  {
    var x :| x in m && Held(m, asset) == Of(m[x], asset) + Held(m - {x}, asset);
    assert (m - {x}).Keys == m.Keys - {x} && (m - {id}).Keys == m.Keys - {id};
    if x != id {
      HeldAt(m - {x}, id, asset);
      HeldAt(m - {id}, x, asset);
      assert m - {x} - {id} == m - {id} - {x};
    }
  }

  /** What these outputs hold of an asset. */
  function Created(outputs: seq<Output>, asset: Bytes32): nat {
    if outputs == [] then 0
    else
      var o := outputs[|outputs| - 1];
      Created(outputs[..|outputs| - 1], asset) + if o.assetId == asset then o.amount else 0
  }

  /** The part of these inputs that is among the explanations. */
  function Among(m: map<Text, Explanation>, ids: seq<Text>, asset: Bytes32): nat {
    if ids == [] then 0
    else
      var id := ids[|ids| - 1];
      Among(m, ids[..|ids| - 1], asset) + if id in m then Of(m[id], asset) else 0
  }

  lemma {:induction false} AmongFrame(m: map<Text, Explanation>, ids: seq<Text>, id: Text, asset: Bytes32)
    requires id !in ids
    ensures Among(m - {id}, ids, asset) == Among(m, ids, asset)
  {
    if ids != [] {
      AmongFrame(m, ids[..|ids| - 1], id, asset);
    }
  }

  /** Taking different ids out of the explanations takes what they hold. */
  lemma {:induction false} HeldWithout(m: map<Text, Explanation>, ids: seq<Text>, asset: Bytes32)
    requires NoRepeat(ids)
    ensures Held(m - (set id <- ids), asset) + Among(m, ids, asset) == Held(m, asset)
  {
    if ids == [] {
      assert m - (set id <- ids) == m;
    } else {
      var front, last := ids[..|ids| - 1], ids[|ids| - 1];
      assert ids == front + [last];
      NoRepeatSnoc(front, last);
      HeldWithout(m, front, asset);
      var rest := m - (set id <- front);
      assert m - (set id <- ids) == rest - {last};
      if last in m {
        assert last in rest && rest[last] == m[last];
        HeldAt(rest, last, asset);
      } else {
        assert rest - {last} == rest;
      }
    }
  }

  predicate NoneOf(ids: seq<Text>, m: map<Text, Explanation>) {
    forall id <- ids :: id !in m
  }

  /** The map without the last of the entered outputs. */
  lemma {:induction false} WithoutLast(m: map<Text, Explanation>, rec: Record, priors: seq<Prior>, front: seq<Output>, o: Output,
                                       next: map<Text, Explanation>)
    requires MapEnters(m, rec, priors, front + [o], next) && o.id !in m && o.id !in OutputIds(front)
    requires OutputIds(front + [o]) == OutputIds(front) + [o.id]
    ensures MapEnters(m, rec, priors, front, next - {o.id})
  {
    var ids, all := OutputIds(front), front + [o];
    forall i | 0 <= i < |front|
      ensures ids[i] in next - {o.id} && (next - {o.id})[ids[i]] == Explained(rec, priors, front[i])
    {
      assert OutputIds(all)[i] == ids[i] && all[i] == front[i];
      assert ids[i] in ids;
    }
  }

  lemma {:induction false} LastEntered(m: map<Text, Explanation>, rec: Record, priors: seq<Prior>, outputs: seq<Output>,
                                       next: map<Text, Explanation>)
    requires MapEnters(m, rec, priors, outputs, next) && outputs != []
    ensures var o := outputs[|outputs| - 1]; o.id in next && next[o.id] == Explained(rec, priors, o)
  {
    assert OutputIds(outputs)[|outputs| - 1] in OutputIds(outputs);
  }

  lemma {:induction false} LastOfIds(outputs: seq<Output>, m: map<Text, Explanation>)
    requires outputs != [] && NoRepeat(OutputIds(outputs)) && NoneOf(OutputIds(outputs), m)
    ensures var front, o := outputs[..|outputs| - 1], outputs[|outputs| - 1];
            && OutputIds(outputs) == OutputIds(front) + [o.id] && outputs == front + [o]
            && NoRepeat(OutputIds(front)) && NoneOf(OutputIds(front), m) && o.id !in OutputIds(front) && o.id !in m
  {
    var front, o := outputs[..|outputs| - 1], outputs[|outputs| - 1];
    NoRepeatSnoc(OutputIds(front), o.id);
    assert forall id <- OutputIds(front) :: id in OutputIds(outputs);
    assert o.id in OutputIds(outputs);
  }

  /** Entering new outputs adds what they hold. */
  lemma {:induction false} HeldWith(m: map<Text, Explanation>, rec: Record, priors: seq<Prior>, outputs: seq<Output>,
                                    next: map<Text, Explanation>, asset: Bytes32)
    requires MapEnters(m, rec, priors, outputs, next) && NoRepeat(OutputIds(outputs)) && NoneOf(OutputIds(outputs), m)
    ensures Held(next, asset) == Held(m, asset) + Created(outputs, asset)
  {
    if outputs == [] {
      assert next == m;
    } else {
      var front, o := outputs[..|outputs| - 1], outputs[|outputs| - 1];
      LastOfIds(outputs, m);
      LastEntered(m, rec, priors, outputs, next);
      WithoutLast(m, rec, priors, front, o, next);
      HeldWith(m, rec, priors, front, next - {o.id}, asset);
      HeldAt(next, o.id, asset);
    }
  }

  // ----- what a record moves -----

  lemma {:induction false} CreatedOne(outputs: seq<Output>, asset: Bytes32, a: Bytes32)
    requires forall i | 0 <= i < |outputs| :: outputs[i].assetId == asset
    ensures Created(outputs, a) == if a == asset then OutputSum(outputs) else 0
  {
    if outputs != [] {
      CreatedOne(outputs[..|outputs| - 1], asset, a);
    }
  }

  lemma {:induction false} AmongOne(p: Progress, ids: seq<Text>, asset: Bytes32, a: Bytes32)
    requires Known(p, ids) && forall i | 0 <= i < |ids| :: p.outputs[ids[i]].output.assetId == asset
    ensures Among(p.outputs, ids, a) == if a == asset then InputSum(p, ids) else 0
  {
    if ids != [] {
      AmongOne(p, ids[..|ids| - 1], asset, a);
    }
  }

  /** A record that consumes moves as much of every asset as it consumes. */
  lemma {:induction false} Moves(rules: Rules, p: Progress, rec: Record, asset: Bytes32)
    requires Replayable(rules, p, rec) && !rec.kind.Issuance?
    ensures Among(p.outputs, rec.inputs, asset) == Created(rec.outputs, asset)
  {
    var a := p.outputs[rec.inputs[0]].output.assetId;
    AmongOne(p, rec.inputs, a, asset);
    CreatedOne(rec.outputs, a, asset);
  }

  /** The inputs that an earlier record had consumed already. */
  function Spent(p: Progress, ids: seq<Text>, asset: Bytes32): nat {
    if ids == [] then 0
    else
      var id := ids[|ids| - 1];
      Spent(p, ids[..|ids| - 1], asset) + if id in p.outputs && id !in p.accepted then Of(p.outputs[id], asset) else 0
  }

  /** The accepted explanations are among the known ones. */
  predicate Coherent(p: Progress) {
    && Kept(p)
    && (forall id <- p.accepted :: id in p.outputs && p.accepted[id] == p.outputs[id])
    && (forall id <- p.outputs :: p.outputs[id].output.amount != 0)
  }

  lemma {:induction false} SpentRest(p: Progress, ids: seq<Text>, asset: Bytes32)
    requires Coherent(p)
    ensures Among(p.accepted, ids, asset) + Spent(p, ids, asset) == Among(p.outputs, ids, asset)
  {
    if ids != [] {
      SpentRest(p, ids[..|ids| - 1], asset);
    }
  }

  lemma {:induction false} SpentNothing(p: Progress, ids: seq<Text>, asset: Bytes32)
    requires forall id <- ids :: id in p.accepted
    ensures Spent(p, ids, asset) == 0
  {
    if ids != [] {
      SpentNothing(p, ids[..|ids| - 1], asset);
    }
  }

  lemma {:induction false} SpentSome(p: Progress, ids: seq<Text>, id: Text)
    requires Coherent(p) && id in ids && id in p.outputs && id !in p.accepted
    ensures Spent(p, ids, p.outputs[id].output.assetId) > 0
  {
    if id != ids[|ids| - 1] {
      assert ids == ids[..|ids| - 1] + [ids[|ids| - 1]];
      SpentSome(p, ids[..|ids| - 1], id);
    }
  }

  /** What a record adds to the accepted balances: an issuance what it creates, any other record what it
      consumes that had been consumed before. */
  lemma {:induction false} StepHeld(rules: Rules, p: Progress, rec: Record, next: Progress, asset: Bytes32)
    requires Coherent(p) && Step(rules, p, rec) == Success(next)
    ensures Held(next.accepted, asset) == Held(p.accepted, asset)
              + if rec.kind.Issuance? then Created(rec.outputs, asset) else Spent(p, rec.inputs, asset)
  {
    StepExactly(rules, p, rec);
    var rest := p.accepted - (set id <- rec.inputs);
    forall id <- OutputIds(rec.outputs)
      ensures id !in rest
    {
      var i :| 0 <= i < |rec.outputs| && OutputIds(rec.outputs)[i] == id;
    }
    HeldWith(rest, rec, PriorsOf(p, rec.inputs), rec.outputs, next.accepted, asset);
    HeldWithout(p.accepted, rec.inputs, asset);
    if rec.kind.Issuance? {
      assert rec.inputs == [];
    } else {
      Moves(rules, p, rec, asset);
      SpentRest(p, rec.inputs, asset);
    }
  }

  // ----- whole histories -----

  /** What the issuances of a history created. */
  function Issued(records: seq<Record>, asset: Bytes32): nat {
    if records == [] then 0
    else
      var rec := records[|records| - 1];
      Issued(records[..|records| - 1], asset) + if rec.kind.Issuance? then Created(rec.outputs, asset) else 0
  }

  /** What the records consumed after it had been consumed before. */
  function Respent(rules: Rules, records: seq<Record>, asset: Bytes32): nat {
    if records == [] then 0
    else
      var front, rec := records[..|records| - 1], records[|records| - 1];
      var before := Replay(rules, front);
      Respent(rules, front, asset) + if before.Success? then Spent(before.value, rec.inputs, asset) else 0
  }

  function IdSet(ids: seq<Text>): set<Text> {
    set id <- ids
  }

  function UsedIds(records: seq<Record>): set<Text> {
    if records == [] then {} else UsedIds(records[..|records| - 1]) + IdSet(records[|records| - 1].inputs)
  }

  lemma {:induction false} ReplayStep(rules: Rules, records: seq<Record>)
    requires records != [] && Replay(rules, records).Success?
    ensures var before := Replay(rules, records[..|records| - 1]);
            before.Success? && Replay(rules, records) == Step(rules, before.value, records[|records| - 1])
  {
  }

  lemma {:induction false} CreatesSome(rules: Rules, kind: TransitionKind, outputs: seq<Output>, id: Text) returns (i: nat)
    requires Creatable(rules, kind, outputs) && id in OutputIds(outputs)
    ensures i < |outputs| && outputs[i].id == id == OutputIds(outputs)[i] && outputs[i].amount != 0
  {
    i :| 0 <= i < |outputs| && OutputIds(outputs)[i] == id;
    assert InOrder(rules, kind, outputs[i]);
  }

  lemma {:induction false} StepCoherent(rules: Rules, p: Progress, rec: Record, next: Progress)
    requires Coherent(p) && Step(rules, p, rec) == Success(next)
    ensures Coherent(next) && next.outputs.Keys == p.outputs.Keys + (set id <- OutputIds(rec.outputs))
    ensures next.accepted.Keys == p.accepted.Keys - (set id <- rec.inputs) + (set id <- OutputIds(rec.outputs))
  {
    StepExactly(rules, p, rec);
    forall id <- next.outputs
      ensures next.outputs[id].output.id == id && next.outputs[id].output.amount != 0
      ensures id in next.accepted ==> next.accepted[id] == next.outputs[id]
    {
      if id in OutputIds(rec.outputs) {
        var i := CreatesSome(rules, rec.kind, rec.outputs, id);
      }
    }
  }

  /** After a replay exactly the outputs that no record consumed are accepted. */
  lemma {:induction false} ReplayCoherent(rules: Rules, records: seq<Record>, p: Progress)
    requires Replay(rules, records) == Success(p)
    ensures Coherent(p) && p.accepted.Keys == p.outputs.Keys - UsedIds(records) && UsedIds(records) <= p.outputs.Keys
  {
    if records != [] {
      var front, rec := records[..|records| - 1], records[|records| - 1];
      ReplayStep(rules, records);
      var q := Replay(rules, front).value;
      ReplayCoherent(rules, front, q);
      StepCoherent(rules, q, rec, p);
      StepExactly(rules, q, rec);
      NewUnused(q, rec, UsedIds(front));
    }
  }

  lemma {:induction false} NewUnused(p: Progress, rec: Record, used: set<Text>)
    requires used <= p.outputs.Keys && Known(p, rec.inputs) && Fresh(p, rec.outputs)
    ensures forall id <- OutputIds(rec.outputs) :: id !in used && id !in rec.inputs
    ensures forall id <- rec.inputs :: id in p.outputs
  {
    forall id <- OutputIds(rec.outputs)
      ensures id !in p.outputs
    {
      var i :| 0 <= i < |rec.outputs| && OutputIds(rec.outputs)[i] == id;
    }
    forall id <- rec.inputs
      ensures id in p.outputs
    {
      var i :| 0 <= i < |rec.inputs| && rec.inputs[i] == id;
    }
  }

  /** The accepted balances of an asset are what was issued of it and what was consumed more than once: the
      replay looks inputs up among all outputs, consumed ones included. */
  lemma {:induction false} ReplayHeld(rules: Rules, records: seq<Record>, p: Progress, asset: Bytes32)
    requires Replay(rules, records) == Success(p)
    ensures Held(p.accepted, asset) == Issued(records, asset) + Respent(rules, records, asset)
  {
    if records != [] {
      var front, rec := records[..|records| - 1], records[|records| - 1];
      ReplayStep(rules, records);
      var q := Replay(rules, front).value;
      ReplayHeld(rules, front, q, asset);
      ReplayCoherent(rules, front, q);
      StepHeld(rules, q, rec, p, asset);
      if rec.kind.Issuance? {
        StepExactly(rules, q, rec);
        assert rec.inputs == [];
      }
    }
  }

  /** No output is consumed by two records. */
  predicate UsedOnce(records: seq<Record>) {
    forall i, j | 0 <= i < j < |records| :: forall id <- records[i].inputs :: id !in records[j].inputs
  }

  lemma {:induction false} UsedBy(records: seq<Record>, id: Text)
    ensures id in UsedIds(records) <==> exists i | 0 <= i < |records| :: id in records[i].inputs
  {
    if records != [] {
      var n := |records| - 1;
      UsedBy(records[..n], id);
      if i :| 0 <= i < |records| && id in records[i].inputs {
        if i < n {
          assert records[..n][i] == records[i];
        }
      }
      if i :| 0 <= i < n && id in records[..n][i].inputs {
        assert records[i] == records[..n][i];
      }
      if id in records[n].inputs {
        assert 0 <= n < |records|;
      }
    }
  }

  lemma {:induction false} UsedOnceSnoc(records: seq<Record>)
    requires records != []
    ensures var front, rec := records[..|records| - 1], records[|records| - 1];
            UsedOnce(records) <==> UsedOnce(front) && forall id <- rec.inputs :: id !in UsedIds(front)
  {
    var n := |records| - 1;
    var front, rec := records[..n], records[n];
    assert forall i | 0 <= i < n :: front[i] == records[i];
    if UsedOnce(records) {
      forall id <- rec.inputs
        ensures id !in UsedIds(front)
      {
        UsedBy(front, id);
      }
    }
    if UsedOnce(front) && forall id <- rec.inputs :: id !in UsedIds(front) {
      forall i, j, id | 0 <= i < j < |records| && id in records[i].inputs
        ensures id !in records[j].inputs
      {
        if j == n {
          UsedBy(front, id);
          assert id in front[i].inputs;
        }
      }
    }
  }

  /** Used once, nothing is consumed again. */
  lemma {:induction false} OnceRespendsNothing(rules: Rules, records: seq<Record>, asset: Bytes32)
    requires Replay(rules, records).Success? && UsedOnce(records)
    ensures Respent(rules, records, asset) == 0
  {
    if records != [] {
      var front, rec := records[..|records| - 1], records[|records| - 1];
      ReplayStep(rules, records);
      UsedOnceSnoc(records);
      OnceRespendsNothing(rules, front, asset);
      var q := Replay(rules, front).value;
      ReplayCoherent(rules, front, q);
      StepExactly(rules, q, rec);
      NewUnused(q, rec, UsedIds(front));
      SpentNothing(q, rec.inputs, asset);
    }
  }

  /** Used twice, something of some asset is. */
  lemma {:induction false} TwiceRespends(rules: Rules, records: seq<Record>) returns (asset: Bytes32)
    requires Replay(rules, records).Success? && !UsedOnce(records)
    ensures Respent(rules, records, asset) > 0
  {
    var front, rec := records[..|records| - 1], records[|records| - 1];
    ReplayStep(rules, records);
    UsedOnceSnoc(records);
    if !UsedOnce(front) {
      asset := TwiceRespends(rules, front);
    } else {
      var q := Replay(rules, front).value;
      ReplayCoherent(rules, front, q);
      var id :| id in rec.inputs && id in UsedIds(front);
      SpentSome(q, rec.inputs, id);
      asset := q.outputs[id].output.assetId;
    }
  }

  /** Of every asset as much is accepted as was issued. */
  ghost predicate Conserved(p: Progress, records: seq<Record>) {
    forall asset: Bytes32 :: Held(p.accepted, asset) == Issued(records, asset)
  }

  lemma {:induction false} OnceConserved(rules: Rules, records: seq<Record>, p: Progress)
    requires Replay(rules, records) == Success(p) && UsedOnce(records)
    ensures Conserved(p, records)
  {
    forall asset: Bytes32
      ensures Held(p.accepted, asset) == Issued(records, asset)
    {
      ReplayHeld(rules, records, p, asset);
      OnceRespendsNothing(rules, records, asset);
    }
  }

  lemma {:induction false} TwiceNotConserved(rules: Rules, records: seq<Record>, p: Progress)
    requires Replay(rules, records) == Success(p) && !UsedOnce(records)
    ensures !Conserved(p, records)
  {
    var asset := TwiceRespends(rules, records);
    ReplayHeld(rules, records, p, asset);
    assert Held(p.accepted, asset) != Issued(records, asset);
  }

  /** A replayed history accepts exactly what was issued, of every asset, if and only if no output is
      consumed by two records; otherwise it accepts more of some asset, and never less of any. */
  lemma {:induction false} ReplayConserves(rules: Rules, records: seq<Record>, p: Progress)
    requires Replay(rules, records) == Success(p)
    ensures forall asset: Bytes32 :: Held(p.accepted, asset) >= Issued(records, asset)
    ensures Conserved(p, records) <==> UsedOnce(records)
  {
    forall asset: Bytes32
      ensures Held(p.accepted, asset) >= Issued(records, asset)
    {
      ReplayHeld(rules, records, p, asset);
    }
    if UsedOnce(records) {
      OnceConserved(rules, records, p);
    } else {
      TwiceNotConserved(rules, records, p);
    }
  }

  // ----- a history that uses an output twice -----

  function Output1(rules: Rules, id: Text, asset: Bytes32, key: Key33, anchor: Text, amount: u64): Output {
    Output(id, asset, amount, key, anchor, rules.leafRoot(asset, key, amount), Accepted)
  }

  /** An issuance, and two transfers of what it created. */
  function Issue(rules: Rules, asset: Bytes32, key: Key33, anchor: Text, amount: u64): Record {
    Record([0], Issuance, asset, [], [Output1(rules, [0], asset, key, anchor, amount)])
  }

  function Pass(rules: Rules, id: byte, asset: Bytes32, key: Key33, anchor: Text, amount: u64): Record {
    Record([id], Transfer, asset, [[0]], [Output1(rules, [id], asset, key, anchor, amount)])
  }

  /** After the issuance and any transfers of it that came before, one more transfer is replayed. */
  lemma {:induction false} PassesAgain(rules: Rules, id: byte, asset: Bytes32, key: Key33, anchor: Text, amount: u64, p: Progress)
    requires asset != ZERO32 && amount != 0 && rules.outpointOk(anchor)
    requires Kept(p) && [0] in p.outputs && p.outputs[[0]].output == Output1(rules, [0], asset, key, anchor, amount)
    requires [id] !in p.seen && [id] !in p.outputs
    ensures var next := Step(rules, p, Pass(rules, id, asset, key, anchor, amount));
            && next.Success? && Kept(next.value)
            && next.value.seen == p.seen + {[id]} && next.value.outputs.Keys == p.outputs.Keys + {[id]}
            && next.value.outputs[[0]] == p.outputs[[0]]
  {
    var rec := Pass(rules, id, asset, key, anchor, amount);
    assert OutputIds(rec.outputs) == [[id]];
    assert InputSum(p, rec.inputs) == amount by {
      assert rec.inputs[..0] == [];
    }
    assert OutputSum(rec.outputs) == amount by {
      assert rec.outputs[..0] == [];
    }
    StepExactly(rules, p, rec);
    assert [id] == OutputIds(rec.outputs)[0];
  }

  lemma {:induction false} HistorySnoc(rules: Rules, records: seq<Record>, rec: Record, p: Progress, asset: Bytes32)
    requires Replay(rules, records) == Success(p)
    ensures Replay(rules, records + [rec]) == Step(rules, p, rec)
    ensures Issued(records + [rec], asset) ==
              Issued(records, asset) + if rec.kind.Issuance? then Created(rec.outputs, asset) else 0
    ensures Respent(rules, records + [rec], asset) == Respent(rules, records, asset) + Spent(p, rec.inputs, asset)
    ensures UsedIds(records + [rec]) == UsedIds(records) + IdSet(rec.inputs)
  {
    assert (records + [rec])[..|records|] == records;
  }

  lemma {:induction false} OneCreated(o: Output, asset: Bytes32)
    ensures Created([o], asset) == if o.assetId == asset then o.amount else 0
  {
    assert [o][..0] == [];
  }

  lemma {:induction false} OneSpent(p: Progress, id: Text, asset: Bytes32)
    ensures Spent(p, [id], asset) == if id in p.outputs && id !in p.accepted then Of(p.outputs[id], asset) else 0
  {
    assert [id][..0] == [];
  }

  /** The issuance alone. */
  lemma {:induction false} IssuedOnce(rules: Rules, asset: Bytes32, key: Key33, anchor: Text, amount: u64) returns (p: Progress)
    requires asset != ZERO32 && amount != 0 && rules.outpointOk(anchor)
    ensures var a := [Issue(rules, asset, key, anchor, amount)];
            && Replay(rules, a) == Success(p) && Issued(a, asset) == amount && Respent(rules, a, asset) == 0
            && UsedIds(a) == {}
    ensures Kept(p) && p.seen == {[0]} && p.outputs.Keys == {[0]}
    ensures p.outputs[[0]].output == Output1(rules, [0], asset, key, anchor, amount)
  {
    var a := Issue(rules, asset, key, anchor, amount);
    IssuanceStep(rules, NOTHING_REPLAYED, a);
    HistorySnoc(rules, [], a, NOTHING_REPLAYED, asset);
    assert [] + [a] == [a];
    OneCreated(a.outputs[0], asset);
    p := Replay(rules, [a]).value;
  }

  /** One more transfer of the issued output. */
  lemma {:induction false} PassedOn(rules: Rules, records: seq<Record>, id: byte, asset: Bytes32, key: Key33, anchor: Text,
                                    amount: u64, p: Progress) returns (next: Progress)
    requires asset != ZERO32 && amount != 0 && rules.outpointOk(anchor) && Replay(rules, records) == Success(p)
    requires Kept(p) && [0] in p.outputs && p.outputs[[0]].output == Output1(rules, [0], asset, key, anchor, amount)
    requires [id] !in p.seen && [id] !in p.outputs
    ensures var rec := Pass(rules, id, asset, key, anchor, amount);
            && Replay(rules, records + [rec]) == Success(next)
            && Issued(records + [rec], asset) == Issued(records, asset)
            && Respent(rules, records + [rec], asset) ==
                 Respent(rules, records, asset) + (if [0] in UsedIds(records) then amount else 0)
            && UsedIds(records + [rec]) == UsedIds(records) + {[0]}
    ensures Kept(next) && next.seen == p.seen + {[id]} && next.outputs.Keys == p.outputs.Keys + {[id]}
    ensures next.outputs[[0]] == p.outputs[[0]]
  {
    var rec := Pass(rules, id, asset, key, anchor, amount);
    PassesAgain(rules, id, asset, key, anchor, amount, p);
    HistorySnoc(rules, records, rec, p, asset);
    ReplayCoherent(rules, records, p);
    OneSpent(p, [0], asset);
    next := Replay(rules, records + [rec]).value;
  }

  /** An issuance and two transfers of its one output. */
  function Twice(rules: Rules, asset: Bytes32, key: Key33, anchor: Text, amount: u64): seq<Record> {
    [Issue(rules, asset, key, anchor, amount)] + [Pass(rules, 1, asset, key, anchor, amount)]
    + [Pass(rules, 2, asset, key, anchor, amount)]
  }

  /** For every asset, key, outpoint and amount: an issuance and two transfers of its one output replay, and
      twice the issued amount is accepted. */
  lemma {:induction false} TransferredTwice(rules: Rules, asset: Bytes32, key: Key33, anchor: Text, amount: u64)
    requires asset != ZERO32 && amount != 0 && rules.outpointOk(anchor)
    ensures var records := Twice(rules, asset, key, anchor, amount);
            && Replay(rules, records).Success? && Issued(records, asset) == amount
            && Held(Replay(rules, records).value.accepted, asset) == 2 * amount
  {
    var a := [Issue(rules, asset, key, anchor, amount)];
    var b := a + [Pass(rules, 1, asset, key, anchor, amount)];
    var p := IssuedOnce(rules, asset, key, anchor, amount);
    var q := PassedOn(rules, a, 1, asset, key, anchor, amount, p);
    var r := PassedOn(rules, b, 2, asset, key, anchor, amount, q);
    ReplayHeld(rules, Twice(rules, asset, key, anchor, amount), r, asset);
  }
}
