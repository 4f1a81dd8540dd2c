/** Runs of funding requests: the spent-proof index, conservation, and what the ledger is handed. */
module FundingRuns {
  import opened ByteBits
  import opened Primitives
  import opened Text
  import opened Channels
  import opened Funding
  import CommitmentState
  import CommitmentReplay
  import CommitmentStore

  // ----- entering proofs -----

  lemma {:induction false} EnterEffect(spent: map<Text, Text>, proofs: seq<Text>, id: Text)
    ensures var next := Enter(spent, proofs, id);
            && (forall p <- next :: if p in proofs then next[p] == id else p in spent && next[p] == spent[p])
            && (forall p <- proofs :: p in next) && (forall p <- spent :: p in next)
  {
    if proofs != [] {
      var n := |proofs| - 1;
      EnterEffect(spent, proofs[..n], id);
      assert proofs == proofs[..n] + [proofs[n]];
    }
  }

  lemma {:induction false} FreshIndexes(channels: map<Text, StoredChannel>, spent: map<Text, Text>, c: StoredChannel)
    requires Indexes(channels, spent) && c.channelId !in channels && forall p <- Spent(c) :: p !in spent
    ensures Indexes(channels[c.channelId := c], Enter(spent, Spent(c), c.channelId))
  {
    var all := channels[c.channelId := c];
    EnterEffect(spent, Spent(c), c.channelId);
    assert all - {c.channelId} == channels && all - ({c.channelId} - {c.channelId}) == all;
    EnteredIndexes(all, {c.channelId}, c.channelId, spent, Enter(spent, Spent(c), c.channelId));
  }

  // ----- what a plan guarantees -----

  lemma {:induction false} InputsFresh(env: FundEnv, assetId: Bytes32, proofs: seq<Proof>, spent: map<Text, Text>)
    requires InputsFault(env, assetId, proofs, spent).None?
    ensures Distinct(ProofIds(proofs)) && forall id <- ProofIds(proofs) :: id !in spent
  {
    if proofs != [] {
      InputsFresh(env, assetId, proofs[..|proofs| - 1], spent);
    }
  }

  predicate SidesDisjoint(c: StoredChannel) {
    forall p | p in c.localProofIds :: p !in c.remoteProofIds
  }

  lemma {:induction false} DistinctSides(c: StoredChannel)
    requires Distinct(c.localProofIds) && Distinct(c.remoteProofIds)
    ensures Distinct(Spent(c)) <==> SidesDisjoint(c)
  {
    var all, n := Spent(c), |c.localProofIds|;
    if SidesDisjoint(c) {
      forall i, j | 0 <= i < j < |all|
        ensures all[i] != all[j]
      {
        if j < n {
          assert all[i] == c.localProofIds[i] && all[j] == c.localProofIds[j];
        } else if i < n {
          assert all[i] == c.localProofIds[i] && all[j] == c.remoteProofIds[j - n];
          assert all[i] in c.localProofIds && all[j] in c.remoteProofIds;
        } else {
          assert all[i] == c.remoteProofIds[i - n] && all[j] == c.remoteProofIds[j - n];
        }
      }
    } else {
      var p :| p in c.localProofIds && p in c.remoteProofIds;
      var i :| 0 <= i < n && c.localProofIds[i] == p;
      var j :| 0 <= j < |c.remoteProofIds| && c.remoteProofIds[j] == p;
      assert all[i] == all[n + j];
    }
  }

  predicate Addressed(env: FundEnv, spent: map<Text, Text>, q: FundingRequest) {
    && !env.blank(q.localPeer) && !env.blank(q.remotePeer) && !env.blank(q.outpoint)
    && (q.localInputs != [] || q.remoteInputs != [])
    && InputsFault(env, q.assetId, q.localInputs, spent).None?
    && InputsFault(env, q.assetId, q.remoteInputs, spent).None?
  }

  lemma {:induction false} NoFaultAddressed(env: FundEnv, spent: map<Text, Text>, q: FundingRequest, fault: Option<FundingError>)
    requires fault == RequestFault(env, spent, q) && fault.None?
    ensures Addressed(env, spent, q)
  {
  }

  /** What agreed terms guarantee. */
  predicate Agreed(env: FundEnv, spent: map<Text, Text>, q: FundingRequest, t: Terms) {
    && Addressed(env, spent, q)
    && Fits(t) && t.local == Amounts(q.localInputs) && t.remote == Amounts(q.remoteInputs)
    && env.tapCommitment(q.assetId, t.genesis, q.scriptKey, t.local + t.remote) == Some(t.tap)
  }

  lemma {:induction false} AgreedTerms(env: FundEnv, spent: map<Text, Text>, q: FundingRequest)
    requires Agree(env, spent, q).Success?
    ensures Agreed(env, spent, q, Agree(env, spent, q).value)
  {
    NoFaultAddressed(env, spent, q, RequestFault(env, spent, q));
  }

  lemma {:induction false} PlanIsNew(env: FundEnv, s: FundStore, q: FundingRequest)
    requires Plan(env, s, q).Success?
    ensures Agree(env, s.spent, q).Success? && Fits(Agree(env, s.spent, q).value)
    ensures Plan(env, s, q).value == NewChannel(env, q, Agree(env, s.spent, q).value)
    ensures Plan(env, s, q).value.channelId !in s.channels
  {
  }

  lemma {:induction false} NewChannelIds(env: FundEnv, q: FundingRequest, t: Terms)
    requires Fits(t)
    ensures var c := NewChannel(env, q, t);
            && BindingId(env.sha, c) == c.channelId && c.monitor.persisted
            && c.monitor.blobDigest == MonitorDigest(env.sha, c.channelId, c.assetId, c.localBalance, c.remoteBalance,
                                                     c.fundingRoot)
  {
  }

  lemma {:induction false} NewChannelHistory(env: FundEnv, q: FundingRequest, t: Terms)
    requires Fits(t)
    ensures var c := NewChannel(env, q, t);
            && c.historyRecordId == FundingRecordId(c.channelId) && c.historyOutputId == FundingOutputId(c.channelId)
            && c.historyTransitionId == Hex(FundingTransition(env.sha, c.channelId, c.assetId, c.fundingOutpoint,
                                                              c.fundingScriptKey, c.localBalance, c.remoteBalance,
                                                              Spent(c)))
  {
  }

  lemma {:induction false} NewChannelFields(env: FundEnv, q: FundingRequest, t: Terms)
    requires Fits(t)
    ensures var c := NewChannel(env, q, t);
            && c.localPeer == q.localPeer && c.remotePeer == q.remotePeer && c.fundingOutpoint == q.outpoint
            && c.assetId == q.assetId && c.fundingScriptKey == q.scriptKey && c.genesisOutpoint == t.genesis
            && c.localBalance == t.local && c.remoteBalance == t.remote && c.totalAmount == t.local + t.remote
            && c.fundingRoot == t.tap.root
            && c.localProofIds == ProofIds(q.localInputs) && c.remoteProofIds == ProofIds(q.remoteInputs)
            && |Spent(c)| == |q.localInputs| + |q.remoteInputs|
  {
  }

  /** A channel whose ids are derived from its own fields has no fault but a root of the wrong sum. */
  lemma {:induction false} OnlySumFault(env: FundEnv, c: StoredChannel, tap: TapCommitment)
    requires !env.blank(c.localPeer) && !env.blank(c.remotePeer) && !env.blank(c.fundingOutpoint)
    requires c.totalAmount == c.localBalance + c.remoteBalance && Spent(c) != []
    requires env.tapCommitment(c.assetId, c.genesisOutpoint, c.fundingScriptKey, c.totalAmount) == Some(tap)
    requires c.fundingRoot == tap.root
    requires c.historyRecordId == FundingRecordId(c.channelId) && c.historyOutputId == FundingOutputId(c.channelId)
    requires c.historyTransitionId == Hex(FundingTransition(env.sha, c.channelId, c.assetId, c.fundingOutpoint,
                                                            c.fundingScriptKey, c.localBalance, c.remoteBalance,
                                                            Spent(c)))
    requires BindingId(env.sha, c) == c.channelId && c.monitor.persisted
    requires c.monitor.blobDigest == MonitorDigest(env.sha, c.channelId, c.assetId, c.localBalance, c.remoteBalance,
                                                   c.fundingRoot)
    ensures ChannelFault(env, c.channelId, c).None? <==> c.fundingRoot.sum == c.totalAmount
  {
  }

  lemma {:induction false} NewChannelFault(env: FundEnv, q: FundingRequest, t: Terms, c: StoredChannel)
    requires Fits(t) && (q.localInputs != [] || q.remoteInputs != []) && c == NewChannel(env, q, t)
    requires !env.blank(q.localPeer) && !env.blank(q.remotePeer) && !env.blank(q.outpoint)
    requires env.tapCommitment(q.assetId, t.genesis, q.scriptKey, t.local + t.remote) == Some(t.tap)
    ensures ChannelFault(env, c.channelId, c).None? <==> c.fundingRoot.sum == c.totalAmount
  {
    NewChannelIds(env, q, t);
    NewChannelHistory(env, q, t);
    NewChannelFields(env, q, t);
    OnlySumFault(env, c, t.tap);
  }

  /** A planned channel: its proofs are unspent and distinct side by side, its balances are what the
      proofs of each side hold. */
  predicate Sound(env: FundEnv, s: FundStore, q: FundingRequest, c: StoredChannel) {
    && c.channelId !in s.channels
    && c.localBalance == Amounts(q.localInputs) && c.remoteBalance == Amounts(q.remoteInputs)
    && c.totalAmount == c.localBalance + c.remoteBalance
    && c.localProofIds == ProofIds(q.localInputs) && c.remoteProofIds == ProofIds(q.remoteInputs)
    && Distinct(c.localProofIds) && Distinct(c.remoteProofIds)
    && (forall p <- Spent(c) :: p !in s.spent)
    && (ChannelFault(env, c.channelId, c).None? <==> c.fundingRoot.sum == c.totalAmount)
  }

  lemma {:induction false} NewChannelSound(env: FundEnv, s: FundStore, q: FundingRequest, t: Terms, c: StoredChannel)
    requires Agreed(env, s.spent, q, t) && c == NewChannel(env, q, t) && c.channelId !in s.channels
    ensures Sound(env, s, q, c)
  {
    NewChannelFault(env, q, t, c);
    NewChannelFields(env, q, t);
    InputsFresh(env, q.assetId, q.localInputs, s.spent);
    InputsFresh(env, q.assetId, q.remoteInputs, s.spent);
  }

  lemma {:induction false} Planned(env: FundEnv, s: FundStore, q: FundingRequest)
    requires Plan(env, s, q).Success?
    ensures Sound(env, s, q, Plan(env, s, q).value)
  {
    PlanIsNew(env, s, q);
    AgreedTerms(env, s.spent, q);
    NewChannelSound(env, s, q, Agree(env, s.spent, q).value, Plan(env, s, q).value);
  }

  // ----- one request -----

  lemma {:induction false} IndexedFine(env: FundEnv, s: FundStore, c: StoredChannel)
    requires FundingFine(env, s) && c.channelId !in s.channels && forall p <- Spent(c) :: p !in s.spent
    requires ChannelFault(env, c.channelId, c).None? && Distinct(Spent(c))
    ensures var next := s.(spent := Enter(s.spent, Spent(c), c.channelId), channels := s.channels[c.channelId := c]);
            FundingFine(env, next) && StoreFault(env, next, c.channelId).None?
  {
    FreshIndexes(s.channels, s.spent, c);
    var next := s.(spent := Enter(s.spent, Spent(c), c.channelId), channels := s.channels[c.channelId := c]);
    IndexesNoOverlap(next.channels, next.spent);
  }

  lemma {:induction false} FaultyNotFine(env: FundEnv, s: FundStore, id: Text)
    requires id in s.channels && StoreFault(env, s, id).None?
    ensures ChannelFault(env, id, s.channels[id]).None? && Distinct(Spent(s.channels[id]))
  {
  }

  /** In a store that passes its check a request is funded exactly when it can be planned, its two sides
      share no proof and the commitment's root carries the total; then every proof it spends is new. */
  lemma {:induction false} FundOutcome(env: FundEnv, s: FundStore, q: FundingRequest)
    requires FundingFine(env, s)
    ensures Fund(env, s, q).0.Success? <==>
              && Plan(env, s, q).Success?
              && var c := Plan(env, s, q).value; SidesDisjoint(c) && c.fundingRoot.sum == c.totalAmount
    ensures Fund(env, s, q).0.Failure? ==> Fund(env, s, q).1 == s
    ensures Fund(env, s, q).0.Success? ==>
              var c := Plan(env, s, q).value;
              && Fund(env, s, q).1 == s.(spent := Enter(s.spent, Spent(c), c.channelId),
                                         channels := s.channels[c.channelId := c])
              && Fund(env, s, q).0 == Success(c) && FundingFine(env, Fund(env, s, q).1)
  {
    if Plan(env, s, q).Success? {
      var c := Plan(env, s, q).value;
      Planned(env, s, q);
      DistinctSides(c);
      var next := s.(spent := Enter(s.spent, Spent(c), c.channelId), channels := s.channels[c.channelId := c]);
      if SidesDisjoint(c) && c.fundingRoot.sum == c.totalAmount {
        IndexedFine(env, s, c);
      } else if StoreFault(env, next, c.channelId).None? {
        FaultyNotFine(env, next, c.channelId);
      }
    }
  }

  // ----- runs -----

  function Run(env: FundEnv, qs: seq<FundingRequest>): FundStore {
    if qs == [] then EMPTY_FUND_STORE else Fund(env, Run(env, qs[..|qs| - 1]), qs[|qs| - 1]).1
  }

  predicate Accepted(env: FundEnv, s: FundStore, q: FundingRequest) {
    Fund(env, s, q).0.Success?
  }

  /** Every reachable store passes its check: its index is exactly the one recomputed from its channels. */
  lemma {:induction false} RunFine(env: FundEnv, qs: seq<FundingRequest>)
    ensures FundingFine(env, Run(env, qs))
  {
    if qs != [] {
      RunFine(env, qs[..|qs| - 1]);
      FundOutcome(env, Run(env, qs[..|qs| - 1]), qs[|qs| - 1]);
    }
  }

  /** What is spent stays spent, for the same channel; what is funded stays as it is. */
  predicate Extends(s: FundStore, t: FundStore) {
    && (forall p <- s.spent :: p in t.spent && t.spent[p] == s.spent[p])
    && (forall id <- s.channels :: id in t.channels && t.channels[id] == s.channels[id])
  }

  lemma {:induction false} FundExtends(env: FundEnv, s: FundStore, q: FundingRequest)
    requires FundingFine(env, s)
    ensures Extends(s, Fund(env, s, q).1)
  {
    FundOutcome(env, s, q);
    if Fund(env, s, q).0.Success? {
      Planned(env, s, q);
      EnterEffect(s.spent, Spent(Plan(env, s, q).value), Plan(env, s, q).value.channelId);
    }
  }

  lemma {:induction false} RunStep(env: FundEnv, qs: seq<FundingRequest>, q: FundingRequest)
    ensures Run(env, qs + [q]) == Fund(env, Run(env, qs), q).1 && Extends(Run(env, qs), Run(env, qs + [q]))
  {
    assert (qs + [q])[..|qs|] == qs;
    RunFine(env, qs);
    FundExtends(env, Run(env, qs), q);
  }

  lemma {:induction false} ExtendsTransitive(s: FundStore, t: FundStore, u: FundStore)
    requires Extends(s, t) && Extends(t, u)
    ensures Extends(s, u)
  {
  }

  lemma {:induction false} RunExtends(env: FundEnv, before: seq<FundingRequest>, after: seq<FundingRequest>)
    ensures Extends(Run(env, before), Run(env, before + after))
  {
    if after == [] {
      assert before + after == before;
    } else {
      var n := |after| - 1;
      var qs := before + after[..n];
      RunExtends(env, before, after[..n]);
      RunStep(env, qs, after[n]);
      assert qs + [after[n]] == before + after;
      ExtendsTransitive(Run(env, before), Run(env, qs), Run(env, before + after));
    }
  }

  lemma {:induction false} RequestIds(q: FundingRequest, c: StoredChannel, p: Proof)
    requires c.localProofIds == ProofIds(q.localInputs) && c.remoteProofIds == ProofIds(q.remoteInputs)
    requires p in q.localInputs + q.remoteInputs
    ensures ProofId(p) in Spent(c)
  {
    var all, n := q.localInputs + q.remoteInputs, |q.localInputs|;
    var i :| 0 <= i < |all| && all[i] == p;
    assert Spent(c)[i] == if i < n then c.localProofIds[i] else c.remoteProofIds[i - n];
  }

  lemma {:induction false} SpendsFunded(env: FundEnv, s: FundStore, q: FundingRequest, p: Proof)
    requires FundingFine(env, s) && Accepted(env, s, q) && p in q.localInputs + q.remoteInputs
    ensures ProofId(p) !in s.spent && ProofId(p) in Fund(env, s, q).1.spent
  {
    FundOutcome(env, s, q);
    Planned(env, s, q);
    var c := Plan(env, s, q).value;
    RequestIds(q, c, p);
    EnterEffect(s.spent, Spent(c), c.channelId);
  }

  /** A proof that funded a channel never funds another: every later request with a proof of the same id
      is refused, however many requests came in between. */
  lemma {:induction false} NoProofFundsTwice(env: FundEnv, before: seq<FundingRequest>, q: FundingRequest, after: seq<FundingRequest>,
                          again: FundingRequest, p: Proof, p': Proof)
    requires Accepted(env, Run(env, before), q) && p in q.localInputs + q.remoteInputs
    requires p' in again.localInputs + again.remoteInputs && ProofId(p') == ProofId(p)
    ensures !Accepted(env, Run(env, before + [q] + after), again)
  {
    assert (before + [q])[..|before|] == before;
    RunFine(env, before);
    RunFine(env, before + [q] + after);
    SpendsFunded(env, Run(env, before), q, p);
    RunExtends(env, before + [q], after);
    if Accepted(env, Run(env, before + [q] + after), again) {
      SpendsFunded(env, Run(env, before + [q] + after), again, p');
    }
  }

  // ----- conservation -----

  /** What all channels hold together. */
  ghost function TotalHeld(m: map<Text, StoredChannel>): nat
    decreases |m|
  {
    if m == map[] then 0
    else
      var id :| id in m;
      assert (m - {id}).Keys == m.Keys - {id};
      m[id].totalAmount + TotalHeld(m - {id})
  }

  lemma {:induction false} TotalHeldAt(m: map<Text, StoredChannel>, id: Text)
    requires id in m
    ensures TotalHeld(m) == m[id].totalAmount + TotalHeld(m - {id})
    decreases |m|
  {
    var x :| x in m && TotalHeld(m) == m[x].totalAmount + TotalHeld(m - {x});
    assert (m - {x}).Keys == m.Keys - {x} && (m - {id}).Keys == m.Keys - {id};
    if x != id {
      TotalHeldAt(m - {x}, id);
      TotalHeldAt(m - {id}, x);
      assert m - {x} - {id} == m - {id} - {x};
    }
  }

  /** What the accepted requests brought in. */
  function AcceptedAmounts(env: FundEnv, qs: seq<FundingRequest>): nat {
    if qs == [] then 0
    else
      var front, q := qs[..|qs| - 1], qs[|qs| - 1];
      AcceptedAmounts(env, front)
      + if Accepted(env, Run(env, front), q) then Amounts(q.localInputs) + Amounts(q.remoteInputs) else 0
  }

  lemma {:induction false} HeldInsert(m: map<Text, StoredChannel>, c: StoredChannel)
    requires c.channelId !in m
    ensures TotalHeld(m[c.channelId := c]) == TotalHeld(m) + c.totalAmount
  {
    TotalHeldAt(m[c.channelId := c], c.channelId);
    assert m[c.channelId := c] - {c.channelId} == m;
  }

  lemma {:induction false} FundEffect(env: FundEnv, s: FundStore, q: FundingRequest)
    requires FundingFine(env, s)
    ensures !Accepted(env, s, q) ==> Fund(env, s, q).1 == s
    ensures Accepted(env, s, q) ==>
              var c := Plan(env, s, q).value;
              && c.channelId !in s.channels && c.totalAmount == Amounts(q.localInputs) + Amounts(q.remoteInputs)
              && Fund(env, s, q).1.channels == s.channels[c.channelId := c]
  {
    FundOutcome(env, s, q);
    if Accepted(env, s, q) {
      Planned(env, s, q);
    }
  }

  lemma {:induction false} HeldStep(env: FundEnv, s: FundStore, q: FundingRequest)
    requires FundingFine(env, s)
    ensures TotalHeld(Fund(env, s, q).1.channels) ==
              TotalHeld(s.channels)
              + if Accepted(env, s, q) then Amounts(q.localInputs) + Amounts(q.remoteInputs) else 0
  {
    FundEffect(env, s, q);
    if Accepted(env, s, q) {
      HeldInsert(s.channels, Plan(env, s, q).value);
    }
  }

  /** The channels hold exactly what the accepted input proofs hold, as mathematical sums. */
  lemma {:induction false} FundingConserves(env: FundEnv, qs: seq<FundingRequest>)
    ensures TotalHeld(Run(env, qs).channels) == AcceptedAmounts(env, qs)
  {
    if qs != [] {
      var front, q := qs[..|qs| - 1], qs[|qs| - 1];
      FundingConserves(env, front);
      RunFine(env, front);
      HeldStep(env, Run(env, front), q);
    }
  }

  // ----- what the commitment ledger is handed -----

  lemma {:induction false} FundedIds(env: FundEnv, id: Text, c: StoredChannel)
    requires ChannelFault(env, id, c).None?
    ensures c.historyRecordId == FundingRecordId(id) && c.historyOutputId == FundingOutputId(id)
  {
  }

  lemma {:induction false} OpenedIds(ledger: CommitmentState.Env, c: StoredChannel)
    requires CommitmentState.OpenState(ledger, c).Success?
    ensures var st := CommitmentState.OpenState(ledger, c).value;
            st.fundingRecordId == c.historyRecordId && st.fundingOutputId == c.historyOutputId
  {
  }

  /** A channel of the funding store opens in the commitment ledger, if it opens, with history ids that no
      commitment's id can equal. */
  lemma {:induction false} FundedOpensOutside(env: FundEnv, qs: seq<FundingRequest>, id: Text, ledger: CommitmentState.Env)
    requires id in Run(env, qs).channels
    requires CommitmentState.OpenState(ledger, Run(env, qs).channels[id]).Success?
    ensures CommitmentReplay.IdsOutsideLedger(CommitmentState.OpenState(ledger, Run(env, qs).channels[id]).value)
  {
    var c := Run(env, qs).channels[id];
    RunFine(env, qs);
    FundedIds(env, id, c);
    OpenedIds(ledger, c);
    FundingIdsOutsideLedger(id);
  }

  /** The channels opened in a run of the ledger are all funded ones. */
  predicate OpensFunded(env: FundEnv, qs: seq<FundingRequest>, ops: seq<CommitmentStore.Op>) {
    forall op <- ops | op.Open? ::
      && op.channel.channelId in Run(env, qs).channels
      && Run(env, qs).channels[op.channel.channelId] == op.channel
  }

  /** In a ledger that opens only funded channels, funding names never meet the ledger's own. */
  lemma {:induction false} FundedLedgerOutside(env: FundEnv, qs: seq<FundingRequest>, ledger: CommitmentState.Env,
                                               ops: seq<CommitmentStore.Op>, id: Text)
    requires OpensFunded(env, qs, ops) && id in CommitmentStore.Run(ledger, ops).channels
    ensures CommitmentReplay.IdsOutsideLedger(CommitmentStore.Run(ledger, ops).channels[id])
  {
    CommitmentStore.NamesFromOpening(ledger, ops, id);
    var st := CommitmentStore.Run(ledger, ops).channels[id];
    var op :| op in ops && op.Open? && op.channel.channelId == id
              && st.fundingRecordId == op.channel.historyRecordId && st.fundingOutputId == op.channel.historyOutputId;
    RunFine(env, qs);
    FundedIds(env, id, op.channel);
    FundingIdsOutsideLedger(id);
  }

  /** In such a ledger an update is applied exactly when its channel is open, the request passes the
      validator, its transaction id is not zero and LDK accepts. */
  lemma {:induction false} FundedLedgerAccepts(env: FundEnv, qs: seq<FundingRequest>, ledger: CommitmentState.Env,
                                               ops: seq<CommitmentStore.Op>, r: CommitmentState.Request)
    requires OpensFunded(env, qs, ops)
    ensures var s := CommitmentStore.Run(ledger, ops);
            CommitmentStore.Apply(ledger, s, r).0.Success? <==>
              && r.channelId in s.channels
              && var st := s.channels[r.channelId];
                 && CommitmentState.ValidateUpdate(ledger, st, r).Success? && r.virtualTxId != ZERO32
                 && CommitmentReplay.LdkAccepts(ledger, st, r, CommitmentState.ValidateUpdate(ledger, st, r).value)
  {
    CommitmentStore.ApplyAcceptance(ledger, ops, r);
    var s := CommitmentStore.Run(ledger, ops);
    if r.channelId in s.channels && CommitmentState.ValidateUpdate(ledger, s.channels[r.channelId], r).Success? {
      var st := s.channels[r.channelId];
      FundedLedgerOutside(env, qs, ledger, ops, r.channelId);
      CommitmentReplay.OutsideIdsFree(ledger, st, r, CommitmentState.ValidateUpdate(ledger, st, r).value);
    }
  }
}
