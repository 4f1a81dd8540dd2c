/** When the ledger accepts an update: the history of a channel always replays, so nothing but the
    request itself and LDK can refuse. */
module CommitmentReplay {
  import opened ByteBits
  import opened Primitives
  import opened Text
  import opened Channels
  import opened CommitmentState
  import opened CommitmentLedger
  import R = ProofReplay

  // ----- the ids of the history -----

  lemma LedgerIds(st: State, number: u64, digest: Bytes32)
    ensures LedgerPrefix() <= UpdateRecordId(st, number) && LedgerPrefix() <= UpdateOutputId(st, number, digest)
    ensures UpdateRecordId(st, number) != FundingInputId(st)
    ensures UpdateOutputId(st, number, digest) != FundingInputId(st)
  {
    var u, o := Ascii("asset-commitment-update:"), Ascii("asset-commitment-output:");
    var i := Ascii("asset-commitment-funding-input:");
    ConcatStart([u, st.channelId, COLON, Decimal(number)]);
    ConcatStart([o, st.channelId, COLON, Decimal(number), COLON, Hex(digest)]);
    ConcatStart([i, st.channelId]);
    assert u[17] == 'u' as int && o[17] == 'o' as int && i[17] == 'f' as int;
    var p := LedgerPrefix();
    assert p == u[..17] && p == o[..17];
  }

  lemma UpdateRecordIdInjective(st: State, m: u64, n: u64)
    requires UpdateRecordId(st, m) == UpdateRecordId(st, n)
    ensures m == n
  {
    var u := Ascii("asset-commitment-update:");
    var x, y := [u, st.channelId, COLON, Decimal(m)], [u, st.channelId, COLON, Decimal(n)];
    ConcatInjective(x, y, 3);
    assert x[3] == y[3];
    DecimalInjective(m, n);
  }

  lemma UpdateOutputIdInjective(st: State, m: u64, d: Bytes32, n: u64, e: Bytes32)
    requires UpdateOutputId(st, m, d) == UpdateOutputId(st, n, e)
    ensures m == n && d == e
  {
    var o := Ascii("asset-commitment-output:");
    var x := [o, st.channelId, COLON, Decimal(m), COLON, Hex(d)];
    var y := [o, st.channelId, COLON, Decimal(n), COLON, Hex(e)];
    ConcatInjective(x, y, 3);
    assert x[3] == y[3] && x[5] == y[5];
    DecimalInjective(m, n);
    HexInjective(d, e);
  }

  // ----- the order of the commitments -----

  lemma InOrderInsert(m: map<u64, Commitment>, n: u64, k: Commitment)
    requires forall x <- m :: x < n
    ensures InOrder(m[n := k]) == InOrder(m) + [k]
  {
    var m' := m[n := k];
    assert n in m'.Keys;
    assert Greatest(m'.Keys) == n;
    assert m' - {n} == m;
  }

  lemma {:induction false} InOrderFrom(m: map<u64, Commitment>, i: nat) returns (n: u64)
    requires i < |InOrder(m)|
    ensures n in m && InOrder(m)[i] == m[n]
    decreases |m|
  {
    var last := Greatest(m.Keys);
    assert (m - {last}).Keys == m.Keys - {last};
    if i == |InOrder(m)| - 1 {
      n := last;
    } else {
      n := InOrderFrom(m - {last}, i);
    }
  }

  // ----- the history replayed -----

  /** What the replay of a channel's records has reached after the commitments `cs`. */
  ghost predicate Replayed(env: Env, st: State, cs: seq<Commitment>, p: R.Progress) {
    var tip := TipOf(st, cs);
    && st.total != 0 && env.rules.outpointOk(st.fundingOutpoint)
    && (forall id <- p.seen :: id == FundingInputId(st) || id == st.fundingRecordId || exists k <- cs :: k.recordId == id)
    && (forall id <- p.outputs ::
          id == FundingInputId(st) || id == st.fundingOutputId || exists k <- cs :: k.outputId == id)
    && tip in p.outputs && p.outputs[tip].output == WholeOutput(env, st, tip, R.ChannelLocked)
    && p.outputs[tip].kind == (if cs == [] then R.ChannelFunding else R.CommitmentUpdate)
    && tip in p.accepted
    && st.fundingRecordId in p.seen && st.fundingOutputId in p.outputs
  }

  lemma FundingReplayed(env: Env, st: State, p: R.Progress)
    requires R.Replay(env.rules, [IssuanceRecord(env, st), FundingRecord(env, st)]) == Success(p)
    ensures Replayed(env, st, [], p) && p.accepted[st.fundingOutputId].kind == R.ChannelFunding
  {
    var i, f := IssuanceRecord(env, st), FundingRecord(env, st);
    var both := [i, f];
    assert both[..1] == [i] && [i][..0] == [];
    assert R.Replay(env.rules, []) == Success(R.NOTHING_REPLAYED);
    assert R.Replay(env.rules, [i]) == R.Step(env.rules, R.NOTHING_REPLAYED, i);
    R.IssuanceStep(env.rules, R.NOTHING_REPLAYED, i);
    var q := R.Step(env.rules, R.NOTHING_REPLAYED, i).value;
    assert R.Step(env.rules, q, f) == Success(p);
    R.MoveStep(env.rules, q, f);
  }

  /** What the record of an entry adds to the replay. */
  function UpdateExplained(env: Env, st: State, h: HistoryEntry): R.Explanation {
    R.Explanation(WholeOutput(env, st, h.outputId, R.ChannelLocked), h.recordId, R.CommitmentUpdate, h.transitionId,
                  [R.Prior(h.priorOutputId, R.ChannelLocked, st.total, st.fundingOutpoint)])
  }

  /** The next update record is replayed exactly when its ids are new and its transition is not zero. */
  lemma NextReplayed(env: Env, st: State, cs: seq<Commitment>, p: R.Progress, h: HistoryEntry)
    requires Replayed(env, st, cs, p) && h.priorOutputId == TipOf(st, cs)
    ensures var step := R.Step(env.rules, p, UpdateRecord(env, st, h));
            step.Success? <==>
              && h.recordId != [] && h.recordId !in p.seen && h.transitionId != ZERO32
              && h.outputId != [] && h.outputId !in p.outputs
    ensures var step := R.Step(env.rules, p, UpdateRecord(env, st, h));
            var e := UpdateExplained(env, st, h);
            step.Success? ==>
              step.value == R.Progress(p.seen + {h.recordId}, p.outputs[h.outputId := e],
                                       (p.accepted - {h.priorOutputId})[h.outputId := e])
  {
    R.MoveStep(env.rules, p, UpdateRecord(env, st, h));
  }

  lemma ReplayedGrows(env: Env, st: State, cs: seq<Commitment>, p: R.Progress, k: Commitment)
    requires Replayed(env, st, cs, p) && k.priorOutputId == TipOf(st, cs)
    requires R.Step(env.rules, p, UpdateRecord(env, st, EntryOf(k))).Success?
    ensures Replayed(env, st, cs + [k], R.Step(env.rules, p, UpdateRecord(env, st, EntryOf(k))).value)
  {
    NextReplayed(env, st, cs, p, EntryOf(k));
    var q := R.Step(env.rules, p, UpdateRecord(env, st, EntryOf(k))).value;
    var cs' := cs + [k];
    assert k in cs' && forall x <- cs :: x in cs';
    forall id <- q.seen
      ensures id == FundingInputId(st) || id == st.fundingRecordId || exists x <- cs' :: x.recordId == id
    {
      if id != k.recordId {
        assert id in p.seen;
      }
    }
    forall id <- q.outputs
      ensures id == FundingInputId(st) || id == st.fundingOutputId || exists x <- cs' :: x.outputId == id
    {
      if id != k.outputId {
        assert id in p.outputs;
      }
    }
  }

  lemma {:induction false} ReplaySnoc(rules: R.Rules, records: seq<R.Record>, last: R.Record)
    requires R.Replay(rules, records + [last]).Success?
    ensures R.Replay(rules, records).Success?
    ensures R.Replay(rules, records + [last]) == R.Step(rules, R.Replay(rules, records).value, last)
  {
    var all := records + [last];
    assert all[..|all| - 1] == records;
  }

  lemma {:induction false} RecordsSnoc(env: Env, st: State, cs: seq<Commitment>)
    requires cs != [] && CommitmentRecords(env, st, cs).Success?
    ensures var n := |cs| - 1;
            var earlier := CommitmentRecords(env, st, cs[..n]);
            && earlier.Success? && Linked(env, st, TipOf(st, cs[..n]), cs[n])
            && CommitmentRecords(env, st, cs).value == earlier.value + [UpdateRecord(env, st, EntryOf(cs[n]))]
  {
  }

  /** The history without its last commitment, and the replay of it. */
  lemma {:induction false} ReplayBefore(env: Env, st: State, cs: seq<Commitment>, p: R.Progress)
    requires cs != [] && CommitmentRecords(env, st, cs).Success?
    requires R.Replay(env.rules, CommitmentRecords(env, st, cs).value) == Success(p)
    ensures var front, k := cs[..|cs| - 1], cs[|cs| - 1];
            var records := CommitmentRecords(env, st, front);
            && records.Success? && k.priorOutputId == TipOf(st, front)
            && R.Replay(env.rules, records.value).Success?
            && R.Step(env.rules, R.Replay(env.rules, records.value).value, UpdateRecord(env, st, EntryOf(k))) == Success(p)
  {
    var front, k := cs[..|cs| - 1], cs[|cs| - 1];
    RecordsSnoc(env, st, cs);
    LinkedPrior(env, st, TipOf(st, front), k);
    ReplaySnoc(env.rules, CommitmentRecords(env, st, front).value, UpdateRecord(env, st, EntryOf(k)));
  }

  lemma {:induction false} NoCommitmentsReplayed(env: Env, st: State, p: R.Progress)
    requires R.Replay(env.rules, CommitmentRecords(env, st, []).value) == Success(p)
    ensures Replayed(env, st, [], p)
  {
    FundingReplayed(env, st, p);
  }

  lemma {:induction false} HistoryGrows(env: Env, st: State, cs: seq<Commitment>, q: R.Progress, p: R.Progress)
    requires cs != [] && Replayed(env, st, cs[..|cs| - 1], q)
    requires cs[|cs| - 1].priorOutputId == TipOf(st, cs[..|cs| - 1])
    requires R.Step(env.rules, q, UpdateRecord(env, st, EntryOf(cs[|cs| - 1]))) == Success(p)
    ensures Replayed(env, st, cs, p)
  {
    ReplayedGrows(env, st, cs[..|cs| - 1], q, cs[|cs| - 1]);
    assert cs[..|cs| - 1] + [cs[|cs| - 1]] == cs;
  }

  lemma {:induction false} HistoryReplayed(env: Env, st: State, cs: seq<Commitment>, p: R.Progress)
    requires CommitmentRecords(env, st, cs).Success?
    requires R.Replay(env.rules, CommitmentRecords(env, st, cs).value) == Success(p)
    ensures Replayed(env, st, cs, p)
  {
    if cs == [] {
      NoCommitmentsReplayed(env, st, p);
    } else {
      ReplayBefore(env, st, cs, p);
      var q := R.Replay(env.rules, CommitmentRecords(env, st, cs[..|cs| - 1]).value).value;
      HistoryReplayed(env, st, cs[..|cs| - 1], q);
      HistoryGrows(env, st, cs, q, p);
    }
  }

  lemma LinkedPrior(env: Env, st: State, prior: Text, k: Commitment)
    requires Linked(env, st, prior, k)
    ensures k.priorOutputId == prior
  {
  }

  /** A channel opens only at commitment number zero. */
  lemma OpensAtZero(env: Env, c: StoredChannel)
    requires OpenState(env, c).Success? && CheckState(env, OpenState(env, c).value).None?
    ensures c.monitor.commitmentNumber == 0
  {
    var st := OpenState(env, c).value;
    assert InOrder(st.commitments) == [];
    var records := [IssuanceRecord(env, st), FundingRecord(env, st)];
    assert Records(env, st) == Success(records);
    assert CheckHistory(env, st).None?;
    FundingReplayed(env, st, R.Replay(env.rules, records).value);
  }

  // ----- the next update -----

  /** A commitment carries the ids its number gives it. */
  ghost predicate Named(env: Env, st: State, k: Commitment) {
    && k.recordId == UpdateRecordId(st, k.number)
    && exists d: Bytes32 :: k.outputId == UpdateOutputId(st, k.number, d)
  }

  lemma {:induction false} RecordsNamed(env: Env, st: State, cs: seq<Commitment>, i: nat)
    requires CommitmentRecords(env, st, cs).Success? && i < |cs|
    ensures Named(env, st, cs[i])
  {
    var n := |cs| - 1;
    if i < n {
      RecordsNamed(env, st, cs[..n], i);
    } else {
      var k := cs[n];
      assert Linked(env, st, TipOf(st, cs[..n]), k);
      var d := Digest(env.sha, HistoryParts(st, k.number, k.local, k.remote, k.stateDigest, k.virtualTxId,
                                            TipOf(st, cs[..n])));
      assert k.outputId == UpdateOutputId(st, k.number, d);
    }
  }

  /** A checked state's history replays up to its latest output. */
  lemma {:induction false} CheckedHistory(env: Env, st: State)
    requires CheckHistory(env, st).None?
    ensures var cs := InOrder(st.commitments);
            && CommitmentRecords(env, st, cs).Success? && Records(env, st) == CommitmentRecords(env, st, cs)
            && st.latestOutputId == TipOf(st, cs)
            && R.Replay(env.rules, Records(env, st).value).Success?
            && Replayed(env, st, cs, R.Replay(env.rules, Records(env, st).value).value)
  {
    var cs := InOrder(st.commitments);
    HistoryReplayed(env, st, cs, R.Replay(env.rules, Records(env, st).value).value);
  }

  lemma TrackedNumbers(env: Env, c: StoredChannel, log: seq<Request>, st: State, i: nat)
    requires CommitmentsTrack(c, log, st) && i < |InOrder(st.commitments)|
    ensures 1 <= InOrder(st.commitments)[i].number <= |log|
  {
    var n := InOrderFrom(st.commitments, i);
    assert Recorded(c, log, n - 1, st.commitments[n]);
  }

  predicate IdsOutsideLedger(st: State) {
    OutsideLedger(st.fundingRecordId) && OutsideLedger(st.fundingOutputId)
  }

  /** The names of an update are not those the channel was funded with. */
  predicate FreeIds(st: State, h: HistoryEntry) {
    h.recordId != st.fundingRecordId && h.outputId != st.fundingOutputId
  }

  /** The ids of the next update are new to the history, but for those the funding took. */
  lemma {:induction false} NextIdsNew(env: Env, c: StoredChannel, log: seq<Request>, st: State, p: R.Progress, number: u64, digest: Bytes32)
    requires CommitmentsTrack(c, log, st) && number > |log|
    requires CommitmentRecords(env, st, InOrder(st.commitments)).Success?
    requires Replayed(env, st, InOrder(st.commitments), p)
    ensures UpdateRecordId(st, number) != [] && UpdateOutputId(st, number, digest) != []
    ensures UpdateRecordId(st, number) in p.seen <==> UpdateRecordId(st, number) == st.fundingRecordId
    ensures UpdateOutputId(st, number, digest) in p.outputs <==> UpdateOutputId(st, number, digest) == st.fundingOutputId
  {
    var cs := InOrder(st.commitments);
    LedgerIds(st, number, digest);
    forall k <- cs
      ensures k.recordId != UpdateRecordId(st, number) && k.outputId != UpdateOutputId(st, number, digest)
    {
      var i :| 0 <= i < |cs| && cs[i] == k;
      TrackedNumbers(env, c, log, st, i);
      RecordsNamed(env, st, cs, i);
      if k.recordId == UpdateRecordId(st, number) {
        UpdateRecordIdInjective(st, k.number, number);
      }
      var d: Bytes32 :| k.outputId == UpdateOutputId(st, k.number, d);
      if k.outputId == UpdateOutputId(st, number, digest) {
        UpdateOutputIdInjective(st, k.number, d, number, digest);
      }
    }
  }

  function EntryFor(env: Env, st: State, r: Request, s: Snapshot): HistoryEntry {
    HistoryOf(env, st, s.number, s.local, s.remote, s.stateDigest, r.virtualTxId, st.latestOutputId)
  }

  lemma EntryForFields(env: Env, st: State, r: Request, s: Snapshot)
    ensures var h := EntryFor(env, st, r, s);
            && h.priorOutputId == st.latestOutputId && h.transitionId == r.virtualTxId
            && h.recordId == UpdateRecordId(st, s.number)
            && exists d: Bytes32 :: h.outputId == UpdateOutputId(st, s.number, d)
  {
    var d := Digest(env.sha, HistoryParts(st, s.number, s.local, s.remote, s.stateDigest, r.virtualTxId,
                                          st.latestOutputId));
    assert EntryFor(env, st, r, s).outputId == UpdateOutputId(st, s.number, d);
  }

  /** Funding names outside the ledger's own are never in the way. */
  lemma OutsideIdsFree(env: Env, st: State, r: Request, s: Snapshot)
    requires IdsOutsideLedger(st)
    ensures FreeIds(st, EntryFor(env, st, r, s))
  {
    EntryForFields(env, st, r, s);
    var d: Bytes32 :| EntryFor(env, st, r, s).outputId == UpdateOutputId(st, s.number, d);
    LedgerIds(st, s.number, d);
  }

  /** The history with the update appended replays, and explains it, exactly when the transaction id is
      not zero and the update's names are not the funding's. */
  lemma NextExplained(env: Env, c: StoredChannel, log: seq<Request>, st: State, r: Request, s: Snapshot)
    requires CommitmentsTrack(c, log, st) && st.latest == |log|
    requires CheckHistory(env, st).None? && s.number == |log| + 1
    ensures var h := EntryFor(env, st, r, s);
            var replay := R.Replay(env.rules, Records(env, st).value + [UpdateRecord(env, st, h)]);
            && (replay.Success? <==> r.virtualTxId != ZERO32 && FreeIds(st, h))
            && (replay.Success? ==>
                  h.outputId in replay.value.accepted
                  && replay.value.accepted[h.outputId] == UpdateExplained(env, st, h))
  {
    CheckedHistory(env, st);
    EntryForFields(env, st, r, s);
    var h := EntryFor(env, st, r, s);
    var d: Bytes32 :| h.outputId == UpdateOutputId(st, s.number, d);
    var records := Records(env, st).value;
    var p := R.Replay(env.rules, records).value;
    NextIdsNew(env, c, log, st, p, s.number, d);
    NextReplayed(env, st, InOrder(st.commitments), p, h);
    var all := records + [UpdateRecord(env, st, h)];
    assert all[..|all| - 1] == records;
  }

  lemma NextHistory(env: Env, c: StoredChannel, log: seq<Request>, st: State, r: Request, s: Snapshot)
    requires CommitmentsTrack(c, log, st) && st.latest == |log|
    requires CheckHistory(env, st).None? && s.number == |log| + 1 && CheckSplit(st, s.local, s.remote).None?
    ensures ExplainUpdate(env, st, r, s).Success? <==> r.virtualTxId != ZERO32 && FreeIds(st, EntryFor(env, st, r, s))
  {
    NextExplained(env, c, log, st, r, s);
    CheckedHistory(env, st);
  }

  // ----- the state after it -----

  /** Linking and recording depend on nothing an update touches. */
  lemma LinkedFrame(env: Env, st: State, next: State, prior: Text, k: Commitment)
    requires SameChannel(st, next)
    ensures Linked(env, next, prior, k) == Linked(env, st, prior, k)
    ensures UpdateRecord(env, next, EntryOf(k)) == UpdateRecord(env, st, EntryOf(k))
  {
  }

  lemma {:induction false} RecordsFrame(env: Env, st: State, next: State, cs: seq<Commitment>)
    requires SameChannel(st, next)
    ensures CommitmentRecords(env, next, cs) == CommitmentRecords(env, st, cs)
  {
    if cs != [] {
      RecordsFrame(env, st, next, cs[..|cs| - 1]);
      LinkedFrame(env, st, next, TipOf(st, cs[..|cs| - 1]), cs[|cs| - 1]);
    }
  }

  lemma {:induction false} RecordsGrow(env: Env, st: State, cs: seq<Commitment>, k: Commitment)
    requires CommitmentRecords(env, st, cs).Success?
    requires Linked(env, st, TipOf(st, cs), k) && CheckSplit(st, k.local, k.remote).None?
    ensures CommitmentRecords(env, st, cs + [k]) ==
              Success(CommitmentRecords(env, st, cs).value + [UpdateRecord(env, st, EntryOf(k))])
  {
    assert (cs + [k])[..|cs|] == cs;
  }

  /** The records of the state with the update entered: those before, and the update's. */
  lemma {:induction false} NextRecords(env: Env, st: State, r: Request, s: Snapshot, m: Monitor)
    requires CheckHistory(env, st).None? && CheckSplit(st, s.local, s.remote).None?
    requires forall x <- st.commitments :: x < s.number
    ensures var h := EntryFor(env, st, r, s);
            && Records(env, st).Success?
            && Records(env, Entered(st, r, s, h, m)) == Success(Records(env, st).value + [UpdateRecord(env, st, h)])
  {
    var h := EntryFor(env, st, r, s);
    var k := CommitmentFor(r, s, h);
    var next := Entered(st, r, s, h, m);
    var cs := InOrder(st.commitments);
    CheckedHistory(env, st);
    InOrderInsert(st.commitments, s.number, k);
    RecordsGrow(env, st, cs, k);
    RecordsFrame(env, st, next, cs + [k]);
  }

  /** A history that replays to the explanation of its last entry passes the check. */
  lemma {:induction false} ExplainedChecks(env: Env, st: State, records: seq<R.Record>, h: HistoryEntry)
    requires Records(env, st) == Success(records) && NamesLatest(st, h) && st.latest != 0
    requires var replay := R.Replay(env.rules, records);
             && replay.Success? && h.outputId in replay.value.accepted
             && replay.value.accepted[h.outputId] == UpdateExplained(env, st, h)
    ensures CheckHistory(env, st).None?
  {
  }

  lemma {:induction false} UnreplayedFails(env: Env, st: State, records: seq<R.Record>)
    requires Records(env, st) == Success(records) && R.Replay(env.rules, records).Failure?
    ensures CheckHistory(env, st).Some?
  {
  }

  /** The history of the state with the update entered passes its check exactly when it replays. */
  lemma {:induction false} NextHistoryChecked(env: Env, c: StoredChannel, log: seq<Request>, st: State, r: Request,
                                              s: Snapshot, m: Monitor)
    requires CommitmentsTrack(c, log, st) && st.latest == |log|
    requires CheckHistory(env, st).None? && s.number == |log| + 1 && CheckSplit(st, s.local, s.remote).None?
    ensures CheckHistory(env, Entered(st, r, s, EntryFor(env, st, r, s), m)).None? <==>
              r.virtualTxId != ZERO32 && FreeIds(st, EntryFor(env, st, r, s))
  {
    var h := EntryFor(env, st, r, s);
    NextRecords(env, st, r, s, m);
    NextExplained(env, c, log, st, r, s);
    EntryForFields(env, st, r, s);
    if r.virtualTxId != ZERO32 && FreeIds(st, h) {
      ExplainedChecks(env, Entered(st, r, s, h, m), Records(env, st).value + [UpdateRecord(env, st, h)], h);
    } else {
      UnreplayedFails(env, Entered(st, r, s, h, m), Records(env, st).value + [UpdateRecord(env, st, h)]);
    }
  }

  lemma {:induction false} CommitmentsChecked(env: Env, st: State, next: State, n: u64, k: Commitment)
    requires SameChannel(st, next)
    requires forall x <- st.commitments :: x < n
    ensures CheckCommitments(env, next, st.commitments[n := k]) ==
              if CheckCommitments(env, st, st.commitments).Some? then CheckCommitments(env, st, st.commitments)
              else CheckCommitment(env, next, n, k)
  {
    var m' := st.commitments[n := k];
    assert n in m'.Keys;
    assert Greatest(m'.Keys) == n;
    assert m' - {n} == st.commitments;
    CommitmentsFrame(env, st, next, st.commitments);
  }

  lemma {:induction false} CommitmentsFrame(env: Env, st: State, next: State, m: map<u64, Commitment>)
    requires SameChannel(st, next)
    ensures CheckCommitments(env, next, m) == CheckCommitments(env, st, m)
    decreases |m|
  {
    if m != map[] {
      var last := Greatest(m.Keys);
      assert (m - {last}).Keys == m.Keys - {last};
      CommitmentsFrame(env, st, next, m - {last});
    }
  }

  /** What LDK is asked about an update: to digest its blob and to accept it. */
  predicate LdkAccepts(env: Env, st: State, r: Request, s: Snapshot) {
    var channel := env.parseHex(st.channelId);
    && channel.Some?
    && var fields := AuxFields(channel.value, st.assetId, s.number, s.local, s.remote, s.stateDigest,
                               st.monitor.root, r.nonce, r.signature);
       env.auxDigest(fields).Some? && env.auxAccepts(fields)
  }

  lemma MonitorChecked(env: Env, st: State, r: Request, s: Snapshot, h: HistoryEntry)
    requires s.stateDigest == StateDigest(env.sha, st.channelId, st.assetId, s.number, s.local, s.remote)
    ensures var m := MonitorFor(env, st, r, s);
            (m.Success? && CheckMonitor(env, Entered(st, r, s, h, m.value)).None?) <==> LdkAccepts(env, st, r, s)
  {
  }

  lemma TrackedIndexed(env: Env, c: StoredChannel, log: seq<Request>, st: State)
    requires Tracks(env, c, log, st)
    ensures NoncesIndexed(st) && st.latest !in st.revoked && CheckSplit(st, st.local, st.remote).None?
  {
    forall x <- st.usedNonces
      ensures st.usedNonces[x] in st.commitments && st.commitments[st.usedNonces[x]].nonce == x
    {
      var n := st.usedNonces[x];
      assert Recorded(c, log, n - 1, st.commitments[n]);
    }
  }

  /** The parts of the check on a state. */
  lemma {:induction false} StateChecked(env: Env, st: State)
    ensures CheckState(env, st).None? <==>
              && CheckSplit(st, st.local, st.remote).None?
              && st.latest !in st.revoked
              && CheckMonitor(env, st).None?
              && NoncesIndexed(st)
              && CheckCommitments(env, st, st.commitments).None?
              && CheckHistory(env, st).None?
  {
  }

  /** The state with an accepted update entered passes every check but LDK's. */
  lemma EnteredChecked(env: Env, c: StoredChannel, log: seq<Request>, st: State, r: Request, m: Monitor)
    requires Tracks(env, c, log, st) && CheckState(env, st).None?
    requires ValidateUpdate(env, st, r).Success? && r.virtualTxId != ZERO32 && m.root == st.monitor.root
    requires FreeIds(st, EntryFor(env, st, r, ValidateUpdate(env, st, r).value))
    ensures var s := ValidateUpdate(env, st, r).value;
            var next := Entered(st, r, s, EntryFor(env, st, r, s), m);
            CheckState(env, next).None? <==> CheckMonitor(env, next).None?
  {
    var s := ValidateUpdate(env, st, r).value;
    var h := EntryFor(env, st, r, s);
    var next := Entered(st, r, s, h, m);
    StateChecked(env, st);
    StateChecked(env, next);
    Validated(env, st, r);
    EnteredKeeps(env, c, log, st, r, h, m);
    TrackedIndexed(env, c, log + [r], next);
    NextHistoryChecked(env, c, log, st, r, s, m);
    CommitmentsChecked(env, st, next, s.number, CommitmentFor(r, s, h));
  }

  /** The ledger accepts an update exactly when the request passes the validator, its transaction id is
      not zero, its names are not the funding's and LDK accepts the new monitor blob: nothing else in the
      proof history ever stands in the way. */
  lemma UpdateAcceptance(env: Env, c: StoredChannel, log: seq<Request>, st: State, r: Request)
    requires Tracks(env, c, log, st) && CheckState(env, st).None?
    ensures (UpdateState(env, st, r).Success? && CheckState(env, UpdateState(env, st, r).value.0).None?) <==>
              && ValidateUpdate(env, st, r).Success? && r.virtualTxId != ZERO32
              && FreeIds(st, EntryFor(env, st, r, ValidateUpdate(env, st, r).value))
              && LdkAccepts(env, st, r, ValidateUpdate(env, st, r).value)
  {
    if UpdateState(env, st, r).Success? {
      Updated(env, st, r);
    }
    if ValidateUpdate(env, st, r).Success? {
      var s := ValidateUpdate(env, st, r).value;
      var h := EntryFor(env, st, r, s);
      Validated(env, st, r);
      StateChecked(env, st);
      NextHistory(env, c, log, st, r, s);
      if r.virtualTxId != ZERO32 && FreeIds(st, h) {
        Explained(env, st, r, s);
        MonitorChecked(env, st, r, s, h);
        var m := MonitorFor(env, st, r, s);
        if m.Success? {
          UpdatedTo(env, st, r);
          EnteredChecked(env, c, log, st, r, m.value);
        }
      }
    }
  }
}
