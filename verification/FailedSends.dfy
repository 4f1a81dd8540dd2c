/** When a send commits, and what a taken HTLC does to one that has. */
module FailedSends {
  import opened ByteBits
  import opened Primitives
  import opened Text
  import opened CommitmentState
  import opened CommitmentLedger
  import opened CommitmentReplay
  import opened Payments
  import CommitmentStore
  import HtlcStore

  /** The amount can leave the channel with this nonce, the update's names are free, and LDK accepts the
      monitor update. */
  predicate CanLeave(env: Env, st: State, amount: u64, nonce: Bytes32) {
    var built := BuildUpdate(env, st, amount, 0, nonce);
    && built.Success? && nonce !in st.usedNonces && built.value.virtualTxId != ZERO32
    && var checked := ValidateUpdate(env, st, built.value);
       && checked.Success? && FreeIds(st, EntryFor(env, st, built.value, checked.value))
       && LdkAccepts(env, st, built.value, checked.value)
  }

  lemma LeavesParsed(env: Env, st: State, amount: u64, nonce: Bytes32)
    requires CanLeave(env, st, amount, nonce)
    ensures env.parseHex(st.channelId).Some?
  {
  }

  lemma {:induction false} BuiltRequestApplies(env: Env, ops: seq<CommitmentStore.Op>, id: Text, amount: u64, nonce: Bytes32)
    requires id in CommitmentStore.Run(env, ops).channels
    requires BuildUpdate(env, CommitmentStore.Run(env, ops).channels[id], amount, 0, nonce).Success?
    ensures var s := CommitmentStore.Run(env, ops);
            var r := BuildUpdate(env, s.channels[id], amount, 0, nonce).value;
            && r.channelId == id
            && (CommitmentStore.Apply(env, s, r).0.Success? <==> CanLeave(env, s.channels[id], amount, nonce))
  {
    var s := CommitmentStore.Run(env, ops);
    CommitmentStore.RunFine(env, ops);
    assert CommitmentStore.ChannelFine(env, id, s.channels[id]);
    BuiltUpdatePasses(env, s.channels[id], amount, 0, nonce);
    CommitmentStore.ApplyAcceptance(env, ops, BuildUpdate(env, s.channels[id], amount, 0, nonce).value);
  }

  /** After any run of the commitment store, exactly when a send gets its update accepted. */
  lemma {:induction false} CommitsExactly(env: PayEnv, ops: seq<CommitmentStore.Op>, l: Ledger, q: PaymentRequest,
                                          offer: Option<Prepared>)
    requires l.commitments == CommitmentStore.Run(env.ledger, ops)
    ensures Commits(env, l, q, offer) <==>
              && RequestRefusal(env, l.commitments, q, offer).None?
              && var st := l.commitments.channels[q.channelId];
                 var terms := HopFor(env, st, q, offer.value);
                 terms.Success? && CanLeave(env.ledger, st, terms.value.amount, q.nonce)
  {
    var s := l.commitments;
    if RequestRefusal(env, s, q, offer).None? {
      Refused(env, s, q, offer);
      var st := s.channels[q.channelId];
      var terms := HopFor(env, st, q, offer.value);
      if terms.Success? {
        var built := BuildUpdate(env.ledger, st, terms.value.amount, 0, q.nonce);
        assert Prepare(env, s, q, offer) == Combine(offer.value, terms, built);
        if built.Success? {
          BuiltRequestApplies(env.ledger, ops, q.channelId, terms.value.amount, q.nonce);
        }
      }
    }
  }

  lemma {:induction false} CommitsWhen(env: PayEnv, ops: seq<CommitmentStore.Op>, l: Ledger, q: PaymentRequest,
                                       offer: Option<Prepared>, terms: HtlcStore.Validation)
    requires l.commitments == CommitmentStore.Run(env.ledger, ops)
    requires RequestRefusal(env, l.commitments, q, offer).None? && q.channelId in l.commitments.channels
    requires offer.Some? && q.now + 4 < U64_LIMIT
    requires var st := l.commitments.channels[q.channelId];
             HopFor(env, st, q, offer.value) == Success(terms)
             && CanLeave(env.ledger, st, terms.amount, q.nonce)
    ensures Commits(env, l, q, offer)
  {
    CommitsExactly(env, ops, l, q, offer);
  }

  /** A send that commits and finds its HTLC taken leaves the HTLC and payment stores as they are. */
  lemma {:induction false} TakenHtlc(env: PayEnv, l: Ledger, q: PaymentRequest, offer: Option<Prepared>)
    requires Commits(env, l, q, offer)
    requires var a := Prepare(env, l.commitments, q, offer).value;
             HtlcStore.HtlcId(env.ledger.sha, q.channelId, a.terms) in l.htlcs
    ensures var sent := Send(env, l, q, offer);
            sent.0 == Failure(HtlcFault(HtlcStore.DuplicateHtlc)) && sent.1.htlcs == l.htlcs && sent.1.payments == l.payments
  {
  }
}
