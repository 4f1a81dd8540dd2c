/** When the calls on the quote store succeed, and how long it passes its own check. */
module QuoteLife {
  import opened ByteBits
  import opened Primitives
  import opened Text
  import opened RfqQuotes
  import opened ChannelBinding
  import IdBinding

  // ----- the parts of the check -----

  /** The terms of a quote, which nothing that happens to it changes. */
  predicate SameQuote(q: Quote, next: Quote) {
    && next.id == q.id && next.peer == q.peer && next.assetId == q.assetId && next.amount == q.amount
    && next.msat == q.msat && next.expiry == q.expiry && next.context == q.context && next.scidAlias == q.scidAlias
    && next.domain == q.domain && next.createdAt == q.createdAt
  }

  lemma {:induction false} FineNext(env: QuoteEnv, scids: set<u64>, id: Text, q: Quote, next: Quote)
    requires QuoteFine(env, scids, id, q) && SameQuote(q, next)
    ensures QuoteFine(env, scids, id, next) <==> TimesFine(env.blank, next)
  {
  }

  lemma {:induction false} AllFineNext(env: QuoteEnv, scids: set<u64>, quotes: map<Text, Quote>, id: Text, next: Quote)
    requires AllFine(env, scids, quotes) && id in quotes && SameQuote(quotes[id], next)
    ensures AllFine(env, scids, quotes[id := next]) <==> TimesFine(env.blank, next)
  {
    FineNext(env, scids, id, quotes[id], next);
    assert id in quotes[id := next];
  }

  lemma {:induction false} StaysLive(quotes: map<Text, Quote>, aliases: map<u64, Text>, id: Text, next: Quote)
    requires AliasIndex(quotes, aliases) && LiveDomainsApart(quotes) && id in quotes && SameQuote(quotes[id], next)
    requires Live(quotes[id]) && Live(next)
    ensures AliasIndex(quotes[id := next], aliases) && LiveDomainsApart(quotes[id := next])
  {
  }

  lemma {:induction false} LeavesLive(quotes: map<Text, Quote>, aliases: map<u64, Text>, id: Text, next: Quote)
    requires AliasIndex(quotes, aliases) && LiveDomainsApart(quotes) && id in quotes && SameQuote(quotes[id], next)
    requires Live(quotes[id]) && !Live(next)
    ensures AliasIndex(quotes[id := next], aliases - {next.scidAlias}) && LiveDomainsApart(quotes[id := next])
  {
    var after, rest := quotes[id := next], aliases - {next.scidAlias};
    forall x <- after | Live(after[x])
      ensures after[x].scidAlias in rest && rest[after[x].scidAlias] == x
    {
      assert x != id && quotes[x] == after[x];
    }
  }

  lemma {:induction false} UsedSame(quotes: map<Text, Quote>, used: map<Text, Text>, id: Text, next: Quote)
    requires UsedIndex(quotes, used) && id in quotes && SameQuote(quotes[id], next)
    requires !quotes[id].status.Used? && !next.status.Used?
    ensures UsedIndex(quotes[id := next], used)
  {
  }

  lemma {:induction false} UsedMore(quotes: map<Text, Quote>, used: map<Text, Text>, id: Text, next: Quote)
    requires UsedIndex(quotes, used) && id in quotes && SameQuote(quotes[id], next)
    requires !quotes[id].status.Used? && next.status.Used? && next.domain !in used
    ensures UsedIndex(quotes[id := next], used[next.domain := id])
  {
  }

  /** A live quote that is rejected or expires leaves the store sound without its alias. */
  lemma {:induction false} EndsSound(env: QuoteEnv, s: Quotes, id: Text, next: Quote)
    requires Sound(env, s) && id in s.quotes && Live(s.quotes[id]) && SameQuote(s.quotes[id], next)
    requires !Live(next) && !next.status.Used? && TimesFine(env.blank, next)
    ensures Sound(env, s.(quotes := s.quotes[id := next], aliases := s.aliases - {next.scidAlias}))
  {
    AllFineNext(env, s.scids, s.quotes, id, next);
    assert QuoteFine(env, s.scids, id, s.quotes[id]);
    LeavesLive(s.quotes, s.aliases, id, next);
    UsedSame(s.quotes, s.used, id, next);
  }

  /** ... and so does one that is used, with its replay domain entered. */
  lemma {:induction false} UsedSound(env: QuoteEnv, s: Quotes, id: Text, next: Quote)
    requires Sound(env, s) && id in s.quotes && Live(s.quotes[id]) && SameQuote(s.quotes[id], next)
    requires next.status.Used? && TimesFine(env.blank, next) && next.domain !in s.used
    ensures Sound(env, s.(quotes := s.quotes[id := next], aliases := s.aliases - {next.scidAlias},
                          used := s.used[next.domain := id]))
  {
    AllFineNext(env, s.scids, s.quotes, id, next);
    assert QuoteFine(env, s.scids, id, s.quotes[id]);
    LeavesLive(s.quotes, s.aliases, id, next);
    UsedMore(s.quotes, s.used, id, next);
  }

  // ----- calls on a sound store -----

  /** In a sound store a quote is accepted exactly when it is requested, in time, and its replay domain unused;
      only its status and the time change, and the store stays sound. */
  lemma {:induction false} AcceptExactly(env: QuoteEnv, s: Quotes, id: Text, now: u64)
    requires Sound(env, s)
    ensures AcceptQuote(env, s, id, now).0.Success? <==>
              && id in s.quotes && now <= s.quotes[id].expiry && s.quotes[id].status.Requested?
              && s.quotes[id].domain !in s.used
    ensures Sound(env, AcceptQuote(env, s, id, now).1)
    ensures RefusalKeeps(s, AcceptQuote(env, s, id, now))
    ensures AcceptQuote(env, s, id, now).0.Success? ==>
              AcceptQuote(env, s, id, now).1 ==
                s.(quotes := s.quotes[id := s.quotes[id].(status := Accepted, acceptedAt := Some(now))])
  {
    if id in s.quotes && s.quotes[id].status.Requested? {
      var next := s.quotes[id].(status := Accepted, acceptedAt := Some(now));
      assert QuoteFine(env, s.scids, id, s.quotes[id]);
      AllFineNext(env, s.scids, s.quotes, id, next);
      StaysLive(s.quotes, s.aliases, id, next);
      UsedSame(s.quotes, s.used, id, next);
    }
  }

  /** A refused call leaves the store as it is. */
  predicate RefusalKeeps<T>(s: Quotes, answer: (Result<T, QuoteError>, Quotes)) {
    answer.0.Failure? ==> answer.1 == s
  }

  /** ... rejected exactly when it is live and a reason is given; it keeps its terms, the time and the reason. */
  lemma {:induction false} RejectExactly(env: QuoteEnv, s: Quotes, id: Text, now: u64, reason: Text)
    requires Sound(env, s) && (env.blank(env.trim(reason)) ==> env.blank(reason))
    ensures RejectQuote(env, s, id, now, reason).0.Success? <==>
              !env.blank(reason) && id in s.quotes && Live(s.quotes[id])
    ensures Sound(env, RejectQuote(env, s, id, now, reason).1)
    ensures RefusalKeeps(s, RejectQuote(env, s, id, now, reason))
    ensures RejectQuote(env, s, id, now, reason).0.Success? ==>
              var q, next := s.quotes[id], RejectQuote(env, s, id, now, reason).1;
              && SameQuote(q, next.quotes[id])
              && next.quotes == s.quotes[id := next.quotes[id]] && next.scids == s.scids && next.used == s.used
              && next.quotes[id].status.Rejected? && next.quotes[id].rejectedAt == Some(now)
              && next.quotes[id].reason == Some(env.trim(reason))
  {
    if id in s.quotes && Live(s.quotes[id]) && !env.blank(reason) {
      var next := s.quotes[id].(status := Rejected, rejectedAt := Some(now), reason := Some(env.trim(reason)));
      assert QuoteFine(env, s.scids, id, s.quotes[id]);
      EndsSound(env, s, id, next);
    }
  }

  /** ... expired exactly when it is live and its time is over; it keeps its terms and the time. */
  lemma {:induction false} ExpireExactly(env: QuoteEnv, s: Quotes, id: Text, now: u64)
    requires Sound(env, s)
    ensures ExpireQuote(env, s, id, now).0.Success? <==>
              id in s.quotes && Live(s.quotes[id]) && s.quotes[id].expiry < now
    ensures Sound(env, ExpireQuote(env, s, id, now).1)
    ensures RefusalKeeps(s, ExpireQuote(env, s, id, now))
    ensures ExpireQuote(env, s, id, now).0.Success? ==>
              var q, next := s.quotes[id], ExpireQuote(env, s, id, now).1;
              && SameQuote(q, next.quotes[id])
              && next.quotes == s.quotes[id := next.quotes[id]] && next.scids == s.scids && next.used == s.used
              && next.quotes[id].status.Expired? && next.quotes[id].expiredAt == Some(now)
  {
    if id in s.quotes && Live(s.quotes[id]) {
      var next := s.quotes[id].(status := Expired, expiredAt := Some(now));
      assert QuoteFine(env, s.scids, id, s.quotes[id]);
      EndsSound(env, s, id, next);
    }
  }

  lemma {:induction false} UseSound(env: QuoteEnv, s: Quotes, id: Text, now: u64)
    requires Sound(env, s)
    ensures UseQuote(env, s, id, now).0.Success? <==>
              && id in s.quotes && now <= s.quotes[id].expiry && s.quotes[id].status.Accepted?
              && s.quotes[id].domain !in s.used
    ensures Sound(env, UseQuote(env, s, id, now).1) && RefusalKeeps(s, UseQuote(env, s, id, now))
  {
    if id in s.quotes && s.quotes[id].status.Accepted? && s.quotes[id].domain !in s.used {
      var next := s.quotes[id].(status := Used, usedAt := Some(now));
      assert QuoteFine(env, s.scids, id, s.quotes[id]);
      UsedSound(env, s, id, next);
    }
  }

  /** What a grant says of the quote it is for. */
  predicate GrantTells(grant: Grant, id: Text, q: Quote) {
    && grant.peer == q.peer && grant.domain == q.domain
    && grant.authorization.quoteId == id && grant.authorization.assetId == q.assetId
    && grant.authorization.amount == q.amount && grant.authorization.msat == q.msat
    && grant.authorization.invoiceContext == q.context && grant.authorization.scidAlias == q.scidAlias
  }

  /** ... and used exactly when it is accepted, in time, and its replay domain unused: the grant repeats its
      terms, the domain is used for it from then on, and nothing changes but this quote. */
  lemma {:induction false} UseExactly(env: QuoteEnv, s: Quotes, id: Text, now: u64)
    requires Sound(env, s)
    ensures UseQuote(env, s, id, now).0.Success? <==>
              && id in s.quotes && now <= s.quotes[id].expiry && s.quotes[id].status.Accepted?
              && s.quotes[id].domain !in s.used
    ensures Sound(env, UseQuote(env, s, id, now).1) && RefusalKeeps(s, UseQuote(env, s, id, now))
    ensures UseQuote(env, s, id, now).0.Success? ==>
              var q, (grant, next) := s.quotes[id], UseQuote(env, s, id, now);
              && GrantTells(grant.value, id, q) && SameQuote(q, next.quotes[id])
              && next.quotes == s.quotes[id := next.quotes[id]] && next.scids == s.scids
              && next.used == s.used[q.domain := id]
              && next.quotes[id].status.Used? && next.quotes[id].usedAt == Some(now)
  {
    UseSound(env, s, id, now);
    if id in s.quotes {
      assert QuoteFine(env, s.scids, id, s.quotes[id]);
    }
  }

  /** The alias of some quote, finished ones included. */
  predicate AliasKept(s: Quotes, scid: u64) {
    exists id <- s.quotes :: s.quotes[id].scidAlias == scid
  }

  /** A real channel's id is registered exactly when no quote has it as an alias, not even one that is
      finished: then the call fails, with the id registered all the same and the store no longer sound. */
  lemma {:induction false} RegisterExactly(env: QuoteEnv, s: Quotes, scid: u64)
    requires Sound(env, s)
    ensures RegisterScid(env, s, scid).0.Success? <==> !AliasKept(s, scid)
    ensures Sound(env, RegisterScid(env, s, scid).1) <==> scid in s.aliases || !AliasKept(s, scid)
    ensures RegisterScid(env, s, scid).1 == if scid in s.aliases then s else s.(scids := s.scids + {scid})
  {
    var next := s.(scids := s.scids + {scid});
    if scid in s.aliases {
      assert s.quotes[s.aliases[scid]].scidAlias == scid;
    } else if AliasKept(s, scid) {
      var id :| id in s.quotes && s.quotes[id].scidAlias == scid;
      assert !QuoteFine(env, next.scids, id, next.quotes[id]);
    } else {
      assert AllFine(env, s.scids, s.quotes);
      forall id <- next.quotes
        ensures QuoteFine(env, next.scids, id, next.quotes[id])
      {
      }
    }
  }

  // ----- requests -----

  predicate QuoteSized(q: Quote) {
    Sized(q.peer) && Sized(q.domain)
  }

  /** Every quote is under the id of its terms. This holds of every store, sound or not. */
  predicate Keyed(env: QuoteEnv, quotes: map<Text, Quote>) {
    forall id <- quotes :: BindingId(env.sha, quotes[id]) == id && QuoteSized(quotes[id])
  }

  /** The quote a request asks for, when it is in order and an alias is left. */
  function Offered(env: QuoteEnv, s: Quotes, r: QuoteRequest): Option<Quote> {
    if RequestFault(env, s, r).Some? then None
    else
      var a := AliasFor(env, s, r);
      if a.None? then None else Some(NewQuote(env, r, a.value))
  }

  /** The quote that is already under the id of the one asked for, with the bytes both ids are taken of. */
  function RequestCollision(env: QuoteEnv, s: Quotes, r: QuoteRequest): (Bytes, Bytes) {
    var q := Offered(env, s, r);
    if q.None? || q.value.id !in s.quotes then ([], [])
    else (Concat(IdBinding.PartsOf(s.quotes[q.value.id])), Concat(IdBinding.PartsOf(q.value)))
  }

  lemma {:induction false} OfferedFine(env: QuoteEnv, s: Quotes, r: QuoteRequest)
    requires Offered(env, s, r).Some?
    ensures var q := Offered(env, s, r).value;
            && QuoteFine(env, s.scids, q.id, q) && q.status.Requested? && q.scidAlias !in s.aliases
            && q.scidAlias !in s.scids && q.domain == r.domain && q.peer == r.peer
            && r.domain !in s.used && !DomainLive(s, r.domain)
  {
  }

  lemma {:induction false} RequestIs(env: QuoteEnv, s: Quotes, r: QuoteRequest)
    ensures RequestQuote(env, s, r) ==
              var q := Offered(env, s, r);
              if q.None? then (RequestQuote(env, s, r).0, s)
              else Checked(env, s.(aliases := s.aliases[q.value.scidAlias := q.value.id],
                                   quotes := s.quotes[q.value.id := q.value]), q.value)
    ensures Offered(env, s, r).None? ==> RequestQuote(env, s, r).0.Failure?
  {
  }

  /** The place of the new quote is free: no quote is there, or one that was rejected or has expired. */
  predicate Vacant(s: Quotes, id: Text) {
    id in s.quotes ==> !Live(s.quotes[id]) && !s.quotes[id].status.Used?
  }

  lemma {:induction false} AliasEnters(quotes: map<Text, Quote>, aliases: map<u64, Text>, q: Quote)
    requires AliasIndex(quotes, aliases) && Live(q) && q.scidAlias !in aliases
    ensures AliasIndex(quotes[q.id := q], aliases[q.scidAlias := q.id]) <==>
              (q.id in quotes ==> !Live(quotes[q.id]))
  {
    var next, index := quotes[q.id := q], aliases[q.scidAlias := q.id];
    assert next[q.id] == q;
    if q.id in quotes && Live(quotes[q.id]) {
      var before := quotes[q.id].scidAlias;
      assert aliases[before] == q.id;
      assert index[before] == q.id;
    }
  }

  lemma {:induction false} UsedEnters(quotes: map<Text, Quote>, used: map<Text, Text>, q: Quote)
    requires UsedIndex(quotes, used) && q.status.Requested?
    ensures UsedIndex(quotes[q.id := q], used) <==> (q.id in quotes ==> !quotes[q.id].status.Used?)
  {
    var next := quotes[q.id := q];
    assert next[q.id] == q;
    if q.id in quotes && quotes[q.id].status.Used? {
      assert used[quotes[q.id].domain] == q.id;
    }
  }

  lemma {:induction false} DomainEnters(quotes: map<Text, Quote>, q: Quote)
    requires LiveDomainsApart(quotes) && forall id <- quotes | Live(quotes[id]) :: quotes[id].domain != q.domain
    ensures LiveDomainsApart(quotes[q.id := q])
  {
  }

  lemma {:induction false} FineEnters(env: QuoteEnv, scids: set<u64>, quotes: map<Text, Quote>, q: Quote)
    requires AllFine(env, scids, quotes) && QuoteFine(env, scids, q.id, q)
    ensures AllFine(env, scids, quotes[q.id := q])
  {
  }

  lemma {:induction false} EntersSound(env: QuoteEnv, s: Quotes, q: Quote)
    requires Sound(env, s) && QuoteFine(env, s.scids, q.id, q) && q.status.Requested?
    requires q.scidAlias !in s.aliases && q.domain !in s.used && !DomainLive(s, q.domain)
    ensures Sound(env, s.(aliases := s.aliases[q.scidAlias := q.id], quotes := s.quotes[q.id := q])) <==> Vacant(s, q.id)
  {
    assert AllFine(env, s.scids, s.quotes);
    FineEnters(env, s.scids, s.quotes, q);
    AliasEnters(s.quotes, s.aliases, q);
    UsedEnters(s.quotes, s.used, q);
    DomainEnters(s.quotes, q);
  }

  /** In a sound store a request is served exactly when it is in order, an alias is left, and the place of its
      id is vacant; otherwise the store stays as it is, except that a quote in its place is overwritten. */
  lemma {:induction false} RequestExactly(env: QuoteEnv, s: Quotes, r: QuoteRequest)
    requires Sound(env, s)
    ensures RequestQuote(env, s, r).0.Success? <==> Offered(env, s, r).Some? && Vacant(s, Offered(env, s, r).value.id)
    ensures Sound(env, RequestQuote(env, s, r).1) <==> Offered(env, s, r).Some? ==> Vacant(s, Offered(env, s, r).value.id)
  {
    RequestIs(env, s, r);
    if Offered(env, s, r).Some? {
      OfferedFine(env, s, r);
      EntersSound(env, s, Offered(env, s, r).value);
    }
  }

  /** A place that is not vacant is that of a quote with another replay domain: two sets of terms under one id. */
  lemma {:induction false} TakenCollides(env: QuoteEnv, s: Quotes, r: QuoteRequest)
    requires Sound(env, s) && Keyed(env, s.quotes) && Sized(r.peer) && Sized(r.domain)
    requires Offered(env, s, r).Some? && !Vacant(s, Offered(env, s, r).value.id)
    ensures IsCollision(env.sha, RequestCollision(env, s, r))
  {
    OfferedFine(env, s, r);
    var q := Offered(env, s, r).value;
    var before := s.quotes[q.id];
    assert before.domain != q.domain;
    IdBinding.QuoteIdBinds(env.sha, before, q);
  }

  /** A request is in order exactly when it names a peer and an unused replay domain, asks for something, expires
      in the future, and its price fits. */
  lemma {:induction false} RequestInOrder(env: QuoteEnv, s: Quotes, r: QuoteRequest)
    ensures RequestFault(env, s, r).None? <==>
              && !env.blank(r.peer) && !env.blank(r.domain) && r.amount != 0 && r.now < r.expiry
              && r.domain !in s.used && (forall id <- s.quotes | Live(s.quotes[id]) :: s.quotes[id].domain != r.domain)
              && 100 * r.amount < U64_LIMIT
  {
    assert DomainLive(s, r.domain) <==>
        exists id <- s.quotes :: Live(s.quotes[id]) && s.quotes[id].domain == r.domain;
  }

  /** The alias is the first of the ten thousand from the seeded one on that is neither a real channel's id nor a
      live quote's alias. */
  lemma {:induction false} FirstFree(s: Quotes, a: nat, tries: nat, b: nat)
    ensures FreeAlias(s, a, tries) == Some(b) <==>
              a <= b < a + tries && !Taken(s, b) && forall x | a <= x < b :: Taken(s, x)
    decreases tries
  {
    if tries > 0 && Taken(s, a) {
      FirstFree(s, a + 1, tries - 1, b);
    }
  }

  /** The seeded alias: the first eight bytes of the seed, halved, with the base bit set. */
  lemma {:induction false} SeededAlias(seed: Bytes32)
    ensures ALIAS_BASE <= AliasStart(seed) < 2 * ALIAS_BASE
    ensures AliasStart(seed) % ALIAS_BASE == FromBe(seed[..8]) / 2 % ALIAS_BASE
  {
    FromBeBound(seed[..8]);
    Pow256Eight();
  }

  // ----- what soundness says of one quote -----

  /** A quote whose terms were changed under its id does not pass the check, or two preimages collide. */
  lemma {:induction false} TamperedUnsound(env: QuoteEnv, s: Quotes, id: Text, q: Quote)
    requires Sound(env, s) && id in s.quotes && !IdBinding.SameTerms(s.quotes[id], q)
    requires QuoteSized(s.quotes[id]) && QuoteSized(q)
    ensures || !Sound(env, s.(quotes := s.quotes[id := q]))
            || IsCollision(env.sha, (Concat(IdBinding.PartsOf(s.quotes[id])), Concat(IdBinding.PartsOf(q))))
  {
    var t := s.(quotes := s.quotes[id := q]);
    if Sound(env, t) {
      assert QuoteFine(env, s.scids, id, s.quotes[id]) && QuoteFine(env, t.scids, id, t.quotes[id]);
      IdBinding.QuoteIdBinds(env.sha, s.quotes[id], q);
    }
  }

  /** The times of a quote tell its status: it was used exactly when it has a time of use, and accepted before
      that; only expired and used quotes have a time of expiry, and a rejected one has its time and reason. */
  lemma {:induction false} TimesTell(env: QuoteEnv, s: Quotes, id: Text)
    requires Sound(env, s) && id in s.quotes
    ensures var q := s.quotes[id];
            && (q.usedAt.Some? <==> q.status.Used?) && (q.usedAt.Some? ==> q.acceptedAt.Some?)
            && (q.status.Accepted? <==> Live(q) && q.acceptedAt.Some?)
            && (q.expiredAt.Some? && q.usedAt.None? <==> q.status.Expired?)
            && (q.status.Rejected? ==> q.rejectedAt.Some? && q.reason.Some? && !env.blank(q.reason.value))
            && (Live(q) ==> q.rejectedAt.None?)
  {
    assert QuoteFine(env, s.scids, id, s.quotes[id]);
  }

  // ----- any call -----

  predicate OpSized(op: QuoteOp) {
    op.RequestOp? ==> Sized(op.request.peer) && Sized(op.request.domain)
  }

  /** What is left of a text that is not blank is not blank. */
  ghost predicate Trims(env: QuoteEnv) {
    forall t: Text :: env.blank(env.trim(t)) ==> env.blank(t)
  }

  predicate Succeeds(env: QuoteEnv, s: Quotes, op: QuoteOp) {
    match op
    case RequestOp(r) => RequestQuote(env, s, r).0.Success?
    case AcceptOp(id, now) => AcceptQuote(env, s, id, now).0.Success?
    case RejectOp(id, now, reason) => RejectQuote(env, s, id, now, reason).0.Success?
    case ExpireOp(id, now) => ExpireQuote(env, s, id, now).0.Success?
    case AuthorizeOp(id, now) => UseQuote(env, s, id, now).0.Success?
    case RegisterOp(scid) => RegisterScid(env, s, scid).0.Success?
  }

  /** The call registers the alias of a quote that is finished. */
  predicate Hits(s: Quotes, op: QuoteOp) {
    op.RegisterOp? && op.scid !in s.aliases && AliasKept(s, op.scid)
  }

  function OpCollision(env: QuoteEnv, s: Quotes, op: QuoteOp): (Bytes, Bytes) {
    if op.RequestOp? then RequestCollision(env, s, op.request) else ([], [])
  }

  /** Of all calls on a sound store, only registering the alias of a finished quote leaves it unsound, unless
      two quotes collide. */
  lemma {:induction false} StepSound(env: QuoteEnv, s: Quotes, op: QuoteOp)
    requires Sound(env, s) && Keyed(env, s.quotes) && OpSized(op) && Trims(env)
    ensures IsCollision(env.sha, OpCollision(env, s, op)) || (Sound(env, Perform(env, s, op)) <==> !Hits(s, op))
  {
    match op
    case RequestOp(r) =>
      RequestExactly(env, s, r);
      if Offered(env, s, r).Some? && !Vacant(s, Offered(env, s, r).value.id) {
        TakenCollides(env, s, r);
      }
    case AcceptOp(id, now) => AcceptExactly(env, s, id, now);
    case RejectOp(id, now, reason) => RejectExactly(env, s, id, now, reason);
    case ExpireOp(id, now) => ExpireExactly(env, s, id, now);
    case AuthorizeOp(id, now) => UseExactly(env, s, id, now);
    case RegisterOp(scid) => RegisterExactly(env, s, scid);
  }

  // ----- a store that is broken -----

  /** A finished quote's alias is registered as a real channel's id. */
  predicate Broken(s: Quotes) {
    exists id <- s.quotes :: !Live(s.quotes[id]) && s.quotes[id].scidAlias in s.scids
  }

  lemma {:induction false} HitBreaks(env: QuoteEnv, s: Quotes, op: QuoteOp)
    requires Sound(env, s) && Hits(s, op)
    ensures Broken(Perform(env, s, op))
  {
    var id :| id in s.quotes && s.quotes[id].scidAlias == op.scid;
    var next := s.(scids := s.scids + {op.scid});
    assert !Live(s.quotes[id]);
    RegisterExactly(env, s, op.scid);
    assert !Live(next.quotes[id]) && next.quotes[id].scidAlias in next.scids;
  }

  lemma {:induction false} BrokenUnsound(env: QuoteEnv, s: Quotes)
    requires Broken(s)
    ensures !Sound(env, s)
  {
    var id :| id in s.quotes && !Live(s.quotes[id]) && s.quotes[id].scidAlias in s.scids;
    assert !QuoteFine(env, s.scids, id, s.quotes[id]);
  }

  /** A change to a live quote leaves the store broken. */
  lemma {:induction false} BrokenUpdate(s: Quotes, id: Text, next: Quote, t: Quotes)
    requires Broken(s) && id in s.quotes && Live(s.quotes[id])
    requires t.quotes == s.quotes[id := next] && t.scids == s.scids
    ensures Broken(t)
  {
    var x :| x in s.quotes && !Live(s.quotes[x]) && s.quotes[x].scidAlias in s.scids;
    assert x != id && x in t.quotes && t.quotes[x] == s.quotes[x];
  }

  /** A new quote leaves it broken too: over the finished quote it would need the same id for another alias. */
  lemma {:induction false} BrokenRequest(env: QuoteEnv, s: Quotes, r: QuoteRequest)
    requires Broken(s) && Keyed(env, s.quotes) && Sized(r.peer) && Sized(r.domain)
    ensures || IsCollision(env.sha, RequestCollision(env, s, r))
            || (Broken(RequestQuote(env, s, r).1) && RequestQuote(env, s, r).0.Failure?)
  {
    RequestIs(env, s, r);
    if Offered(env, s, r).Some? {
      OfferedFine(env, s, r);
      var q := Offered(env, s, r).value;
      var next := s.(aliases := s.aliases[q.scidAlias := q.id], quotes := s.quotes[q.id := q]);
      var x :| x in s.quotes && !Live(s.quotes[x]) && s.quotes[x].scidAlias in s.scids;
      if x == q.id {
        IdBinding.QuoteIdBinds(env.sha, s.quotes[x], q);
      } else {
        assert x in next.quotes && next.quotes[x] == s.quotes[x];
        BrokenUnsound(env, next);
      }
    }
  }

  lemma {:induction false} BrokenLife(env: QuoteEnv, s: Quotes, op: QuoteOp)
    requires Broken(s) && !op.RequestOp?
    ensures Broken(Perform(env, s, op)) && !Succeeds(env, s, op)
  {
    match op
    case AcceptOp(id, now) =>
      if id in s.quotes && s.quotes[id].status.Requested? {
        var next := s.quotes[id].(status := Accepted, acceptedAt := Some(now));
        var t := s.(quotes := s.quotes[id := next]);
        BrokenUpdate(s, id, next, t);
        BrokenUnsound(env, t);
      }
    case RejectOp(id, now, reason) =>
      if id in s.quotes && Live(s.quotes[id]) {
        var next := s.quotes[id].(status := Rejected, rejectedAt := Some(now), reason := Some(env.trim(reason)));
        var t := s.(quotes := s.quotes[id := next], aliases := s.aliases - {next.scidAlias});
        BrokenUpdate(s, id, next, t);
        BrokenUnsound(env, t);
      }
    case ExpireOp(id, now) =>
      if id in s.quotes && Live(s.quotes[id]) {
        var next := s.quotes[id].(status := Expired, expiredAt := Some(now));
        var t := s.(quotes := s.quotes[id := next], aliases := s.aliases - {next.scidAlias});
        BrokenUpdate(s, id, next, t);
        BrokenUnsound(env, t);
      }
    case AuthorizeOp(id, now) =>
      if id in s.quotes && s.quotes[id].status.Accepted? {
        var next := s.quotes[id].(status := Used, usedAt := Some(now));
        var t := s.(quotes := s.quotes[id := next], aliases := s.aliases - {next.scidAlias},
                    used := s.used[next.domain := next.id]);
        BrokenUpdate(s, id, next, t);
        BrokenUnsound(env, t);
      }
    case RegisterOp(scid) =>
      var x :| x in s.quotes && !Live(s.quotes[x]) && s.quotes[x].scidAlias in s.scids;
      var t := s.(scids := s.scids + {scid});
      assert !Live(t.quotes[x]) && t.quotes[x].scidAlias in t.scids;
      BrokenUnsound(env, t);
    case RequestOp(_) =>
  }

  /** The same quotes, each with its terms. */
  predicate SameQuotes(quotes: map<Text, Quote>, next: map<Text, Quote>) {
    next.Keys == quotes.Keys && forall id <- quotes :: SameQuote(quotes[id], next[id])
  }

  lemma {:induction false} OneAmended(quotes: map<Text, Quote>, id: Text, q: Quote)
    requires id in quotes && SameQuote(quotes[id], q)
    ensures SameQuotes(quotes, quotes[id := q])
  {
  }

  lemma {:induction false} NoneAmended(quotes: map<Text, Quote>)
    ensures SameQuotes(quotes, quotes)
  {
  }

  /** A call other than a request changes at most the status, the times and the reason of one quote. */
  lemma {:induction false} TermsStay(env: QuoteEnv, s: Quotes, op: QuoteOp)
    requires !op.RequestOp?
    ensures SameQuotes(s.quotes, Perform(env, s, op).quotes)
  {
    NoneAmended(s.quotes);
    match op
    case AcceptOp(id, now) =>
      if id in s.quotes {
        OneAmended(s.quotes, id, s.quotes[id].(status := Accepted, acceptedAt := Some(now)));
      }
    case RejectOp(id, now, reason) =>
      if id in s.quotes {
        OneAmended(s.quotes, id, s.quotes[id].(status := Rejected, rejectedAt := Some(now), reason := Some(env.trim(reason))));
      }
    case ExpireOp(id, now) =>
      if id in s.quotes {
        OneAmended(s.quotes, id, s.quotes[id].(status := Expired, expiredAt := Some(now)));
      }
    case AuthorizeOp(id, now) =>
      if id in s.quotes {
        OneAmended(s.quotes, id, s.quotes[id].(status := Used, usedAt := Some(now)));
      }
    case RegisterOp(_) =>
    case RequestOp(_) =>
  }

  lemma {:induction false} KeyedStays(env: QuoteEnv, s: Quotes, op: QuoteOp)
    requires Keyed(env, s.quotes) && OpSized(op)
    ensures Keyed(env, Perform(env, s, op).quotes)
  {
    if op.RequestOp? {
      RequestIs(env, s, op.request);
      if Offered(env, s, op.request).Some? {
        OfferedFine(env, s, op.request);
        KeyedEnters(env, s.quotes, Offered(env, s, op.request).value);
      }
    } else {
      TermsStay(env, s, op);
      KeyedSame(env, s.quotes, Perform(env, s, op).quotes);
    }
  }

  lemma {:induction false} KeyedSame(env: QuoteEnv, quotes: map<Text, Quote>, next: map<Text, Quote>)
    requires Keyed(env, quotes) && SameQuotes(quotes, next)
    ensures Keyed(env, next)
  {
    forall id <- next
      ensures BindingId(env.sha, next[id]) == id && QuoteSized(next[id])
    {
      assert SameQuote(quotes[id], next[id]);
    }
  }

  lemma {:induction false} KeyedEnters(env: QuoteEnv, quotes: map<Text, Quote>, q: Quote)
    requires Keyed(env, quotes) && BindingId(env.sha, q) == q.id && QuoteSized(q)
    ensures Keyed(env, quotes[q.id := q])
  {
  }

  // ----- runs -----

  function RunQuotes(env: QuoteEnv, ops: seq<QuoteOp>): Quotes {
    if ops == [] then NO_QUOTES else Perform(env, RunQuotes(env, ops[..|ops| - 1]), ops[|ops| - 1])
  }

  /** Some call of the run registered the alias of a quote that was finished by then. */
  predicate Hit(env: QuoteEnv, ops: seq<QuoteOp>) {
    ops != [] && (Hit(env, ops[..|ops| - 1]) || Hits(RunQuotes(env, ops[..|ops| - 1]), ops[|ops| - 1]))
  }

  /** Where two quotes of the run first collide, if they do. */
  function QuoteCollision(env: QuoteEnv, ops: seq<QuoteOp>): (Bytes, Bytes) {
    if ops == [] then ([], [])
    else
      var earlier := QuoteCollision(env, ops[..|ops| - 1]);
      if IsCollision(env.sha, earlier) then earlier
      else OpCollision(env, RunQuotes(env, ops[..|ops| - 1]), ops[|ops| - 1])
  }

  predicate AllOpsSized(ops: seq<QuoteOp>) {
    forall op <- ops :: OpSized(op)
  }

  lemma {:induction false} RunKeyed(env: QuoteEnv, ops: seq<QuoteOp>)
    requires AllOpsSized(ops)
    ensures Keyed(env, RunQuotes(env, ops).quotes)
  {
    if ops != [] {
      RunKeyed(env, ops[..|ops| - 1]);
      KeyedStays(env, RunQuotes(env, ops[..|ops| - 1]), ops[|ops| - 1]);
    }
  }

  /** Over every run of calls, refused ones included: the store passes its check if and only if no call
      registered the alias of a quote that was finished by then; after such a call no call ever succeeds again.
      Or else two quotes collide. */
  lemma {:induction false} RunSoundExactly(env: QuoteEnv, ops: seq<QuoteOp>)
    requires AllOpsSized(ops) && Trims(env)
    ensures || IsCollision(env.sha, QuoteCollision(env, ops))
            || ((Sound(env, RunQuotes(env, ops)) <==> !Hit(env, ops)) && (Hit(env, ops) ==> Broken(RunQuotes(env, ops))))
  {
    if ops != [] {
      var front, op := ops[..|ops| - 1], ops[|ops| - 1];
      assert op in ops;
      RunSoundExactly(env, front);
      RunKeyed(env, front);
      if !IsCollision(env.sha, QuoteCollision(env, front)) {
        RunStep(env, RunQuotes(env, front), op);
      }
    } else {
      assert Sound(env, NO_QUOTES);
    }
  }

  lemma {:induction false} RunStep(env: QuoteEnv, s: Quotes, op: QuoteOp)
    requires Keyed(env, s.quotes) && OpSized(op) && Trims(env) && (Sound(env, s) || Broken(s))
    ensures || IsCollision(env.sha, OpCollision(env, s, op))
            || (Broken(s) && Broken(Perform(env, s, op)) && !Sound(env, Perform(env, s, op)) && !Succeeds(env, s, op))
            || (!Broken(s) && Sound(env, s) && Hits(s, op) && Broken(Perform(env, s, op)) && !Sound(env, Perform(env, s, op)))
            || (!Broken(s) && Sound(env, s) && !Hits(s, op) && Sound(env, Perform(env, s, op)))
  {
    if Broken(s) {
      if op.RequestOp? {
        BrokenRequest(env, s, op.request);
      } else {
        BrokenLife(env, s, op);
      }
      if !IsCollision(env.sha, OpCollision(env, s, op)) {
        BrokenUnsound(env, Perform(env, s, op));
      }
    } else {
      StepSound(env, s, op);
      if Hits(s, op) {
        HitBreaks(env, s, op);
        BrokenUnsound(env, Perform(env, s, op));
      }
    }
  }

  /** Nothing succeeds after the alias of a finished quote was registered. */
  lemma {:induction false} NothingAfterHit(env: QuoteEnv, ops: seq<QuoteOp>, op: QuoteOp)
    requires AllOpsSized(ops) && OpSized(op) && Trims(env) && Hit(env, ops)
    ensures || IsCollision(env.sha, QuoteCollision(env, ops + [op]))
            || !Succeeds(env, RunQuotes(env, ops), op)
  {
    assert (ops + [op])[..|ops|] == ops;
    RunSoundExactly(env, ops);
    RunKeyed(env, ops);
    if !IsCollision(env.sha, QuoteCollision(env, ops)) {
      RunStep(env, RunQuotes(env, ops), op);
    }
  }
}
