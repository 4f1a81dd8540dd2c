/** The store of RFQ quotes: requested, accepted, and used at most once per replay domain. */
module RfqQuotes {
  import opened ByteBits
  import opened Primitives
  import opened Text
  import HtlcStore

  const STORE_VERSION: nat := 1
  const MSATS_PER_UNIT: nat := 100
  const ALIAS_BASE: nat := 0x4000_0000_0000_0000
  const ALIAS_TRIES: nat := 10_000

  datatype Status = Requested | Accepted | Rejected | Expired | Used

  datatype Quote = Quote(
    id: Text,
    peer: Text,
    assetId: Bytes32,
    amount: u64,
    msat: u64,
    expiry: u64,
    context: Bytes32,
    scidAlias: u64,
    domain: Text,
    status: Status,
    createdAt: u64,
    acceptedAt: Option<u64>,
    rejectedAt: Option<u64>,
    reason: Option<Text>,
    expiredAt: Option<u64>,
    usedAt: Option<u64>)

  /** Aliases of live quotes and replay domains of used ones are indexed by quote id. */
  datatype Quotes = Quotes(
    version: nat,
    scids: set<u64>,
    aliases: map<u64, Text>,
    used: map<Text, Text>,
    quotes: map<Text, Quote>)

  const NO_QUOTES: Quotes := Quotes(STORE_VERSION, {}, map[], map[], map[])

  datatype QuoteRequest = QuoteRequest(
    peer: Text,
    assetId: Bytes32,
    amount: u64,
    expiry: u64,
    context: Bytes32,
    domain: Text,
    now: u64)

  /** What a used quote allows: the HTLC it authorizes, with the peer and the replay domain. */
  datatype Grant = Grant(peer: Text, domain: Text, authorization: HtlcStore.Authorization)

  datatype QuoteError =
    | UnknownQuote
    | EmptyQuotePeer
    | EmptyReplayDomain
    | EmptyRejectReason
    | ZeroAssetAmount
    | QuoteAmountOverflow
    | QuoteExpired
    | QuoteStillLive
    | QuoteNotRequested(status: Status)
    | QuoteNotAccepted(status: Status)
    | QuoteTerminal(status: Status)
    | ReplayDomainAlreadyUsed(domain: Text)
    | AliasCollidesWithLiveQuote
    | AliasExhausted
    | StoreUnsound

  /** The hash, the trimmed form of a text, and whether that is empty. */
  datatype QuoteEnv = QuoteEnv(sha: Sha256, trim: Text -> Text, blank: Text -> bool)

  // ----- ids -----

  function SeedPreimage(peer: Text, assetId: Bytes32, amount: u64, msat: u64, expiry: u64, context: Bytes32,
                        domain: Text): Bytes
  {
    Concat(SeedParts(peer, assetId, amount, msat, expiry, context, domain))
  }

  function SeedParts(peer: Text, assetId: Bytes32, amount: u64, msat: u64, expiry: u64, context: Bytes32,
                     domain: Text): seq<Bytes>
  {
    [Ascii("tap-ldk:rfq-quote-seed:v1"), Counted(peer), assetId, U64Be(amount), U64Be(msat), U64Be(expiry), context,
     Counted(domain)]
  }

  function QuoteId(sha: Sha256, peer: Text, assetId: Bytes32, amount: u64, msat: u64, expiry: u64, context: Bytes32,
                   scidAlias: u64, domain: Text): (id: Text)
    ensures |id| == 64
  {
    Hex(Digest(sha, QuoteParts(peer, assetId, amount, msat, expiry, context, scidAlias, domain)))
  }

  function QuoteParts(peer: Text, assetId: Bytes32, amount: u64, msat: u64, expiry: u64, context: Bytes32,
                      scidAlias: u64, domain: Text): seq<Bytes>
  {
    [Ascii("tap-ldk:rfq-quote-binding:v1"), Counted(peer), assetId, U64Be(amount), U64Be(msat), U64Be(expiry), context,
     U64Be(scidAlias), Counted(domain)]
  }

  function BindingId(sha: Sha256, q: Quote): Text {
    QuoteId(sha, q.peer, q.assetId, q.amount, q.msat, q.expiry, q.context, q.scidAlias, q.domain)
  }

  // ----- the check on the store -----

  predicate Live(q: Quote) {
    q.status.Requested? || q.status.Accepted?
  }

  predicate TimesFine(blank: Text -> bool, q: Quote) {
    match q.status
    case Requested => q.acceptedAt.None? && q.rejectedAt.None? && q.expiredAt.None? && q.usedAt.None?
    case Accepted => q.acceptedAt.Some? && q.rejectedAt.None? && q.expiredAt.None? && q.usedAt.None?
    case Rejected =>
      q.rejectedAt.Some? && q.reason.Some? && !blank(q.reason.value) && q.expiredAt.None? && q.usedAt.None?
    case Expired => q.expiredAt.Some? && q.usedAt.None?
    case Used => q.acceptedAt.Some? && q.usedAt.Some?
  }

  /** What the check asks of one quote. */
  predicate QuoteFine(env: QuoteEnv, scids: set<u64>, id: Text, q: Quote) {
    && !env.blank(q.peer) && !env.blank(q.domain) && q.amount != 0 && q.msat != 0
    && q.expiry > q.createdAt && q.scidAlias != 0
    && id == q.id && BindingId(env.sha, q) == id && q.scidAlias !in scids
    && TimesFine(env.blank, q)
  }

  /** The index of the aliases of live quotes; no two live quotes share one. */
  predicate AliasIndex(quotes: map<Text, Quote>, aliases: map<u64, Text>) {
    && (forall a <- aliases :: aliases[a] in quotes && Live(quotes[aliases[a]]) && quotes[aliases[a]].scidAlias == a)
    && (forall id <- quotes | Live(quotes[id]) ::
          quotes[id].scidAlias in aliases && aliases[quotes[id].scidAlias] == id)
  }

  /** The index of the replay domains of used quotes; no two used quotes share one. */
  predicate UsedIndex(quotes: map<Text, Quote>, used: map<Text, Text>) {
    && (forall d <- used :: used[d] in quotes && quotes[used[d]].status.Used? && quotes[used[d]].domain == d)
    && (forall id <- quotes | quotes[id].status.Used? :: quotes[id].domain in used && used[quotes[id].domain] == id)
  }

  predicate LiveDomainsApart(quotes: map<Text, Quote>) {
    forall x, y | x in quotes && y in quotes && x != y && Live(quotes[x]) && Live(quotes[y]) ::
      quotes[x].domain != quotes[y].domain
  }

  predicate AllFine(env: QuoteEnv, scids: set<u64>, quotes: map<Text, Quote>) {
    forall id <- quotes :: QuoteFine(env, scids, id, quotes[id])
  }

  predicate Sound(env: QuoteEnv, s: Quotes) {
    && s.version == STORE_VERSION
    && AllFine(env, s.scids, s.quotes)
    && AliasIndex(s.quotes, s.aliases) && UsedIndex(s.quotes, s.used) && LiveDomainsApart(s.quotes)
  }

  /** A changed store: kept as it is, but reported if it does not pass the check. */
  function Checked<T>(env: QuoteEnv, s: Quotes, value: T): (Result<T, QuoteError>, Quotes) {
    if Sound(env, s) then (Success(value), s) else (Failure(StoreUnsound), s)
  }

  // ----- requesting -----

  /** Where the search for an alias starts: the base bit set on the seed's first eight bytes, halved. */
  function AliasStart(seed: Bytes32): (a: nat)
    ensures ALIAS_BASE <= a < 2 * ALIAS_BASE
  {
    FromBeBound(seed[..8]);
    Pow256Eight();
    var x := FromBe(seed[..8]) / 2;
    if x < ALIAS_BASE then x + ALIAS_BASE else x
  }

  predicate Taken(s: Quotes, a: nat) {
    a < U64_LIMIT && (a in s.scids || a in s.aliases)
  }

  /** The first free alias among the next `tries`. */
  function FreeAlias(s: Quotes, a: nat, tries: nat): (r: Option<nat>)
    ensures r.Some? ==> a <= r.value < a + tries && !Taken(s, r.value)
    decreases tries, a, s
  {
    if tries == 0 then None else if !Taken(s, a) then Some(a) else FreeAlias(s, a + 1, tries - 1)
  }

  predicate DomainLive(s: Quotes, domain: Text) {
    exists id <- s.quotes :: Live(s.quotes[id]) && s.quotes[id].domain == domain
  }

  function RequestFault(env: QuoteEnv, s: Quotes, r: QuoteRequest): Option<QuoteError> {
    if env.blank(r.peer) then Some(EmptyQuotePeer)
    else if env.blank(r.domain) then Some(EmptyReplayDomain)
    else if r.amount == 0 then Some(ZeroAssetAmount)
    else if r.expiry <= r.now then Some(QuoteExpired)
    else if r.domain in s.used || DomainLive(s, r.domain) then Some(ReplayDomainAlreadyUsed(r.domain))
    else if r.amount * MSATS_PER_UNIT >= U64_LIMIT then Some(QuoteAmountOverflow)
    else None
  }

  function NewQuote(env: QuoteEnv, r: QuoteRequest, scidAlias: u64): Quote
    requires r.amount * MSATS_PER_UNIT < U64_LIMIT
  {
    var msat := r.amount * MSATS_PER_UNIT;
    Quote(QuoteId(env.sha, r.peer, r.assetId, r.amount, msat, r.expiry, r.context, scidAlias, r.domain), r.peer,
          r.assetId, r.amount, msat, r.expiry, r.context, scidAlias, r.domain, Requested, r.now, None, None, None, None,
          None)
  }

  function AliasFor(env: QuoteEnv, s: Quotes, r: QuoteRequest): (a: Option<u64>)
    requires r.amount * MSATS_PER_UNIT < U64_LIMIT
    ensures a.Some? ==> !Taken(s, a.value) && a.value >= ALIAS_BASE
  {
    var msat := r.amount * MSATS_PER_UNIT;
    var start := AliasStart(env.sha(SeedPreimage(r.peer, r.assetId, r.amount, msat, r.expiry, r.context, r.domain)));
    var found := FreeAlias(s, start, ALIAS_TRIES);
    if found.Some? then Some(found.value) else None
  }

  function RequestQuote(env: QuoteEnv, s: Quotes, r: QuoteRequest): (Result<Quote, QuoteError>, Quotes) {
    if RequestFault(env, s, r).Some? then (Failure(RequestFault(env, s, r).value), s)
    else
      var a := AliasFor(env, s, r);
      if a.None? then (Failure(AliasExhausted), s)
      else
        var q := NewQuote(env, r, a.value);
        Checked(env, s.(aliases := s.aliases[a.value := q.id], quotes := s.quotes[q.id := q]), q)
  }

  // ----- the life of a quote -----

  function AcceptQuote(env: QuoteEnv, s: Quotes, id: Text, now: u64): (Result<Quote, QuoteError>, Quotes) {
    if id !in s.quotes then (Failure(UnknownQuote), s)
    else
      var q := s.quotes[id];
      if now > q.expiry then (Failure(QuoteExpired), s)
      else if !q.status.Requested? then (Failure(QuoteNotRequested(q.status)), s)
      else if q.domain in s.used then (Failure(ReplayDomainAlreadyUsed(q.domain)), s)
      else
        var next := q.(status := Accepted, acceptedAt := Some(now));
        Checked(env, s.(quotes := s.quotes[id := next]), next)
  }

  function RejectQuote(env: QuoteEnv, s: Quotes, id: Text, now: u64, reason: Text): (Result<Quote, QuoteError>, Quotes) {
    if env.blank(reason) then (Failure(EmptyRejectReason), s)
    else if id !in s.quotes then (Failure(UnknownQuote), s)
    else
      var q := s.quotes[id];
      if !Live(q) then (Failure(QuoteTerminal(q.status)), s)
      else
        var next := q.(status := Rejected, rejectedAt := Some(now), reason := Some(env.trim(reason)));
        Checked(env, s.(quotes := s.quotes[id := next], aliases := s.aliases - {q.scidAlias}), next)
  }

  function ExpireQuote(env: QuoteEnv, s: Quotes, id: Text, now: u64): (Result<Quote, QuoteError>, Quotes) {
    if id !in s.quotes then (Failure(UnknownQuote), s)
    else
      var q := s.quotes[id];
      if !Live(q) then (Failure(QuoteTerminal(q.status)), s)
      else if now <= q.expiry then (Failure(QuoteStillLive), s)
      else
        var next := q.(status := Expired, expiredAt := Some(now));
        Checked(env, s.(quotes := s.quotes[id := next], aliases := s.aliases - {q.scidAlias}), next)
  }

  function GrantOf(q: Quote): Grant {
    Grant(q.peer, q.domain, HtlcStore.Authorization(q.id, q.assetId, q.amount, q.msat, q.context, q.scidAlias))
  }

  /** Using an accepted quote: once, and its replay domain with it. */
  function UseQuote(env: QuoteEnv, s: Quotes, id: Text, now: u64): (Result<Grant, QuoteError>, Quotes) {
    if id !in s.quotes then (Failure(UnknownQuote), s)
    else
      var q := s.quotes[id];
      if now > q.expiry then (Failure(QuoteExpired), s)
      else if !q.status.Accepted? then (Failure(QuoteNotAccepted(q.status)), s)
      else if q.domain in s.used then (Failure(ReplayDomainAlreadyUsed(q.domain)), s)
      else
        var next := q.(status := Used, usedAt := Some(now));
        Checked(env, s.(quotes := s.quotes[id := next], aliases := s.aliases - {q.scidAlias},
                        used := s.used[q.domain := q.id]), GrantOf(next))
  }

  function RegisterScid(env: QuoteEnv, s: Quotes, scid: u64): (Result<(), QuoteError>, Quotes) {
    if scid in s.aliases then (Failure(AliasCollidesWithLiveQuote), s)
    else Checked(env, s.(scids := s.scids + {scid}), ())
  }

  class RfqQuoteStore {
    const env: QuoteEnv
    var version: nat
    var scids: set<u64>
    var aliases: map<u64, Text>
    var used: map<Text, Text>
    var quotes: map<Text, Quote>

    function Contents(): Quotes
      reads this
    {
      Quotes(version, scids, aliases, used, quotes)
    }

    constructor (env: QuoteEnv)
      ensures this.env == env && Contents() == NO_QUOTES
    {
      this.env := env;
      version, scids, aliases, used, quotes := STORE_VERSION, {}, map[], map[], map[];
    }

    /** Rebuilds both indexes from the quotes, stopping at the first fault, and compares. */
    method Validate() returns (ok: bool)
      ensures ok <==> Sound(env, Contents())
    {
      if version != STORE_VERSION {
        return false;
      }
      var live: map<u64, Text> := map[];
      var spent: map<Text, Text> := map[];
      var domains: map<Text, Text> := map[];
      var left := quotes.Keys;
      while left != {}
        invariant left <= quotes.Keys
        invariant AllFine(env, scids, quotes - left)
        invariant AliasIndex(quotes - left, live) && UsedIndex(quotes - left, spent)
        invariant DomainIndex(quotes - left, domains)
        decreases |left|
      {
        var id :| id in left;
        var q := quotes[id];
        var seen := quotes - left;
        if !QuoteFine(env, scids, id, q) {
          return false;
        }
        if Live(q) && (q.scidAlias in live || q.domain in domains) {
          LiveTwice(quotes, seen, live, domains, id, aliases);
          return false;
        }
        if q.status.Used? && q.domain in spent {
          UsedTwice(quotes, seen, spent, id, used);
          return false;
        }
        IndexesGrow(seen, live, spent, domains, id, q);
        FineGrows(env, scids, seen, id, q);
        if Live(q) {
          live, domains := live[q.scidAlias := id], domains[q.domain := id];
        } else if q.status.Used? {
          spent := spent[q.domain := id];
        }
        left := left - {id};
        assert quotes - left == seen[id := q];
      }
      assert quotes - left == quotes;
      SoundIndexes(env, Contents(), live, spent, domains);
      return live == aliases && spent == used;
    }

    method Request(r: QuoteRequest) returns (result: Result<Quote, QuoteError>)
      modifies this
      ensures (result, Contents()) == RequestQuote(env, old(Contents()), r)
    {
      var fault := RequestFault(env, Contents(), r);
      if fault.Some? {
        return Failure(fault.value);
      }
      var a := AllocateAlias(r);
      if a.None? {
        return Failure(AliasExhausted);
      }
      var q := NewQuote(env, r, a.value);
      aliases := aliases[a.value := q.id];
      quotes := quotes[q.id := q];
      var ok := Validate();
      result := if ok then Success(q) else Failure(StoreUnsound);
    }

    /** Steps from the seeded alias to the first that is neither a real channel's nor a live quote's. */
    method AllocateAlias(r: QuoteRequest) returns (a: Option<u64>)
      requires r.amount * MSATS_PER_UNIT < U64_LIMIT
      ensures a == AliasFor(env, Contents(), r)
    {
      var msat := r.amount * MSATS_PER_UNIT;
      var start := AliasStart(env.sha(SeedPreimage(r.peer, r.assetId, r.amount, msat, r.expiry, r.context, r.domain)));
      var candidate: nat := start;
      ghost var s := Contents();
      for i := 0 to ALIAS_TRIES
        invariant candidate == start + i
        invariant FreeAlias(s, start, ALIAS_TRIES) == FreeAlias(s, candidate, ALIAS_TRIES - i)
      {
        if candidate !in scids && candidate !in aliases {
          return Some(candidate);
        }
        candidate := candidate + 1;
      }
      return None;
    }

    method Accept(id: Text, now: u64) returns (result: Result<Quote, QuoteError>)
      modifies this
      ensures (result, Contents()) == AcceptQuote(env, old(Contents()), id, now)
    {
      if id !in quotes {
        return Failure(UnknownQuote);
      }
      var q := quotes[id];
      if now > q.expiry {
        return Failure(QuoteExpired);
      }
      if !q.status.Requested? {
        return Failure(QuoteNotRequested(q.status));
      }
      if q.domain in used {
        return Failure(ReplayDomainAlreadyUsed(q.domain));
      }
      var next := q.(status := Accepted, acceptedAt := Some(now));
      quotes := quotes[id := next];
      var ok := Validate();
      result := if ok then Success(next) else Failure(StoreUnsound);
    }

    method Reject(id: Text, now: u64, reason: Text) returns (result: Result<Quote, QuoteError>)
      modifies this
      ensures (result, Contents()) == RejectQuote(env, old(Contents()), id, now, reason)
    {
      if env.blank(reason) {
        return Failure(EmptyRejectReason);
      }
      if id !in quotes {
        return Failure(UnknownQuote);
      }
      var q := quotes[id];
      if !Live(q) {
        return Failure(QuoteTerminal(q.status));
      }
      var next := q.(status := Rejected, rejectedAt := Some(now), reason := Some(env.trim(reason)));
      quotes := quotes[id := next];
      aliases := aliases - {q.scidAlias};
      var ok := Validate();
      result := if ok then Success(next) else Failure(StoreUnsound);
    }

    method Expire(id: Text, now: u64) returns (result: Result<Quote, QuoteError>)
      modifies this
      ensures (result, Contents()) == ExpireQuote(env, old(Contents()), id, now)
    {
      if id !in quotes {
        return Failure(UnknownQuote);
      }
      var q := quotes[id];
      if !Live(q) {
        return Failure(QuoteTerminal(q.status));
      }
      if now <= q.expiry {
        return Failure(QuoteStillLive);
      }
      var next := q.(status := Expired, expiredAt := Some(now));
      quotes := quotes[id := next];
      aliases := aliases - {q.scidAlias};
      var ok := Validate();
      result := if ok then Success(next) else Failure(StoreUnsound);
    }

    method AuthorizeHtlc(id: Text, now: u64) returns (result: Result<Grant, QuoteError>)
      modifies this
      ensures (result, Contents()) == UseQuote(env, old(Contents()), id, now)
    {
      if id !in quotes {
        return Failure(UnknownQuote);
      }
      var q := quotes[id];
      if now > q.expiry {
        return Failure(QuoteExpired);
      }
      if !q.status.Accepted? {
        return Failure(QuoteNotAccepted(q.status));
      }
      if q.domain in used {
        return Failure(ReplayDomainAlreadyUsed(q.domain));
      }
      var next := q.(status := Used, usedAt := Some(now));
      quotes := quotes[id := next];
      aliases := aliases - {q.scidAlias};
      used := used[q.domain := q.id];
      var ok := Validate();
      result := if ok then Success(GrantOf(next)) else Failure(StoreUnsound);
    }

    method Register(scid: u64) returns (result: Result<(), QuoteError>)
      modifies this
      ensures (result, Contents()) == RegisterScid(env, old(Contents()), scid)
    {
      if scid in aliases {
        return Failure(AliasCollidesWithLiveQuote);
      }
      scids := scids + {scid};
      var ok := Validate();
      result := if ok then Success(()) else Failure(StoreUnsound);
    }
  }

  // ----- the indexes -----

  /** Live quotes by replay domain. */
  predicate DomainIndex(quotes: map<Text, Quote>, domains: map<Text, Text>) {
    && (forall d <- domains :: domains[d] in quotes && Live(quotes[domains[d]]) && quotes[domains[d]].domain == d)
    && (forall id <- quotes | Live(quotes[id]) :: quotes[id].domain in domains && domains[quotes[id].domain] == id)
  }

  lemma DomainsMeanApart(quotes: map<Text, Quote>, domains: map<Text, Text>)
    requires DomainIndex(quotes, domains)
    ensures LiveDomainsApart(quotes)
  {
  }

  lemma AliasIndexUnique(quotes: map<Text, Quote>, a: map<u64, Text>, b: map<u64, Text>)
    requires AliasIndex(quotes, a)
    ensures AliasIndex(quotes, b) <==> a == b
  {
    if AliasIndex(quotes, b) {
      assert forall x <- a :: x in b && b[x] == a[x];
      assert forall x <- b :: x in a && a[x] == b[x];
    }
  }

  lemma UsedIndexUnique(quotes: map<Text, Quote>, a: map<Text, Text>, b: map<Text, Text>)
    requires UsedIndex(quotes, a)
    ensures UsedIndex(quotes, b) <==> a == b
  {
    if UsedIndex(quotes, b) {
      assert forall x <- a :: x in b && b[x] == a[x];
      assert forall x <- b :: x in a && a[x] == b[x];
    }
  }

  /** With the three indexes of all quotes rebuilt, it is left to compare two of them. */
  lemma {:induction false} SoundIndexes(env: QuoteEnv, s: Quotes, live: map<u64, Text>, spent: map<Text, Text>,
                                        domains: map<Text, Text>)
    requires s.version == STORE_VERSION && AllFine(env, s.scids, s.quotes)
    requires AliasIndex(s.quotes, live) && UsedIndex(s.quotes, spent) && DomainIndex(s.quotes, domains)
    ensures Sound(env, s) <==> live == s.aliases && spent == s.used
  {
    DomainsMeanApart(s.quotes, domains);
    AliasIndexUnique(s.quotes, live, s.aliases);
    UsedIndexUnique(s.quotes, spent, s.used);
  }

  lemma {:induction false} FineGrows(env: QuoteEnv, scids: set<u64>, seen: map<Text, Quote>, id: Text, q: Quote)
    requires AllFine(env, scids, seen) && QuoteFine(env, scids, id, q)
    ensures AllFine(env, scids, seen[id := q])
  {
  }

  lemma LiveTwice(quotes: map<Text, Quote>, seen: map<Text, Quote>, live: map<u64, Text>, domains: map<Text, Text>,
                  id: Text, aliases: map<u64, Text>)
    requires id in quotes && id !in seen && (forall x <- seen :: x in quotes && seen[x] == quotes[x])
    requires AliasIndex(seen, live) && DomainIndex(seen, domains) && Live(quotes[id])
    requires quotes[id].scidAlias in live || quotes[id].domain in domains
    ensures !(AliasIndex(quotes, aliases) && LiveDomainsApart(quotes))
  {
    var q := quotes[id];
    var other := if q.scidAlias in live then live[q.scidAlias] else domains[q.domain];
    assert other in quotes && other != id && Live(quotes[other]);
  }

  lemma UsedTwice(quotes: map<Text, Quote>, seen: map<Text, Quote>, spent: map<Text, Text>, id: Text, used: map<Text, Text>)
    requires id in quotes && id !in seen && (forall x <- seen :: x in quotes && seen[x] == quotes[x])
    requires UsedIndex(seen, spent) && quotes[id].status.Used? && quotes[id].domain in spent
    ensures !UsedIndex(quotes, used)
  {
    var other := spent[quotes[id].domain];
    assert other in quotes && other != id && quotes[other].status.Used?;
  }

  lemma IndexesGrow(seen: map<Text, Quote>, live: map<u64, Text>, spent: map<Text, Text>, domains: map<Text, Text>,
                    id: Text, q: Quote)
    requires AliasIndex(seen, live) && UsedIndex(seen, spent) && DomainIndex(seen, domains) && id !in seen
    requires Live(q) ==> q.scidAlias !in live && q.domain !in domains
    requires q.status.Used? ==> q.domain !in spent
    ensures var next := seen[id := q];
            && AliasIndex(next, if Live(q) then live[q.scidAlias := id] else live)
            && DomainIndex(next, if Live(q) then domains[q.domain := id] else domains)
            && UsedIndex(next, if q.status.Used? then spent[q.domain := id] else spent)
  {
  }

  // ----- replay domains -----

  /** Replay domains are only ever added. */
  predicate UsedKept(s: Quotes, t: Quotes) {
    forall d <- s.used :: d in t.used && t.used[d] == s.used[d]
  }

  datatype QuoteOp =
    | RequestOp(request: QuoteRequest)
    | AcceptOp(id: Text, now: u64)
    | RejectOp(id: Text, now: u64, reason: Text)
    | ExpireOp(id: Text, now: u64)
    | AuthorizeOp(id: Text, now: u64)
    | RegisterOp(scid: u64)

  function Perform(env: QuoteEnv, s: Quotes, op: QuoteOp): Quotes {
    match op
    case RequestOp(r) => RequestQuote(env, s, r).1
    case AcceptOp(id, now) => AcceptQuote(env, s, id, now).1
    case RejectOp(id, now, reason) => RejectQuote(env, s, id, now, reason).1
    case ExpireOp(id, now) => ExpireQuote(env, s, id, now).1
    case AuthorizeOp(id, now) => UseQuote(env, s, id, now).1
    case RegisterOp(scid) => RegisterScid(env, s, scid).1
  }

  /** No call, accepted or refused, frees or reassigns a replay domain. */
  lemma DomainsStayUsed(env: QuoteEnv, s: Quotes, op: QuoteOp)
    ensures UsedKept(s, Perform(env, s, op))
  {
  }

  /** A successful request is for a replay domain not used yet, leaves the used domains alone, and gets an id
      that no used domain points at: a quote with the id of a used one is refused by the check. */
  lemma RequestIsFresh(env: QuoteEnv, s: Quotes, r: QuoteRequest)
    requires RequestQuote(env, s, r).0.Success?
    ensures var (q, next) := RequestQuote(env, s, r);
            && r.domain !in s.used && next.used == s.used && q.value.id in next.quotes
            && next.quotes[q.value.id] == q.value && q.value.id == BindingId(env.sha, q.value)
            && (forall d <- s.used :: s.used[d] != q.value.id)
            && q.value == NewQuote(env, r, q.value.scidAlias)
  {
  }

  /** A repeated replay domain is refused before anything changes. */
  lemma UsedDomainRefused(env: QuoteEnv, s: Quotes, r: QuoteRequest)
    requires r.domain in s.used
    ensures RequestQuote(env, s, r).0.Failure? && RequestQuote(env, s, r).1 == s
    ensures !env.blank(r.peer) && !env.blank(r.domain) && r.amount != 0 && r.now < r.expiry ==>
              RequestQuote(env, s, r).0 == Failure(ReplayDomainAlreadyUsed(r.domain))
  {
  }

  /** The oracle prices every amount above zero above zero. */
  lemma QuotesNeverFree(env: QuoteEnv, s: Quotes, r: QuoteRequest)
    requires RequestQuote(env, s, r).0.Success?
    ensures var q := RequestQuote(env, s, r).0.value; q.amount == r.amount != 0 && q.msat == 100 * q.amount != 0
  {
  }

  /** An accepted quote is the one requested, with its status and time set. */
  lemma AcceptEffect(env: QuoteEnv, s: Quotes, id: Text, now: u64)
    ensures var (r, next) := AcceptQuote(env, s, id, now);
            && next.used == s.used
            && (r.Success? ==>
                  && id in s.quotes && id in next.quotes && next.quotes[id] == r.value && r.value.id == id
                  && r.value == s.quotes[id].(status := Accepted, acceptedAt := Some(now)))
  {
    var (r, next) := AcceptQuote(env, s, id, now);
    assert r.Success? ==> id in next.quotes && QuoteFine(env, next.scids, id, next.quotes[id]);
  }

  /** A used quote was accepted before, and takes its replay domain. */
  lemma UseEffect(env: QuoteEnv, s: Quotes, id: Text, now: u64)
    ensures var (r, next) := UseQuote(env, s, id, now);
            && UsedKept(s, next)
            && (r.Success? ==>
                  && id in s.quotes && s.quotes[id].id == id && s.quotes[id].status.Accepted?
                  && s.quotes[id].domain !in s.used && next.used == s.used[s.quotes[id].domain := id]
                  && r.value == GrantOf(s.quotes[id]))
  {
    var (r, next) := UseQuote(env, s, id, now);
    assert r.Success? ==> id in next.quotes && QuoteFine(env, next.scids, id, next.quotes[id]);
  }

  // ----- a store with one quote -----

  /** The store that holds nothing but this quote. */
  function Single(q: Quote): Quotes {
    Quotes(STORE_VERSION, {}, if Live(q) then map[q.scidAlias := q.id] else map[],
           if q.status.Used? then map[q.domain := q.id] else map[], map[q.id := q])
  }

  lemma SingleSound(env: QuoteEnv, q: Quote)
    requires QuoteFine(env, {}, q.id, q)
    ensures Sound(env, Single(q))
  {
  }

  /** A request that is in order is served by an empty store. */
  lemma FirstRequest(env: QuoteEnv, r: QuoteRequest)
    requires RequestFault(env, NO_QUOTES, r).None?
    ensures var (q, next) := RequestQuote(env, NO_QUOTES, r);
            && q.Success? && next == Single(q.value) && QuoteFine(env, {}, q.value.id, q.value)
            && q.value == NewQuote(env, r, q.value.scidAlias)
  {
    var a := FirstAlias(env, r);
    var q := NewQuote(env, r, a);
    assert QuoteFine(env, {}, q.id, q);
    SingleSound(env, q);
    assert NO_QUOTES.(aliases := NO_QUOTES.aliases[a := q.id], quotes := NO_QUOTES.quotes[q.id := q]) == Single(q);
  }

  lemma FirstAlias(env: QuoteEnv, r: QuoteRequest) returns (a: u64)
    requires r.amount * MSATS_PER_UNIT < U64_LIMIT
    ensures AliasFor(env, NO_QUOTES, r) == Some(a) && a >= ALIAS_BASE
  {
    var msat := r.amount * MSATS_PER_UNIT;
    var start := AliasStart(env.sha(SeedPreimage(r.peer, r.assetId, r.amount, msat, r.expiry, r.context, r.domain)));
    assert !Taken(NO_QUOTES, start);
    assert FreeAlias(NO_QUOTES, start, ALIAS_TRIES) == Some(start);
    a := start;
  }

  /** ... then accepted, and then used. */
  lemma FirstAccept(env: QuoteEnv, q: Quote, now: u64)
    requires QuoteFine(env, {}, q.id, q) && q.status.Requested? && now <= q.expiry
    ensures var next := q.(status := Accepted, acceptedAt := Some(now));
            AcceptQuote(env, Single(q), q.id, now) == (Success(next), Single(next)) && QuoteFine(env, {}, next.id, next)
  {
    var next := q.(status := Accepted, acceptedAt := Some(now));
    assert QuoteFine(env, {}, next.id, next);
    SingleSound(env, next);
    assert map[q.id := q][q.id := next] == map[q.id := next];
  }

  lemma FirstUse(env: QuoteEnv, q: Quote, now: u64)
    requires QuoteFine(env, {}, q.id, q) && q.status.Accepted? && now <= q.expiry
    ensures var next := q.(status := Used, usedAt := Some(now));
            UseQuote(env, Single(q), q.id, now) == (Success(GrantOf(next)), Single(next))
  {
    var next := q.(status := Used, usedAt := Some(now));
    assert QuoteFine(env, {}, next.id, next);
    SingleSound(env, next);
    assert map[q.id := q][q.id := next] == map[q.id := next];
    assert map[q.scidAlias := q.id] - {q.scidAlias} == map[];
  }
}
