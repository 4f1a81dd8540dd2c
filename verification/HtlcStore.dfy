/** Asset HTLCs: the final-hop check, and the store that offers, settles and fails them. */
module HtlcStore {
  import opened ByteBits
  import opened Primitives
  import opened Text

  const U16_LIMIT: int := 0x1_0000
  type u16 = x: int | 0 <= x < 0x1_0000

  /** The custom records an asset HTLC carries. */
  datatype HtlcRecords = HtlcRecords(
    protocolVersion: u16,
    assetId: Bytes32,
    amount: u64,
    root: RootHashSum,
    quoteId: Bytes32,
    invoiceContext: Bytes32,
    msat: u64,
    scidAlias: u64,
    paymentHash: Bytes32,
    finalHopDigest: Bytes32)

  datatype Invoice = Invoice(
    quoteId: Text,
    assetId: Bytes32,
    amount: u64,
    msat: u64,
    invoiceContext: Bytes32,
    scidAlias: u64,
    paymentHash: Bytes32,
    invoiceExpiry: u64,
    quoteExpiry: u64)

  datatype Authorization = Authorization(
    quoteId: Text,
    assetId: Bytes32,
    amount: u64,
    msat: u64,
    invoiceContext: Bytes32,
    scidAlias: u64)

  datatype Validation = Validation(assetId: Bytes32, amount: u64, quoteId: Bytes32, msat: u64, paymentHash: Bytes32)

  datatype Status = Offered | Settled | Failed

  datatype Htlc = Htlc(id: Text, channelId: Text, terms: Validation, status: Status)

  datatype HtlcError =
    | StaleHtlc
    | InvalidQuoteId
    | InvoiceAuthorizationMismatch
    | QuoteMismatch
    | AssetIdMismatch
    | AssetAmountMismatch
    | BtcAmountMismatch
    | InvoiceContextMismatch
    | ScidAliasMismatch
    | PaymentHashMismatch
    | FinalHopDigestMismatch
    | LdkHtlcMetadata
    | ProofRootMismatch
    | DuplicateHtlc
    | UnknownHtlc
    | TerminalHtlc(status: Status)
    | StorageInvariant

  // ----- the final hop -----

  /** The hash, the parser of quote ids, and whether LDK accepts the metadata at this time. */
  datatype HopEnv = HopEnv(
    sha: Sha256,
    parseHex: Text -> Option<Bytes32>,
    ldkAccepts: (HtlcRecords, Invoice, Authorization, u64) -> bool)

  function FinalHopDigest(sha: Sha256, r: HtlcRecords): Bytes32 {
    Digest(sha, FinalHopParts(r))
  }

  function FinalHopParts(r: HtlcRecords): seq<Bytes> {
    [Ascii("openagents:taproot-asset-htlc-final-hop:v1"), ToBe(r.protocolVersion, 2), r.assetId, U64Be(r.amount),
     r.root.hash, U64Be(r.root.sum), r.quoteId, r.paymentHash]
  }

  function FinalHop(env: HopEnv, r: HtlcRecords, invoice: Invoice, a: Authorization, root: RootHashSum, now: u64):
      Result<Validation, HtlcError>
  {
    if now > invoice.invoiceExpiry || now > invoice.quoteExpiry then Failure(StaleHtlc)
    else
      var quoteId := env.parseHex(a.quoteId);
      if quoteId.None? then Failure(InvalidQuoteId)
      else if r.quoteId != quoteId.value || invoice.quoteId != a.quoteId then Failure(QuoteMismatch)
      else if r.assetId != a.assetId || r.assetId != invoice.assetId then Failure(AssetIdMismatch)
      else if r.amount != a.amount || r.amount != invoice.amount then Failure(AssetAmountMismatch)
      else if r.msat != a.msat || r.msat != invoice.msat then Failure(BtcAmountMismatch)
      else if r.invoiceContext != a.invoiceContext || r.invoiceContext != invoice.invoiceContext then
        Failure(InvoiceContextMismatch)
      else if r.scidAlias != a.scidAlias || r.scidAlias != invoice.scidAlias then Failure(ScidAliasMismatch)
      else if r.paymentHash != invoice.paymentHash then Failure(PaymentHashMismatch)
      else if r.finalHopDigest != FinalHopDigest(env.sha, r) then Failure(FinalHopDigestMismatch)
      else if !env.ldkAccepts(r, invoice, a, now) then Failure(LdkHtlcMetadata)
      else if r.root != root then Failure(ProofRootMismatch)
      else Success(Validation(r.assetId, r.amount, r.quoteId, r.msat, r.paymentHash))
  }

  /** The records a sender derives from an invoice, its authorization and the channel's root. `version` is
      the protocol version the sender supports. */
  function BuildRecords(env: HopEnv, version: u16, invoice: Invoice, a: Authorization, root: RootHashSum):
      Result<HtlcRecords, HtlcError>
  {
    var quoteId := env.parseHex(a.quoteId);
    if quoteId.None? then Failure(InvalidQuoteId)
    else if || invoice.quoteId != a.quoteId || invoice.assetId != a.assetId || invoice.amount != a.amount
            || invoice.msat != a.msat || invoice.invoiceContext != a.invoiceContext
            || invoice.scidAlias != a.scidAlias then
      Failure(InvoiceAuthorizationMismatch)
    else
      var draft := HtlcRecords(version, a.assetId, a.amount, root, quoteId.value, a.invoiceContext, a.msat, a.scidAlias,
                               invoice.paymentHash, quoteId.value);
      Success(draft.(finalHopDigest := FinalHopDigest(env.sha, draft)))
  }

  lemma DigestIgnoresItself(sha: Sha256, r: HtlcRecords, d: Bytes32)
    ensures FinalHopDigest(sha, r.(finalHopDigest := d)) == FinalHopDigest(sha, r)
  {
  }

  /** The final hop grants, in time and if LDK agrees, exactly the records a sender of their version would
      have built from the same invoice, authorization and root. */
  lemma FinalHopExact(env: HopEnv, r: HtlcRecords, invoice: Invoice, a: Authorization, root: RootHashSum, now: u64)
    ensures FinalHop(env, r, invoice, a, root, now).Success? <==>
              && now <= invoice.invoiceExpiry && now <= invoice.quoteExpiry
              && BuildRecords(env, r.protocolVersion, invoice, a, root) == Success(r)
              && env.ldkAccepts(r, invoice, a, now)
  {
    var built := BuildRecords(env, r.protocolVersion, invoice, a, root);
    if built.Success? {
      DigestIgnoresItself(env.sha, built.value, built.value.quoteId);
      DigestIgnoresItself(env.sha, built.value, r.finalHopDigest);
    }
  }

  // ----- the store -----

  type Htlcs = map<Text, Htlc>

  /** What an HTLC's id is derived from. */
  function HtlcParts(channelId: Text, v: Validation): seq<Bytes> {
    [Ascii("tap-ldk:asset-htlc-id:v1"), Counted(channelId), v.assetId, U64Be(v.amount), v.quoteId, U64Be(v.msat),
     v.paymentHash]
  }

  function HtlcId(sha: Sha256, channelId: Text, v: Validation): Text {
    Hex(Digest(sha, HtlcParts(channelId, v)))
  }

  function Add(sha: Sha256, m: Htlcs, channelId: Text, v: Validation): (Result<Htlc, HtlcError>, Htlcs) {
    var id := HtlcId(sha, channelId, v);
    if id in m then (Failure(DuplicateHtlc), m)
    else
      var h := Htlc(id, channelId, v, Offered);
      (Success(h), m[id := h])
  }

  function Transition(m: Htlcs, id: Text, status: Status): (Result<Htlc, HtlcError>, Htlcs) {
    if id !in m then (Failure(UnknownHtlc), m)
    else if !m[id].status.Offered? then (Failure(TerminalHtlc(m[id].status)), m)
    else
      var h := m[id].(status := status);
      (Success(h), m[id := h])
  }

  /** What the check of a store asks of one HTLC. */
  predicate HtlcFine(blank: Text -> bool, id: Text, h: Htlc) {
    id == h.id && !blank(h.channelId) && h.terms.amount != 0 && h.terms.msat != 0
  }

  predicate HtlcsFine(blank: Text -> bool, m: Htlcs) {
    forall id <- m :: HtlcFine(blank, id, m[id])
  }

  class AssetHtlcStore {
    const sha: Sha256
    var htlcs: Htlcs

    constructor (sha: Sha256)
      ensures this.sha == sha && htlcs == map[]
    {
      this.sha := sha;
      htlcs := map[];
    }

    method AddHtlc(channelId: Text, v: Validation) returns (r: Result<Htlc, HtlcError>)
      modifies this`htlcs
      ensures (r, htlcs) == Add(sha, old(htlcs), channelId, v)
    {
      var id := HtlcId(sha, channelId, v);
      if id in htlcs {
        return Failure(DuplicateHtlc);
      }
      var h := Htlc(id, channelId, v, Offered);
      htlcs := htlcs[id := h];
      return Success(h);
    }

    method Move(id: Text, status: Status) returns (r: Result<Htlc, HtlcError>)
      modifies this`htlcs
      ensures (r, htlcs) == Transition(old(htlcs), id, status)
    {
      if id !in htlcs {
        return Failure(UnknownHtlc);
      }
      if !htlcs[id].status.Offered? {
        return Failure(TerminalHtlc(htlcs[id].status));
      }
      htlcs := htlcs[id := htlcs[id].(status := status)];
      return Success(htlcs[id]);
    }

    method Validate(blank: Text -> bool) returns (ok: bool)
      ensures ok <==> HtlcsFine(blank, htlcs)
    {
      var left := htlcs.Keys;
      while left != {}
        invariant left <= htlcs.Keys
        invariant forall id <- htlcs | id !in left :: HtlcFine(blank, id, htlcs[id])
        decreases |left|
      {
        var id :| id in left;
        if !HtlcFine(blank, id, htlcs[id]) {
          return false;
        }
        left := left - {id};
      }
      return true;
    }
  }

  /** A new HTLC is offered under the id of its channel and terms, exactly when no HTLC has that id. */
  lemma AddExactly(sha: Sha256, m: Htlcs, channelId: Text, v: Validation)
    ensures var (r, next) := Add(sha, m, channelId, v);
            && (r.Failure? <==> HtlcId(sha, channelId, v) in m)
            && (r.Failure? ==> r.error == DuplicateHtlc && next == m)
            && (r.Success? ==>
                  && next.Keys == m.Keys + {r.value.id} && next[r.value.id] == r.value && r.value.status.Offered?
                  && r.value.channelId == channelId && r.value.terms == v && r.value.id == HtlcId(sha, channelId, v)
                  && forall id <- m :: next[id] == m[id])
  {
  }

  /** Exactly an offered HTLC moves, to the status asked for; nothing else about it or the others changes. */
  lemma MoveExactly(m: Htlcs, id: Text, status: Status)
    ensures var (r, next) := Transition(m, id, status);
            && (r.Success? <==> id in m && m[id].status.Offered?)
            && (id !in m ==> r == Failure(UnknownHtlc))
            && (id in m && !m[id].status.Offered? ==> r == Failure(TerminalHtlc(m[id].status)))
            && next.Keys == m.Keys
            && forall x <- m :: next[x] == if x == id && r.Success? then m[x].(status := status) else m[x]
  {
  }

  // ----- the life of an HTLC -----

  datatype HtlcOp = AddOp(channelId: Text, terms: Validation) | MoveOp(id: Text, status: Status)

  function Perform(sha: Sha256, m: Htlcs, op: HtlcOp): Htlcs {
    match op
    case AddOp(c, v) => Add(sha, m, c, v).1
    case MoveOp(id, status) => Transition(m, id, status).1
  }

  function Run(sha: Sha256, m: Htlcs, ops: seq<HtlcOp>): Htlcs {
    if ops == [] then m else Perform(sha, Run(sha, m, ops[..|ops| - 1]), ops[|ops| - 1])
  }

  /** An HTLC may still change only while it is offered, and never its terms. */
  predicate Continues(before: Htlc, after: Htlc) {
    && after.id == before.id && after.channelId == before.channelId && after.terms == before.terms
    && (after.status == before.status || before.status.Offered?)
  }

  /** However the store is used, an HTLC stays in it with its terms, and once settled or failed it
      stays settled or failed. */
  lemma {:induction false} HtlcsOnlyProgress(sha: Sha256, m: Htlcs, ops: seq<HtlcOp>, id: Text)
    requires id in m
    ensures id in Run(sha, m, ops) && Continues(m[id], Run(sha, m, ops)[id])
  {
    if ops != [] {
      HtlcsOnlyProgress(sha, m, ops[..|ops| - 1], id);
    }
  }
}
