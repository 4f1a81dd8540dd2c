# Asset channels: a Dafny model with proofs

This project models the asset side of `tap-ldk-core` (Taproot Assets over Lightning channels) and proves what its
code promises. It covers:

- **The Merkle-sum sparse Merkle tree** (`KeyBits`, `Mssmt*`, `AssetRoot`, `AssetBinding`): 256 levels, built level by
  level from sorted maps with empty subtrees pruned. `MssmtSpec.Subtree` is the simple form, a recursive hash-sum of all leaves
  under a prefix; the construction, the proofs, the compressed proofs and the byte codec are all proved against it, and
  `AssetBinding` shows what one root says about the assets below it.
- **The channel ledger**: proofs are spent into a channel (`Funding`, `FundingRuns`, `FundingTerms`, `ChannelBinding`),
  commitments move its balances and form a hash chain (`CommitmentState`, `CommitmentLedger`, `CommitmentReplay`,
  `CommitmentStore`, `CommitmentOpening`, `CommitmentHistory`, `CommitmentBinding`, `CommitmentChecks`,
  `CommitmentMonitors`, with `TapVm` below them), HTLCs and payments follow the commitments (`HtlcStore`, `Payments`,
  `PaymentRuns`, `PaymentOrigins`, `FailedSends`), each payment quoted and invoiced first (`RfqQuotes`, `QuoteLife`, `QuotedSends`, `QuotePreparation`,
  `QuotedRuns`, `QuotedOutcomes`, `RepeatedSends`), and checkpoints are taken and accepted back (`Recovery`). The ids all
  of them give out are bound to what they name in `IdBinding`.
- **The replay engine** under funding and commitments (`ProofReplay`, `ReplayTotals`, `ReplayLifecycle`,
  `ReplayConservation`): what one record and a whole history of records of any shape do to the balances they explain.
- **Proof transport** (`ProofTransport`, `ProofRepeats`, `PeerMessage`): chunks of a proof, the stateful reassembler
  under any order, repeats and forgeries, and the messages that carry the chunks.
- **The codecs**: BigSize and TLV streams (`Tlv`, `TlvFields`), asset blobs (`Blob`), HTLC custom records
  (`HtlcCodec`), RFQ requests and accepts with their exact rate arithmetic and the checks on them (`Rfq`, `RfqChecks`).

## How to read it

SHA-256 is a parameter, an arbitrary function from byte strings to 32 bytes. No lemma assumes it injective: a binding
result says *equal, or here are two different byte strings with the same digest*, and the pair is computed by a named
function (`FirstDifference`, `HistoryCollision`, `LedgerCollision`, `TxCollision`, `IdCollision`, `RunCollision`,
`RequestCollision`, `QuoteCollision`, `OpeningCollision`, `Preimage`) or written out as the two preimages, so the claim
is not met by the mere existence of collisions. Likewise the checks, and the functions that make ids, digests, requests and payments, are not described by their own
names only: lemmas say what passes, and what the result carries, in terms of the inputs.

Objects the program updates in place are classes (`MssmtTree.Tree`, `ProofTransport.ProofReassembler`,
`CommitmentStore.AssetCommitmentStore`, `HtlcStore.AssetHtlcStore`, `Payments.NativeAssetPaymentStore`,
`Funding.AssetChannelStore`, `RfqQuotes.RfqQuoteStore`). Each method's contract equates its result and the whole new
state with a function of the old state (`Push`, `Initialize`, `Apply`, `Add`, `Transition`, `Record`, `Fund`,
`RequestQuote`, `UseQuote`, `SendAsset`), and the lemmas about runs are about those functions. Loops of the program
are loops here. A machine integer is a number with its width as a subset type, and every checked operation states its
overflow branch.

A *run* is any sequence of calls, accepted or rejected, on a store that starts empty. Its log is the list of the
requests that were accepted.

Everything the program takes from elsewhere is a parameter: whether LDK accepts a blob or a funding request, the
Taproot commitment of a funding output, whether a text is blank or valid UTF-8. The lemmas about quoted payments ask
of these only that a printed 32-byte value is read back and that no blank text reads as one (`QuotedRuns.ReadsHex`;
`Text.ParseHexOfHex` shows it of the parser).

## What turned out not to hold as promised

- **A failed send may advance the channel, but not on one quote store.** `send_native_asset_payment` settles after the
  commitment update is in place. If the HTLC or payment id is then taken, it returns an error with the commitment store
  already advanced (`Payments.SendOutcome`, and `FailedSends.CommitsExactly` for when the update is accepted). A
  receiver's quote store prevents this: a replay domain is used once, so over every run with one quote store each
  payment that commits has free ids and amounts above zero, or two preimages of one id are exhibited
  (`QuotedRuns.RunOrderly`); then the three stores agree with no further assumption (`QuotedRuns.StoresAgree`) and a
  failed send changes none of them (`QuotedRuns.FailedSendsKeepLedger`). A repeated request on the same store is
  refused before anything changes (`QuotedRuns.RepeatRefused`). With a second quote store that has not seen the
  request it is not: `RepeatedSends.SentTwice` starts from an empty ledger, pays three of ten units, and repeats the
  request under another commitment nonce, once on the same quote store (refused, nothing changes) and once on an empty
  one (refused as a duplicate, three more units gone). `PaymentRuns.RepeatedPaymentAdvances` is that family at the
  level of settlement, and `PaymentRuns.TryDetects` shows that `try_native_asset_payment_with_failure` reports exactly
  the failed sends that changed a store.
- **Zero millisatoshi** would have the same effect at settlement, and cannot be reached: the fixed-rate oracle prices
  every quote at a hundred times its amount, which is not zero (`RfqQuotes.QuotesNeverFree`).
- **An RFQ accept with an explicit maximum of zero** decodes to one without a maximum; all others round-trip
  (`Rfq.AcceptRoundTrip`, `Rfq.ZeroMaximumLost`).
- **A compressed proof** whose node count disagrees with its bits is encoded without complaint and then refused by the
  decoder (`MssmtBytes.DecodeEncode`, `MssmtBytes.MiscountedRefused`), and compressing a decompressed proof returns the
  same form exactly when no listed node is the empty node of its level (`MssmtCodec.CompressDecompress`,
  `MssmtCodec.ListedEmptyNodeLost`).
- **The latest output id of a channel** does not cover the nonce, the witness digest and the signature of a commitment.
  `CommitmentHistory.HistoryBinding` says exactly what it covers: of two checked histories the ids are equal if and
  only if all the other facts are, or a collision is exhibited. For every state, replacing the three on any commitment
  leaves the records, the whole check and the id as they were (`CommitmentHistory.ForgeryUnseen`, `ForgeryPasses`).
  Where one of two checked states holds only authorized commitments, as every reachable one does, the other holds the
  same commitments exactly when its own are authorized (`CommitmentHistory.LatestOutputFixesLedger`). If neither is,
  they may be equal all the same, so the condition cannot be asked of one state alone.
- **Histories that link up but were never replayed** may run through the name of the funding output; then they are not
  bound (`CommitmentHistory.RecordsBinding`). In a checked history that cannot happen
  (`CommitmentHistory.ReplayedNotReused`).
- **An update is refused if its names are those the channel was funded with** (`CommitmentReplay.UpdateAcceptance`).
  In a ledger that opens only funded channels they never are (`FundingRuns.FundedLedgerAccepts`).
- **The rate for zero millisatoshi** divides by zero in `asset_units_per_btc_rate` (lines 977-990); the model returns an
  error there, exactly for zero (`Rfq.NothingExactly`). All four builders reach it exactly for an invoice of zero
  millisatoshi (`Rfq.BuildersOfNothing`); the check of a buy request reaches it exactly when the request is in order
  up to the rate (`Rfq.BuyOfNothing`, with an input in `Rfq.BuyOfNothingHappens`); the check of a sell request never
  does, because a zero maximum is refused first (`Rfq.SellNeverOfNothing`).
- **The replay of proofs does not conserve an asset that is handed on twice.** The engine looks an input up among all
  outputs ever created, whether consumed or not (proof.rs:864-909), so two records may consume one output.
  `ReplayConservation.ReplayConserves` says exactly when what is accepted equals what was issued, for every asset: when
  no output is consumed by two records. `ReplayConservation.TransferredTwice` accepts twice what was issued, for every
  asset and amount. A history that passes the ledger's check never does this (`CommitmentChecks.HistoryConserves`).
- **Three digests join texts without their lengths**: the id of a channel's first transition, of its funding transition
  (asset_channel_funding.rs:1086-1116), and the one in the names of its commitments. They fix what they are made of
  exactly among texts of one length, as channel ids are (`CommitmentBinding.InitialTransitionBinds`,
  `ChannelBinding.TransitionBinds`, `IdBinding.ChainDigestBinds`); otherwise the first two are shared by different
  states, whatever the hash (`CommitmentBinding.InitialTransitionShifted`, `ChannelBinding.TransitionShifted`).
- **A quote store may be broken for good by a registration.** `register_real_local_scid` refuses an alias in the index of
  live quotes only, but the check wants the channel id to meet no quote's alias, finished ones included. After such a
  call, and only then, the store fails its check (`QuoteLife.RunSoundExactly`) and no call ever succeeds again
  (`QuoteLife.NothingAfterHit`). While the store is sound every call is decided exactly (`QuoteLife.StepSound` and the
  lemmas before it), and with it preparation (`QuotePreparation.PreparedExactly`) and a whole send
  (`QuotedOutcomes.SendsExactly`).
- **A refused chunk may change what is held**, and one refused duplicate can lose the proof for good.
  `ProofRepeats.RefusedChanges` says exactly when a refused push changes anything, `ProofRepeats.ForgeryLosesProof`
  shows three pushes after which nothing completes, and `ProofRepeats.CompletesExactly` says of every run exactly when
  a proof completes: when the last missing index arrives, the bytes last written must hash to the digest.

## Model

| member | source | states |
|---|---|---|
| KeyBits.MaskKey | crates/tap-ldk-core/src/mssmt.rs:447-466 | The in-place byte mask computes the prefix key for every prefix length from 0 to 256 |
| KeyBits.PrefixKeyBit | crates/tap-ldk-core/src/mssmt.rs:442-466 | Bit by bit, least significant first: the prefix key keeps exactly the first bits of the key and clears the rest |
| KeyBits.SiblingPrefixBit | crates/tap-ldk-core/src/mssmt.rs:468-472 | The sibling prefix agrees with the key above a depth, differs at that depth, and is zero below |
| KeyBits.ChildrenOf | crates/tap-ldk-core/src/mssmt.rs:442-472 | A prefix has exactly two distinct children one level down, itself (bit clear) and its sibling (bit set) |
| MssmtSpec.SubtreeSum | crates/tap-ldk-core/src/mssmt.rs:410-423 | For every leaf map and prefix the recursive tree exists exactly when the leaf sums under the prefix fit in 64 bits, and then carries that sum, whatever the hash |
| MssmtSpec.SubtreeLocal | crates/tap-ldk-core/src/mssmt.rs:152-198 | A subtree depends on nothing but the leaves under its prefix |
| MssmtSpec.SubtreeEmpty | crates/tap-ldk-core/src/mssmt.rs:429-440 | The subtree without leaves is the tabulated empty node of its depth, at every depth |
| MssmtTree.GroupChildren | crates/tap-ldk-core/src/mssmt.rs:157-177 | Grouping a level by parent succeeds on every level of prefixes (its duplicate-key branches are unreachable) and puts each node on the side its bit says |
| MssmtTree.BuildParents | crates/tap-ldk-core/src/mssmt.rs:178-191 | The new level holds exactly the grouped parents that are not the empty node; failure is overflow of some branch |
| MssmtTree.LevelUp | crates/tap-ldk-core/src/mssmt.rs:152-198 | If a level agrees with the recursive tree at every prefix, so does the level above it, and it is pruned |
| MssmtTree.OverflowMeansTotal | crates/tap-ldk-core/src/mssmt.rs:410-423 | A branch overflow anywhere means that the sum of all leaves does not fit in 64 bits |
| MssmtTree.BuildLevel | crates/tap-ldk-core/src/mssmt.rs:156-192 | One round of the construction keeps the agreement with the recursive tree or fails because the total overflows |
| MssmtTree.Rebuild | crates/tap-ldk-core/src/mssmt.rs:152-198 | The construction succeeds exactly when the sum of all leaf sums fits in 64 bits, and then every level, with the empty node as default, equals the recursive tree at every prefix |
| MssmtTree.RootSum | crates/tap-ldk-core/src/mssmt.rs:99-101 | The root carries the total of all leaves, and exists exactly when that total fits |
| MssmtTree.CollectLeaves | crates/tap-ldk-core/src/mssmt.rs:83-97 | The loop over the given leaves collects them, and stops at the first empty leaf or repeated key |
| MssmtTree.Tree.constructor | crates/tap-ldk-core/src/mssmt.rs:74-81 | A new tree is the valid tree without leaves |
| MssmtTree.Tree.FromLeaves | crates/tap-ldk-core/src/mssmt.rs:83-97 | A tree is built exactly when no leaf is empty, no key repeats and the total fits; otherwise the first offending key, or overflow, is reported |
| MssmtTree.Tree.Insert | crates/tap-ldk-core/src/mssmt.rs:123-132 | Insertion succeeds exactly when the old tree's proof computes a root for the new leaf; that value is the new root, and a failed insertion changes nothing |
| MssmtTree.Tree.Delete | crates/tap-ldk-core/src/mssmt.rs:134-136 | Deletion always succeeds and leaves the tree of the remaining leaves |
| MssmtTree.Tree.Prove | crates/tap-ldk-core/src/mssmt.rs:138-150 | The proof of a key, present or absent, lists the recursive tree's siblings on its path, deepest first |
| MssmtTree.Tree.RootChildren | crates/tap-ldk-core/src/mssmt.rs:103-117 | The two children hash and sum to the current root and are the subtrees of the two one-bit prefixes |
| MssmtTree.Tree.Get | crates/tap-ldk-core/src/mssmt.rs:119-121 | A lookup returns the stored leaf, and nothing for an absent key |
| MssmtProof.ComputeRoot | crates/tap-ldk-core/src/mssmt.rs:207-226 | The loop over the siblings computes the recursive climb, including the failure on a wrong sibling count and on overflow |
| MssmtProof.EqualHashesBind | crates/tap-ldk-core/src/mssmt.rs:207-226 | Two climbs over one key with equal hashes at any level agree in every node below it, or a collision is found, although a branch hashes only the total sum |
| MssmtProof.ProofBinding | crates/tap-ldk-core/src/mssmt.rs:228-235 | Two proofs that verify one key under one root have the same leaf and the same siblings, or a collision is exhibited |
| MssmtProof.ClimbFollowsUpdate | crates/tap-ldk-core/src/mssmt.rs:138-150 | Climbing the old tree's proof with a new leaf passes, level by level, through the subtrees of the updated tree |
| MssmtProof.StatelessUpdate | crates/tap-ldk-core/src/mssmt.rs:123-150 | For every tree, key and leaf (empty for deletion) the old proof computes the root of the updated tree, or fails exactly as the update does |
| MssmtProof.VerifyDecides | crates/tap-ldk-core/src/mssmt.rs:228-235 | For every tree, key, leaf and root: the tree's own proof verifies the leaf exactly when the root, hash and sum, is that of the tree with that leaf; it answers false exactly when that tree has another root, and fails exactly when its total overflows |
| MssmtProof.OwnProofVerifies | crates/tap-ldk-core/src/mssmt.rs:228-235 | For every tree and key the tree's own proof verifies against a root exactly the stored leaf under the tree's own root, and for an absent key exactly the empty leaf |
| MssmtProof.OnlyStoredLeafVerifies | crates/tap-ldk-core/src/mssmt.rs:228-235 | Under the root of a built tree the stored leaf (the empty leaf of an absent key) verifies with the tree's own proof, and whatever verifies is that leaf with that proof, or a collision is exhibited |
| MssmtProof.RootBindsLeaf | crates/tap-ldk-core/src/mssmt.rs:228-235 | Two trees with one root each verify their own leaf of a key under it, present or absent, and store the same leaf there, or a collision is exhibited |
| MssmtCodec.BuildEmptyTable | crates/tap-ldk-core/src/mssmt.rs:429-440 | The backwards loop fills the table of empty nodes of all depths |
| MssmtCodec.CompressProof | crates/tap-ldk-core/src/mssmt.rs:237-258 | The loop marks the empty siblings and lists the others, and fails on a wrong sibling count |
| MssmtCodec.DecompressProof | crates/tap-ldk-core/src/mssmt.rs:329-357 | The loop refills the siblings from the bits and the listed nodes, with every count error |
| MssmtCodec.DecompressCompress | crates/tap-ldk-core/src/mssmt.rs:237-258 | Every 256-sibling proof survives compression and decompression |
| MssmtCodec.CompressDecompress | crates/tap-ldk-core/src/mssmt.rs:329-357 | A well-counted compressed proof decompresses, and compresses back to itself exactly when no listed node is the empty node of its level |
| MssmtCodec.ListedEmptyNodeLost | crates/tap-ldk-core/src/mssmt.rs:237-258 | A well-counted form that lists the empty node of the first level decompresses and then compresses to something else |
| MssmtBytes.Pack | crates/tap-ldk-core/src/mssmt.rs:474-483 | Setting bits in a 32-byte array packs 256 booleans, least significant first |
| MssmtBytes.Unpack | crates/tap-ldk-core/src/mssmt.rs:485-493 | The loop reads the 256 bits back in order |
| MssmtBytes.UnpackPack | crates/tap-ldk-core/src/mssmt.rs:474-493 | Unpacking packed bits gives the bits |
| MssmtBytes.PackUnpack | crates/tap-ldk-core/src/mssmt.rs:474-493 | Packing unpacked bytes gives the bytes |
| MssmtBytes.EncodeProof | crates/tap-ldk-core/src/mssmt.rs:268-284 | The encoder writes count, nodes and bits, and refuses a count above 16 bits or a wrong bit count |
| MssmtBytes.DecodeProof | crates/tap-ldk-core/src/mssmt.rs:286-327 | The decoder accepts exactly the byte strings of the counted layout and reports each malformed one |
| MssmtBytes.DecodeEncode | crates/tap-ldk-core/src/mssmt.rs:268-327 | Decoding an encoded compressed proof gives it back exactly when its node count matches its bits, and the count error otherwise |
| MssmtBytes.MiscountedRefused | crates/tap-ldk-core/src/mssmt.rs:268-327 | A form with one clear bit and no node is encoded and then refused with both counts |
| MssmtBytes.EncodeDecode | crates/tap-ldk-core/src/mssmt.rs:268-327 | Encoding what was decoded gives back exactly the accepted bytes |
| AssetRoot.DeriveHashSumRoot | crates/tap-ldk-core/src/asset.rs:190-210 | Sorting, the running checked sum and the tree together compute the derived root, with overflow reported |
| AssetRoot.RootOfPermutation | crates/tap-ldk-core/src/asset.rs:190-210 | The derived root is the same for every order of the leaves |
| AssetRoot.DeriveRootOutcome | crates/tap-ldk-core/src/asset.rs:190-210 | The derivation succeeds exactly when the total fits in 64 bits and no two explicit leaf keys collide; its separately added sum is the sum the tree root carries, and each failure names its cause |
| AssetRoot.SplitConserves | crates/tap-ldk-core/src/asset.rs:212-225 | A split is accepted exactly when its outputs add up to the input as mathematical numbers and no two explicit leaf keys collide |
| AssetRoot.SingleLeafRoot | crates/tap-ldk-core/src/asset.rs:190-210 | One leaf always has a root, and it carries the leaf's amount |
| AssetBinding.KeyPreimageInjective | crates/tap-ldk-core/src/asset.rs:319-335 | The bytes hashed to a leaf key determine the asset, the script key, the amount and the position |
| AssetBinding.RootBindsLeaves | crates/tap-ldk-core/src/asset.rs:190-210 | Two lists of asset leaves with one derived root hold the same leaves in some order, or a collision of keys or of tree hashes is exhibited |
| AssetRoot.MergeSameAssetInputs | crates/tap-ldk-core/src/asset.rs:227-247 | Merging succeeds exactly on a non-empty list of one asset whose total fits, and gives that total under the first key |
| Text.HexInjective | crates/tap-ldk-core/src/asset.rs:353-362 | Two byte strings with the same hexadecimal text are equal |
| Text.ParseHexOfHex | crates/tap-ldk-core/src/asset.rs:19-33 | A 32-byte value is read back from its hexadecimal text |
| ProofTransport.ConcatPieces | crates/tap-ldk-core/src/asset_peer_message.rs:77-99 | The pieces of a proof, of any positive size, join to the proof |
| ProofTransport.ProofReassembler.PushChunk | crates/tap-ldk-core/src/asset_peer_message.rs:354-410 | Result and complete new state of one push, including the rejected pushes that still pin or overwrite |
| ProofTransport.PushSafe | crates/tap-ldk-core/src/asset_peer_message.rs:354-410 | Any push keeps indices below the pinned count and the pinned digest and count; the incomplete-proof branch is dead; completion comes with the last missing index and a proof of the pinned digest |
| ProofTransport.Pigeonhole | crates/tap-ldk-core/src/asset_peer_message.rs:389-403 | As many chunks as the count, all with indices below it, leave no index missing |
| ProofTransport.AnyRunSafe | crates/tap-ldk-core/src/asset_peer_message.rs:354-410 | Over any pushes a proof is completed at most once, only with the pinned digest, and the incomplete-proof error never occurs |
| ProofTransport.PinnedForGood | crates/tap-ldk-core/src/asset_peer_message.rs:362-378 | Digest and count, once pinned, never change |
| ProofTransport.AnyOrderReassembles | crates/tap-ldk-core/src/asset_peer_message.rs:77-99 | Pushing the chunks of a split in any order reports the right progress until the last push returns exactly the original proof |
| ProofRepeats.HeldIsWritten | crates/tap-ldk-core/src/asset_peer_message.rs:354-410 | After any run the pin is the digest and count of the first well-formed chunk, and the bytes held are those last written by the pushes that agree with it, accepted or refused |
| ProofRepeats.FirstPinIsFirst | crates/tap-ldk-core/src/asset_peer_message.rs:371-389 | The pin is that of the first well-formed chunk of the run, whatever follows |
| ProofRepeats.RefusedChanges | crates/tap-ldk-core/src/asset_peer_message.rs:371-391 | A refused push changes what is held exactly when its chunk is well formed, agrees with the pin or finds none, and brings other bytes than are stored |
| ProofRepeats.CompletesExactly | crates/tap-ldk-core/src/asset_peer_message.rs:354-410 | For every run: a push completes exactly when it brings the last missing index and the bytes last written hash to the digest; they are the proof |
| ProofRepeats.EverCompletes | crates/tap-ldk-core/src/asset_peer_message.rs:354-410 | A run completes at all exactly when that hash agrees at the one push that brings the last missing index |
| ProofRepeats.ForgedSplit | crates/tap-ldk-core/src/asset_peer_message.rs:354-410 | The same for runs whose well-formed chunks claim to be of one split, with repeats and forged bytes among them |
| ProofRepeats.RepeatsHarmless | crates/tap-ldk-core/src/asset_peer_message.rs:354-410 | With genuine chunks only, in any order and any number of repeats, the push that brings the last missing index completes with the proof |
| ProofRepeats.ForgeryLosesProof | crates/tap-ldk-core/src/asset_peer_message.rs:389-391 | A chunk, a refused forgery of it and the other chunk: nothing pushed afterwards ever completes |
| PeerMessage.MessageRoundTrip | crates/tap-ldk-core/src/asset_peer_message.rs:165-335 | Every message of every kind decodes back from its encoding |
| PeerMessage.ProofOverWire | crates/tap-ldk-core/src/asset_peer_message.rs:165-335 | Chunks sent as encoded messages in any order reassemble to the proof at the other end |
| Tlv.BigSizePrinted | crates/tap-ldk-core/src/tlv.rs:125-160 | Every 64-bit number is read back from its BigSize form, leaving what follows |
| Tlv.BigSizeExact | crates/tap-ldk-core/src/tlv.rs:143-190 | Whatever is accepted as a BigSize is the one canonical form of its value |
| Tlv.OrderFaultExact | crates/tap-ldk-core/src/tlv.rs:162-182 | The order check passes exactly the streams with strictly ascending types |
| Tlv.Decode | crates/tap-ldk-core/src/tlv.rs:89-112 | The cursor loop decodes the stream record by record, with every truncation error |
| Tlv.DecodeEncode | crates/tap-ldk-core/src/tlv.rs:76-112 | Every encodable list of records decodes back |
| Tlv.EncodeDecode | crates/tap-ldk-core/src/tlv.rs:76-112 | Every accepted stream is the encoding of its records, which are strictly ascending |
| Tlv.SortedStreamRoundTrip | crates/tap-ldk-core/src/tlv.rs:76-112 | Records of distinct types in any order, once sorted, encode and come back as the same map |
| TlvFields.FieldsRoundTrip | crates/tap-ldk-core/src/tlv.rs:114-123 | Optional fields of distinct known types are all found again, present or absent, and nothing unknown is |
| TlvFields.FieldsDecode | crates/tap-ldk-core/src/tlv.rs:76-123 | The same for a table of types beside a table of optional values |
| Blob.InlinePrinted | crates/tap-ldk-core/src/lightning_labs_blob.rs:790-814 | A length-prefixed byte string is read back, leaving what follows |
| Blob.InlineExact | crates/tap-ldk-core/src/lightning_labs_blob.rs:790-814 | Whatever is read is its length prefix and its bytes, each consumed once |
| Blob.ParseList | crates/tap-ldk-core/src/lightning_labs_blob.rs:454-483 | The counted loop over the cursor reads the list, with the limit, entry and trailing-byte errors |
| Blob.OutputExact | crates/tap-ldk-core/src/lightning_labs_blob.rs:485-504 | An accepted asset output is exactly its three records printed in order |
| Blob.OutputPrinted | crates/tap-ldk-core/src/lightning_labs_blob.rs:485-504 | Every asset output is read back from its records |
| Blob.SumAmounts | crates/tap-ldk-core/src/lightning_labs_blob.rs:856-870 | The checked sum is the mathematical sum, or none when that does not fit in 64 bits |
| Blob.ParseOutputList | crates/tap-ldk-core/src/lightning_labs_blob.rs:454-483 | The parser accepts what the grammar accepts and reports the mathematical total of the outputs |
| Blob.OutputListExact | crates/tap-ldk-core/src/lightning_labs_blob.rs:454-483 | An accepted output list is the count and exactly that many length-prefixed entries, within the limit, and its total fits |
| Blob.OutputListPrinted | crates/tap-ldk-core/src/lightning_labs_blob.rs:454-483 | Every list within the limits parses back from its printed form |
| Blob.HtlcListExact | crates/tap-ldk-core/src/lightning_labs_blob.rs:573-606 | Accepted bytes are exactly the nested lists printed, within the limits, and the amounts of all nested outputs together fit in 64 bits |
| Blob.ParseHtlcEntry | crates/tap-ldk-core/src/lightning_labs_blob.rs:586-594 | One entry is read with the checked total of its outputs, which is their mathematical sum |
| Blob.SumTotals | crates/tap-ldk-core/src/lightning_labs_blob.rs:856-870 | The checked sum over the entry totals is their mathematical sum, or none when it does not fit |
| Blob.ParseHtlcOutputList | crates/tap-ldk-core/src/lightning_labs_blob.rs:573-606 | The nested loop accepts exactly what the grammar accepts with all amounts together below 2^64, and returns each entry total and the mathematical total over all nested outputs |
| Blob.HtlcListPrinted | crates/tap-ldk-core/src/lightning_labs_blob.rs:573-606 | Every nested list within the limits parses back |
| Blob.RfqIdListExact | crates/tap-ldk-core/src/lightning_labs_blob.rs:550-571 | An accepted id list is its count and its 32-byte ids, every byte consumed |
| Blob.RfqIdListPrinted | crates/tap-ldk-core/src/lightning_labs_blob.rs:550-571 | Every id list within the limit parses back |
| Blob.TapLeafExact | crates/tap-ldk-core/src/lightning_labs_blob.rs:648-679 | An accepted tap leaf is its version, length and script with nothing left over |
| Blob.TapLeafPrinted | crates/tap-ldk-core/src/lightning_labs_blob.rs:648-679 | Every tap leaf within the script limit parses back |
| Rfq.FromU64Denotes | crates/tap-ldk-core/src/lightning_labs_rfq.rs:172-223 | The stripped big-endian bytes denote the number, are valid, and read as zero only for zero |
| Rfq.ProductFits | crates/tap-ldk-core/src/lightning_labs_rfq.rs:977-990 | The 128-bit product of the rate computation never overflows |
| Rfq.RateExact | crates/tap-ldk-core/src/lightning_labs_rfq.rs:977-990 | For non-zero millisatoshi the rate is r exactly when r is non-zero, fits, and r times the millisatoshi is the amount times 10^11 |
| Rfq.NothingExactly | crates/tap-ldk-core/src/lightning_labs_rfq.rs:977-990 | The rate divides by zero exactly for zero millisatoshi |
| Rfq.BuildersOfNothing | crates/tap-ldk-core/src/lightning_labs_rfq.rs:769-849 | Each of the four builders divides by zero exactly for an invoice of zero millisatoshi |
| Rfq.SellNeverOfNothing | crates/tap-ldk-core/src/lightning_labs_rfq.rs:376-435 | The check of a sell request never divides by zero |
| Rfq.BuyOfNothing | crates/tap-ldk-core/src/lightning_labs_rfq.rs:437-496 | The check of a buy request divides by zero exactly when the invoice is for zero millisatoshi and the request is in order up to the rate |
| Rfq.BuyOfNothingHappens | crates/tap-ldk-core/src/lightning_labs_rfq.rs:437-496 | One request and invoice for which it does |
| Rfq.RequestRoundTrip | crates/tap-ldk-core/src/lightning_labs_rfq.rs:247-363 | Every request of valid shape decodes back from its encoding, for all combinations of optional fields |
| Rfq.DecodedRequestStable | crates/tap-ldk-core/src/lightning_labs_rfq.rs:326-363 | Whatever decodes has valid shape and survives being encoded and decoded again |
| Rfq.AcceptRoundTrip | crates/tap-ldk-core/src/lightning_labs_rfq.rs:564-613 | An accept decodes to its normal form, which is itself exactly when its maximum is not an explicit zero |
| Rfq.ZeroMaximumLost | crates/tap-ldk-core/src/lightning_labs_rfq.rs:584-613 | A valid accept with an explicit maximum of zero decodes to one without a maximum |
| Rfq.BuiltRequestValid | crates/tap-ldk-core/src/lightning_labs_rfq.rs:376-496 | A built sell or buy request validates against its invoice exactly when the asset id is non-zero, the invoice is unexpired, and it expires no later than the quote; for requests of any other origin see RfqChecks |
| Rfq.BuiltAcceptValid | crates/tap-ldk-core/src/lightning_labs_rfq.rs:615-648 | The matching built accept validates exactly when the quote is unexpired and expires no later than the invoice; together with a valid request, exactly when both expiries are equal |
| RfqChecks.ShapeExactly | crates/tap-ldk-core/src/lightning_labs_rfq.rs:502-545 | The shape check passes exactly the requests of version 1 with a positive maximum, one asset or group on each side, exactly one zero asset id, bounded metadata and non-zero rates in bounds |
| RfqChecks.PrintedExactly | crates/tap-ldk-core/src/lightning_labs_rfq.rs:247-363 | Exactly the requests of that shape are encoded, and they decode back |
| RfqChecks.PricesExactly | crates/tap-ldk-core/src/lightning_labs_rfq.rs:977-990 | The rate of an invoice is the one canonical fixed-point number whose product with the millisatoshi is the amount times 10^11 |
| RfqChecks.SellExactly | crates/tap-ldk-core/src/lightning_labs_rfq.rs:376-435 | For every request, peer, invoice and time: the sell check passes exactly when the shape is valid, the request is unexpired and for this peer, its expiry lies between those of invoice and quote, the metadata is the invoice context, the direction, both asset sides, the maximum and the minimum fit the invoice, and the rate hint prices it |
| RfqChecks.BuyExactly | crates/tap-ldk-core/src/lightning_labs_rfq.rs:437-496 | The same for the buy check with its own sides and limits |
| RfqChecks.PassesLikeBuilt | crates/tap-ldk-core/src/lightning_labs_rfq.rs:376-496 | A request passes exactly when it is in shape, in time, for this peer, and agrees with the request built from the invoice under the same id |
| RfqChecks.SellRefusal | crates/tap-ldk-core/src/lightning_labs_rfq.rs:376-435 | A well-shaped sell request is refused for the first of these it fails: expiry, peer, transfer type, assets, amounts |
| RfqChecks.BuyRefusal | crates/tap-ldk-core/src/lightning_labs_rfq.rs:437-496 | The same order of faults for a well-shaped buy request |
| RfqChecks.BuiltTerms | crates/tap-ldk-core/src/lightning_labs_rfq.rs:769-819 | What the built requests carry, field by field |
| RfqChecks.BuiltRates | crates/tap-ldk-core/src/lightning_labs_rfq.rs:821-849 | What the built accepts carry, and that the Bitcoin rate is 10^11 millisatoshi |
| RfqChecks.AcceptPrintedExactly | crates/tap-ldk-core/src/lightning_labs_rfq.rs:564-613 | Exactly the accepts of valid shape are encoded, and decode to their normal form |
| RfqChecks.AcceptForExactly | crates/tap-ldk-core/src/lightning_labs_rfq.rs:615-648 | For every accept and request: the accept passes exactly when it is in shape and unexpired, answers the request's id, does not outlive it, and stays within its maximum |
| RfqChecks.AcceptRefusal | crates/tap-ldk-core/src/lightning_labs_rfq.rs:615-648 | A well-shaped accept is refused for the first of these it fails: expiry, id, the request's expiry, its maximum |
| ProofReplay.IssuanceStep | crates/tap-ldk-core/src/proof.rs:717-862 | When an issuance record replays, and what it then explains |
| ProofReplay.MoveStep | crates/tap-ldk-core/src/proof.rs:717-965 | When a one-input funding or update record replays (amount and asset conserved, input state allowed), and that it moves the explanation from input to output |
| ReplayTotals.StepExactly | crates/tap-ldk-core/src/proof.rs:717-965 | For every record, with any number of inputs and outputs: exactly when it replays, and what progress it then makes |
| ReplayLifecycle.StagesExactly | crates/tap-ldk-core/src/proof.rs:569-631 | The states a record may consume and create are exactly those of the life of an output: issued or moved, locked in a channel, closed, swept |
| ReplayLifecycle.OutputExplained | crates/tap-ldk-core/src/proof.rs:708-823 | Every output of a replayed history was created by one of its records from outputs of earlier ones, in the states and amounts they had, along that life, and no later record changes it |
| ReplayConservation.ReplayHeld | crates/tap-ldk-core/src/proof.rs:708-823 | After any history that replays, what is accepted of an asset is what was issued plus what was consumed a second time |
| ReplayConservation.ReplayConserves | crates/tap-ldk-core/src/proof.rs:708-823 | What is accepted equals what was issued, for every asset, exactly when no output is consumed by two records; it is never less |
| ReplayConservation.TransferredTwice | crates/tap-ldk-core/src/proof.rs:864-909 | For every asset and amount, a history that issues it once, consumes that output twice, replays, and is accepted with twice the amount |
| TapVm.TxIdBinds | crates/tap-ldk-core/src/tap_vm.rs:89-236 | The id of a balance-update transition fixes asset, total, both balances and the nonce, or a collision is exhibited |
| TapVm.AuthorizationBinds | crates/tap-ldk-core/src/tap_vm.rs:259-283 | The authorization of a witness fixes the asset, the asset nonce and the witness nonce, or a collision is exhibited |
| TapVm.WitnessBinds | crates/tap-ldk-core/src/tap_vm.rs:198-211 | Two updates have one witness digest exactly when they are of one asset and one nonce, whatever their balances, or a collision is exhibited |
| TapVm.IdsExactly | crates/tap-ldk-core/src/tap_vm.rs:127-211 | A balance update has a transaction id and a witness digest exactly when its balances add up to its total and neither the nonce nor the authorization of its witness is zero |
| CommitmentLedger.UpdateKeeps | crates/tap-ldk-core/src/asset_commitment.rs:101-165 | An accepted update keeps: balances as initial minus sent plus received, conserved total, commitments numbered 1 to latest with the balances of their time, the exact revocation map, and the nonce index as a bijection |
| CommitmentLedger.BuiltUpdatePasses | crates/tap-ldk-core/src/asset_commitment.rs:293-406 | Every update the builder returns asks for the given deltas and validates exactly when its nonce is unused |
| CommitmentLedger.BuilderOutcome | crates/tap-ldk-core/src/asset_commitment.rs:794-860 | The builder succeeds exactly when the number does not overflow, both sides can pay, and neither witness digest is zero |
| CommitmentLedger.ConservationFaultsDead | crates/tap-ldk-core/src/asset_commitment.rs:293-406 | With a conserved total, the validator never reports balance overflow or loss of conservation |
| CommitmentLedger.NoReplay | crates/tap-ldk-core/src/asset_commitment.rs:293-406 | No request ever accepted on a channel is accepted again in its later state |
| CommitmentBinding.SignatureBinds | crates/tap-ldk-core/src/asset_commitment.rs:1114-1165 | Equal signatures mean equal channel, asset, signing key, number, balances, nonce, transaction id and witness digest, or the two preimages collide |
| CommitmentBinding.RunSignaturesBind | crates/tap-ldk-core/src/asset_commitment.rs:82-165 | Commitments of two runs of the ledger with one signature belong to channels of one id, asset and key and agree in everything signed, or their preimages collide |
| CommitmentBinding.StateDigestBinds | crates/tap-ldk-core/src/asset_commitment.rs:1096-1112 | A state digest fixes channel, asset, number and both balances, or the two preimages collide |
| CommitmentBinding.ContextDigestBinds | crates/tap-ldk-core/src/asset_commitment.rs:1079-1094 | A monitor context digest fixes channel, asset, number and state digest, or the two preimages collide |
| CommitmentBinding.InitialTransitionBinds | crates/tap-ldk-core/src/asset_commitment.rs:1383-1391 | Two states with one first transition are of one channel, asset, outpoint and total exactly when their channel ids are of one length, or the two preimages collide |
| CommitmentBinding.InitialTransitionShifted | crates/tap-ldk-core/src/asset_commitment.rs:1383-1391 | Every state with an outpoint shares its first transition id with a different one, whatever the hash |
| CommitmentBinding.BlobDigestBinds | crates/tap-ldk-core/src/asset_commitment.rs:715-742 | A monitor digest fixes every field of the monitor with its channel, asset and balances, or the two preimages collide |
| CommitmentBinding.MonitorExact | crates/tap-ldk-core/src/asset_commitment.rs:408-570 | The monitor check passes exactly when the monitor is the one rebuilt from the state, the channel id parses and LDK accepts the blob of its fields |
| CommitmentBinding.ValidatedExactly | crates/tap-ldk-core/src/asset_commitment.rs:293-406 | For every state and request: validation passes exactly when the nonce is unused and the request is the one the builder makes for its deltas and nonce |
| CommitmentBinding.CommitmentsExact | crates/tap-ldk-core/src/asset_commitment.rs:408-517 | The check on the stored commitments passes exactly when each stands under its number, splits the total and carries the digest of its own balances |
| CommitmentChecks.ChainReplays | crates/tap-ldk-core/src/asset_commitment.rs:1167-1308 | A linked chain of commitments replays exactly when the funding does, no two share a number, none has a zero transaction id or a name of the funding; and then the tip is explained by the last of them |
| CommitmentChecks.HistoryExactly | crates/tap-ldk-core/src/asset_commitment.rs:519-549 | For every state: the history check passes exactly when the funding replays, the commitments in the order of their numbers are such a chain splitting the total, and the state names the last of them |
| CommitmentChecks.HistoryConserves | crates/tap-ldk-core/src/asset_commitment.rs:519-549 | A history that passes the check accepts one output, the latest, which holds the whole channel amount; it conserves every asset and consumes no output twice |
| CommitmentMonitors.StateExactly | crates/tap-ldk-core/src/asset_commitment.rs:408-570 | The check on a channel state passes exactly when its balances split the total, its latest number is not revoked, its monitor is the rebuilt one and LDK accepts it, its nonces point at their commitments, each commitment is in order and the history is a chain that replays |
| CommitmentMonitors.RunMonitors | crates/tap-ldk-core/src/asset_commitment.rs:82-165 | After any run the monitor of a channel carries number, digest, nonce and signature of its latest commitment, or those it was opened with |
| CommitmentMonitors.OpeningDigestsApart | crates/tap-ldk-core/src/asset_commitment.rs:234-291 | The state, nonce and signature digests a channel opens with differ from each other, or two preimages collide |
| CommitmentReplay.OpensAtZero | crates/tap-ldk-core/src/asset_commitment.rs:234-291 | A channel can be opened only from a funding monitor at commitment zero |
| CommitmentReplay.HistoryReplayed | crates/tap-ldk-core/src/asset_commitment.rs:1167-1308 | Once a linked history has replayed, the records and outputs it knows are those of the funding and the commitments, and the tip is accepted as explaining the whole channel amount |
| CommitmentReplay.NextExplained | crates/tap-ldk-core/src/asset_commitment.rs:293-406 | The history with the next record appended replays exactly when the virtual transaction id is non-zero and the names of the record are not those the channel was funded with, and then explains the new output |
| CommitmentReplay.NextHistoryChecked | crates/tap-ldk-core/src/asset_commitment.rs:519-549 | The state after an update passes the whole history check again exactly under those two conditions |
| CommitmentReplay.UpdateAcceptance | crates/tap-ldk-core/src/asset_commitment.rs:101-165 | In a reachable state an update is accepted exactly when the request validates, its transaction id is non-zero, its names are not the funding names and LDK accepts the blob: nothing else in history, nonces, revocations or commitments ever refuses it |
| CommitmentReplay.OutsideIdsFree | crates/tap-ldk-core/src/asset_commitment.rs:1346-1381 | Funding names outside the names of the ledger never meet those of an update |
| CommitmentStore.AssetCommitmentStore.constructor | crates/tap-ldk-core/src/asset_commitment.rs:47-55 | A new store has the current schema and no channel |
| CommitmentStore.AssetCommitmentStore.InitializeChannel | crates/tap-ldk-core/src/asset_commitment.rs:82-99 | Result and whole new store of opening a channel |
| CommitmentStore.AssetCommitmentStore.ApplyUpdate | crates/tap-ldk-core/src/asset_commitment.rs:101-165 | Result and whole new store of an update, accepted or rejected |
| CommitmentStore.AssetCommitmentStore.Validate | crates/tap-ldk-core/src/asset_commitment.rs:177-193 | The loop accepts exactly the stores of the current schema whose every channel passes its own check under its own id |
| CommitmentStore.RunFine | crates/tap-ldk-core/src/asset_commitment.rs:82-193 | After any run of calls the store validates |
| CommitmentStore.RunTracks | crates/tap-ldk-core/src/asset_commitment.rs:82-165 | After any run every channel is determined by how it was opened and its log: local balance = initial - sent + received, total conserved, contiguous commitments, exact revocations, nonces one to one |
| CommitmentStore.NoUpdateTwice | crates/tap-ldk-core/src/asset_commitment.rs:293-406 | No request in the log of a run is accepted again after it |
| CommitmentStore.ApplyAcceptance | crates/tap-ldk-core/src/asset_commitment.rs:101-165 | After any run, the exact condition on a request for the store to accept it |
| CommitmentStore.BuiltUpdateApplies | crates/tap-ldk-core/src/asset_commitment.rs:794-860 | After any run, a built update with an unused nonce validates, applies unless its id is zero, its names are the funding names or LDK refuses, and moves the balances by exactly the requested deltas |
| CommitmentOpening.FundingReplays | crates/tap-ldk-core/src/asset_commitment.rs:1215-1265 | The two records of a new channel replay exactly under stated conditions on amount, outpoint, transitions and names, and then explain the funding output |
| CommitmentOpening.OpenAcceptance | crates/tap-ldk-core/src/asset_commitment.rs:408-517 | A state just opened passes the whole check exactly when its balances add up to its total, its monitor is at commitment zero, those conditions hold and LDK accepts the blob |
| CommitmentOpening.InitializeAcceptance | crates/tap-ldk-core/src/asset_commitment.rs:82-99 | After any run, the exact condition on a channel for the store to open it |
| CommitmentHistory.ProofHistoryRecords | crates/tap-ldk-core/src/asset_commitment.rs:1215-1308 | The loop with its running prior output id collects exactly the records of the linked history, or reports the first broken link |
| CommitmentHistory.OutputIdBinds | crates/tap-ldk-core/src/asset_commitment.rs:1346-1381 | One output id fixes number, balances, digest, transaction id and prior link, or two preimages collide |
| CommitmentHistory.ChainBinds | crates/tap-ldk-core/src/asset_commitment.rs:1215-1308 | Two linked histories of one channel with the same tip are the same, of whatever lengths, or a collision is exhibited, or one of them runs through the name of the funding output |
| CommitmentHistory.ReplayedNotReused | crates/tap-ldk-core/src/asset_commitment.rs:1167-1213 | In a history that replays no commitment takes the name of the funding output |
| CommitmentHistory.RecordsBinding | crates/tap-ldk-core/src/asset_commitment.rs:1215-1308 | The binding of histories that only link up, with the name of the funding output as the one exception |
| CommitmentHistory.HistoryBinding | crates/tap-ldk-core/src/asset_commitment.rs:1167-1308 | Of two states with the same channel, asset and funding output id that pass the history check, the latest output ids are equal exactly when they hold the same sequence of commitments (numbers, balances, digests, transaction ids, links), or a collision is exhibited |
| CommitmentHistory.LatestOutputFixesLength | crates/tap-ldk-core/src/asset_commitment.rs:1215-1308 | Checked states with one latest output id hold equally many commitments, or a collision is exhibited |
| CommitmentHistory.LatestOutputFixesCommitment | crates/tap-ldk-core/src/asset_commitment.rs:1114-1165 | Of two checked states with one latest output id, where the one holds an authorized commitment the other holds the same, nonce, witness and signature included, exactly when its own is authorized, or a collision is exhibited |
| CommitmentHistory.LatestOutputFixesLedger | crates/tap-ldk-core/src/asset_commitment.rs:1114-1165 | The same for the whole maps of commitments: with one of them authorized throughout, they are equal exactly when the other is too |
| CommitmentHistory.RunsBind | crates/tap-ldk-core/src/asset_commitment.rs:82-165 | Two runs of the ledger that bring a channel to one latest output id leave it with the same commitments and equally many accepted updates, or a collision is exhibited |
| CommitmentHistory.ReachableChecked | crates/tap-ldk-core/src/asset_commitment.rs:167-193 | After any run the state of a known channel passes its check, holds only authorized commitments, and as many as updates were accepted |
| CommitmentHistory.ForgeryUnseen | crates/tap-ldk-core/src/asset_commitment.rs:1215-1308 | For every state: another nonce, witness digest and signature on any commitment leave the records, the history check and the latest output id as they were |
| CommitmentHistory.ForgeryPasses | crates/tap-ldk-core/src/asset_commitment.rs:408-517 | Such a state passes the whole check when the original did; with only the witness or the signature changed the commitment is no longer authorized |
| Channels.FundingIdsOutsideLedger | crates/tap-ldk-core/src/asset_channel_funding.rs:1086-1116 | The ids the funding store gives out never look like ids of the commitment ledger |
| HtlcStore.AssetHtlcStore.constructor | crates/tap-ldk-core/src/asset_htlc.rs:212-219 | A new HTLC store is empty |
| HtlcStore.AssetHtlcStore.AddHtlc | crates/tap-ldk-core/src/asset_htlc.rs:245-266 | Result and whole new store of adding an HTLC, duplicates refused |
| HtlcStore.AssetHtlcStore.Move | crates/tap-ldk-core/src/asset_htlc.rs:268-293 | Result and whole new store of settling or failing: only an offered HTLC changes, and only its status |
| HtlcStore.AssetHtlcStore.Validate | crates/tap-ldk-core/src/asset_htlc.rs:295-316 | The loop accepts exactly the stores whose every HTLC is complete and under its own id |
| HtlcStore.FinalHopExact | crates/tap-ldk-core/src/asset_htlc.rs:400-495 | The final hop grants, in time and if LDK agrees, exactly the records that the sender's builder (lines 89-128) makes from the same invoice, authorization and root |
| HtlcStore.HtlcsOnlyProgress | crates/tap-ldk-core/src/asset_htlc.rs:245-293 | Over any calls an HTLC is never lost, never changes its terms, and never leaves a terminal status |
| HtlcStore.AddExactly | crates/tap-ldk-core/src/asset_htlc.rs:245-266 | Adding succeeds exactly for a free id, and then enters one offered HTLC with the terms of the validation |
| HtlcStore.MoveExactly | crates/tap-ldk-core/src/asset_htlc.rs:276-293 | Moving succeeds exactly for an offered HTLC, and then changes its status to the one asked for and nothing else |
| IdBinding.HtlcIdBinds | crates/tap-ldk-core/src/asset_htlc.rs:806-817 | An HTLC id fixes the channel and all terms of the HTLC, or the two preimages collide |
| IdBinding.FinalHopBinds | crates/tap-ldk-core/src/asset_htlc.rs:785-804 | The final-hop digest fixes every record it covers, or the two preimages collide |
| IdBinding.PaymentIdBinds | crates/tap-ldk-core/src/asset_payment.rs:671-680 | A payment id fixes channel, quote id and payment hash, or the two preimages collide |
| IdBinding.QuoteIdBinds | crates/tap-ldk-core/src/rfq_quote_store.rs:746-792 | A quote id fixes all terms of the quote, or the two preimages collide |
| IdBinding.ChainDigestBinds | crates/tap-ldk-core/src/asset_commitment.rs:1346-1381 | Two commitments with one digest in their names agree in channel, asset, number, balances, state digest, transaction id and prior link exactly when their channel ids are of one length, or the two preimages collide |
| HtlcCodec.RecordsFromExact | crates/tap-ldk-core/src/asset_htlc.rs:377-397 | Records are read from a map exactly when it carries each of the eleven fields at its width |
| HtlcCodec.DecodeMapExact | crates/tap-ldk-core/src/asset_htlc.rs:367-398 | A map is an asset HTLC exactly when it carries all fields and nothing unknown in the asset range, and plain BTC exactly when it holds no asset record |
| HtlcCodec.CustomRoundTrip | crates/tap-ldk-core/src/asset_htlc.rs:131-154 | The custom records of every asset HTLC decode back from the wire |
| Payments.NativeAssetPaymentStore.constructor | crates/tap-ldk-core/src/asset_payment.rs:35-43 | A new payment store is empty |
| Payments.NativeAssetPaymentStore.RecordPayment | crates/tap-ldk-core/src/asset_payment.rs:70-85 | Result and whole new store of recording a payment |
| Payments.NativeAssetPaymentStore.Validate | crates/tap-ldk-core/src/asset_payment.rs:97-159 | The loop accepts exactly the stores whose every payment is complete for its status |
| Payments.SettlePreparedPayment | crates/tap-ldk-core/src/asset_payment.rs:534-591 | Result and the new contents of all three stores of settling a prepared payment, success or failure, store by store; PaymentOrigins says what the payment entered carries |
| Payments.SettleOutcome | crates/tap-ldk-core/src/asset_payment.rs:534-591 | Settling succeeds exactly when the HTLC and payment ids are free and the amounts non-zero, and then adds one settled HTLC and one payment |
| Payments.SendAdvances | crates/tap-ldk-core/src/asset_payment.rs:254-276 | A send whose update is not accepted changes nothing; one whose update is accepted leaves the commitments as that update does, whatever follows |
| Payments.SendOutcome | crates/tap-ldk-core/src/asset_payment.rs:254-276 | For any prepared payment: the exact condition of success, and that a failure leaves the three stores unchanged exactly when the commitment update was not accepted |
| PaymentOrigins.RefusalExactly | crates/tap-ldk-core/src/asset_payment.rs:432-532 | Before it looks at records, preparation refuses nothing exactly when both peers are named, the amount is positive, the channel is known and carries the asset, a payment is offered and the clock stays in range |
| PaymentOrigins.SendCarries | crates/tap-ldk-core/src/asset_payment.rs:534-591 | A successful send enters under a new id one settled payment with the channel, sender and receiver of the request, the asset, amounts, quote id and hash of the invoice, and balances after it that add up to the channel total |
| PaymentOrigins.RunCarries | crates/tap-ldk-core/src/asset_payment.rs:254-276 | Over every run of prepared payments with free ids and non-zero amounts, the i-th payment of a channel carries this of the i-th send that paid on it |
| PaymentRuns.RunAgrees | crates/tap-ldk-core/src/asset_payment.rs:254-276 | Over any run of prepared payments with free ids and non-zero amounts the three stores agree: the i-th payment has commitment number i, its own settled HTLC of the same asset, amount and hash, and the balances of that moment |
| PaymentRuns.PaymentsExplainBalance | crates/tap-ldk-core/src/asset_payment.rs:534-591 | Over such a run the local balance is the initial one minus the recorded amounts, and there are as many commitments as payments |
| PaymentRuns.RunPaired | crates/tap-ldk-core/src/asset_payment.rs:534-591 | Over such a run payments and HTLCs correspond one to one |
| PaymentRuns.RepeatedPaymentAdvances | crates/tap-ldk-core/src/asset_payment.rs:534-591 | Settling what was prepared for a paid payment once more, under a fresh nonce that commits, returns an error and still advances the ledger |
| PaymentRuns.TryDetects | crates/tap-ldk-core/src/asset_payment.rs:278-315 | The guarded send reports an advanced state exactly when a failed send changed some store, which is when the update was accepted and an id was taken or an amount zero |
| FailedSends.CommitsExactly | crates/tap-ldk-core/src/asset_payment.rs:534-562 | After any run, a send gets its update accepted exactly when the request is in order, the final hop grants it, the channel can pay it with an unused nonce, and LDK accepts |
| FailedSends.TakenHtlc | crates/tap-ldk-core/src/asset_payment.rs:564-566 | A committed send whose HTLC id is taken fails with that error and leaves HTLCs and payments alone |
| RfqQuotes.RfqQuoteStore.constructor | crates/tap-ldk-core/src/rfq_quote_store.rs:27-38 | A new quote store is empty |
| RfqQuotes.RfqQuoteStore.Validate | crates/tap-ldk-core/src/rfq_quote_store.rs:285-376 | The loop rebuilds both indexes and accepts exactly the stores whose quotes are in order and bound to their ids, with aliases and domains of live quotes and domains of used ones distinct and indexed |
| RfqQuotes.RfqQuoteStore.Request | crates/tap-ldk-core/src/rfq_quote_store.rs:84-144 | Result and whole new store of a quote request, including the store left changed when the check refuses |
| RfqQuotes.RfqQuoteStore.AllocateAlias | crates/tap-ldk-core/src/rfq_quote_store.rs:387-412 | The search returns the first free alias at or after the seeded one within ten thousand, or none |
| RfqQuotes.RfqQuoteStore.Accept | crates/tap-ldk-core/src/rfq_quote_store.rs:146-174 | Result and whole new store of accepting a quote |
| RfqQuotes.RfqQuoteStore.Reject | crates/tap-ldk-core/src/rfq_quote_store.rs:176-208 | Result and whole new store of rejecting a quote |
| RfqQuotes.RfqQuoteStore.Expire | crates/tap-ldk-core/src/rfq_quote_store.rs:210-243 | Result and whole new store of expiring a quote |
| RfqQuotes.RfqQuoteStore.AuthorizeHtlc | crates/tap-ldk-core/src/rfq_quote_store.rs:245-276 | Result and whole new store of using a quote |
| RfqQuotes.RfqQuoteStore.Register | crates/tap-ldk-core/src/rfq_quote_store.rs:75-82 | Result and whole new store of registering a real channel id |
| RfqQuotes.DomainsStayUsed | crates/tap-ldk-core/src/rfq_quote_store.rs:245-276 | No call, accepted or refused, frees or reassigns a used replay domain |
| RfqQuotes.RequestIsFresh | crates/tap-ldk-core/src/rfq_quote_store.rs:84-144 | A successful request is for an unused replay domain and gets an id that no used quote has |
| RfqQuotes.UsedDomainRefused | crates/tap-ldk-core/src/rfq_quote_store.rs:95-104 | A request for a used replay domain is refused and changes nothing |
| RfqQuotes.QuotesNeverFree | crates/tap-ldk-core/src/rfq_quote_store.rs:444-451 | Every quote is priced at a hundred times its amount, and neither is zero |
| QuoteLife.AcceptExactly | crates/tap-ldk-core/src/rfq_quote_store.rs:146-174 | In a sound store: accepting succeeds exactly for a requested quote in time whose domain is unused, and then changes its status and time only |
| QuoteLife.RejectExactly | crates/tap-ldk-core/src/rfq_quote_store.rs:176-208 | In a sound store: rejecting succeeds exactly for a live quote and a reason that is not blank, and then that quote alone changes, keeping its terms; a refusal changes nothing |
| QuoteLife.ExpireExactly | crates/tap-ldk-core/src/rfq_quote_store.rs:210-243 | In a sound store: expiring succeeds exactly for a live quote whose time is over, and then that quote alone changes, keeping its terms; a refusal changes nothing |
| QuoteLife.UseExactly | crates/tap-ldk-core/src/rfq_quote_store.rs:245-276 | In a sound store: using succeeds exactly for an accepted quote in time whose domain is unused; the grant repeats its terms, the domain is used for it, and that quote alone changes |
| QuoteLife.RequestInOrder | crates/tap-ldk-core/src/rfq_quote_store.rs:84-114 | A request is refused no offer exactly when peer and domain are named, the amount is positive, it is in time, its domain is neither used nor live and its price fits |
| QuoteLife.RequestExactly | crates/tap-ldk-core/src/rfq_quote_store.rs:84-144 | In a sound store a request succeeds exactly when an offer can be made and its id is free, and the store stays sound unless the id was taken |
| QuoteLife.RegisterExactly | crates/tap-ldk-core/src/rfq_quote_store.rs:75-82 | In a sound store: registering a channel id succeeds exactly when no live quote has it as alias, and the store stays sound exactly when no quote at all has it |
| QuoteLife.StepSound | crates/tap-ldk-core/src/rfq_quote_store.rs:285-376 | A call on a sound store leaves it sound exactly when it does not register the alias of a finished quote, or a collision is exhibited |
| QuoteLife.RunSoundExactly | crates/tap-ldk-core/src/rfq_quote_store.rs:75-82 | After every run the store passes its check exactly when no call registered the alias of a finished quote, or a collision is exhibited |
| QuoteLife.NothingAfterHit | crates/tap-ldk-core/src/rfq_quote_store.rs:75-82 | After such a call no call of any kind ever succeeds, or a collision is exhibited |
| QuoteLife.TamperedUnsound | crates/tap-ldk-core/src/rfq_quote_store.rs:285-376 | A sound store in which the terms of a quote were changed under its id does not pass the check, or the two preimages of the id collide |
| QuoteLife.TimesTell | crates/tap-ldk-core/src/rfq_quote_store.rs:499-547 | In a sound store the times of a quote tell its status, and used quotes were accepted |
| QuoteLife.FirstFree | crates/tap-ldk-core/src/rfq_quote_store.rs:387-412 | The alias found is the first from the start, within the tries, that is neither a real channel id nor a live alias |
| QuotedSends.ReceiveNativeRequest | crates/tap-ldk-core/src/rfq_invoice.rs:79-122 | Result and whole new quote store of answering an RFQ request |
| QuotedSends.PayQuoteBoundInvoice | crates/tap-ldk-core/src/rfq_invoice.rs:207-233 | Result and whole new quote store of paying an invoice |
| QuotedSends.PreparePayment | crates/tap-ldk-core/src/asset_payment.rs:432-532 | Result and whole new quote store of preparing a payment, for each failure mode; the TLV encoding in between changes nothing |
| PaymentOrigins.BindExactly | crates/tap-ldk-core/src/rfq_invoice.rs:138-205 | For every quote and request: an invoice is bound exactly when its text is not blank, the quote is accepted and unexpired, the invoice expires no later, and peer, asset, amount, price and context are those of the quote |
| PaymentOrigins.BoundTerms | crates/tap-ldk-core/src/rfq_invoice.rs:138-205 | The bound invoice carries asset, amount, price, context and id of the quote, the payment hash of the request and both expiries |
| QuotePreparation.PreparedExactly | crates/tap-ldk-core/src/asset_payment.rs:432-532 | In a sound quote store a payment is prepared exactly under stated conditions on its names, time, quote and records, and then returns the stated records and leaves the stated store |
| QuotedSends.SendNativeAssetPayment | crates/tap-ldk-core/src/asset_payment.rs:254-276 | Result and the new contents of all four stores of one send, success or failure, store by store |
| QuotedRuns.PrepareFacts | crates/tap-ldk-core/src/asset_payment.rs:432-532 | A prepared payment uses up a free replay domain under a quote id no used quote had, and its records carry that id, the amount asked for and its price |
| QuotedRuns.FreshIds | crates/tap-ldk-core/src/asset_payment.rs:671-680 | With such a quote id both the HTLC id and the payment id are new to the ledger, or the two preimages of a taken one are exhibited |
| QuotedRuns.RunOrderly | crates/tap-ldk-core/src/asset_payment.rs:254-276 | Over every run of openings, sends and quote-store calls with one quote store, each payment that commits has free ids and amounts above zero, or a collision is exhibited |
| QuotedRuns.StoresAgree | crates/tap-ldk-core/src/asset_payment.rs:254-276 | Over every such run commitments, HTLCs and payments agree, pair up one to one and explain the balance, with no assumption on ids or amounts, or a collision is exhibited |
| PaymentOrigins.PaymentsComeFromSends | crates/tap-ldk-core/src/asset_payment.rs:254-276 | Over every run of quoted sends, with no assumption on ids or amounts: the i-th payment of a channel is stored, carries channel, sender, receiver, asset, amount and hash of the i-th send that paid on it, a hundred times the amount in millisatoshi, the quote id its replay domain was used for, and the total the channel was opened with, or a collision is exhibited |
| QuotedRuns.FailedSendsKeepLedger | crates/tap-ldk-core/src/asset_payment.rs:254-276 | After every such run a send that fails changes none of the three stores, or a collision is exhibited |
| QuotedRuns.RepeatRefused | crates/tap-ldk-core/src/rfq_quote_store.rs:95-104 | Once a payment was prepared for an RFQ id, no later send with that id on the same quote store changes anything, whatever happened in between |
| QuotedRuns.FailureModesRefused | crates/tap-ldk-core/src/asset_payment.rs:432-532 | A payment with spoilt metadata is never prepared; one shown with the other payment hash only if that is its own |
| QuotedOutcomes.SendsExactly | crates/tap-ldk-core/src/asset_payment.rs:254-276 | After every run with a sound quote store a send succeeds exactly when its channel is open, the payment can be prepared, the channel can pay it with an unused nonce and a transaction id other than zero, and LDK accepts, or a collision is exhibited |
| RepeatedSends.FreshStorePrepares | crates/tap-ldk-core/src/asset_payment.rs:432-532 | A receiver without quotes prepares every payment that is in order, and the final hop grants it at settlement |
| RepeatedSends.SentTwice | crates/tap-ldk-core/src/asset_payment.rs:254-276 | From an empty ledger: three of ten units are paid; repeated on the same quote store the request changes nothing; repeated against an empty one it fails without an HTLC or payment, and the balance has dropped to four |
| Funding.ValidateInputs | crates/tap-ldk-core/src/asset_channel_funding.rs:926-963 | The loop reports the first faulty input of a side: bad ancestry, wrong asset, repeated in the request, already spent; FundingTerms.InputsExactly says what passes it |
| FundingTerms.InputsExactly | crates/tap-ldk-core/src/asset_channel_funding.rs:926-963 | The inputs of a side pass exactly when each proof verifies for the asset, carries its id and is unspent, and no two share an id |
| FundingTerms.FirstInputFault | crates/tap-ldk-core/src/asset_channel_funding.rs:926-963 | With the proofs before it in order, the first that is not gives the fault of the side: ancestry, then asset, then repeated, then spent |
| FundingTerms.InputsReplay | crates/tap-ldk-core/src/asset_channel_funding.rs:990-1084 | The issuance records of the inputs replay exactly when every proof encodes, its transition is non-zero, its amount positive, its anchor an outpoint and its root the replayed one, and no two share an id |
| FundingTerms.HistoryExactly | crates/tap-ldk-core/src/asset_channel_funding.rs:990-1084 | The whole funding history replays and explains the funding output exactly under those conditions and on transition, outpoint and root of the funding itself |
| Funding.SumInputs | crates/tap-ldk-core/src/asset_channel_funding.rs:980-988 | The checked sum is the mathematical sum of the inputs, or none when it does not fit |
| Funding.EnterProofs | crates/tap-ldk-core/src/asset_channel_funding.rs:284-303 | Entering proof ids into the index succeeds exactly when they are distinct and new, and adds exactly them |
| Funding.IndexUnique | crates/tap-ldk-core/src/asset_channel_funding.rs:284-311 | There is one index recomputed from the channels, in whatever order |
| Funding.AssetChannelStore.constructor | crates/tap-ldk-core/src/asset_channel_funding.rs:57-66 | A new funding store has no channel and no spent proof |
| Funding.AssetChannelStore.FundChannel | crates/tap-ldk-core/src/asset_channel_funding.rs:93-243 | Result and whole new store of a funding request, with the store untouched when the final validation refuses |
| Funding.AssetChannelStore.Validate | crates/tap-ldk-core/src/asset_channel_funding.rs:262-312 | The loop accepts exactly the stores whose channels are all in order and whose spent index equals the one recomputed from them |
| FundingRuns.FundOutcome | crates/tap-ldk-core/src/asset_channel_funding.rs:100-243 | The exact condition of acceptance: the plan succeeds, the two sides share no proof, and the root carries the total; a refusal changes nothing |
| FundingTerms.FundedExactly | crates/tap-ldk-core/src/asset_channel_funding.rs:93-243 | In a store that validates, a request is funded exactly when its peers and outpoint are named, there are inputs, all verify for its asset and carry it, are unspent and distinct across both sides and of one genesis, their total fits, the VM accepts, an expected root is the derived one, the channel is new, LDK accepts and the history replays |
| FundingTerms.FundedHolds | crates/tap-ldk-core/src/asset_channel_funding.rs:93-243 | The channel of a funded request carries its terms, the amounts and ids of its proofs and their total, passes its own check, and is the one entry added, with exactly its proofs added to the spent index |
| FundingTerms.RunFundsExactly | crates/tap-ldk-core/src/asset_channel_funding.rs:93-243 | After every run of requests the same condition decides, and a refused request changes nothing |
| FundingTerms.BadProofRefused | crates/tap-ldk-core/src/asset_channel_funding.rs:926-978 | After every run a request with a proof that does not verify, is of another asset or genesis, or is spent is refused and changes nothing |
| FundingTerms.ChannelFunded | crates/tap-ldk-core/src/asset_channel_funding.rs:93-243 | Every channel of a reachable store comes from a request of the run that was in order in every one of these respects when it was made |
| FundingRuns.RunFine | crates/tap-ldk-core/src/asset_channel_funding.rs:262-312 | After any run the store validates, so the spent index is the recomputed one and no proof is in two channels or twice in one |
| FundingRuns.RunExtends | crates/tap-ldk-core/src/asset_channel_funding.rs:100-243 | The channels and the spent index only grow, and no entry ever changes |
| FundingRuns.NoProofFundsTwice | crates/tap-ldk-core/src/asset_channel_funding.rs:926-963 | After a request is accepted, no later request with any of its proofs is accepted, on either side |
| FundingRuns.FundingConserves | crates/tap-ldk-core/src/asset_channel_funding.rs:100-243 | Over any run the channel totals add up to the amounts of the accepted input proofs |
| FundingRuns.FundedOpensOutside | crates/tap-ldk-core/src/asset_commitment.rs:234-291 | Every funded channel opens in the ledger with funding ids outside the ledger's own names |
| FundingRuns.FundedLedgerOutside | crates/tap-ldk-core/src/asset_commitment.rs:82-165 | In any run of a ledger that opens only funded channels, every channel keeps funding names outside the names of the ledger |
| FundingRuns.FundedLedgerAccepts | crates/tap-ldk-core/src/asset_commitment.rs:101-165 | After any such run an update is accepted exactly when its channel is open, the request validates, its transaction id is non-zero and LDK accepts |
| ChannelBinding.ChannelIdBinds | crates/tap-ldk-core/src/asset_channel_funding.rs:1241-1271 | One channel id fixes peers, asset, outpoint, key, balances and the multiset of spent proofs, or two preimages collide |
| ChannelBinding.TransitionBinds | crates/tap-ldk-core/src/asset_channel_funding.rs:1086-1116 | Two channels with one funding transition agree in channel, asset, outpoint, key, balances and the multiset of spent proofs exactly when their ids and outpoints are of one length, or two preimages collide |
| ChannelBinding.TransitionShifted | crates/tap-ldk-core/src/asset_channel_funding.rs:1086-1116 | Every channel shares its funding transition with a different one, whatever the hash |
| ChannelBinding.MonitorDigestBinds | crates/tap-ldk-core/src/asset_channel_funding.rs:517-555 | The digest of a funding monitor fixes everything it covers, or two preimages collide |
| ChannelBinding.StoredExactly | crates/tap-ldk-core/src/asset_channel_funding.rs:383-471 | A stored channel passes its check exactly when it is the one rebuilt from its own terms, under its own id, with a monitor that is persisted |
| Recovery.TakeOutcome | crates/tap-ldk-core/src/asset_recovery.rs:139-196 | For any references: exactly when a checkpoint can be taken, and that it carries the number, asset and balances of the state with them and validates |
| Recovery.PreparedCloseValid | crates/tap-ldk-core/src/asset_recovery.rs:73-119 | A close prepared from a conserved state always passes its own check |
| Recovery.CloseExactly | crates/tap-ldk-core/src/asset_recovery.rs:88-119 | A close preparation passes its check exactly when its balances add up and its digest is that of its terms |
| Recovery.CheckpointExactly | crates/tap-ldk-core/src/asset_recovery.rs:168-196 | A checkpoint passes its check exactly when it is the one taken of a state with its fields and references |
| IdBinding.CheckpointBinds | crates/tap-ldk-core/src/asset_recovery.rs:198-239 | A checkpoint digest fixes every field of the checkpoint, or the two preimages collide |
| IdBinding.CloseDigestBinds | crates/tap-ldk-core/src/asset_recovery.rs:1225-1251 | A close digest fixes channel, asset, number and balances, or the two preimages collide |
| Recovery.CheckpointFreshness | crates/tap-ldk-core/src/asset_recovery.rs:315-336 | A checkpoint with any references recovers after any further calls exactly when no update was accepted on its channel since and its references are found; after an update, even one that leaves the balances alone, it is refused as stale |
| Recovery.RecoverOutcome | crates/tap-ldk-core/src/asset_recovery.rs:315-375 | The exact condition of recovery for every checkpoint, with quote, HTLC and payment references looked up, and that the report repeats the checkpoint |

## Left out

- SHA-256 itself, key derivation and curve arithmetic: the hash is an arbitrary function; a signature is the digest comparison the code makes.
- Calls into LDK (auxiliary blob digest and acceptance, HTLC metadata, funding hook): deterministic accept or reject parameters.
- The Taproot commitment and the virtual-machine verdict of a funding transition, the outpoint parser, proof-file encoding and its semantic checks: parameters of `FundEnv`.
- UTF-8 validity, blank-text tests, trimming and the parser the ledger reads ids with: parameters (`Text.ParseHex` is the parser itself); a text is the sequence of its UTF-8 bytes.
- Which fault the check of a quote store reports, and quotes loaded from a file; in `Payments` and `PaymentRuns` a prepared payment is arbitrary, in `QuotedSends` and after it is what the quote store prepares.
- Anchor policies other than "all confirmed" and the `states` map of a replay: the ledger never uses them.
- ProofReplay.MoveStep: covers records with one input and one output, as the ledger makes them; `ReplayTotals.StepExactly` covers all. The loop of the replay engine is a recursion on the record list.
- CommitmentHistory.HistoryBinding: does not cover nonce, witness digest and signature, because the output id is not derived from them (`CommitmentHistory.ForgeryPasses`).
- QuotePreparation.PreparedExactly: is about payments as they are meant; `QuotedRuns.FailureModesRefused` covers the spoilt ones.
- QuotedRuns.RunOrderly: is about runs with one quote store, because with two the property is false (`RepeatedSends.SentTwice`).
- PaymentRuns.RunAgrees: is limited to runs in which no committed send meets a taken id or a zero amount, because the property is false of the others (`Payments.SendOutcome`); `QuotedRuns.StoresAgree` has no such limit.
- Payments.NativeAssetPaymentStore.Validate: leaves out the schema version, which only loading a file can change.
- AssetRoot.DeriveHashSumRoot: takes at most 2^64 leaves, the range of the index that is hashed.
- ProofTransport.AnyOrderReassembles: takes proofs of fewer than 2^32 chunks, which is what `split` can number.
- PeerMessage.MessageRoundTrip: takes texts that are valid UTF-8 and byte strings shorter than 2^64, which is all the program can hold.
- The store-wide validation after an update reports a fault of another channel as one error of its own; in reachable stores it cannot occur (`CommitmentStore.OnlyItsChannelMatters`).
- The texts inside error values, schema and metadata strings, and the display of errors.
- Digests and lengths that blob summaries keep in place of the bytes: the model keeps the bytes.
- Balance lists, auxiliary leaves and the top-level blob decoders, RFQ rejects outside the peer message, and scid aliases: further records of the shapes proved here.
- The gate that refuses asset messages before channel negotiation.
- Loading and saving stores, JSON, the smoke drivers, live peers, the command line, close allocation, addresses and virtual PSBTs.
- Proof ownership after a close in `asset_recovery.rs`: it depends on LDK state that is not part of this model.
