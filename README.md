# stellar-multisig approval engine in Dafny

This project models the approval-decision engine of `stellar-multisig`. Given a
Stellar transaction, the ledger records of its source accounts, and either
signatures or pre-validated signing keys, the engine decides whether every
source account has collected enough signer weight. It can also fail with
`TooManySignatures` when a supplied signature cannot be attributed to a signer.

The model follows the engine's pieces, one module each:

- `Primitives`: bytes, textual keys, the hexadecimal encoding of hints, and the
  SDK's cryptographic collaborators (`verify`, `hash`,
  `encodeSha256Hash`/`decodeSha256Hash`, the public-key hint). These are
  uninterpreted functions, gathered in a `Crypto` record that is passed as a
  parameter.
- `Ledger`: account records, operations, transactions, decorated signatures,
  the source account of an operation and the source accounts of a transaction.
- `Hints` (`src/hints.ts`): hint derivation for public keys, hash(x) keys,
  signers and signatures, and its dispatch table.
- `Thresholds`: covers these parts of `src/multisig.ts`:
  - operation categories;
  - `getThresholds`, including the thresholds a `setOptions` operation changes
    for the operations after it;
  - `getRejectionThresholds`.
- `SignerIndex`: `getSigners`, the hint → keys and key → account → weight
  index of one signer type, including signers that the transaction's own
  `setOptions` operations add. The effect of `add` is stated for any hint
  function; `getSigners` uses the hint dispatch of `src/hints.ts`, so the facts
  about buckets and weights hold whatever hint a signer gets.
- `Weights`: weight accumulation and the two threshold tests.
- `Approval`: `validateSignature`, the scan of `isApproved_common_` (pre-authorised
  keys, the hash(x) and ed25519 passes, the all-signatures-used test), and the
  two entry points.

Code that works by updating state is modelled as methods:

- `getThresholds`, `getSigners` and its `add` closure;
- `updateSigningWeights_` and `addSignatureToWeights`;
- `validateSignature`'s search loop;
- the preAuth loop and the `checkSignatures` closure of `isApproved_common_`.

The methods that model a loop carry its invariants, and each method is proved
equal to a specification function. The source's properties are then proved as
lemmas about those functions.

One might expect an account without a weight entry to count as weight 0.
`hasEnoughApprovals` (src/multisig.ts:354) compares `undefined >= threshold`,
which is false, so such an account fails even a threshold of 0. The model
follows the code (`Weights.MissingEntryFails`).

## Model

| member | source | states |
|---|---|---|
| Ledger.OperationSource | src/multisig.ts:49-52 | an operation's own non-empty source wins; otherwise the envelope source |
| Ledger.TransactionSourceAccounts | src/multisig.ts:61-65 | the set holds exactly the operations' source accounts (an operation without one falls back to the envelope source): each is in it and nothing else is |
| Ledger.EnvelopeSourceOmitted | src/multisig.ts:61-65 | a transaction whose only operation names another source yields a set without the envelope source |
| Ledger.RequiredAccounts | src/multisig.ts:126-134 | exactly the accounts whose records getThresholds reads: the envelope source and every operation's source, and nothing else |
| Primitives.Hex | src/hints.ts:27 | hex text has two characters per byte |
| Primitives.HexInjective | src/hints.ts:67 | different bytes give different hex text |
| Primitives.From28 | src/hints.ts:39 | `slice(28)` of a 32-byte hash is its last 4 bytes; a buffer of 28 bytes or fewer gives nothing |
| Hints.GetHintFromPubKey | src/hints.ts:24-27 | the hint has two hex characters per byte of the SDK's public-key hint |
| Hints.GetHintFromHash | src/hints.ts:36-39 | when the decoded hash has 32 bytes, the hint is 8 hex characters: the hex of bytes 28..31 |
| Hints.HintFunc | src/hints.ts:41-46 | both spellings of the sha256 type select the hash hint; both spellings of the ed25519 type select the public-key hint; every other type has no entry |
| Hints.GetHintFromSigner | src/hints.ts:55-57 | fails exactly for a type outside the table; otherwise gives the hash or public-key hint of the key |
| Hints.SpellingsShareHint | src/hints.ts:41-46 | the two spellings of one key type, Horizon's and the SDK's, give a key the same hint |
| Hints.PreauthHasNoHint | src/hints.ts:41-46 | a `preauth_tx` signer has no hint function |
| Hints.GetHintFromSignature | src/hints.ts:65-67 | the hint has two hex characters per byte of the signature's hint bytes |
| Hints.SignatureHintsAgree | src/hints.ts:65-67 | two signatures have the same hint text exactly when their hint bytes are equal |
| Hints.CreatePreimageSignature | src/sign.ts:26-31 | the payload is the preimage; for a 32-byte hash the hint is its last 4 bytes |
| Hints.PreimageHintAgrees | src/sign.ts:29 | if decoding an encoded hash gives it back, a preimage signature's hint equals the hint of the hash(x) signer for that preimage |
| Thresholds.OperationCategory | src/multisig.ts:75-99 | accountMerge is high; setOptions is high exactly when a weight, a threshold or a signer is truthy, else medium; allowTrust, bumpSequence and inflation are low; everything else is medium |
| Thresholds.ApplySetOptions | src/multisig.ts:139-151 | each threshold field takes the operation's new value when that value is truthy, and keeps the old one otherwise |
| Thresholds.OverrideThresholds | src/multisig.ts:139-151 | the in-place overwrite of the three threshold fields gives ApplySetOptions |
| Thresholds.AccountMap | src/multisig.ts:115-120 | one record per supplied id |
| Thresholds.AccountMapLast | src/multisig.ts:117-120 | each id maps to the last supplied record with that id, and the ledger thresholds of the id are that record's |
| Thresholds.GetThresholds | src/multisig.ts:109-155 | the requirements the loops build are ThresholdsOf the transaction and the records |
| Thresholds.ChargeOperation | src/multisig.ts:131-151 | charging operation j and applying its overrides takes the working thresholds and the requirements from their specification before j to after j |
| Thresholds.ChargeOperations | src/multisig.ts:130-152 | the operation loop keeps the working thresholds and the requirements equal to their specification after each operation |
| Thresholds.RequiredBounds | src/multisig.ts:128-137 | a requirement never drops below its start value and covers every charge of an operation the account sources |
| Thresholds.RequiredAttained | src/multisig.ts:128-137 | a requirement equals its start value or the charge of one operation the account sources |
| Thresholds.ThresholdsCharacterised | src/multisig.ts:114-137 | one entry per supplied account; each entry is at least 1; the envelope source's entry is at least its low threshold; every entry covers the charges of its operations; each entry is the largest of these |
| Thresholds.OverrideAbsent | src/multisig.ts:134-151 | when no earlier setOptions on the account gave a threshold field a truthy value, an operation reads that field's ledger value |
| Thresholds.OverrideLatest | src/multisig.ts:134-151 | otherwise it reads the value of the latest such setOptions |
| Thresholds.SetOptionsChargedBeforeChange | src/multisig.ts:131-151 | a setOptions operation on an account that no earlier operation sources is charged at that account's ledger thresholds, not at the ones it sets |
| Thresholds.RaisedThresholdAppliesLater | src/multisig.ts:128-151 | raising the medium threshold to 3 charges a later payment 3 while the setOptions itself is charged 1; a new value of 0 changes nothing |
| Thresholds.ThresholdsInPlace | src/multisig.ts:139-151 | getThresholds as written: the requirements are ThresholdsOf, and the returned records keep their ids and signers; the last record for each id takes the final working thresholds, every other record keeps its own, when the supplied records are distinct objects that share no `thresholds` object |
| Thresholds.ThresholdsLeakIntoNextEvaluation | src/multisig.ts:139-151 | evaluating a payment followed by a raise of the medium threshold gives 1 the first time and 3 the second time on the same records |
| Thresholds.RejectionThresholds | src/multisig.ts:165-179 | one entry per supplied account |
| Thresholds.RejectionThresholdOfLast | src/multisig.ts:171-176 | an account's entry comes from its last record: the sum of its signer weights minus its threshold |
| SignerIndex.AccountEntries | src/multisig.ts:217-224 | the ledger pass adds only signers of the requested type, never a `preauth_tx` signer |
| SignerIndex.AccountEntriesMembers | src/multisig.ts:217-224 | a signer of one account is added exactly when its type is the requested one and not `preauth_tx` |
| SignerIndex.LedgerEntriesMembers | src/multisig.ts:217-224 | a signer is added for an account exactly when it is a selected signer of a record with that id |
| SignerIndex.AmendEntry | src/multisig.ts:232-255 | a setOptions adds a signer exactly when its key kind matches the requested type and its weight is not 0; the signer goes on the operation's source account; a hash key is re-encoded |
| SignerIndex.AmendEntriesMembers | src/multisig.ts:232-255 | the amendment pass adds exactly the signers its operations add |
| SignerIndex.AddSigner | src/multisig.ts:201-215 | the `add` closure's in-place updates give Add |
| SignerIndex.IndexAccount | src/multisig.ts:218-223 | the filtered loop over one account's signers adds that account's selected signers in order |
| SignerIndex.IndexLedgerSigners | src/multisig.ts:217-224 | the ledger pass adds every account's selected signers in order |
| SignerIndex.IndexSigner | src/multisig.ts:218-223 | one iteration of the filtered loop adds the signer exactly when its type is the requested one and not `preauth_tx`, and otherwise leaves the index alone |
| SignerIndex.AccountIndexAddsEntries | src/multisig.ts:217-224 | running the filtered loop over an account's first signers adds exactly its selected signers, in order |
| SignerIndex.AmendSigner | src/multisig.ts:238-254 | one operation of the amendment loop takes the index from AmendIndex of the operations before it to AmendIndex including it: it adds the signer the operation carries, if any |
| SignerIndex.AmendIndexAddsEntries | src/multisig.ts:237-255 | running the amendment loop over the first operations adds exactly their signers, in order |
| SignerIndex.AmendSigners | src/multisig.ts:237-255 | the amendment loop over all operations gives AmendIndex |
| SignerIndex.GetSigners | src/multisig.ts:189-258 | the index built is SignersOf the transaction, the records and the type |
| SignerIndex.WeightsAreLastAdded | src/multisig.ts:210-213 | `keys[key][account]` exists exactly when some signer was added for that pair, and holds the weight of the last one |
| SignerIndex.BucketsHoldAddedKeys | src/multisig.ts:203-208 | a key is in a hint bucket exactly when a signer with that key and that hint was added |
| SignerIndex.BucketsDistinct | src/multisig.ts:203-208 | a hint bucket never holds a key twice |
| SignerIndex.PreauthIndexesNothing | src/multisig.ts:217-228 | for `preauth_tx` the index is empty |
| SignerIndex.IndexEmptyIffNoSigners | src/multisig.ts:201-255 | `isEmpty` holds exactly when no record has a selected signer and no setOptions adds one |
| SignerIndex.LedgerSignerIndexed | src/multisig.ts:217-224 | a selected ledger signer is in its hint bucket and has a weight for its account |
| SignerIndex.AmendmentWeightPrevails | src/multisig.ts:232-255 | a signer that a setOptions adds, with no later setOptions adding the same key to the same account, carries that operation's weight, overriding any ledger weight |
| Weights.AddWeights | src/multisig.ts:266-278 | every account of either map is present, and its weight is the sum of the two |
| Weights.UpdateSigningWeights | src/multisig.ts:266-278 | the loop over the signer's accounts gives AddWeights |
| Weights.AddSignatureToWeights | src/multisig.ts:330-339 | a known key adds its per-account weights; an unknown key changes nothing |
| Weights.HasEnoughApprovals | src/multisig.ts:350-355 | approval needs a weight entry for every account with a threshold; an account without one fails |
| Weights.HasEnoughRejections | src/multisig.ts:367-372 | rejection needs a weight entry for every account with a rejection threshold; an account without one fails |
| Weights.MissingEntryFails | src/multisig.ts:350-372 | an account without a weight entry fails both tests, whatever its threshold |
| Weights.UnknownKeyAddsNothing | src/multisig.ts:335-338 | a key absent from the index leaves the weights unchanged |
| Weights.KnownKeyAddsItsWeights | src/multisig.ts:330-339 | a known key creates the entries of its accounts and adds its weight to each |
| Weights.SameKeyTwiceDoubles | src/multisig.ts:266-278 | counting the same key twice adds its weight twice |
| Weights.CountingCommutes | src/multisig.ts:266-278 | counting two keys in either order gives the same weights |
| Weights.ApprovalsMonotone | src/multisig.ts:350-355 | counting a key never withdraws an approval |
| Weights.RejectionsAreStrictApprovals | src/multisig.ts:367-372 | hasEnoughRejections is hasEnoughApprovals with every rejection threshold raised by one |
| Weights.PartsMakeWhole | src/multisig.ts:174-176 | the signers in and out of a chosen set weigh the account's total together |
| Weights.RejectionExcludesApproval | src/multisig.ts:367-372 | once the chosen signers exceed an account's rejection threshold, its other signers stay below its threshold |
| Approval.FirstMatch | src/multisig.ts:303-318 | a result is a key of the bucket that the signature proves; there is no result exactly when no key is proved |
| Approval.FirstMatchIsEarliest | src/multisig.ts:303-318 | the result is the first proved key in bucket order |
| Approval.ResolvedKey | src/multisig.ts:295-320 | no bucket for the signature's hint gives no result; a result is in that bucket and is proved by the signature |
| Approval.ValidateSignature | src/multisig.ts:289-321 | the search loop returns ResolvedKey: a 'G' key that verifies, or an 'X' key equal to the encoded hash of the payload; other keys are skipped |
| Approval.PreimageSignatureResolves | src/sign.ts:26-31 | if decoding the encoded hash gives it back, a preimage signature resolves to the 'X' key of its preimage's hash in an index of hash(x) keys |
| Approval.KeyCandidates | src/multisig.ts:457-461 | every signing key is offered with its own index |
| Approval.SignatureCandidates | src/multisig.ts:487-494 | an index is offered exactly when its signature resolves, and with the key it resolves to |
| Approval.SignatureCandidatesIncreasing | src/multisig.ts:487-494 | the generator offers indices in strictly increasing order, so each signature at most once |
| Approval.CheckSignatures | src/multisig.ts:414-428 | the closure's loop gives Checked: an empty index is skipped, and the loop stops once isDone |
| Approval.PreAuthLoop | src/multisig.ts:401-410 | the preAuth loop gives PreAuthPass |
| Approval.IsApprovedCommon | src/multisig.ts:386-438 | the result is ApprovedCommon |
| Approval.IsApprovedPrevalidated | src/multisig.ts:450-465 | the result is the common scan over every key |
| Approval.IsApproved | src/multisig.ts:478-498 | the result is the common scan over the resolving signatures |
| Approval.ConsumeHalts | src/multisig.ts:419-422 | once isDone holds, no further candidate is consumed |
| Approval.ConsumeTracksQuorum | src/multisig.ts:424-425 | isDone stays equal to hasEnoughApprovals of the accumulated weights |
| Approval.ConsumeMarks | src/multisig.ts:419-426 | an index is marked exactly when a candidate carrying it was consumed before quorum |
| Approval.PreAuthHalts | src/multisig.ts:402-405 | once the preAuth loop has returned, it stays returned |
| Approval.PreAuthEarlyIffQuorumBeforeLastKey | src/multisig.ts:401-410 | the preAuth loop returns true early exactly when the keys before the last one reach quorum; otherwise it has counted every key |
| Approval.CheckedAfterQuorum | src/multisig.ts:419-422 | a pass that starts with quorum changes nothing |
| Approval.CheckedMarksOnlyCandidates | src/multisig.ts:419-427 | a pass marks only indices its candidates carry |
| Approval.NoQuorumWithoutWeight | src/multisig.ts:350-355 | the empty weights never reach quorum |
| Approval.DecisionReflectsQuorum | src/multisig.ts:414-437 | an answer the scan returns is whether its final weights reach quorum |
| Approval.ApprovalReflectsQuorum | src/multisig.ts:386-438 | without an early preAuth return, a returned answer is whether the accumulated weights reach every account's threshold |
| Approval.UnattributedIndexRejected | src/multisig.ts:426-435 | without an early preAuth return, an index that no candidate carries gives TooManySignatures |
| Approval.UnresolvedSignatureRejected | src/multisig.ts:487-497 | without an early preAuth return, a signature that resolves against neither index makes isApproved fail with TooManySignatures |
| Approval.CandidateAfterQuorumRejected | src/multisig.ts:419-435 | a candidate offered after the hash(x) pass reached quorum stays unmarked, giving TooManySignatures |
| Approval.EdCandidateAfterQuorumRejected | src/multisig.ts:419-435 | a candidate offered after the ed25519 pass reached quorum, whose index the hash(x) pass left unmarked, stays unmarked, giving TooManySignatures |
| Approval.PrevalidatedBelowQuorumMarksAll | src/multisig.ts:457-463 | when some signer index is non-empty and the keys fall below quorum, every prevalidated key is marked, signer or not, so the answer is false and not an error |
| Approval.RejectedIffUnmarked | src/multisig.ts:433-435 | without an early preAuth return, and with every candidate index below the signature count, TooManySignatures is raised exactly when some supplied index is unmarked |
| Approval.UsedBitsUpto | src/multisig.ts:426 | marking indices 0..n-1 for n up to 32 sets bits 0..n-1 |
| Approval.ThirtyOneMarkedSignaturesRejected | src/multisig.ts:426-463 | with 31 signatures all marked, the 32-bit test as written still throws |
| Approval.ThirtyThreeSignaturesOneMarkedAccepted | src/multisig.ts:426-496 | with 33 signatures of which only the first is marked, the 32-bit test as written passes |

## Findings

| source | as written | input that shows it | evidently intended | confidence | as-written member | corrected member |
|---|---|---|---|---|---|---|
| src/multisig.ts:139-151 | getThresholds writes setOptions threshold changes into the caller's account records | a payment followed by a setOptions raising the medium threshold to 3, evaluated twice on the same records: the payment needs 1, then 3 | changes go to a working copy that is private to one evaluation | medium, not executed | Thresholds.ThresholdsInPlace | Thresholds.GetThresholds |
| src/multisig.ts:61-65 | the source accounts of a transaction are only its operations' sources | envelope source GALICE with one payment sourced from GBOB: GALICE is missing, yet getThresholds reads its record at src/multisig.ts:126 | the envelope source is always included | medium, not executed | Ledger.EnvelopeSourceOmitted | Ledger.RequiredAccounts |
| src/multisig.ts:426-496 | used signatures are a 32-bit bitmask built from `1 << index` | 31 signatures all marked throws TooManySignatures; 33 signatures with only the first marked is accepted | compare sets of indices | low: Stellar envelopes carry at most 20 signatures, not executed | Approval.ThirtyOneMarkedSignaturesRejected | Approval.RejectedIffUnmarked |

The corrected members are the ones the rest of the model uses:

- `GetThresholds` works on values and leaves the records unchanged.
- `GetThresholds` and `IsApprovedCommon` require `RequiredAccounts(tx)` to be
  covered by the records.
- `Decide` compares sets of indices.

## Left out

- `src/ledger.ts` (fetching account records from Horizon), `src/codecs.ts` and the signing wrappers of `src/sign.ts` other than `createPreimageSignature`: network and SDK plumbing.
- The `.js` files are older Flow versions of the same functions and are not part of this model.
- `getTransactionHashRaw`: the transaction hash that `isApproved` checks signatures against is the `txHash` parameter of `Approval.IsApproved`.
- Cryptography: `verify`, `hash`, `encodeSha256Hash`, `decodeSha256Hash` and the public-key signature hint are uninterpreted. Exceptions these SDK calls throw on malformed keys are not modelled.
- Missing account records: the source crashes with a TypeError when a source account has no record (src/multisig.ts:126, 134). Having every required record is a precondition of `GetThresholds` and `IsApprovedCommon`.
- Thresholds.RejectionThresholds: requires a threshold for every account. For an account without one, JavaScript subtracts `undefined` and yields NaN.
- Signer and operation weights are naturals. An undefined `op.signer.weight` passes the `!== 0` test (src/multisig.ts:241), which the model does not represent.
- The generators of `isApproved_prevalidated` and `isApproved` are sequences of (index, key) pairs computed in full. Laziness cannot be observed because resolution has no side effects.
- Approval.Decide: the used-signature bitmask is a set of indices. Its 32-bit wrap-around is modelled only in the Findings lemmas.
- SignerIndex.Add: a signer whose type has no hint function is filed under the empty hint, where the source throws. Neither pass of getSigners adds such a signer (a selected ledger signer has the requested type, and AmendEntry ensures a hint exists), and the `add` method AddSigner requires one.
- Thresholds.ThresholdsInPlace: account records are values, so the supplied records are taken to be distinct objects that share no `thresholds` object. When the caller passes one record object twice, or two records share a `thresholds` object, the source's write through `accountMap[source].thresholds` (src/multisig.ts:134, 141-149) shows at every aliased position, and the model does not capture that.
- The `weights` dictionary that `isApproved_common_` passes to its helpers is threaded through as a value. It is local to one call, so no aliasing can be observed.
- JavaScript object lookups keyed by strings such as `constructor` (prototype properties) are not modelled. Keys are plain map keys.
- The tests call `hasEnoughSignatures`, `hasEnoughSigners` and `createTransactionSignature`, which are not part of this model. The same goes for matching pre-authorised transaction hashes.
