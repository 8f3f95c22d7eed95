# MarketMind contracts: a Dafny model

This project models the parts of MarketMind where one mistake would publish the wrong thing, and proves
what those parts promise for all inputs and all runs:

- the publishing protocol: canonical JSON and the fingerprints and signatures over it, the event-sourced
  intake of publication candidates, the dispatch gate, and the asset checks around it;
- immutable asset storage: its three drivers, the filesystem protocol under concurrent writers, and
  `generate_static_asset` on top of them;
- three deterministic validators: optimization evidence (written twice, in TypeScript and in Python), the
  planner's repair loop with its circuit breaker, and the strategy policies.

`dafny verify dfyconfig.toml` checks everything.

## How to read it

| file | models |
|---|---|
| Text, Collections, Statistics | JavaScript string order, decimal printing, identifier patterns; counting arguments; median, maximum and tolerance on exact reals |
| PublishingCanonical, JsonText, Fingerprints | canonicalizing, `JSON.stringify` (RFC 8259 section 7 quoting) and a reader for it, SHA-256 fingerprints |
| PublishingKeys | job and attempt keys |
| PublicationCandidate, CandidateIntake, IntakeAnswers | candidate and status checks, the intake reducer and its runs, and how each delivery is answered |
| CandidateValidators, DispatchValidators | the validators of candidates, statuses, events, records, targets, approvals, intents and attempts, and the gate, as they run |
| PublishingEnvelope, DispatchAssets, DispatchGate | signed envelopes, the three views of a dispatch's assets, the gate |
| DispatchBody | the body validator as it runs, with its early returns and first codes |
| Documents, DispatchDocuments, HonestDispatch | documents built from key lists, what an honest sender builds, and exactly what can be dispatched |
| CandidateIdentities, SampleDispatch | a family of created events taken from an empty store to the gate |
| AssetStorage, FileStorage, Paths, ObjectStorage | the write-once map and the in-memory driver; the filesystem driver over resolved paths, and how keys resolve; the object store |
| ConcurrentStore, ConcurrentAssets | interleaved filesystem steps, and what they mean for an asset's extensions |
| AssetGeneration, Png | `generate_static_asset` over any driver, the mock PNG writer and reader |
| OptimizationEvidence, PreparedEvidence | the TypeScript and the Python evidence check |
| CircuitBreaking, Planner | the breaker and the repair loop |
| StrategyPolicy, OwnerChoice | strategy-v1 scores, budget and weeks; the strategy-v2 owner-choice chain up to a generation request |

Documents that the TypeScript validators take as `unknown` are `PublishingCanonical.Value`, a JavaScript
value with objects as ordered field lists; `Get(v, "field")` is property access. Everything outside the
contracts (SHA-256, HMAC, `Date.parse`, the Cairo clock, URL safety, the candidate checksum, zlib) is a
function value in `Host` or `Zlib`, about which a lemma assumes only what its `requires` says.

No lemma assumes that a hash has no collisions, since none can be free of them. A conclusion that rests on
the hash reads "equal up to key order, or these two canonical texts collide".

Every lemma turns automatic induction off, so that the proof that is shown is the proof that is used.

## Where code and expectation differ

- An accepted created event stores a record that passes its own validation if and only if its identities are UUIDs;
  otherwise the record rejects every later delivery, revocations included
  (`CandidateIntake.CreatedRecordValidIffUuid`, `CandidateIdentities.AcceptedButUsableIffUuids`).
- Repeated asset ids pass the candidate validator, and such a candidate can never be dispatched
  (`HonestDispatch.DispatchableIffDistinctAssets`). An image post that lists one image twice is stored, valid and
  active, and stays (`SampleDispatch.TwoImagesLeaveIffDistinct`, `SampleDispatch.SharedIdentityNeverLeaves`).
- On the filesystem an asset gets two extensions through calls that overlap, and in no other way: if both end up
  linked, then calls for both were under way while both were free, whatever they reported
  (`ConcurrentStore.BothLinkedMeansOverlap`, `ConcurrentAssets.TwoExtensionsMeanOverlap`). Two calls are enough,
  for any asset (`ConcurrentAssets.TwoExtensionsOfOneAsset`).
- The object store keeps one extension per asset over a run if and only if no two of the requests share an asset and
  differ in extension (`ObjectStorage.OneExtensionIffRequestsAgree`); otherwise both can succeed
  (`ObjectStorage.TwoExtensionsBothSucceed`), and two ready assets of one id differ
  (`AssetGeneration.ReadyObjectsAgreeIffOneExtension`, `AssetGeneration.TwoReadyObjects`).
- The filesystem driver is the write-once map if and only if every key of the assets in question has a file of its
  own that can be written (`FileStorage.AnswersLikeMapIffClear`). Ids without a slash have that
  (`Paths.PlainIdsAgree`). An id a/b is refused on a fresh root, because mkstemp needs a directory .a
  (`Paths.SlashedIdRefused`); a/../b and b share a file (`Paths.DottedIdCollides`).
- The publishing validators find one field outside the boundary and test it for truth, so a first such field named
  by the empty text passes, with everything after it (`PublicationCandidate.NoExtraFieldMeans`,
  `CandidateIdentities.ExtraFieldsAccepted`).
- Week numbers are checked to be twelve distinct numbers from 1 to 12, never to be whole, so a week can be missing:
  every week has its entry if and only if all numbers are whole (`StrategyPolicy.EveryWeekOnceIffWhole`,
  `StrategyPolicy.FractionalWeekAccepted`, `OwnerChoice.EveryWeekFoundIffWhole`).
- The breaker's docstring speaks of one probe after the cooldown; the code allows any number until an outcome
  is recorded (`CircuitBreaking.AskTwice`). The model follows the code.
- The Python budget check is wider than the TypeScript one, by exactly what
  `StrategyPolicy.BalanceIffInnerTolerance` says.
- Keys are injective for every id, not only for UUIDs.

## Model

| member | source | states |
|---|---|---|
| PublishingCanonical.CanonicalizeThrows | packages/contracts/src/publishing/publishing-canonical.ts:13-34 | Canonicalizing succeeds exactly on the values JSON has a form for, at any depth |
| PublishingCanonical.CanonicalCompleteInvariant | packages/contracts/src/publishing/publishing-canonical.ts:13-34 | Two values have one canonical form exactly when they are equal up to key order and undefined fields; index-like keys, which objects list first, included |
| PublishingCanonical.CanonicalObjectFields | packages/contracts/src/publishing/publishing-canonical.ts:23-31 | A canonical object holds exactly the defined fields, canonicalized, in the order the resulting object lists its keys |
| JsonText.ParsePrint | packages/contracts/src/publishing/publishing-canonical.ts:36-38 | A JSON reader recovers every value from its printing, so printing is injective on canonical values |
| JsonText.PrintIsOnlyShortest | packages/contracts/src/publishing/publishing-canonical.ts:36-38 | Of all texts a JSON reader takes for a value, its printing is the shortest and the only one of its length: nothing is escaped without need, and there are no other escapes, leading zeros or spaces |
| Fingerprints.CanonicalShape | packages/contracts/src/publishing/publishing-canonical.ts:13-34 | A canonical value is plain JSON, owns each key once, and is its own canonical form (idempotence) |
| Fingerprints.CanonicalJsonIffEquiv | packages/contracts/src/publishing/publishing-canonical.ts:13-38 | The canonical text is a complete invariant: equal texts if and only if equal up to key order and undefined fields |
| Fingerprints.CanonicalJsonRoundTrip | packages/contracts/src/publishing/publishing-canonical.ts:13-38 | Reading the canonical text gives the canonical value, equivalent to the original and printing to the same text |
| Fingerprints.FingerprintBinds | packages/contracts/src/publishing/publishing-canonical.ts:40-44 | Equal fingerprints if and only if equivalent documents or an explicit collision of the two canonical texts |
| Fingerprints.FingerprintIgnoresKeyOrder | packages/contracts/src/publishing/publishing-canonical.ts:40-44 | Reordering keys or adding undefined fields never changes a fingerprint |
| PublishingKeys.JobKeyInjective | packages/contracts/src/publishing/publishing-policy.ts:298-303 | A job key determines the intent and its version, for every id |
| PublishingKeys.AttemptKeyInjective | packages/contracts/src/publishing/publishing-policy.ts:305-311 | An attempt key determines the intent, version and attempt number, for every id |
| PublishingKeys.JobKeyIsNoAttemptKey | packages/contracts/src/publishing/publishing-policy.ts:298-311 | No job key is ever an attempt key |
| PublicationCandidate.NoExtraFieldMeans | packages/contracts/src/publishing/publishing-policy.ts:271-286 | The extra-field test accepts exactly the documents inside the boundary and those whose first key outside it is empty, with no index key outside |
| PublicationCandidate.ActiveStatusValid | packages/contracts/src/publishing/publication-candidate-state.ts:175-189 | The implicit first status of a valid candidate passes the status validator |
| CandidateValidators.ValidatePublicationCandidateV1 | packages/contracts/src/content/publication-candidate.ts:245-510 | Pushing issue after issue, the validator has the first code of CandidateIssue, which every theorem about candidates rests on, and no issue exactly on a valid candidate |
| CandidateValidators.ValidatePublicationCandidateStatusV1 | packages/contracts/src/content/publication-candidate.ts:512-620 | Issues are pushed exactly for the statuses that are not StatusOk, all with the schema code |
| CandidateValidators.ValidatePublicationCandidateHandoff | packages/contracts/src/content/publication-candidate.ts:622-671 | The first code, from candidate, status, binding and state in that order |
| CandidateValidators.FindExtraField | packages/contracts/src/publishing/publishing-policy.ts:271-286 | Searching the keys in their own order and testing the key found for truth rejects exactly what NoExtraField says |
| CandidateValidators.ValidateEventEnvelope | packages/contracts/src/publishing/publication-candidate-state.ts:136-173 | The one issue of an event that has a field outside the boundary, no UUIDs or no times |
| CandidateValidators.ValidatePublicationCandidateRecordV1 | packages/contracts/src/publishing/publication-candidate-state.ts:191-290 | The one issue of a record whose metadata, payload, status, binding or state is wrong, in that order |
| CandidateValidators.TamperedMeansChecksum | packages/contracts/src/content/publication-candidate.ts:488-506 | The tampering code comes first if and only if the checksum is the one thing wrong: under a hash that gives it, the candidate would be valid |
| CandidateIntake.StepFromRecord | packages/contracts/src/publishing/publication-candidate-state.ts:361-502 | To a valid record, any delivery whatever either changes nothing or is a newer change of that candidate and stores exactly that change |
| CandidateIntake.RunFromRecord | packages/contracts/src/publishing/publication-candidate-state.ts:450-502 | Any sequence of deliveries, malformed, stale, duplicated or reordered, ends in the record of the first delivery among the highest-version changes, and that record is valid |
| CandidateIntake.RunReachesHighestVersion | packages/contracts/src/publishing/publication-candidate-state.ts:361-448 | The stored version after a run is the highest one delivered |
| CandidateIntake.CreatedRecordValidIffUuid | packages/contracts/src/publishing/publication-candidate-state.ts:191-359 | The record stored for a created event passes record validation if and only if candidate and business id are UUIDs |
| CandidateIntake.InvalidRecordStuck | packages/contracts/src/publishing/publication-candidate-state.ts:470-480 | A record that fails its own validation rejects every later delivery |
| CandidateIntake.ReachableRecordValidIffUuid | packages/contracts/src/publishing/publication-candidate-state.ts:191-502 | At every point of every run after the first created event, the stored record is valid if and only if that event carried UUIDs |
| CandidateIntake.IntakeConverges | packages/contracts/src/publishing/publication-candidate-state.ts:292-502 | Two delivery sequences in any order with any duplicates and any noise that store one created event and deliver the same highest version, with one event for it, end in the same record up to received_at, valid if and only if the event carried UUIDs |
| CandidateIntake.ReachableRecord | packages/contracts/src/publishing/publication-candidate-state.ts:292-448 | In every reachable record active means version 1; payload and checksum are those first created; versions never decrease along a run |
| IntakeAnswers.DeliveryAnswered | packages/contracts/src/publishing/publication-candidate-state.ts:292-502 | To a valid record every delivery is answered in exactly one way: applied if newer, a replay if of the stored version with the stored digest, stale if older, in conflict if of another candidate or of the stored version with another digest, invalid if malformed; each with its code and record |
| IntakeAnswers.EmptyStoreAnswered | packages/contracts/src/publishing/publication-candidate-state.ts:292-502 | To an empty store: applied exactly on a created event, a change has nothing to change, everything else is malformed |
| IntakeAnswers.InvalidRecordAnswered | packages/contracts/src/publishing/publication-candidate-state.ts:470-480 | An invalid record answers every well-formed delivery with its own issue |
| IntakeAnswers.RecordTells | packages/contracts/src/publishing/publication-candidate-state.ts:292-448 | In every valid record a run reaches, the candidate is that of the created event first applied, and id, digest, time, state, version and status are all those of one delivery: that event or a later change |
| IntakeAnswers.ReplayIsLastStored | packages/contracts/src/publishing/publication-candidate-state.ts:292-448 | At every point of every run, a well-formed delivery is answered as an identical replay if and only if its event is the one the record was last stored from up to key order, or collides with it while of the stored candidate and version |
| CandidateIdentities.AcceptedButUsableIffUuids | packages/contracts/src/content/publication-candidate.ts:281-292 | Complete created events for any ids, channel, format and assets, before any service that reads two given times in order and computes the candidate checksum they carry: intake accepts each, and can use exactly those with UUIDs |
| CandidateIdentities.ExtraFieldsAccepted | packages/contracts/src/publishing/publication-candidate-state.ts:140-154 | Any of these events with a field named by the empty text and any JSON value injected after it is outside the boundary, and intake accepts it |
| PublishingEnvelope.ValidateEnvelopeCommon | packages/contracts/src/publishing/publishing-policy.ts:1140-1238 | The receiver's checks on any value: valid exactly when it is an object whose boundary, contract, every field, clock, nonce, body digest and signature are right; when each of the four codes is raised; when canonicalizing throws |
| PublishingEnvelope.WireRoundTrip | packages/contracts/src/publishing/publishing-policy.ts:1140-1238 | An envelope that is sent is read back field by field, so what holds of envelopes holds of values on the wire |
| PublishingEnvelope.SignThenVerify | packages/contracts/src/publishing/publishing-envelope.ts:130-147 | What was signed is accepted, with the body's keys in any order, if and only if the clock is within 300 seconds and the nonce unseen |
| PublishingEnvelope.AcceptedIffSigned | packages/contracts/src/publishing/publishing-policy.ts:1140-1238 | An envelope is accepted if and only if it is what signing its own fields with the shared secret gives, for this contract and key, with a UUID, at most 300 seconds early or late, with a new nonce of at least 16 units |
| PublishingEnvelope.AcceptedSignatureIsSigned | packages/contracts/src/publishing/publishing-policy.ts:1199-1236 | Whatever accepted envelope carries a signature the sender produced has the signed contract, digest, time, nonce and body up to key order, or exhibits a signature or hash collision; a newline in a time can only move text between time and nonce |
| PublishingEnvelope.SignedTextParts | packages/contracts/src/publishing/publishing-canonical.ts:53-63 | The signed text determines contract version, digest, and time and nonce together, for any nonce; and each of these two when the times hold no newline |
| PublishingEnvelope.NonceAcceptedOnce | packages/contracts/src/publishing/publishing-policy.ts:1183-1197 | Over any run that remembers accepted nonces, no nonce is accepted twice |
| DispatchAssets.CheckDispatchAssets | packages/contracts/src/publishing/publishing-policy.ts:1307-1366 | The loop raises the tampered and the unavailable code exactly for these assets, nothing exactly on a good dispatch, and first the code of the first asset at fault |
| DispatchAssets.IndexRetrieved | packages/contracts/src/publishing/publishing-asset-integrity.ts:68-99 | The index finds under every identity its first usable entry; the unavailable code exactly for unusable entries, the tampered code exactly for later entries of one identity |
| DispatchAssets.ValidateRetrievedPublicationAssets | packages/contracts/src/publishing/publishing-asset-integrity.ts:44-156 | No issue exactly when the retrieved entries are usable, distinct, as many as the assets, and each asset has one with its type and digest; the tampered code exactly for repeats, bad metadata and other types or bytes, the unavailable code exactly for unusable or missing entries and another count |
| DispatchAssets.DispatchMatchesCandidate | packages/contracts/src/publishing/publishing-policy.ts:1307-1366 | An accepted dispatch lists the candidate's assets one to one, so the candidate's asset ids are distinct |
| DispatchAssets.AssetsCorrespond | packages/contracts/src/publishing/publishing-asset-integrity.ts:68-155 | Candidate, dispatch and retrieved assets are equal as multisets of id, MIME type and digest of the real bytes, with distinct ids |
| DispatchBody.ValidateDispatchBody | packages/contracts/src/publishing/publishing-policy.ts:1240-1493 | The validator as it runs, pushing issues and returning early: no issue exactly on a good body, its first code is BodyIssue, and a candidate at fault hides every other issue |
| DispatchBody.BodyIssueDecides | packages/contracts/src/publishing/publishing-policy.ts:1240-1493 | Although early returns forget what was pushed, there is a first code exactly when the body is not good |
| DispatchBody.RevokedCodeMeansRevoked | packages/contracts/src/publishing/publishing-policy.ts:1285-1289 | The revoked code comes first if and only if the candidate handoff reports revocation, whatever else is wrong |
| DispatchBody.UnauthorizedCodeMeansDisconnected | packages/contracts/src/publishing/publishing-policy.ts:1430-1437 | When the unauthorized-target code comes first, candidate, assets, target, approval and their bindings are in order and the target is not connected |
| DispatchValidators.ValidatePublishingTargetV1 | packages/contracts/src/publishing/publishing-policy.ts:396-504 | The first code pushed for a target |
| DispatchValidators.ValidatePublicationApprovalSnapshotV1 | packages/contracts/src/publishing/publishing-policy.ts:676-774 | The first code pushed for an approval, its fingerprint over everything else included |
| DispatchValidators.ValidatePublicationIntentV1 | packages/contracts/src/publishing/publishing-policy.ts:506-674 | No issue exactly on a good intent; the approval code exactly for a misplaced decision, the tampering code exactly for a checksum that is no digest |
| DispatchValidators.ValidatePublicationAttemptV1 | packages/contracts/src/publishing/publishing-policy.ts:854-946 | No issue exactly on a good attempt; the idempotency code exactly for a missing key, workflow version or fingerprint |
| DispatchValidators.ValidateExactPublicationApproval | packages/contracts/src/publishing/publishing-policy.ts:776-852 | No issue exactly when intent, candidate, target and approval are good and agree on everything; a state conflict when good documents disagree; the unauthorized code exactly when they agree and the target is not connected |
| DispatchValidators.ValidateAuthoritativePublicationCandidateV1 | packages/contracts/src/publishing/publication-candidate-state.ts:504-566 | Passes exactly the stored payload and status of an active record; when the revoked code is given, and when canonicalizing throws |
| DispatchValidators.ValidatePublicationDispatchContext | packages/contracts/src/publishing/publishing-policy.ts:1583-1636 | The gate as it runs on what arrived lets past exactly what LetThrough says, so the theorems below are about it |
| DispatchGate.OneAttemptOneBody | packages/contracts/src/publishing/publishing-policy.ts:1583-1636 | Any two dispatches let through for one attempt carry one body up to key order, or a collision |
| DispatchGate.OneBodyOneOperation | packages/contracts/src/publishing/publishing-policy.ts:1606-1624 | In every mode: whatever intents, attempts and records two dispatches of one body are let through for agree on intent, version, mode, attempt, key, workflow and candidate, and name the stored candidate; or a collision |
| DispatchGate.DispatchedCandidateIsFirstCreated | packages/contracts/src/publishing/publication-candidate-state.ts:504-566 | At every point of an intake run, a dispatch let through carries the payload of the created event first applied |
| DispatchGate.NoDispatchAfterChange | packages/contracts/src/publishing/publication-candidate-state.ts:537-564 | Once a run has applied a revocation or replacement, no later point of it lets any dispatch through |
| DispatchGate.PublishedAsApproved | packages/contracts/src/publishing/publishing-policy.ts:776-852 | Whatever valid approval was recorded: a real dispatch let through under its fingerprint has its candidate id and checksum, target, schedule, intent version and decision, or the two approvals collide |
| DispatchGate.RealDispatchIsPublishable | packages/contracts/src/publishing/publishing-policy.ts:1438-1454 | A real dispatch let through is an image or text post for Facebook or Instagram |
| DispatchGate.ExportNeverPublishes | packages/contracts/src/publishing/publishing-policy.ts:1456-1483 | Once an attempt was let through as an export or a simulation, whatever else is let through for it, anywhere and at any time, is in that mode and carries no target, approval or schedule, or the bodies collide |
| DispatchGate.ApprovalFingerprintBinds | packages/contracts/src/publishing/publishing-policy.ts:676-774 | Two valid approvals with one fingerprint are one approval up to key order, or a collision |
| DispatchGate.DispatchedAssetsCorrespond | packages/contracts/src/publishing/publishing-policy.ts:1583-1636 | Bytes retrieved for a dispatch let through are, one to one, the candidate's assets |
| DispatchGate.OperationFollowsMode | packages/contracts/src/publishing/publishing-envelope.ts:105-119 | The operation let through is the one the sender derives from the intent's mode and the candidate's format |
| DispatchGate.ApprovalSurvivesIffNotInvalidated | packages/contracts/src/publishing/publishing-policy.ts:334-365 | After an edit of an approved intent the old approval still holds if and only if the invalidation rule is not triggered |
| DispatchGate.ReplayMeansSameDocument | packages/contracts/src/publishing/publishing-policy.ts:288-296 | A request counts as an identical replay if and only if it is the same document up to key order, or a collision |
| HonestDispatch.OtherIsLetThrough | packages/contracts/src/publishing/publishing-policy.ts:1583-1636 | Whatever stored active candidate with distinct asset ids: an honestly built and signed export or simulation of it passes the whole gate |
| HonestDispatch.RealIsLetThrough | packages/contracts/src/publishing/publishing-policy.ts:1583-1636 | So does a real dispatch of one that can be published, with its target, Cairo schedule and fingerprinted approval |
| HonestDispatch.DispatchedCandidate | packages/contracts/src/publishing/publishing-policy.ts:1583-1636 | A dispatch let through, its keys in any order, means that the stored candidate has distinct asset ids, and for real can be published; or a collision |
| HonestDispatch.DispatchableIffDistinctAssets | packages/contracts/src/publishing/publishing-policy.ts:1307-1366 | A stored active candidate can be dispatched at all if and only if its asset ids are distinct |
| HonestDispatch.DispatchableInModeIff | packages/contracts/src/publishing/publishing-policy.ts:1368-1483 | And in a mode if and only if besides the mode is one of the three, and for real the channel is facebook or instagram and the format static_image_post or text_post |
| SampleDispatch.DeliveredThenDispatchedIff | packages/contracts/src/publishing/publishing-policy.ts:1583-1636 | From an empty store, over the whole family of created events with UUIDs: which of them can be dispatched in which mode |
| SampleDispatch.SharedIdentityNeverLeaves | packages/contracts/src/publishing/publishing-policy.ts:1307-1366 | A candidate of the family whose assets share an id is stored and valid, and whatever is delivered afterwards and offered to the gate, nothing is let through but by a collision |
| SampleDispatch.TwoImagesLeaveIffDistinct | packages/contracts/src/publishing/publishing-policy.ts:1583-1636 | Two concrete image posts, before any service that reads the few texts used: with two images published for real, with one image twice stored for good |
| SampleDispatch.SomeHostServes | packages/contracts/src/publishing/publishing-policy.ts:1583-1636 | Such a service exists, so the assumptions about intake, real dispatch and non-empty assets hold together |
| ConcurrentStore.ApplyKeepsInv | services/ai/app/content/storage.py:161-205 | Every atomic step of every call, killed ones and raising checks, mkdir, writes, links and unlinks included, keeps the protocol's invariant and every linked object |
| ConcurrentStore.WriteOnce | services/ai/app/content/storage.py:177-205 | Under any interleaving each visible object is complete, and no later point changes or removes it |
| ConcurrentStore.OutcomesTrue | services/ai/app/content/storage.py:140-213 | What a finished call reported is true of the store then and at every later point; success means exactly the supplied bytes |
| ConcurrentStore.ErrorsAreFaults | services/ai/app/content/storage.py:161-213 | Over any run, a call that reports an operating-system error met one: no step of the protocol invents it |
| ConcurrentStore.SoloReports | services/ai/app/content/storage.py:140-213 | Undisturbed, a call reports exactly what its path and siblings say: invalid input, another extension, other bytes, or success, also when its bytes are stored already |
| ConcurrentStore.CanSucceedIff | services/ai/app/content/storage.py:161-213 | From any reachable state, free path or not, a call that starts with bytes can succeed if and only if no sibling is stored and what is stored on its path are its bytes |
| ConcurrentStore.TemporariesAreHeld | services/ai/app/content/storage.py:185-205 | Over any run without kills and failed removals every temporary file belongs to a call at work, so none is left when all are done |
| ConcurrentStore.SuccessesAgree | services/ai/app/content/storage.py:195-213 | Two successful calls on one path supplied the same bytes |
| ConcurrentStore.LateCallFails | services/ai/app/content/storage.py:161-175 | A call that starts after another extension of its asset is stored never succeeds and never writes or links anything, whatever runs beside it |
| ConcurrentStore.CanSucceedIffNoSibling | services/ai/app/content/storage.py:161-205 | From any state, a call that starts on a free path with bytes can still succeed if and only if no other extension of its asset is stored at that moment |
| ConcurrentStore.OverlappingCallsBothSucceed | services/ai/app/content/storage.py:161-205 | Any two calls that start on free paths with no sibling stored can both succeed, also when each path is a sibling of the other |
| ConcurrentStore.BothLinkedMeansOverlap | services/ai/app/content/storage.py:161-205 | Over any run: if two free paths whose calls check each other are both linked at the end, then at some point both were free and a call for each was in progress |
| ConcurrentAssets.TwoExtensionsMeanOverlap | services/ai/app/content/storage.py:161-205 | Over any run of calls for any assets: an asset of which nothing was stored gets two extensions only if calls for both were in progress while both were free |
| ConcurrentAssets.TwoExtensionsOfOneAsset | services/ai/app/content/storage.py:161-205 | For any asset, two extensions and any bytes: two calls from an empty store can both succeed and leave both extensions |
| AssetStorage.StorageKeyInjective | services/ai/app/content/storage.py:74 | A storage key determines asset id and extension, for every id |
| AssetStorage.DeterministicAssetStorage.Store | services/ai/app/content/storage.py:59-91 | The two dictionaries refine one write-once map from id to extension and bytes, errors included |
| AssetStorage.DeterministicAssetStorage.Retrieve | services/ai/app/content/storage.py:93-94 | Retrieving returns exactly the bytes of the asset whose key it is, and is not found on every other key |
| FileStorage.FileSystemAssetStorage.Store | services/ai/app/content/storage.py:140-213 | Run alone: path resolution, sibling checks, mkdir, the comparison and the temporary file give the function FileStore on files and directories, for every id, operating-system errors of the paths included |
| FileStorage.AnswersLikeMapIffClear | services/ai/app/content/storage.py:140-213 | For assets whose paths stay under the root: every run is answered like the write-once map if and only if no two keys lead to one file or to a file inside another, no directory is at a path, and every temporary name is in a directory that exists |
| FileStorage.LaterSuccessAgrees | services/ai/app/content/storage.py:161-185 | Whatever was stored in between, a later successful store of one asset wrote the same bytes, and under the same extension when the extensions lead to different files |
| FileStorage.EscapingRefused | services/ai/app/content/storage.py:152-171 | An asset with one extension whose path leads outside the root is refused under every extension |
| Paths.PlainIdsAgree | services/ai/app/content/storage.py:140-213 | For ids without a slash, on a folder nothing was put into: every call of every run is answered like the write-once map, and the disk holds exactly its assets |
| Paths.SlashedIdRefused | services/ai/app/content/storage.py:186-190 | An id a/b is refused on a fresh root, where the map stores it |
| Paths.DottedIdCollides | services/ai/app/content/storage.py:154-155 | a/../b and b lead to one file, so some run over the two is not answered like the map |
| Paths.LexicalOwnPathsApart | services/ai/app/content/storage.py:161-171 | The extensions of one asset never lead to one file, whatever the id |
| FileStorage.FileSystemAssetStorage.Retrieve | services/ai/app/content/storage.py:215-221 | For every key: the error of a path outside the root, the bytes of the file the key leads to, or not found |
| FileStorage.RetrieveMeans | services/ai/app/content/storage.py:215-221 | On a disk the map represents, a key retrieves bytes exactly when it leads to the path of a stored asset with those bytes, however it is spelled |
| Paths.DottedKeyRetrieves | services/ai/app/content/storage.py:215-221 | A key with a dot component retrieves what the key without it does |
| ObjectStorage.R2AssetStorage.Store | services/ai/app/content/storage.py:273-316 | A conditional put and, when it fails, a retrieval under an inside key and a comparison give the write-once-per-key function R2Store |
| ObjectStorage.R2WriteOnce | services/ai/app/content/storage.py:287-316 | Over any run of the object store, what a successful call stored stays at its key |
| ObjectStorage.OneExtensionIffRequestsAgree | services/ai/app/content/storage.py:273-316 | Over any run from an empty bucket there is one extension per asset if and only if no two requests with bytes and a supported type share an asset and differ in extension |
| ObjectStorage.TwoExtensionsBothSucceed | services/ai/app/content/storage.py:273-316 | For any asset and any non-empty bytes, two calls with different extensions both succeed and leave a bucket no write-once map represents |
| ObjectStorage.RunsAgreeIffRequestsAgree | services/ai/app/content/storage.py:273-316 | Over any run the object store answers every call like the write-once map if and only if no two such requests share an asset and differ in extension |
| AssetGeneration.GenerateStaticAsset | services/ai/app/content/image_provider.py:635-792 | Over each of the four drivers, every outcome of provider, image checks and storage, errors before and after the bytes are stored included, gives exactly this asset and this change of the store |
| AssetGeneration.ReadyStaysBacked | services/ai/app/content/image_provider.py:698-735 | In memory, at every later point of any run a ready asset's key still holds bytes of its checksum |
| AssetGeneration.ReadyFileStaysBacked | services/ai/app/content/image_provider.py:698-735 | On the filesystem, retrieving a ready asset's key gives the bytes of its checksum at every later point, whatever faults come in between |
| AssetGeneration.ReadyObjectStaysBacked | services/ai/app/content/image_provider.py:698-735 | So it does in the object store, where its key is that of its own MIME type |
| AssetGeneration.ReadyAssetsAgree | services/ai/app/content/image_provider.py:635-792 | In memory all ready assets of one id have the same key and checksum |
| AssetGeneration.ReadyFilesAgree | services/ai/app/content/image_provider.py:635-792 | On the filesystem two ready assets of one id have the same checksum, and the same key when its extensions lead to different files |
| AssetGeneration.ReadyObjectsAgreeIffOneExtension | services/ai/app/content/image_provider.py:635-792 | In the object store two ready assets of one id have the same key and checksum if and only if their images have one extension |
| AssetGeneration.TwoReadyObjects | services/ai/app/content/image_provider.py:635-792 | For any request, two usable images of different extensions give two ready assets with different keys in the object store |
| AssetGeneration.OnlyReadyClaimsStorage | services/ai/app/content/image_provider.py:656-792 | Over every driver, an asset has a storage key, checksum, MIME type and dimensions exactly when it is ready, then in the requested size and without a failure code, and is a prompt only exactly when missing |
| AssetGeneration.ReadyIffTrueAndStored | services/ai/app/content/image_provider.py:656-735 | Over every driver: ready if and only if the identity is the planned one, the image is true to the request, its PNG header included, nothing failed, and the driver took it |
| AssetGeneration.FirstImageReady | services/ai/app/content/image_provider.py:656-735 | The first image of an asset becomes ready if and only if it is true to the request: in memory, in the object store, and on a disk where its key can be written |
| AssetGeneration.ReadyPngInMemory | services/ai/app/content/image_provider.py:689-735 | At every later point of any run the bytes kept for a ready PNG have a header of exactly the asset's size |
| AssetGeneration.ReadyPngOnDisk | services/ai/app/content/image_provider.py:689-735 | So do the bytes its key retrieves from the filesystem, whatever faults come in between |
| AssetGeneration.ReadyPngInBucket | services/ai/app/content/image_provider.py:689-735 | And the object at its key in the object store |
| AssetGeneration.FailuresAreTold | services/ai/app/content/image_provider.py:635-792 | The schema failure is exactly an unplanned identity; the provider's own code is passed on, as missing exactly when it was unavailable, and all else is one code |
| Png.DimensionsRoundTrip | services/ai/app/content/image_provider.py:614-632 | The writer succeeds exactly on sizes that fit, a three-byte colour and data that fits one chunk, and the reader then returns the size |
| Png.SolidPngIsThreeChunks | services/ai/app/content/image_provider.py:603-626 | A reader of length-framed chunks finds exactly IHDR, IDAT and IEND after the signature, with no byte left |
| Png.PixelsAreSolid | services/ai/app/content/image_provider.py:618-620 | Every scanline is filter type 0 and the colour at each pixel, and there is nothing else |
| Png.HeaderDescribesPixels | services/ai/app/content/image_provider.py:618-625 | What the header says of size, depth, colour type and methods is what a reader needs to find exactly the scanlines that are there |
| Statistics.TolerancesAgree | packages/contracts/src/performance/optimization-validation.ts:316-321 | closeEnough is the relation math.isclose computes with both tolerances 1e-9, and is symmetric |
| Statistics.MedianHalves | packages/contracts/src/performance/optimization-validation.ts:323-329 | At least half of the values are at or below the median and at least half at or above, and it is at most the maximum |
| Statistics.MedianIsMiddle | packages/contracts/src/performance/optimization-validation.ts:323-329 | The median is half way between the two values in the middle, found by counting, which are one for an odd count |
| OptimizationEvidence.PrepareEvidence | packages/contracts/src/performance/optimization-validation.ts:339-384 | The evidence loop raises nothing exactly on distinct, matching, available evidence, and collects each metric's values in order |
| OptimizationEvidence.CheckComparison | packages/contracts/src/performance/optimization-validation.ts:404-468 | One comparison raises nothing exactly when values, median, best, delta, percentage and best id are those expected |
| OptimizationEvidence.ValidateGenerationConsistency | packages/contracts/src/performance/optimization-validation.ts:331-470 | The whole check raises nothing exactly on consistent requests |
| OptimizationEvidence.ValidateEvidenceOfRequest | packages/contracts/src/performance/optimization-validation.ts:819-838 | The prohibited-change check and the consistency check together raise nothing exactly on TsAccepts, one side of the agreement below |
| OptimizationEvidence.ConsistentNumbers | packages/contracts/src/performance/optimization-validation.ts:415-440 | An accepted baseline is within tolerance of a true median, and the best value is not below it by more than the tolerance |
| OptimizationEvidence.ComparisonIff | packages/contracts/src/performance/optimization-validation.ts:404-468 | A comparison is accepted if and only if it gives within tolerance the values, the value in the middle, the greatest, the step between them and its percentage, the last exactly when the middle is positive, and names the least of the best ids |
| OptimizationEvidence.ExpectedMeans | packages/contracts/src/performance/optimization-validation.ts:415-440 | The expected delta leads from the median to the maximum, and so does the expected percentage |
| OptimizationEvidence.ConsistentBestId | packages/contracts/src/performance/optimization-validation.ts:454-468 | An accepted best id belongs to evidence within tolerance of the maximum and precedes the id of every other such evidence |
| OptimizationEvidence.ExpectationIgnoresOrder | packages/contracts/src/performance/optimization-validation.ts:415-468 | Expected median, best, delta, percentage and best id are the same for every permutation of the evidence |
| PreparedEvidence.ValidatePreparedEvidence | packages/contracts/python/performance_contracts.py:416-500 | The nested Python loops raise nothing exactly on fewer than three items, or on distinct UUIDs, matching formats, frozen changes and metrics, and comparisons that hold under isclose and code-point order |
| PreparedEvidence.ImplementationsAgree | packages/contracts/python/performance_contracts.py:416-500 | For well-typed requests with at least three items and lower-case UUIDs, TypeScript and Python accept the same requests |
| PreparedEvidence.CanonicalIgnoresCase | packages/contracts/python/performance_contracts.py:416-500 | Python takes two UUIDs for one exactly when they are the same in upper case, which is why the agreement asks for lower case |
| CircuitBreaking.CircuitBreaker.constructor | services/ai/app/content/circuit_breaker.py:22-33 | A new breaker has an empty history |
| CircuitBreaking.CircuitBreaker.Allow | services/ai/app/content/circuit_breaker.py:39-42 | Two fields answer as the whole history does: refused exactly when the failures since the last success reach the threshold and the last one's cooldown is not over |
| CircuitBreaking.CircuitBreaker.RecordFailure | services/ai/app/content/circuit_breaker.py:44-47 | Appends a failure to the history and keeps fields and history in step |
| CircuitBreaking.CircuitBreaker.RecordSuccess | services/ai/app/content/circuit_breaker.py:49-51 | Appends a success to the history and keeps fields and history in step |
| CircuitBreaking.TrippedByRecentFailures | services/ai/app/content/circuit_breaker.py:39-47 | A call is refused if and only if the last `threshold` outcomes are all failures and the last is less than the cooldown old |
| CircuitBreaking.OutcomeOfProbe | services/ai/app/content/circuit_breaker.py:44-51 | After the cooldown a failure reopens the breaker for one cooldown and a success closes it |
| CircuitBreaking.AskTwice | services/ai/app/content/circuit_breaker.py:39-42 | Half-open is not limited to one probe: a breaker at its threshold, asked twice with no outcome recorded, allows each call if and only if the cooldown is over at its time |
| Planner.ValidateGeneratedPlan | services/ai/app/content/planner_validators.py:72-144 | No issue exactly when there are 3 to 5 plans, each with a channel, format, CTA and media of the request and a purpose; the first issue has the channel code exactly when the count is right and the first draft at fault has a foreign channel |
| Planner.ValidatePlan | services/ai/app/content/planner_validators.py:92-143 | The issues of one draft name exactly its fields that are not the request's, each with its code, the channel first |
| Planner.CheckAnswer | services/ai/app/content/planner.py:176-185 | Shape, validation and provider errors: accepted or not, retryable or not, repairable or not |
| Planner.CallProvider | services/ai/app/content/planner.py:175-191 | One attempt records a success, a failure, or nothing in the breaker, by the answer alone |
| Planner.PlanContentWeekWithRepair | services/ai/app/content/planner.py:165-214 | At most three calls in a chain of repairs that name the code of each answer; no call is made that the breaker, with all that was recorded until then, would have refused; what returns was accepted; what is raised is the last call's error or the breaker's refusal, never the trailing raise; the breaker's history grows by exactly the outcomes of the answers at their times |
| Planner.TrailingRaiseUnreached | services/ai/app/content/planner.py:210-214 | Every outcome the contract admits that carries the trailing error has it from the provider itself |
| Planner.NextCall | services/ai/app/content/planner.py:190-209 | After which answers the provider is asked again: accepted drafts, crashes and errors with any code but the three end the run as that answer's own result; after all others the next call follows, unless it was the third or the breaker refuses |
| Planner.RunOpensBreaker | services/ai/app/content/planner.py:174-191 | A run that ends in a counted failure with the breaker at its threshold leaves it closed to callers for one cooldown from that failure, and no longer |
| Planner.RefusedDraftsCount | services/ai/app/content/planner.py:176-185 | Each list of three to five drafts with one that is not grounded counts once against the provider |
| StrategyPolicy.RoundScoreMeans | packages/contracts/src/strategy/strategy-policy.ts:38 | Rounding gives a total if and only if it is in whole hundredths and the value is within half a hundredth of it, ties up |
| StrategyPolicy.TotalsAddUp | packages/contracts/src/strategy/strategy-policy.ts:296-312 | A card is reproducible if and only if its eight scores are from 0 to 1 and its total is in whole hundredths and nearest to their sum |
| StrategyPolicy.CheckScores | packages/contracts/src/strategy/strategy-policy.ts:269-352 | No issue exactly when the rule version is known, no channel repeats, totals are reproducible, the plan has the deterministic cards and selects from them within the role limits; the limit code exactly when a role has too many |
| StrategyPolicy.CheckBudget | packages/contracts/src/strategy/strategy-policy.ts:354-447 | No issue exactly when modes agree, paid scenarios are allowed, balanced, of the right period and approval mark, with one base scenario inside the owner's budget; the arithmetic code exactly when a scenario does not balance |
| StrategyPolicy.ValidateStrategyBundle | packages/contracts/src/strategy/strategy-policy.ts:269-512 | No issue exactly when scores, budget, weeks and gaps pass and nothing was raised before; an approval of anything else is blocked |
| StrategyPolicy.ScoresArePermutation | packages/contracts/src/strategy/strategy-policy.ts:276-326 | The accepted score list is the deterministic one in some order, rationale aside |
| StrategyPolicy.SelectionIsSmallSubset | packages/contracts/src/strategy/strategy-policy.ts:282-352 | The accepted selection has at most three channels, none twice, each an unchanged deterministic card |
| StrategyPolicy.NoPaidMediaIsOrganic | packages/contracts/src/strategy/strategy-policy.ts:354-433 | With paid media off, an accepted plan and brief are organic and have no scenario |
| StrategyPolicy.ApprovalIsForExcess | packages/contracts/src/strategy/strategy-policy.ts:354-447 | In an accepted plan the scenarios that ask for the owner's approval are exactly those above what the owner confirmed, or all when nothing was; the base scenario stays inside and never asks |
| StrategyPolicy.PeriodsFollowBudget | packages/contracts/src/strategy/strategy-policy.ts:388-401 | Monthly budgets have monthly scenarios, three-month budgets twelve-week ones |
| StrategyPolicy.AllocationsAreClose | packages/contracts/src/strategy/strategy-policy.ts:368-387 | Accepted amounts are within 0.005 of the total and percentages within 0.005 of 100, so the Python check passes |
| StrategyPolicy.ValidateBudgetScenariosSum | packages/contracts/python/strategy_contracts.py:446-456 | The Python check raises exactly when amounts or percentages are off by 0.01 or more |
| StrategyPolicy.BalanceIffInnerTolerance | packages/contracts/python/strategy_contracts.py:446-456 | What the TypeScript check asks beyond the Python one, exactly |
| StrategyPolicy.CheckWeekNumbers | packages/contracts/src/strategy/strategy-policy.ts:449-462 | Accepts exactly twelve distinct numbers from 1 to 12, whole or not |
| StrategyPolicy.EveryWeekOnceIffWhole | packages/contracts/src/strategy/strategy-policy.ts:449-462 | A list of twelve has an entry for every week if and only if it is accepted and all its numbers are whole |
| StrategyPolicy.FractionalWeekAccepted | packages/contracts/src/strategy/strategy-policy.ts:449-462 | The accepted list 1.5, 2, ..., 12 has no entry for week 1 |
| OwnerChoice.ValidateStrategyBriefV2Choices | packages/contracts/src/strategy/strategy-policy.ts:533-637 | No issue exactly on one to three distinct, well-formed choices with one primary |
| OwnerChoice.ValidateCommitmentsMatchChoices | packages/contracts/src/strategy/strategy-policy.ts:639-713 | No issue exactly when the commitments match the choices in order and claim only the readiness their setup allows |
| OwnerChoice.ValidateContentHandoff | packages/contracts/src/strategy/strategy-policy.ts:715-820 | No issue exactly on a reasoned absence, or an offer of committed content channels, a language and twelve weeks of supported formats |
| OwnerChoice.ValidateStrategyV2Bundle | packages/contracts/src/strategy/strategy-policy.ts:855-1125 | No issue exactly when brief, commitments, calendar, advice weeks and handoff all pass and nothing was raised elsewhere; an approval of anything else is blocked |
| OwnerChoice.ValidateInternalContentGenerateRequest | packages/contracts/src/content/content-policy.ts:496-599 | No issue exactly when identity, profile, language, channels, week and formats agree with the plan, and which code says which does not |
| OwnerChoice.CommitmentsAreTheChoices | packages/contracts/src/strategy/strategy-policy.ts:639-666 | Accepted commitments are the owner's channels in order, distinct, one to three, exactly one primary |
| OwnerChoice.PublishingIffConnected | packages/contracts/src/strategy/strategy-policy.ts:667-713 | An accepted commitment claims publishing exactly where the owner connected the channel, which is where there is a publishing target; elsewhere it is owner-managed |
| OwnerChoice.RequestedChannelsWereChosen | packages/contracts/src/content/content-policy.ts:537-560 | Every channel of an accepted request on an accepted plan is one the owner chose in the brief |
| OwnerChoice.EveryWeekFoundIffWhole | packages/contracts/src/strategy/strategy-policy.ts:774-793 | With an accepted handoff no week from 1 to 12 is reported missing if and only if its week numbers are whole |
| OwnerChoice.FoundWeekIsOnlyOne | packages/contracts/src/strategy/strategy-policy.ts:774-793 | A week found on an accepted handoff lies from 1 to 12, and no two entries are for one week |
| OwnerChoice.RequestedFormatsAreSupported | packages/contracts/src/content/content-policy.ts:578-596 | The formats of an accepted request are those of its handoff week: non-empty, supported, unique |

## Left out

- Lone surrogates in strings: a string is a sequence of Unicode scalar values, ordered by UTF-16 code units.
- Numbers other than integers in documents, and the printing of numbers from 1e21 on; the optimization and
  strategy arithmetic is on exact reals, so float rounding is not modelled.
- SHA-256, HMAC, timing-safe comparison, zlib, CRC-32, `Date.parse`, Cairo time and URL parsing: function
  values with a stated output shape. The candidate checksum, which prints in locale order, is one of them.
- Issue messages, and field paths but the planner's.
- DispatchValidators.ValidatePublicationDispatchContext: which code a refusal carries is stated for the validators it
  calls, not for the whole. A record is typed here, so its own boundary and contract version are not checked.
- DispatchBody.ValidateDispatchBody: a candidate, target or approval at fault contributes its first code only.
- Publication results, callbacks and the finite transition tables, where every case can be enumerated.
- ConcurrentStore.WriteOnce: a path names one file, so ids whose keys resolve to one file (`Paths.DottedIdCollides`)
  count as one path there; crashes that lose unsynced data are not modelled.
- FileStorage.FileSystemAssetStorage.Store: files that others put under the root, names the operating system refuses
  and full disks are left out here; AssetGeneration has such errors as faults, ConcurrentStore at every step.
- Paths.PlainIdsAgree: links under the root are left out of Paths; FileStorage takes any resolution.
- ObjectStorage.R2AssetStorage.Store: the bucket is a field; the cached client, its configuration, presigned
  URLs and client errors other than the failed precondition are left out.
- AssetGeneration.GenerateStaticAsset: creation times, review flags and owner-supplied assets are left out.
- OptimizationEvidence.ValidateEvidenceOfRequest: the other fields of a generation request, and the text
  policies of agent results, are left out; the three-item minimum is a condition of the agreement lemma.
- PreparedEvidence.ValidatePreparedEvidence: ids are hyphenated UUIDs; the other spellings Pydantic parses are
  left out, and so is which of its errors is raised first.
- Planner.PlanContentWeekWithRepair: prompt wording and logging, and other coroutines that use the same breaker
  during an await; clock readings are a parameter.
- StrategyPolicy.ValidateStrategyBundle: the profile, reference, citation, evidence and text checks enter as the
  issues already raised, since they only add rejections.
- OwnerChoice.ValidateStrategyV2Bundle: likewise, with the language check and the texts of weeks and advice.
- Image and language model providers, Prisma, NestJS, Next.js, billing and environment configuration.
