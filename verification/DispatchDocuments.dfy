/** The documents an honest sender builds from a stored candidate, in each of the three modes, and what
    the validators read in them. */
module DispatchDocuments {
  import opened Text
  import opened PublishingKeys
  import opened PublishingCanonical
  import opened Fingerprints
  import opened Documents
  import opened PublicationCandidate
  import opened CandidateIntake
  import opened PublishingEnvelope
  import opened DispatchAssets
  import opened DispatchGate

  // ----- The documents -----

  /** What the sender chooses. */
  datatype Choices = Choices(
    messageId: string, attemptId: string, intentId: string, correlationId: string, userId: string, targetId: string,
    decisionId: string, workflowVersion: string, callbackUrl: string, retrievalUrl: string, createdAt: string,
    scheduledLocal: string, scheduledUtc: string, nonce: string)

  ghost predicate ChoicesOk(host: Host, c: Choices) {
    && IsUuid(c.messageId) && IsUuid(c.attemptId) && IsUuid(c.intentId) && IsUuid(c.correlationId) && IsUuid(c.userId)
    && IsUuid(c.targetId) && IsUuid(c.decisionId)
    && IsNonEmptyText(c.workflowVersion) && NonceOk(c.nonce)
    && IsNonEmptyText(c.callbackUrl) && host.safeUrl(c.callbackUrl)
    && IsNonEmptyText(c.retrievalUrl) && host.safeUrl(c.retrievalUrl)
    && IsIsoText(host, c.createdAt)
  }

  /** The schedule of a real dispatch: a Cairo wall-clock time and the instant it names. */
  ghost predicate ScheduleOk(host: Host, c: Choices) {
    IsLocalDateTime(Str(c.scheduledLocal)) && IsIsoText(host, c.scheduledUtc)
      && host.cairoAgrees(c.scheduledLocal, c.scheduledUtc)
  }

  /** Where and when a body is to be published; all null unless real. */
  datatype Publication = Publication(
    mode: string, target: Value, approval: Value, targetId: Value, decisionId: Value, scheduledLocal: Value,
    timeZone: Value,
    scheduledUtc: Value)

  function Unpublished(mode: string): Publication {
    Publication(mode, Null, Null, Null, Null, Null, Null, Null)
  }

  const ASSET_KEYS := ["asset_id", "checksum", "mime_type", "retrieval_url", "retrieval_expires_at"]

  function DispatchAssetFor(asset: Value, c: Choices): Value {
    Object(ASSET_KEYS, [Get(asset, "asset_id"), Get(asset, "checksum"), Get(asset, "mime_type"), Str(c.retrievalUrl),
      Str(c.createdAt)])
  }

  function DispatchAssetsFor(assets: seq<Value>, c: Choices): seq<Value> {
    seq(|assets|, i requires 0 <= i < |assets| => DispatchAssetFor(assets[i], c))
  }

  function IdempotencyKey(c: Choices): string {
    PublicationAttemptIdempotencyKey(c.intentId, 1, 1)
  }

  function OperationOf(r: Record, mode: string): string {
    var operation := PublicationOperationForMode(mode, TextOf(Get(r.payload, "content_format")));
    if operation.Some? then operation.value else ""
  }

  const BODY_KEYS := [
    "mode", "assets", "target", "approval", "candidate", "intent_id", "operation", "attempt_id", "business_id",
    "callback_url", "scheduled_utc", "correlation_id", "intent_version", "idempotency_key", "candidate_status",
    "contract_version", "workflow_version"
  ]

  function BodyValues(r: Record, c: Choices, p: Publication): (values: seq<Value>)
    ensures |values| == 17
  {
    [Str(p.mode), Arr(DispatchAssetsFor(AssetsOf(r.payload), c)), p.target, p.approval, r.payload, Str(c.intentId),
     Str(OperationOf(r, p.mode)), Str(c.attemptId), Str(r.businessId), Str(c.callbackUrl), p.scheduledUtc,
     Str(c.correlationId), Num(1), Str(IdempotencyKey(c)), r.sourceStatus, Str("publication-dispatch-v1"),
     Str(c.workflowVersion)]
  }

  function Body(r: Record, c: Choices, p: Publication): Value {
    Object(BODY_KEYS, BodyValues(r, c, p))
  }

  const INTENT_KEYS := [
    "mode", "state", "version", "intent_id", "time_zone", "target_id", "created_at", "updated_at", "business_id",
    "candidate_id", "scheduled_utc", "scheduled_local", "contract_version", "created_by_user_id", "candidate_checksum",
    "approved_decision_id"
  ]

  function IntentValues(r: Record, c: Choices, p: Publication): (values: seq<Value>)
    ensures |values| == 16
  {
    [Str(p.mode), Str("dispatching"), Num(1), Str(c.intentId), p.timeZone, p.targetId, Str(c.createdAt),
     Str(c.createdAt), Str(r.businessId), Str(r.candidateId), p.scheduledUtc, p.scheduledLocal,
     Str("publication-intent-v1"), Str(c.userId), Str(r.candidateChecksum), p.decisionId]
  }

  function Intent(r: Record, c: Choices, p: Publication): Value {
    Object(INTENT_KEYS, IntentValues(r, c, p))
  }

  const ATTEMPT_KEYS := [
    "state", "intent_id", "attempt_id", "created_at", "started_at", "finished_at", "attempt_number", "intent_version",
    "idempotency_key", "contract_version", "workflow_version", "request_fingerprint"
  ]

  function AttemptValues(c: Choices, fingerprint: string): (values: seq<Value>)
    ensures |values| == 12
  {
    [Str("queued"), Str(c.intentId), Str(c.attemptId), Str(c.createdAt), Null, Null, Num(1), Num(1),
     Str(IdempotencyKey(c)), Str("publication-attempt-v1"), Str(c.workflowVersion), Str(fingerprint)]
  }

  function QueuedAttempt(c: Choices, fingerprint: string): Value {
    Object(ATTEMPT_KEYS, AttemptValues(c, fingerprint))
  }

  const TARGET_KEYS := [
    "channel", "version", "provider", "target_id", "business_id", "capabilities", "display_name", "credential_ref",
    "connection_state", "contract_version", "last_verified_at", "external_account_id"
  ]

  function RequiredCapability(r: Record): string {
    if IsTextPost(r.payload) then "text" else "static_image"
  }

  function TargetValues(r: Record, c: Choices): (values: seq<Value>)
    ensures |values| == 12
  {
    [Get(r.payload, "target_channel"), Num(1), Str("meta"), Str(c.targetId), Str(r.businessId),
     Arr([Str(RequiredCapability(r))]), Str("page"), Str("ref"), Str("connected"), Str("publishing-target-v1"), Null,
     Str("account")]
  }

  function Target(r: Record, c: Choices): Value {
    Object(TARGET_KEYS, TargetValues(r, c))
  }

  const APPROVAL_KEYS := [
    "mode", "intent_id", "time_zone", "target_id", "decided_at", "decision_id", "candidate_id", "scheduled_utc",
    "intent_version", "scheduled_local", "contract_version", "candidate_checksum", "decided_by_user_id"
  ]

  function ApprovalValues(r: Record, c: Choices): (values: seq<Value>)
    ensures |values| == 13
  {
    [Str("real"), Str(c.intentId), Str("Africa/Cairo"), Str(c.targetId), Str(c.createdAt), Str(c.decisionId),
     Str(r.candidateId), Str(c.scheduledUtc), Num(1), Str(c.scheduledLocal), Str("publication-approval-v1"),
     Str(r.candidateChecksum), Str(c.userId)]
  }

  /** What the owner's approval is fingerprinted over. */
  function ApprovedAction(r: Record, c: Choices): Value {
    Object(APPROVAL_KEYS, ApprovalValues(r, c))
  }

  const ALL_APPROVAL_KEYS := [
    "mode", "intent_id", "time_zone", "target_id", "decided_at", "decision_id", "candidate_id", "scheduled_utc",
    "intent_version", "scheduled_local", "contract_version", "candidate_checksum", "decided_by_user_id",
    "approval_fingerprint"
  ]

  function AllApprovalValues(r: Record, c: Choices, fingerprint: string): (values: seq<Value>)
    ensures |values| == 14
  {
    [Str("real"), Str(c.intentId), Str("Africa/Cairo"), Str(c.targetId), Str(c.createdAt), Str(c.decisionId),
     Str(r.candidateId), Str(c.scheduledUtc), Num(1), Str(c.scheduledLocal), Str("publication-approval-v1"),
     Str(r.candidateChecksum), Str(c.userId), Str(fingerprint)]
  }

  function Approval(r: Record, c: Choices, fingerprint: string): Value {
    Object(ALL_APPROVAL_KEYS, AllApprovalValues(r, c, fingerprint))
  }

  /** The fingerprint an owner's approval carries. */
  function ActionFingerprint(host: Host, r: Record, c: Choices): string {
    var fingerprint := ComputePublishingSha256(host, ApprovedAction(r, c));
    if fingerprint.Some? then fingerprint.value else ""
  }

  /** The publication of a real dispatch. */
  function Published(host: Host, r: Record, c: Choices): Publication {
    Publication("real", Target(r, c), Approval(r, c, ActionFingerprint(host, r, c)), Str(c.targetId), Str(c.decisionId),
                Str(c.scheduledLocal), Str("Africa/Cairo"), Str(c.scheduledUtc))
  }

  // ----- The keys of each document -----

  lemma {:induction false} AssetKeysMarked()
    ensures MarksGrow(ASSET_KEYS)
  {
    var k := ASSET_KEYS;
    assert |k[0]| == 8 && |k[1]| == 8 && |k[2]| == 9 && |k[3]| == 13 && |k[4]| == 20;
    assert k[0][0] == 'a' && k[1][0] == 'c';
    NeighboursSuffice(k);
  }

  lemma {:induction false} BodyKeysMarked()
    ensures MarksGrow(BODY_KEYS)
  {
    var k := BODY_KEYS;
    assert |k[0]| == 4 && |k[1]| == 6 && |k[2]| == 6 && |k[3]| == 8 && |k[4]| == 9 && |k[5]| == 9 && |k[6]| == 9;
    assert |k[7]| == 10 && |k[8]| == 11 && |k[9]| == 12 && |k[10]| == 13 && |k[11]| == 14 && |k[12]| == 14
      && |k[13]| == 15;
    assert |k[14]| == 16 && |k[15]| == 16 && |k[16]| == 16;
    assert k[1][0] == 'a' && k[2][0] == 't' && k[4][0] == 'c' && k[5][0] == 'i' && k[6][0] == 'o';
    assert k[11][0] == 'c' && k[12][0] == 'i' && k[14][0] == 'c' && k[14][3] == 'd' && k[15][0] == 'c'
      && k[15][3] == 't' && k[16][0] == 'w';
    NeighboursSuffice(k);
  }

  lemma {:induction false} IntentKeysMarked()
    ensures MarksGrow(INTENT_KEYS)
  {
    var k := INTENT_KEYS;
    assert |k[0]| == 4 && |k[1]| == 5 && |k[2]| == 7 && |k[3]| == 9 && |k[4]| == 9 && |k[5]| == 9 && |k[6]| == 10;
    assert |k[7]| == 10 && |k[8]| == 11 && |k[9]| == 12 && |k[10]| == 13 && |k[11]| == 15 && |k[12]| == 16
      && |k[13]| == 18;
    assert |k[14]| == 18 && |k[15]| == 20;
    assert k[3][0] == 'i' && k[4][0] == 't' && k[4][3] == 'e' && k[5][0] == 't' && k[5][3] == 'g' && k[6][0] == 'c'
      && k[7][0] == 'u';
    assert k[13][0] == 'c' && k[13][3] == 'a' && k[14][0] == 'c' && k[14][3] == 'd';
    NeighboursSuffice(k);
  }

  lemma {:induction false} AttemptKeysMarked()
    ensures MarksGrow(ATTEMPT_KEYS)
  {
    var k := ATTEMPT_KEYS;
    assert |k[0]| == 5 && |k[1]| == 9 && |k[2]| == 10 && |k[3]| == 10 && |k[4]| == 10 && |k[5]| == 11 && |k[6]| == 14;
    assert |k[7]| == 14 && |k[8]| == 15 && |k[9]| == 16 && |k[10]| == 16 && |k[11]| == 19;
    assert k[2][0] == 'a' && k[3][0] == 'c' && k[4][0] == 's' && k[6][0] == 'a' && k[7][0] == 'i';
    assert k[9][0] == 'c' && k[10][0] == 'w';
    NeighboursSuffice(k);
  }

  lemma {:induction false} TargetKeysMarked()
    ensures MarksGrow(TARGET_KEYS)
  {
    var k := TARGET_KEYS;
    assert |k[0]| == 7 && |k[1]| == 7 && |k[2]| == 8 && |k[3]| == 9 && |k[4]| == 11 && |k[5]| == 12 && |k[6]| == 12;
    assert |k[7]| == 14 && |k[8]| == 16 && |k[9]| == 16 && |k[10]| == 16 && |k[11]| == 19;
    assert k[0][0] == 'c' && k[1][0] == 'v' && k[5][0] == 'c' && k[6][0] == 'd' && k[8][0] == 'c' && k[8][3] == 'n';
    assert k[9][0] == 'c' && k[9][3] == 't' && k[10][0] == 'l';
    NeighboursSuffice(k);
  }

  lemma {:induction false} ApprovalKeysMarked()
    ensures MarksGrow(ALL_APPROVAL_KEYS)
  {
    var k := ALL_APPROVAL_KEYS;
    assert |k[0]| == 4 && |k[1]| == 9 && |k[2]| == 9 && |k[3]| == 9 && |k[4]| == 10 && |k[5]| == 11 && |k[6]| == 12;
    assert |k[7]| == 13 && |k[8]| == 14 && |k[9]| == 15 && |k[10]| == 16 && |k[11]| == 18 && |k[12]| == 18
      && |k[13]| == 20;
    assert k[1][0] == 'i' && k[2][0] == 't' && k[2][3] == 'e' && k[3][0] == 't' && k[3][3] == 'g' && k[11][0] == 'c'
      && k[12][0] == 'd';
    NeighboursSuffice(k);
  }

  lemma {:induction false} BodyKeysAllowed()
    ensures forall i :: 0 <= i < |BODY_KEYS| ==> BODY_KEYS[i] in DISPATCH_BODY_FIELDS
  {
  }

  lemma {:induction false} IntentKeysAllowed()
    ensures forall i :: 0 <= i < |INTENT_KEYS| ==> INTENT_KEYS[i] in INTENT_FIELDS
  {
  }

  lemma {:induction false} AttemptKeysAllowed()
    ensures forall i :: 0 <= i < |ATTEMPT_KEYS| ==> ATTEMPT_KEYS[i] in ATTEMPT_FIELDS
  {
  }

  lemma {:induction false} TargetKeysAllowed()
    ensures forall i :: 0 <= i < |TARGET_KEYS| ==> TARGET_KEYS[i] in TARGET_FIELDS
  {
  }

  lemma {:induction false} ApprovalKeysAllowed()
    ensures forall i :: 0 <= i < |ALL_APPROVAL_KEYS| ==> ALL_APPROVAL_KEYS[i] in APPROVAL_FIELDS
  {
  }

  lemma {:induction false} NoExtraFields(host: Host, r: Record, c: Choices, p: Publication, fingerprint: string)
    ensures NoExtraField(Body(r, c, p), DISPATCH_BODY_FIELDS) && NoExtraField(Intent(r, c, p), INTENT_FIELDS)
    ensures NoExtraField(QueuedAttempt(c, fingerprint), ATTEMPT_FIELDS)
    ensures NoExtraField(Target(r, c), TARGET_FIELDS) && NoExtraField(Approval(r, c, fingerprint), APPROVAL_FIELDS)
  {
    BodyKeysAllowed();
    IntentKeysAllowed();
    AttemptKeysAllowed();
    TargetKeysAllowed();
    ApprovalKeysAllowed();
    hide Object, NoExtraField, BODY_KEYS, INTENT_KEYS, ATTEMPT_KEYS, TARGET_KEYS, ALL_APPROVAL_KEYS, BodyValues,
         IntentValues, AttemptValues, TargetValues, AllApprovalValues;
    KeyCounts();
    AllowedObject(BODY_KEYS, BodyValues(r, c, p), DISPATCH_BODY_FIELDS);
    AllowedObject(INTENT_KEYS, IntentValues(r, c, p), INTENT_FIELDS);
    AllowedObject(ATTEMPT_KEYS, AttemptValues(c, fingerprint), ATTEMPT_FIELDS);
    AllowedObject(TARGET_KEYS, TargetValues(r, c), TARGET_FIELDS);
    AllowedObject(ALL_APPROVAL_KEYS, AllApprovalValues(r, c, fingerprint), APPROVAL_FIELDS);
  }

  lemma {:induction false} KeyCounts()
    ensures |BODY_KEYS| == 17 && |INTENT_KEYS| == 16 && |ATTEMPT_KEYS| == 12 && |TARGET_KEYS| == 12
    ensures |APPROVAL_KEYS| == 13 && |ALL_APPROVAL_KEYS| == 14
  {
  }

  // ----- What the documents say -----

  lemma {:induction false} AssetKeyNames()
    ensures |ASSET_KEYS| == 5
    ensures var k := ASSET_KEYS;
            && k[0] == "asset_id" && k[1] == "checksum" && k[2] == "mime_type" && k[3] == "retrieval_url"
            && k[4] == "retrieval_expires_at"
  {
  }

  lemma {:induction false} AssetReads(asset: Value, c: Choices)
    ensures var d := DispatchAssetFor(asset, c);
            && Get(d, "asset_id") == Get(asset, "asset_id") && Get(d, "checksum") == Get(asset, "checksum")
            && Get(d, "mime_type") == Get(asset, "mime_type") && Get(d, "retrieval_url") == Str(c.retrievalUrl)
            && Get(d, "retrieval_expires_at") == Str(c.createdAt)
  {
    hide ASSET_KEYS, Get, Object, MarksGrow, AssetsOf, DispatchAssetsFor, IdempotencyKey, OperationOf,
         RequiredCapability;
    AssetKeysMarked();
    AssetKeyNames();
    var values := [Get(asset, "asset_id"), Get(asset, "checksum"), Get(asset, "mime_type"), Str(c.retrievalUrl),
      Str(c.createdAt)];
    forall i | 0 <= i < 5 { GetAt(ASSET_KEYS, values, i); }
  }

  lemma {:induction false} BodyKeyNames()
    ensures |BODY_KEYS| == 17
    ensures var k := BODY_KEYS;
            && k[0] == "mode" && k[1] == "assets" && k[2] == "target" && k[3] == "approval"
            && k[4] == "candidate" && k[5] == "intent_id" && k[6] == "operation" && k[7] == "attempt_id"
            && k[8] == "business_id" && k[9] == "callback_url" && k[10] == "scheduled_utc" && k[11] == "correlation_id"
            && k[12] == "intent_version" && k[13] == "idempotency_key" && k[14] == "candidate_status"
            && k[15] == "contract_version"
            && k[16] == "workflow_version"
  {
  }

  lemma {:induction false} BodyReads(r: Record, c: Choices, p: Publication)
    ensures var d := Body(r, c, p);
            && Get(d, "mode") == Str(p.mode) && Get(d, "assets") == Arr(DispatchAssetsFor(AssetsOf(r.payload), c))
            && Get(d, "target") == p.target && Get(d, "approval") == p.approval
            && Get(d, "candidate") == r.payload && Get(d, "intent_id") == Str(c.intentId)
            && Get(d, "operation") == Str(OperationOf(r, p.mode)) && Get(d, "attempt_id") == Str(c.attemptId)
            && Get(d, "business_id") == Str(r.businessId) && Get(d, "callback_url") == Str(c.callbackUrl)
            && Get(d, "scheduled_utc") == p.scheduledUtc && Get(d, "correlation_id") == Str(c.correlationId)
            && Get(d, "intent_version") == Num(1) && Get(d, "idempotency_key") == Str(IdempotencyKey(c))
            && Get(d, "candidate_status") == r.sourceStatus
            && Get(d, "contract_version") == Str("publication-dispatch-v1")
            && Get(d, "workflow_version") == Str(c.workflowVersion)
  {
    hide BODY_KEYS, Get, Object, MarksGrow, AssetsOf, DispatchAssetsFor, IdempotencyKey, OperationOf,
         RequiredCapability;
    BodyKeysMarked();
    BodyKeyNames();
    var values := BodyValues(r, c, p);
    forall i | 0 <= i < 17 { GetAt(BODY_KEYS, values, i); }
  }

  lemma {:induction false} IntentKeyNames()
    ensures |INTENT_KEYS| == 16
    ensures var k := INTENT_KEYS;
            && k[0] == "mode" && k[1] == "state" && k[2] == "version" && k[3] == "intent_id"
            && k[4] == "time_zone" && k[5] == "target_id" && k[6] == "created_at" && k[7] == "updated_at"
            && k[8] == "business_id" && k[9] == "candidate_id" && k[10] == "scheduled_utc" && k[11] == "scheduled_local"
            && k[12] == "contract_version" && k[13] == "created_by_user_id" && k[14] == "candidate_checksum"
            && k[15] == "approved_decision_id"
  {
  }

  lemma {:induction false} IntentReads(r: Record, c: Choices, p: Publication)
    ensures var d := Intent(r, c, p);
            && Get(d, "mode") == Str(p.mode) && Get(d, "state") == Str("dispatching")
            && Get(d, "version") == Num(1) && Get(d, "intent_id") == Str(c.intentId)
            && Get(d, "time_zone") == p.timeZone && Get(d, "target_id") == p.targetId
            && Get(d, "created_at") == Str(c.createdAt) && Get(d, "updated_at") == Str(c.createdAt)
            && Get(d, "business_id") == Str(r.businessId) && Get(d, "candidate_id") == Str(r.candidateId)
            && Get(d, "scheduled_utc") == p.scheduledUtc && Get(d, "scheduled_local") == p.scheduledLocal
            && Get(d, "contract_version") == Str("publication-intent-v1")
            && Get(d, "created_by_user_id") == Str(c.userId)
            && Get(d, "candidate_checksum") == Str(r.candidateChecksum)
            && Get(d, "approved_decision_id") == p.decisionId
  {
    hide INTENT_KEYS, Get, Object, MarksGrow, AssetsOf, DispatchAssetsFor, IdempotencyKey, OperationOf,
         RequiredCapability;
    IntentKeysMarked();
    IntentKeyNames();
    var values := IntentValues(r, c, p);
    forall i | 0 <= i < 16 { GetAt(INTENT_KEYS, values, i); }
  }

  lemma {:induction false} AttemptKeyNames()
    ensures |ATTEMPT_KEYS| == 12
    ensures var k := ATTEMPT_KEYS;
            && k[0] == "state" && k[1] == "intent_id" && k[2] == "attempt_id" && k[3] == "created_at"
            && k[4] == "started_at" && k[5] == "finished_at" && k[6] == "attempt_number" && k[7] == "intent_version"
            && k[8] == "idempotency_key" && k[9] == "contract_version" && k[10] == "workflow_version"
            && k[11] == "request_fingerprint"
  {
  }

  lemma {:induction false} AttemptReads(c: Choices, fingerprint: string)
    ensures var d := QueuedAttempt(c, fingerprint);
            && Get(d, "state") == Str("queued") && Get(d, "intent_id") == Str(c.intentId)
            && Get(d, "attempt_id") == Str(c.attemptId) && Get(d, "created_at") == Str(c.createdAt)
            && Get(d, "started_at") == Null && Get(d, "finished_at") == Null
            && Get(d, "attempt_number") == Num(1) && Get(d, "intent_version") == Num(1)
            && Get(d, "idempotency_key") == Str(IdempotencyKey(c))
            && Get(d, "contract_version") == Str("publication-attempt-v1")
            && Get(d, "workflow_version") == Str(c.workflowVersion) && Get(d, "request_fingerprint") == Str(fingerprint)
  {
    hide ATTEMPT_KEYS, Get, Object, MarksGrow, AssetsOf, DispatchAssetsFor, IdempotencyKey, OperationOf,
         RequiredCapability;
    AttemptKeysMarked();
    AttemptKeyNames();
    var values := AttemptValues(c, fingerprint);
    forall i | 0 <= i < 12 { GetAt(ATTEMPT_KEYS, values, i); }
  }

  lemma {:induction false} TargetKeyNames()
    ensures |TARGET_KEYS| == 12
    ensures var k := TARGET_KEYS;
            && k[0] == "channel" && k[1] == "version" && k[2] == "provider" && k[3] == "target_id"
            && k[4] == "business_id" && k[5] == "capabilities" && k[6] == "display_name" && k[7] == "credential_ref"
            && k[8] == "connection_state" && k[9] == "contract_version" && k[10] == "last_verified_at"
            && k[11] == "external_account_id"
  {
  }

  lemma {:induction false} TargetReads(r: Record, c: Choices)
    ensures var d := Target(r, c);
            && Get(d, "channel") == Get(r.payload, "target_channel") && Get(d, "version") == Num(1)
            && Get(d, "provider") == Str("meta") && Get(d, "target_id") == Str(c.targetId)
            && Get(d, "business_id") == Str(r.businessId) && Get(d, "capabilities") == Arr([Str(RequiredCapability(r))])
            && Get(d, "display_name") == Str("page") && Get(d, "credential_ref") == Str("ref")
            && Get(d, "connection_state") == Str("connected")
            && Get(d, "contract_version") == Str("publishing-target-v1")
            && Get(d, "last_verified_at") == Null && Get(d, "external_account_id") == Str("account")
  {
    hide TARGET_KEYS, Get, Object, MarksGrow, AssetsOf, DispatchAssetsFor, IdempotencyKey, OperationOf,
         RequiredCapability;
    TargetKeysMarked();
    TargetKeyNames();
    var values := TargetValues(r, c);
    forall i | 0 <= i < 12 { GetAt(TARGET_KEYS, values, i); }
  }

  lemma {:induction false} ApprovalKeyNames()
    ensures |ALL_APPROVAL_KEYS| == 14
    ensures var k := ALL_APPROVAL_KEYS;
            && k[0] == "mode" && k[1] == "intent_id" && k[2] == "time_zone" && k[3] == "target_id"
            && k[4] == "decided_at" && k[5] == "decision_id" && k[6] == "candidate_id" && k[7] == "scheduled_utc"
            && k[8] == "intent_version" && k[9] == "scheduled_local" && k[10] == "contract_version"
            && k[11] == "candidate_checksum"
            && k[12] == "decided_by_user_id" && k[13] == "approval_fingerprint"
  {
  }

  lemma {:induction false} ApprovalReads(r: Record, c: Choices, fingerprint: string)
    ensures var d := Approval(r, c, fingerprint);
            && Get(d, "mode") == Str("real") && Get(d, "intent_id") == Str(c.intentId)
            && Get(d, "time_zone") == Str("Africa/Cairo") && Get(d, "target_id") == Str(c.targetId)
            && Get(d, "decided_at") == Str(c.createdAt) && Get(d, "decision_id") == Str(c.decisionId)
            && Get(d, "candidate_id") == Str(r.candidateId) && Get(d, "scheduled_utc") == Str(c.scheduledUtc)
            && Get(d, "intent_version") == Num(1) && Get(d, "scheduled_local") == Str(c.scheduledLocal)
            && Get(d, "contract_version") == Str("publication-approval-v1")
            && Get(d, "candidate_checksum") == Str(r.candidateChecksum)
            && Get(d, "decided_by_user_id") == Str(c.userId) && Get(d, "approval_fingerprint") == Str(fingerprint)
  {
    hide ALL_APPROVAL_KEYS, Get, Object, MarksGrow, AssetsOf, DispatchAssetsFor, IdempotencyKey, OperationOf,
         RequiredCapability;
    ApprovalKeysMarked();
    ApprovalKeyNames();
    var values := AllApprovalValues(r, c, fingerprint);
    forall i | 0 <= i < 14 { GetAt(ALL_APPROVAL_KEYS, values, i); }
  }

  // ----- Assets -----

  lemma {:induction false} CandidateAssetFacts(host: Host, v: Value)
    requires ValidCandidate(host, v)
    ensures IsTextPost(v) || AssetsOf(v) != []
    ensures forall i :: 0 <= i < |AssetsOf(v)| ==> AssetOk(AssetsOf(v)[i])
  {
    hide Get, OnlyFields, MissingTexts, AltTextOk, WindowOk, HashtagsOk;
  }

  /** With distinct identities, the map finds every asset. */
  lemma {:induction false} MapFindsEach(assets: seq<Value>, i: nat)
    requires i < |assets| && DistinctIds(CandidateKeys(assets))
    ensures var id := TextOf(Get(assets[i], "asset_id"));
            id in CandidateAssetMap(assets) && CandidateAssetMap(assets)[id] == assets[i]
  {
    hide Get;
    var n := |assets| - 1;
    if i < n {
      assert CandidateKeys(assets)[i].id != CandidateKeys(assets)[n].id;
      forall a, b | 0 <= a < b < n ensures CandidateKeys(assets[..n])[a].id != CandidateKeys(assets[..n])[b].id {
        assert CandidateKeys(assets)[a].id != CandidateKeys(assets)[b].id;
      }
      MapFindsEach(assets[..n], i);
    }
  }

  lemma {:induction false} HonestAssetOk(host: Host, assets: seq<Value>, c: Choices, i: nat)
    requires i < |assets| && ChoicesOk(host, c) && DistinctIds(CandidateKeys(assets))
    requires forall j :: 0 <= j < |assets| ==> AssetOk(assets[j])
    ensures DispatchAssetOk(host, assets, DispatchAssetsFor(assets, c), i)
  {
    hide Get, DispatchAssetFor, NonceOk, IsUuid;
    var ours := DispatchAssetsFor(assets, c);
    AssetReads(assets[i], c);
    MapFindsEach(assets, i);
    assert AssetOk(assets[i]);
    assert ours[i].Obj? by { AssetIsObject(assets[i], c); }
    forall j | 0 <= j < i ensures IdOf(host, ours[j]) != IdOf(host, ours[i]) {
      AssetReads(assets[j], c);
      assert AssetOk(assets[j]);
      assert CandidateKeys(assets)[j].id != CandidateKeys(assets)[i].id;
    }
  }

  lemma {:induction false} AssetIsObject(asset: Value, c: Choices)
    ensures DispatchAssetFor(asset, c).Obj?
  {
  }

  lemma {:induction false} HonestAssetsOk(host: Host, v: Value, c: Choices)
    requires ValidCandidate(host, v) && ChoicesOk(host, c) && DistinctIds(CandidateKeys(AssetsOf(v)))
    ensures DispatchAssetsOk(host, AssetsOf(v), IsTextPost(v), DispatchAssetsFor(AssetsOf(v), c))
  {
    hide ValidCandidate, ChoicesOk, DispatchAssetOk, AssetsOf, AssetOk, IsTextPost, DispatchAssetFor;
    CandidateAssetFacts(host, v);
    forall i | 0 <= i < |AssetsOf(v)| ensures DispatchAssetOk(host, AssetsOf(v), DispatchAssetsFor(AssetsOf(v), c), i) {
      HonestAssetOk(host, AssetsOf(v), c, i);
    }
  }
}
