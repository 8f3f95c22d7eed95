/** The other half of the dispatch gate: what an honest sender builds from a stored active candidate is
    let through, and therefore exactly which candidates can be dispatched, and which for real. */
module HonestDispatch {
  import opened Text
  import opened PublishingCanonical
  import opened Fingerprints
  import opened Documents
  import opened PublicationCandidate
  import opened CandidateIntake
  import opened PublishingEnvelope
  import opened DispatchAssets
  import opened DispatchGate
  import opened DispatchDocuments

  /** A stored record that is valid and active, over JSON documents. */
  ghost predicate Dispatchable(host: Host, r: Record) {
    && ValidRecord(host, r) && r.sourceState == "active"
    && WellFormed(r.payload) && Serializable(r.payload)
    && WellFormed(r.sourceStatus) && Serializable(r.sourceStatus)
  }

  /** What the sender may rely on: hashes of the right shape, its own choices, a fresh nonce, the clock. */
  ghost predicate SenderReady(host: Host, r: Record, c: Choices, context: Context) {
    && HexDigests(host) && HexSignatures(host)
    && Dispatchable(host, r) && ChoicesOk(host, c)
    && IsNonEmptyText(context.expectedKeyId)
    && WithinFiveMinutes(host, c.createdAt, context.now) && c.nonce !in context.seenNonces
  }

  // ----- The checks, one by one -----

  lemma {:induction false} RecordReads(host: Host, r: Record)
    requires ValidRecord(host, r) && r.sourceState == "active"
    ensures ValidCandidate(host, r.payload) && HandoffIssue(host, r.payload, r.sourceStatus).None?
    ensures Get(r.payload, "candidate_id") == Str(r.candidateId) && Get(r.payload, "business_id") == Str(r.businessId)
    ensures Get(r.payload, "candidate_checksum") == Str(r.candidateChecksum)
    ensures Get(r.sourceStatus, "state_version") == Num(r.sourceStateVersion)
    ensures IsUuid(r.candidateId) && IsUuid(r.businessId) && IsSha256(r.candidateChecksum)
  {
    hide Get, CandidateIssue, StatusOk;
  }

  lemma {:induction false} KeyIsText(c: Choices)
    ensures IsNonEmptyText(IdempotencyKey(c))
  {
    assert IdempotencyKey(c)[0] == 'p';
  }

  lemma {:induction false} DocumentsAreObjects(r: Record, c: Choices, p: Publication, fingerprint: string)
    ensures Body(r, c, p).Obj? && Intent(r, c, p).Obj? && QueuedAttempt(c, fingerprint).Obj?
    ensures Target(r, c).Obj? && Approval(r, c, fingerprint).Obj? && ApprovedAction(r, c).Obj?
  {
    hide BodyValues, IntentValues, AttemptValues, TargetValues, AllApprovalValues, ApprovalValues;
  }

  lemma {:induction false} BodyOk(host: Host, r: Record, c: Choices, p: Publication)
    requires ValidRecord(host, r) && r.sourceState == "active" && ChoicesOk(host, c)
    requires DistinctIds(CandidateKeys(AssetsOf(r.payload)))
    requires ModeOk(host, Body(r, c, p))
    ensures DispatchBodyOk(host, Body(r, c, p))
  {
    hide Get, ValidRecord, ValidCandidate, HandoffIssue, Body, DispatchAssetsFor, IdempotencyKey, NoExtraField, IsUuid,
         IsNonEmptyText, DispatchAssetsOk, NonceOk, ModeOk, OperationOf;
    RecordReads(host, r);
    BodyReads(r, c, p);
    NoExtraFields(host, r, c, p, "");
    DocumentsAreObjects(r, c, p, "");
    KeyIsText(c);
    HonestAssetsOk(host, r.payload, c);
  }

  lemma {:induction false} QueuedAttemptOk(host: Host, r: Record, c: Choices, p: Publication, fingerprint: string)
    requires ChoicesOk(host, c) && IsSha256(fingerprint)
    ensures AttemptOk(host, QueuedAttempt(c, fingerprint))
  {
    hide Get, NoExtraField, IsUuid, IsNonEmptyText, NonceOk, IdempotencyKey, IsSha256, AttemptValues;
    AttemptReads(c, fingerprint);
    NoExtraFields(host, r, c, p, fingerprint);
    DocumentsAreObjects(r, c, p, fingerprint);
    KeyIsText(c);
  }

  lemma {:induction false} StoredIsAuthoritative(host: Host, r: Record)
    requires Dispatchable(host, r)
    ensures AuthoritativeOk(host, r, r.payload, r.sourceStatus)
  {
    hide Get, HandoffIssue, RecordIssue, Serializable, WellFormed;
    RecordReads(host, r);
    CanonicalizeThrows(r.payload);
    CanonicalizeThrows(r.sourceStatus);
  }

  // ----- The documents are JSON -----

  lemma {:induction false} GetSerializable(v: Value, key: string)
    requires Serializable(v)
    ensures Get(v, key).Undefined? || Serializable(Get(v, key))
  {
    if v.Obj? {
      LookupSerializable(v.fields, key);
    }
  }

  lemma {:induction false} LookupSerializable(fields: seq<Field>, key: string)
    requires forall i :: 0 <= i < |fields| && !fields[i].value.Undefined? ==> Serializable(fields[i].value)
    ensures Lookup(fields, key).Undefined? || Serializable(Lookup(fields, key))
  {
    if fields != [] && fields[0].key != key {
      LookupSerializable(fields[1..], key);
    }
  }

  lemma {:induction false} AssetIsDocument(asset: Value, c: Choices)
    requires WellFormed(asset) && Serializable(asset) && AssetOk(asset)
    ensures IsDocument(DispatchAssetFor(asset, c))
  {
    hide Get, Object, MarksGrow;
    AssetKeysMarked();
    ObjectIsDocument(ASSET_KEYS, [Get(asset, "asset_id"), Get(asset, "checksum"), Get(asset, "mime_type"),
      Str(c.retrievalUrl), Str(c.createdAt)]);
  }

  ghost predicate PublicationIsDocument(p: Publication) {
    IsDocument(p.target) && IsDocument(p.approval) && IsDocument(p.scheduledUtc)
  }

  lemma {:induction false} DispatchAssetsAreDocuments(host: Host, r: Record, c: Choices)
    requires Dispatchable(host, r)
    ensures IsDocument(Arr(DispatchAssetsFor(AssetsOf(r.payload), c)))
  {
    hide Get, ValidRecord, ValidCandidate, HandoffIssue, AssetOk, DispatchAssetFor, IsUuid, IsSha256;
    RecordReads(host, r);
    CandidateAssetFacts(host, r.payload);
    GetWellFormed(r.payload, "assets");
    GetSerializable(r.payload, "assets");
    var assets := DispatchAssetsFor(AssetsOf(r.payload), c);
    forall i | 0 <= i < |assets| ensures IsDocument(assets[i]) {
      AssetIsDocument(AssetsOf(r.payload)[i], c);
    }
  }

  lemma {:induction false} BodyIsDocument(host: Host, r: Record, c: Choices, p: Publication)
    requires Dispatchable(host, r) && PublicationIsDocument(p)
    ensures IsDocument(Body(r, c, p))
  {
    hide Get, Object, MarksGrow, ValidRecord, BODY_KEYS, IdempotencyKey, OperationOf, DispatchAssetsFor, AssetsOf;
    DispatchAssetsAreDocuments(host, r, c);
    BodyKeysMarked();
    KeyCounts();
    assert IsDocument(r.payload) && IsDocument(r.sourceStatus);
    hide IsDocument, Dispatchable;
    PlainIsDocument(p.mode, 1);
    PlainIsDocument(c.intentId, 1);
    PlainIsDocument(OperationOf(r, p.mode), 1);
    PlainIsDocument(c.attemptId, 1);
    PlainIsDocument(r.businessId, 1);
    PlainIsDocument(c.callbackUrl, 1);
    PlainIsDocument(c.correlationId, 1);
    PlainIsDocument(IdempotencyKey(c), 1);
    PlainIsDocument("publication-dispatch-v1", 1);
    PlainIsDocument(c.workflowVersion, 1);
    ObjectIsDocument(BODY_KEYS, BodyValues(r, c, p));
  }

  // ----- The gate opens -----

  function Envelope(r: Record, c: Choices, p: Publication, keyId: string): UnsignedEnvelope {
    UnsignedEnvelope(DISPATCH_CONTRACT, c.messageId, c.createdAt, c.nonce, keyId, Body(r, c, p))
  }

  /** What is signed and offered to the gate. */
  function Signed(host: Host, r: Record, c: Choices, p: Publication, context: Context): Option<SignedEnvelope> {
    SignPublishingEnvelope(host, Envelope(r, c, p, context.expectedKeyId), context.secret)
  }

  /** A publication that fits its mode, and for real has its exact approval. */
  ghost predicate PublicationFits(host: Host, r: Record, c: Choices, p: Publication) {
    && PublicationIsDocument(p)
    && ModeOk(host, Body(r, c, p))
    && IntentOk(host, Intent(r, c, p))
    && (p.mode == "real" ==> ExactApproval(host, Intent(r, c, p), r.payload, r.sourceStatus, p.target, p.approval))
  }

  lemma {:induction false} HonestIsBound(host: Host, r: Record, c: Choices, p: Publication, e: SignedEnvelope)
    requires ValidRecord(host, r) && r.sourceState == "active" && e.body == Body(r, c, p)
    ensures OperationBound(e, Intent(r, c, p), QueuedAttempt(c, e.bodySha256))
    ensures Get(e.body, "candidate") == r.payload && Get(e.body, "candidate_status") == r.sourceStatus
    ensures Get(e.body, "mode") == Str(p.mode) && Get(e.body, "target") == p.target
            && Get(e.body, "approval") == p.approval
  {
    hide Get, Body, Intent, QueuedAttempt, ValidRecord, ValidCandidate, HandoffIssue, IdempotencyKey, OperationOf,
         IsUuid, AssetsOf, DispatchAssetsFor, IsSha256;
    RecordReads(host, r);
    BodyReads(r, c, p);
    IntentReads(r, c, p);
    AttemptReads(c, e.bodySha256);
  }

  lemma {:induction false} GateOpens(host: Host, r: Record, c: Choices, p: Publication, context: Context)
    requires SenderReady(host, r, c, context) && DistinctIds(CandidateKeys(AssetsOf(r.payload)))
    requires PublicationFits(host, r, c, p)
    ensures var signed := Signed(host, r, c, p, context);
            && signed.Some?
            && Get(signed.value.body, "candidate") == r.payload && Get(signed.value.body, "mode") == Str(p.mode)
            && LetThrough(host, signed.value, Intent(r, c, p), QueuedAttempt(c, signed.value.bodySha256), r, context)
  {
    hide Get, Body, Intent, QueuedAttempt, ValidRecord, ValidCandidate, HandoffIssue, DispatchBodyOk, IntentOk, ModeOk,
         ExactApproval, AttemptOk, AuthoritativeOk, EnvelopeValid, OperationBound, IdempotencyKey, OperationOf,
         WellFormed, Serializable, WithinFiveMinutes, NonceOk, IsNonEmptyText, IsUuid, Equiv, AssetsOf, CandidateKeys,
         ComputePublishingSha256;
    var e := Envelope(r, c, p, context.expectedKeyId);
    BodyIsDocument(host, r, c, p);
    SelfEquiv(Body(r, c, p));
    SignThenVerify(host, e, context.secret, e.body, context);
    var signed := Signed(host, r, c, p, context).value;
    assert signed.(body := e.body) == signed;
    assert IsSha256(signed.bodySha256) by { DigestShape(host, e.body); }
    BodyOk(host, r, c, p);
    QueuedAttemptOk(host, r, c, p, signed.bodySha256);
    StoredIsAuthoritative(host, r);
    HonestIsBound(host, r, c, p, signed);
  }

  lemma {:induction false} SelfEquiv(v: Value)
    requires WellFormed(v) && Serializable(v)
    ensures Equiv(v, v)
  {
    CanonicalizeThrows(v);
    CanonicalCompleteInvariant(v, v);
  }

  lemma {:induction false} DigestShape(host: Host, v: Value)
    requires HexDigests(host) && ComputePublishingSha256(host, v).Some?
    ensures IsSha256(ComputePublishingSha256(host, v).value)
  {
  }

  // ----- Exports and simulations -----

  lemma {:induction false} UnpublishedFits(host: Host, r: Record, c: Choices, mode: string)
    requires ValidRecord(host, r) && r.sourceState == "active" && ChoicesOk(host, c)
    requires mode in {"manual_export", "simulation"}
    ensures PublicationFits(host, r, c, Unpublished(mode))
  {
    hide Get, ValidRecord, ValidCandidate, HandoffIssue, NoExtraField, IsUuid, IsNonEmptyText, NonceOk, RealIntentOk,
         RealBodyOk, Body, Intent, AssetsOf, DispatchAssetsFor, IdempotencyKey, ExactApproval;
    var p := Unpublished(mode);
    RecordReads(host, r);
    BodyReads(r, c, p);
    IntentReads(r, c, p);
    NoExtraFields(host, r, c, p, "");
    DocumentsAreObjects(r, c, p, "");
  }

  /** An honest export or simulation of a stored active candidate with distinct asset identities is let
      through. */
  lemma {:induction false} OtherIsLetThrough(host: Host, r: Record, c: Choices, mode: string, context: Context)
    requires SenderReady(host, r, c, context) && DistinctIds(CandidateKeys(AssetsOf(r.payload)))
    requires mode in {"manual_export", "simulation"}
    ensures var signed := Signed(host, r, c, Unpublished(mode), context);
            && signed.Some?
            && Get(signed.value.body, "candidate") == r.payload && Get(signed.value.body, "mode") == Str(mode)
            && LetThrough(host, signed.value, Intent(r, c, Unpublished(mode)),
               QueuedAttempt(c, signed.value.bodySha256), r, context)
  {
    hide PublicationFits, ChoicesOk, IsNonEmptyText, WithinFiveMinutes, LetThrough, Signed, Get, Intent, QueuedAttempt,
         ValidRecord, WellFormed, Serializable, CandidateKeys, AssetsOf;
    UnpublishedFits(host, r, c, mode);
    GateOpens(host, r, c, Unpublished(mode), context);
  }

  // ----- Real dispatches -----

  lemma {:induction false} PublishableTexts(host: Host, v: Value)
    requires ValidCandidate(host, v) && Publishable(v)
    ensures Get(v, "target_channel").Str?
    ensures IsTextPost(v) || Get(v, "content_format") == Str("static_image_post")
  {
    hide Get, OnlyFields, MissingTexts, AltTextOk, AssetsOk, WindowOk, HashtagsOk, ApprovalIssue, ChecksumIssue;
  }

  lemma {:induction false} HonestTargetOk(host: Host, r: Record, c: Choices)
    requires ValidRecord(host, r) && r.sourceState == "active" && ChoicesOk(host, c)
    requires Publishable(r.payload)
    ensures TargetOk(host, Target(r, c)) && CapabilityFor(r.payload, Target(r, c))
  {
    hide Get, ValidRecord, ValidCandidate, HandoffIssue, NoExtraField, IsUuid, IsNonEmptyText, NonceOk, Target;
    RecordReads(host, r);
    TargetReads(r, c);
    NoExtraFields(host, r, c, Unpublished("real"), "");
    DocumentsAreObjects(r, c, Unpublished("real"), "");
    PublishableTexts(host, r.payload);
    TextsPresent();
    assert CapabilitiesOk(Get(Target(r, c), "capabilities"));
  }

  lemma {:induction false} TextsPresent()
    ensures IsNonEmptyText("page") && IsNonEmptyText("ref") && IsNonEmptyText("account")
  {
    assert !IsJsSpace("page"[0]) && !IsJsSpace("ref"[0]) && !IsJsSpace("account"[0]);
  }

  lemma {:induction false} WithoutLast(fields: seq<Field>, key: string)
    requires fields != [] && fields[|fields| - 1].key == key
    requires forall i :: 0 <= i < |fields| - 1 ==> fields[i].key != key
    ensures WithoutField(fields, key) == fields[..|fields| - 1]
  {
    if |fields| > 1 {
      WithoutLast(fields[1..], key);
      assert fields[..|fields| - 1] == [fields[0]] + fields[1..][..|fields| - 2];
    } else {
      assert fields[1..] == [];
    }
  }

  lemma {:induction false} ApprovalExtendsAction(r: Record, c: Choices, fingerprint: string)
    ensures ALL_APPROVAL_KEYS == APPROVAL_KEYS + ["approval_fingerprint"]
    ensures AllApprovalValues(r, c, fingerprint) == ApprovalValues(r, c) + [Str(fingerprint)]
  {
  }

  /** The fingerprint of an approval is taken over the approved action. */
  lemma {:induction false} PayloadIsAction(r: Record, c: Choices, fingerprint: string)
    ensures Approval(r, c, fingerprint).Obj? && ApprovalPayload(Approval(r, c, fingerprint)) == ApprovedAction(r, c)
  {
    ApprovalExtendsAction(r, c, fingerprint);
    ApprovalKeysMarked();
    KeyCounts();
    hide ALL_APPROVAL_KEYS, APPROVAL_KEYS, AllApprovalValues, ApprovalValues, Mark;
    var fields := Approval(r, c, fingerprint).fields;
    forall i | 0 <= i < 13 ensures fields[i].key != "approval_fingerprint" {
      assert Mark(ALL_APPROVAL_KEYS[i]) < Mark(ALL_APPROVAL_KEYS[13]);
    }
    WithoutLast(fields, "approval_fingerprint");
    assert fields[..13] == ApprovedAction(r, c).fields;
  }

  lemma {:induction false} ActionIsDocument(r: Record, c: Choices)
    ensures IsDocument(ApprovedAction(r, c))
  {
    ApprovalExtendsAction(r, c, "");
    ApprovalKeysMarked();
    KeyCounts();
    hide Mark;
    assert MarksGrow(APPROVAL_KEYS) by {
      assert forall i :: 0 <= i < 13 ==> APPROVAL_KEYS[i] == ALL_APPROVAL_KEYS[i];
    }
    hide ALL_APPROVAL_KEYS, APPROVAL_KEYS, MarksGrow, Object;
    ObjectIsDocument(APPROVAL_KEYS, ApprovalValues(r, c));
  }

  lemma {:induction false} RealPartsAreDocuments(host: Host, r: Record, c: Choices, fingerprint: string)
    requires ValidRecord(host, r) && r.sourceState == "active" && Publishable(r.payload)
    ensures IsDocument(Target(r, c)) && IsDocument(Approval(r, c, fingerprint))
  {
    hide Get, ValidRecord, ValidCandidate, HandoffIssue, Publishable, Object, MarksGrow, TARGET_KEYS, ALL_APPROVAL_KEYS;
    RecordReads(host, r);
    PublishableTexts(host, r.payload);
    KeyCounts();
    TargetKeysMarked();
    ApprovalKeysMarked();
    assert IsDocument(TargetValues(r, c)[5]) by { assert WellFormed(Str(RequiredCapability(r)))
      && Serializable(Str(RequiredCapability(r))); }
    ObjectIsDocument(TARGET_KEYS, TargetValues(r, c));
    ObjectIsDocument(ALL_APPROVAL_KEYS, AllApprovalValues(r, c, fingerprint));
  }

  lemma {:induction false} ActionHasFingerprint(host: Host, r: Record, c: Choices)
    requires HexDigests(host)
    ensures ComputePublishingSha256(host, ApprovedAction(r, c)) == Some(ActionFingerprint(host, r, c))
    ensures IsSha256(ActionFingerprint(host, r, c))
  {
    ActionIsDocument(r, c);
    hide ApprovedAction, WellFormed, Serializable;
    CanonicalizeThrows(ApprovedAction(r, c));
    assert ComputePublishingSha256(host, ApprovedAction(r, c)).Some?;
    hide ComputePublishingSha256;
    DigestShape(host, ApprovedAction(r, c));
  }

  lemma {:induction false} HonestApprovalOk(host: Host, r: Record, c: Choices)
    requires ValidRecord(host, r) && r.sourceState == "active" && HexDigests(host) && ChoicesOk(host, c)
            && ScheduleOk(host, c)
    ensures ApprovalOk(host, Approval(r, c, ActionFingerprint(host, r, c)))
  {
    var fingerprint := ActionFingerprint(host, r, c);
    hide Get, ValidRecord, ValidCandidate, HandoffIssue, NoExtraField, IsUuid, IsNonEmptyText, NonceOk, IsSha256,
         Approval, ApprovedAction, ApprovalPayload, ActionFingerprint, ComputePublishingSha256, IsLocalDateTime;
    RecordReads(host, r);
    ApprovalReads(r, c, fingerprint);
    NoExtraFields(host, r, c, Unpublished("real"), fingerprint);
    ActionHasFingerprint(host, r, c);
    PayloadIsAction(r, c, fingerprint);
  }

  lemma {:induction false} RealIntentFits(host: Host, r: Record, c: Choices)
    requires ValidRecord(host, r) && r.sourceState == "active" && ChoicesOk(host, c) && ScheduleOk(host, c)
    ensures IntentOk(host, Intent(r, c, Published(host, r, c)))
  {
    var p := Published(host, r, c);
    hide Get, ValidRecord, ValidCandidate, HandoffIssue, NoExtraField, IsUuid, IsNonEmptyText, NonceOk, IsSha256,
         Intent, Target, Approval, IsLocalDateTime, OtherIntentOk;
    RecordReads(host, r);
    IntentReads(r, c, p);
    NoExtraFields(host, r, c, p, "");
    DocumentsAreObjects(r, c, p, "");
  }

  lemma {:induction false} RealOperation(r: Record)
    ensures OperationOf(r, "real") == if IsTextPost(r.payload) then "meta.publish_text" else "meta.publish_static_image"
  {
    hide Get;
  }

  /** How the body, its target and its approval of a real dispatch are tied together. */
  lemma {:induction false} RealBodyTies(host: Host, r: Record, c: Choices)
    requires ValidRecord(host, r) && r.sourceState == "active"
    ensures var body, target, approval := Body(r, c, Published(host, r, c)), Target(r, c),
            Approval(r, c, ActionFingerprint(host, r, c));
            && Get(body, "mode") == Str("real") && Get(body, "candidate") == r.payload && Get(body, "target") == target
            && Get(body, "approval") == approval && Get(body, "operation") == Str(OperationOf(r, "real"))
            && !Get(body, "scheduled_utc").Null? && Get(approval, "scheduled_utc") == Get(body, "scheduled_utc")
            && Get(approval, "intent_id") == Get(body, "intent_id")
            && Get(approval, "intent_version") == Get(body, "intent_version")
            && Get(approval, "candidate_id") == Get(r.payload, "candidate_id")
            && Get(approval, "candidate_checksum") == Get(r.payload, "candidate_checksum")
            && Get(approval, "target_id") == Get(target, "target_id")
            && Get(target, "business_id") == Get(body, "business_id")
            && Get(target, "channel") == Get(r.payload, "target_channel")
            && Get(target, "connection_state") == Str("connected")
  {
    hide Get, ValidRecord, ValidCandidate, HandoffIssue, Body, Target, Approval, ActionFingerprint, AssetsOf,
         DispatchAssetsFor, IdempotencyKey, OperationOf, IsUuid, IsSha256;
    RecordReads(host, r);
    BodyReads(r, c, Published(host, r, c));
    TargetReads(r, c);
    ApprovalReads(r, c, ActionFingerprint(host, r, c));
  }

  lemma {:induction false} RealBodyFits(host: Host, r: Record, c: Choices)
    requires ValidRecord(host, r) && r.sourceState == "active" && HexDigests(host) && ChoicesOk(host, c)
            && ScheduleOk(host, c)
    requires Publishable(r.payload)
    ensures ModeOk(host, Body(r, c, Published(host, r, c)))
  {
    hide Get, ValidRecord, Body, Published, Target, Approval, ActionFingerprint, TargetOk, ApprovalOk, ChoicesOk,
         ScheduleOk, CapabilityFor, OperationOf, IsTextPost, Publishable, NoProviderFields;
    HonestTargetOk(host, r, c);
    HonestApprovalOk(host, r, c);
    RealBodyTies(host, r, c);
    RealOperation(r);
  }

  lemma {:induction false} RealApprovalFits(host: Host, r: Record, c: Choices)
    requires ValidRecord(host, r) && r.sourceState == "active" && HexDigests(host) && ChoicesOk(host, c)
            && ScheduleOk(host, c)
    requires Publishable(r.payload)
    ensures var p := Published(host, r, c);
            ExactApproval(host, Intent(r, c, p), r.payload, r.sourceStatus, p.target, p.approval)
  {
    var p, fingerprint := Published(host, r, c), ActionFingerprint(host, r, c);
    hide Get, ValidRecord, ValidCandidate, HandoffIssue, Intent, Target, Approval, ActionFingerprint, TargetOk,
         ApprovalOk, IntentOk, ChoicesOk, ScheduleOk, CapabilityFor, Publishable;
    RecordReads(host, r);
    IntentReads(r, c, p);
    TargetReads(r, c);
    ApprovalReads(r, c, fingerprint);
    HonestTargetOk(host, r, c);
    HonestApprovalOk(host, r, c);
    RealIntentFits(host, r, c);
  }

  lemma {:induction false} PublishedFits(host: Host, r: Record, c: Choices)
    requires ValidRecord(host, r) && r.sourceState == "active" && HexDigests(host) && ChoicesOk(host, c)
            && ScheduleOk(host, c)
    requires Publishable(r.payload)
    ensures PublicationFits(host, r, c, Published(host, r, c))
  {
    hide ValidRecord, Publishable, ChoicesOk, ScheduleOk, ModeOk, IntentOk, ExactApproval, Body, Intent, Target,
         Approval, ActionFingerprint;
    RealPartsAreDocuments(host, r, c, ActionFingerprint(host, r, c));
    RealBodyFits(host, r, c);
    RealIntentFits(host, r, c);
    RealApprovalFits(host, r, c);
  }

  /** An honest real dispatch, approved by its owner for a Cairo schedule, of a stored active candidate with
      distinct asset identities that can be published at all, is let through. */
  lemma {:induction false} RealIsLetThrough(host: Host, r: Record, c: Choices, context: Context)
    requires SenderReady(host, r, c, context) && DistinctIds(CandidateKeys(AssetsOf(r.payload)))
    requires ScheduleOk(host, c) && Publishable(r.payload)
    ensures var p := Published(host, r, c);
            var signed := Signed(host, r, c, p, context);
            && signed.Some?
            && Get(signed.value.body, "candidate") == r.payload && Get(signed.value.body, "mode") == Str("real")
            && LetThrough(host, signed.value, Intent(r, c, p), QueuedAttempt(c, signed.value.bodySha256), r, context)
  {
    hide PublicationFits, ChoicesOk, IsNonEmptyText, WithinFiveMinutes, LetThrough, Signed, Get, Intent, QueuedAttempt,
         ValidRecord, WellFormed, Serializable, CandidateKeys, AssetsOf, Publishable, ScheduleOk, Target, Approval;
    PublishedFits(host, r, c);
    GateOpens(host, r, c, Published(host, r, c), context);
  }

  // ----- What can be dispatched -----

  /** Reordering keys changes neither the asset identities nor what can be published. */
  lemma {:induction false} EquivCandidates(a: Value, b: Value)
    requires WellFormed(a) && WellFormed(b) && Equiv(a, b)
    ensures DistinctIds(CandidateKeys(AssetsOf(a))) <==> DistinctIds(CandidateKeys(AssetsOf(b)))
    ensures Publishable(a) <==> Publishable(b)
  {
    hide Get;
    EquivReads(a, b, "target_channel");
    EquivReads(a, b, "content_format");
    EquivReads(a, b, "assets");
    GetWellFormed(a, "assets");
    GetWellFormed(b, "assets");
    var xs, ys := AssetsOf(a), AssetsOf(b);
    assert |xs| == |ys|;
    forall i | 0 <= i < |xs| ensures CandidateKeys(xs)[i].id == CandidateKeys(ys)[i].id {
      EquivReads(xs[i], ys[i], "asset_id");
    }
  }

  /** What a dispatch that is let through says about the stored candidate: its asset identities are distinct,
      and a real one publishes what can be published; or two candidates collide. */
  lemma {:induction false} DispatchedCandidate(
    host: Host, e: SignedEnvelope, intent: Value, attempt: Value, r: Record, context: Context)
    requires WellFormed(r.payload) && WellFormed(e.body)
    requires LetThrough(host, e, intent, attempt, r, context)
    ensures || FingerprintCollision(host, r.payload, Get(e.body, "candidate"))
            || (&& DistinctIds(CandidateKeys(AssetsOf(r.payload)))
                && (Get(e.body, "mode") == Str("real") ==> Publishable(r.payload)))
  {
    hide Get, EnvelopeValid, IntentOk, AttemptOk, BodyFieldsOk, OperationBound, ExactApproval, AssetsOf, CandidateKeys,
         DistinctIds, DispatchAssetsOk, RecordIssue, HandoffIssue, ComputePublishingSha256, FingerprintCollision,
         Publishable;
    var candidate := Get(e.body, "candidate");
    GetWellFormed(e.body, "candidate");
    FingerprintBinds(host, r.payload, candidate);
    DispatchMatchesCandidate(host, AssetsOf(candidate), IsTextPost(candidate), AssetsOf(e.body));
    if Get(e.body, "mode") == Str("real") {
      RealDispatchIsPublishable(host, e, intent, attempt, r, context);
    }
    if Equiv(r.payload, candidate) {
      EquivCandidates(r.payload, candidate);
    }
  }

  /** Let through in a mode, and not by a hash collision with the stored candidate. */
  ghost predicate Dispatched(
    host: Host, mode: string, e: SignedEnvelope, intent: Value, attempt: Value, r: Record, context: Context) {
    && WellFormed(e.body) && Get(e.body, "mode") == Str(mode)
    && LetThrough(host, e, intent, attempt, r, context)
    && !FingerprintCollision(host, r.payload, Get(e.body, "candidate"))
  }

  lemma {:induction false} HonestIsDispatched(host: Host, r: Record, c: Choices, p: Publication, context: Context)
    requires SenderReady(host, r, c, context) && DistinctIds(CandidateKeys(AssetsOf(r.payload)))
    requires PublicationFits(host, r, c, p)
    ensures var signed := Signed(host, r, c, p, context);
            && signed.Some?
            && Dispatched(host, p.mode, signed.value, Intent(r, c, p), QueuedAttempt(c, signed.value.bodySha256), r,
               context)
  {
    hide Get, LetThrough, Body, Intent, QueuedAttempt, AssetsOf, CandidateKeys, ComputePublishingSha256, ModeOk,
         IntentOk, ExactApproval, WellFormed, Serializable, ChoicesOk, ValidRecord, WithinFiveMinutes;
    GateOpens(host, r, c, p, context);
    BodyIsDocument(host, r, c, p);
  }

  /** A stored active candidate can be dispatched exactly when its asset identities are distinct. The
      candidate validator lets repeats pass, so a candidate with repeats is stored and can never leave. */
  lemma {:induction false} DispatchableIffDistinctAssets(host: Host, r: Record, c: Choices, context: Context)
    requires SenderReady(host, r, c, context)
    ensures DistinctIds(CandidateKeys(AssetsOf(r.payload))) <==>
            exists mode: string, e: SignedEnvelope, intent: Value, attempt: Value ::
              Dispatched(host, mode, e, intent, attempt, r, context)
  {
    hide Get, LetThrough, Signed, Intent, QueuedAttempt, AssetsOf, CandidateKeys, PublicationFits, ChoicesOk,
         WithinFiveMinutes, FingerprintCollision, ValidRecord;
    if DistinctIds(CandidateKeys(AssetsOf(r.payload))) {
      UnpublishedFits(host, r, c, "simulation");
      HonestIsDispatched(host, r, c, Unpublished("simulation"), context);
    }
    if mode: string, e: SignedEnvelope, intent: Value, attempt: Value :| Dispatched(host, mode, e, intent, attempt, r,
      context) {
      DispatchedCandidate(host, e, intent, attempt, r, context);
    }
  }

  /** In which modes: the three there are, and for real only an image or text post for Facebook or
      Instagram. */
  lemma {:induction false} DispatchableInModeIff(host: Host, r: Record, c: Choices, mode: string, context: Context)
    requires SenderReady(host, r, c, context) && (mode == "real" ==> ScheduleOk(host, c))
    ensures (&& DistinctIds(CandidateKeys(AssetsOf(r.payload)))
             && mode in {"real", "manual_export", "simulation"} && (mode == "real" ==> Publishable(r.payload))) <==>
            exists e: SignedEnvelope, intent: Value, attempt: Value ::
              Dispatched(host, mode, e, intent, attempt, r, context)
  {
    hide Get, ScheduleOk, LetThrough, Signed, Target, Approval, Intent, QueuedAttempt, AssetsOf, CandidateKeys,
         Publishable, PublicationFits, ChoicesOk, WithinFiveMinutes, FingerprintCollision, ValidRecord;
    if DistinctIds(CandidateKeys(AssetsOf(r.payload))) {
      if mode == "real" && Publishable(r.payload) {
        PublishedFits(host, r, c);
        HonestIsDispatched(host, r, c, Published(host, r, c), context);
      }
      if mode in {"manual_export", "simulation"} {
        UnpublishedFits(host, r, c, mode);
        HonestIsDispatched(host, r, c, Unpublished(mode), context);
      }
    }
    if e: SignedEnvelope, intent: Value, attempt: Value :| Dispatched(host, mode, e, intent, attempt, r, context) {
      DispatchedCandidate(host, e, intent, attempt, r, context);
      DispatchedMode(host, mode, e, intent, attempt, r, context);
    }
  }

  lemma {:induction false} DispatchedMode(
    host: Host, mode: string, e: SignedEnvelope, intent: Value, attempt: Value, r: Record, context: Context)
    requires Dispatched(host, mode, e, intent, attempt, r, context)
    ensures mode in {"real", "manual_export", "simulation"}
  {
    hide Get, EnvelopeValid, IntentOk, AttemptOk, AuthoritativeOk, DispatchBodyOk, ExactApproval, FingerprintCollision;
    OperationFollowsMode(host, e, intent, attempt, r, context);
  }
}
