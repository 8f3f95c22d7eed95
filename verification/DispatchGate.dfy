/** The dispatch gate (publishing-policy.ts): a signed dispatch is let through only when envelope,
    body, intent, attempt, stored candidate and approval bind one operation. */
module DispatchGate {
  import opened Text
  import opened PublishingCanonical
  import opened Fingerprints
  import opened Documents
  import opened PublicationCandidate
  import opened CandidateIntake
  import opened PublishingEnvelope
  import opened DispatchAssets

  // ----- Documents -----

  predicate IsLocalDateTime(v: Value) {
    && v.Str? && |v.s| == 19
    && forall i :: 0 <= i < 19 ==>
         if i in {4, 7} then v.s[i] == '-'
         else if i == 10 then v.s[i] == 'T'
         else if i in {13, 16} then v.s[i] == ':'
         else IsDigit(v.s[i])
  }

  ghost predicate AreDigits(s: string, n: nat) {
    |s| == n && forall c :: c in s ==> '0' <= c <= '9'
  }

  ghost predicate JoinsDateTime(
    s: string, year: string, month: string, day: string, hour: string, minute: string, second: string) {
    && AreDigits(year, 4) && AreDigits(month, 2) && AreDigits(day, 2)
    && AreDigits(hour, 2) && AreDigits(minute, 2) && AreDigits(second, 2)
    && s == year + "-" + month + "-" + day + "T" + hour + ":" + minute + ":" + second
  }

  lemma {:induction false} JoinedIsLocal(
    s: string, year: string, month: string, day: string, hour: string, minute: string, second: string)
    requires JoinsDateTime(s, year, month, day, hour, minute, second)
    ensures IsLocalDateTime(Str(s))
  {
    var date, time := year + "-" + month + "-" + day, hour + ":" + minute + ":" + second;
    assert s == date + "T" + time;
    assert forall i :: 0 <= i < 10 ==> s[i] == date[i];
    assert forall i :: 11 <= i < 19 ==> s[i] == time[i - 11];
    forall i | 0 <= i < 10 && i !in {4, 7} ensures IsDigit(date[i]) {
      assert date[i] in year + month + day;
    }
    forall i | 0 <= i < 8 && i !in {2, 5} ensures IsDigit(time[i]) {
      assert time[i] in hour + minute + second;
    }
  }

  lemma {:induction false} LocalIsJoined(s: string)
    requires IsLocalDateTime(Str(s))
    ensures JoinsDateTime(s, s[..4], s[5..7], s[8..10], s[11..13], s[14..16], s[17..])
  {
    assert s[4] == s[7] == '-' && s[10] == 'T' && s[13] == s[16] == ':';
  }

  /** The pattern is a date and a time, in digits, and nothing after them. */
  lemma {:induction false} LocalDateTimeParts(s: string)
    ensures IsLocalDateTime(Str(s)) <==>
            exists year, month, day, hour, minute, second :: JoinsDateTime(s, year, month, day, hour, minute, second)
  {
    hide IsLocalDateTime, JoinsDateTime;
    if IsLocalDateTime(Str(s)) {
      assert |s| == 19 by { LocalLength(s); }
      LocalIsJoined(s);
    }
    if year, month, day, hour, minute, second :| JoinsDateTime(s, year, month, day, hour, minute, second) {
      JoinedIsLocal(s, year, month, day, hour, minute, second);
    }
  }

  lemma {:induction false} LocalLength(s: string)
    requires IsLocalDateTime(Str(s))
    ensures |s| == 19
  {
  }

  const TARGET_FIELDS := {
    "contract_version", "target_id", "version", "business_id", "provider", "channel", "external_account_id",
    "display_name", "connection_state", "credential_ref", "capabilities", "last_verified_at"
  }

  predicate CapabilitiesOk(v: Value) {
    && v.Arr? && v.items != []
    && (forall i :: 0 <= i < |v.items| ==> v.items[i] in {Str("static_image"), Str("text")})
    && (forall i, j :: 0 <= i < j < |v.items| ==> v.items[i] != v.items[j])
  }

  /** validatePublishingTargetV1. */
  predicate TargetOk(host: Host, v: Value) {
    && v.Obj? && NoExtraField(v, TARGET_FIELDS)
    && Get(v, "contract_version") == Str("publishing-target-v1")
    && IsUuidValue(Get(v, "target_id")) && IsUuidValue(Get(v, "business_id"))
    && IsIntegerFrom(Get(v, "version"), 1)
    && IsRequiredText(Get(v, "external_account_id"))
    && IsRequiredText(Get(v, "display_name"))
    && IsRequiredText(Get(v, "credential_ref"))
    && Get(v, "provider") == Str("meta")
    && TextOf(Get(v, "channel")) in {"facebook", "instagram"}
    && TextOf(Get(v, "connection_state")) in {"connected", "expired", "revoked", "error"}
    && CapabilitiesOk(Get(v, "capabilities"))
    && (Get(v, "last_verified_at").Null? || IsIsoDateTime(host, Get(v, "last_verified_at")))
  }

  predicate CairoSchedule(host: Host, v: Value) {
    && IsLocalDateTime(Get(v, "scheduled_local"))
    && Get(v, "time_zone") == Str("Africa/Cairo")
    && IsIsoDateTime(host, Get(v, "scheduled_utc"))
  }

  predicate CairoPair(host: Host, v: Value) {
    host.cairoAgrees(TextOf(Get(v, "scheduled_local")), TextOf(Get(v, "scheduled_utc")))
  }

  const APPROVAL_FIELDS := {
    "contract_version", "decision_id", "intent_id", "intent_version", "candidate_id", "candidate_checksum", "mode",
    "target_id", "scheduled_local", "time_zone", "scheduled_utc", "decided_by_user_id", "decided_at",
    "approval_fingerprint"
  }

  function WithoutField(fields: seq<Field>, key: string): seq<Field> {
    if fields == [] then []
    else (if fields[0].key == key then [] else [fields[0]]) + WithoutField(fields[1..], key)
  }

  /** What an approval fingerprint is computed over. */
  function ApprovalPayload(v: Value): Value
    requires v.Obj?
  {
    Obj(WithoutField(v.fields, "approval_fingerprint"))
  }

  /** isPublicationApprovalFingerprintValid. */
  predicate ApprovalFingerprintValid(host: Host, v: Value)
    requires v.Obj?
  {
    && Get(v, "approval_fingerprint").Str?
    && ComputePublishingSha256(host, ApprovalPayload(v)) == Some(Get(v, "approval_fingerprint").s)
  }

  /** validatePublicationApprovalSnapshotV1. */
  predicate ApprovalOk(host: Host, v: Value) {
    && v.Obj? && NoExtraField(v, APPROVAL_FIELDS)
    && Get(v, "contract_version") == Str("publication-approval-v1")
    && IsUuidValue(Get(v, "decision_id")) && IsUuidValue(Get(v, "intent_id"))
    && IsUuidValue(Get(v, "candidate_id")) && IsUuidValue(Get(v, "target_id"))
    && IsUuidValue(Get(v, "decided_by_user_id"))
    && IsIntegerFrom(Get(v, "intent_version"), 1)
    && IsDigest(Get(v, "candidate_checksum"))
    && Get(v, "mode") == Str("real")
    && CairoSchedule(host, v) && IsIsoDateTime(host, Get(v, "decided_at")) && CairoPair(host, v)
    && IsDigest(Get(v, "approval_fingerprint")) && ApprovalFingerprintValid(host, v)
  }

  const INTENT_FIELDS := {
    "contract_version", "intent_id", "version", "business_id", "candidate_id", "candidate_checksum", "mode",
    "target_id", "scheduled_local", "time_zone", "scheduled_utc", "state", "approved_decision_id",
    "created_by_user_id", "created_at", "updated_at", "published_post_url"
  }

  const INTENT_STATES := {
    "draft", "awaiting_approval", "scheduled", "dispatching", "succeeded", "failed", "action_required", "cancelled"
  }

  predicate EmptySchedule(v: Value) {
    && Get(v, "target_id").Null? && Get(v, "scheduled_local").Null?
    && Get(v, "time_zone").Null? && Get(v, "scheduled_utc").Null?
  }

  /** The schedule and approval rules of a real intent. */
  predicate RealIntentOk(host: Host, v: Value) {
    var complete := IsUuidValue(Get(v, "target_id")) && CairoSchedule(host, v);
    && (complete || (Get(v, "state") == Str("draft") && EmptySchedule(v)))
    && (complete ==> CairoPair(host, v))
    && (TextOf(Get(v, "state")) in {"scheduled", "dispatching", "succeeded", "failed", "action_required"} ==>
          IsUuidValue(Get(v, "approved_decision_id")))
  }

  /** The rules of an export or a simulation, which carry no schedule and no approval. */
  predicate OtherIntentOk(v: Value) {
    && EmptySchedule(v)
    && Get(v, "approved_decision_id").Null?
    && TextOf(Get(v, "state")) !in {"awaiting_approval", "scheduled", "action_required"}
  }

  /** validatePublicationIntentV1. */
  predicate IntentOk(host: Host, v: Value) {
    && v.Obj? && NoExtraField(v, INTENT_FIELDS)
    && Get(v, "contract_version") == Str("publication-intent-v1")
    && IsUuidValue(Get(v, "intent_id")) && IsUuidValue(Get(v, "business_id"))
    && IsUuidValue(Get(v, "candidate_id")) && IsUuidValue(Get(v, "created_by_user_id"))
    && IsIntegerFrom(Get(v, "version"), 1)
    && IsDigest(Get(v, "candidate_checksum"))
    && TextOf(Get(v, "mode")) in {"real", "manual_export", "simulation"}
    && TextOf(Get(v, "state")) in INTENT_STATES
    && (if Get(v, "mode") == Str("real") then RealIntentOk(host, v) else OtherIntentOk(v))
    && IsIsoDateTime(host, Get(v, "created_at")) && IsIsoDateTime(host, Get(v, "updated_at"))
    && host.dateParse(TextOf(Get(v, "created_at"))).value <= host.dateParse(TextOf(Get(v, "updated_at"))).value
  }

  const ATTEMPT_FIELDS := {
    "contract_version", "attempt_id", "intent_id", "intent_version", "attempt_number", "idempotency_key",
    "workflow_version", "request_fingerprint", "state", "started_at", "finished_at", "created_at"
  }

  predicate NullOrDateTime(host: Host, v: Value) {
    v.Null? || IsIsoDateTime(host, v)
  }

  predicate AttemptTimesOk(host: Host, v: Value) {
    var state, started, finished := TextOf(Get(v, "state")), Get(v, "started_at"), Get(v, "finished_at");
    && IsIsoDateTime(host, Get(v, "created_at")) && NullOrDateTime(host, started) && NullOrDateTime(host, finished)
    && (state == "queued" ==> started.Null? && finished.Null?)
    && (state == "running" ==> IsIsoDateTime(host, started) && finished.Null?)
    && (state in {"succeeded", "failed", "unknown", "cancelled"} ==> IsIsoDateTime(host, finished))
  }

  /** validatePublicationAttemptV1. */
  predicate AttemptOk(host: Host, v: Value) {
    && v.Obj? && NoExtraField(v, ATTEMPT_FIELDS)
    && Get(v, "contract_version") == Str("publication-attempt-v1")
    && IsUuidValue(Get(v, "attempt_id")) && IsUuidValue(Get(v, "intent_id"))
    && IsIntegerFrom(Get(v, "intent_version"), 1) && IsIntegerFrom(Get(v, "attempt_number"), 1)
    && IsRequiredText(Get(v, "idempotency_key")) && IsRequiredText(Get(v, "workflow_version"))
    && IsDigest(Get(v, "request_fingerprint"))
    && TextOf(Get(v, "state")) in {"queued", "running", "succeeded", "failed", "unknown", "cancelled"}
    && AttemptTimesOk(host, v)
  }

  // ----- The dispatch body -----

  const DISPATCH_BODY_FIELDS := {
    "contract_version", "attempt_id", "intent_id", "intent_version", "business_id", "correlation_id",
    "idempotency_key", "workflow_version", "candidate", "candidate_status", "assets", "callback_url", "mode",
    "operation", "target", "approval", "scheduled_utc"
  }

  predicate CapabilityFor(candidate: Value, target: Value) {
    var format, capabilities := TextOf(Get(candidate, "content_format")), Get(target, "capabilities");
    && capabilities.Arr?
    && ((format == "static_image_post" && Str("static_image") in capabilities.items)
        || (format == "text_post" && Str("text") in capabilities.items))
  }

  predicate NoProviderFields(body: Value) {
    Get(body, "target").Null? && Get(body, "approval").Null? && Get(body, "scheduled_utc").Null?
  }

  predicate RealBodyOk(host: Host, body: Value) {
    var candidate, target, approval := Get(body, "candidate"), Get(body, "target"), Get(body, "approval");
    && Get(body, "operation") == Str(if IsTextPost(candidate) then "meta.publish_text" else "meta.publish_static_image")
    && !Get(body, "scheduled_utc").Null?
    && TargetOk(host, target) && ApprovalOk(host, approval)
    && Get(approval, "intent_id") == Get(body, "intent_id")
    && Get(approval, "intent_version") == Get(body, "intent_version")
    && Get(approval, "candidate_id") == Get(candidate, "candidate_id")
    && Get(approval, "candidate_checksum") == Get(candidate, "candidate_checksum")
    && Get(approval, "target_id") == Get(target, "target_id")
    && Get(approval, "scheduled_utc") == Get(body, "scheduled_utc")
    && Get(target, "business_id") == Get(body, "business_id")
    && Get(target, "channel") == Get(candidate, "target_channel")
    && Get(target, "connection_state") == Str("connected")
    && CapabilityFor(candidate, target)
  }

  predicate ModeOk(host: Host, body: Value) {
    var mode := TextOf(Get(body, "mode"));
    || (mode == "real" && RealBodyOk(host, body))
    || (mode == "manual_export" && Get(body, "operation") == Str("manual_export.build") && NoProviderFields(body))
    || (mode == "simulation" && Get(body, "operation") == Str("simulation.run") && NoProviderFields(body))
  }

  /** Everything validateDispatchBody checks besides the assets. */
  predicate BodyFieldsOk(host: Host, body: Value) {
    && body.Obj? && NoExtraField(body, DISPATCH_BODY_FIELDS)
    && Get(body, "contract_version") == Str("publication-dispatch-v1")
    && IsUuidValue(Get(body, "attempt_id")) && IsUuidValue(Get(body, "intent_id"))
    && IsUuidValue(Get(body, "business_id")) && IsUuidValue(Get(body, "correlation_id"))
    && IsIntegerFrom(Get(body, "intent_version"), 1)
    && IsRequiredText(Get(body, "idempotency_key")) && IsRequiredText(Get(body, "workflow_version"))
    && HandoffIssue(host, Get(body, "candidate"), Get(body, "candidate_status")).None?
    && Get(Get(body, "candidate"), "business_id") == Get(body, "business_id")
    && Get(body, "assets").Arr?
    && IsRequiredText(Get(body, "callback_url")) && host.safeUrl(Get(body, "callback_url").s)
    && ModeOk(host, body)
  }

  function AssetsOf(v: Value): seq<Value> {
    if Get(v, "assets").Arr? then Get(v, "assets").items else []
  }

  ghost predicate DispatchBodyOk(host: Host, body: Value) {
    && BodyFieldsOk(host, body)
    && DispatchAssetsOk(host, AssetsOf(Get(body, "candidate")), IsTextPost(Get(body, "candidate")), AssetsOf(body))
  }

  // ----- The gate -----

  /** validateAuthoritativePublicationCandidateV1. */
  predicate AuthoritativeOk(host: Host, record: Record, candidate: Value, status: Value) {
    && RecordIssue(host, record).None?
    && HandoffIssue(host, candidate, status).None?
    && Str(record.candidateId) == Get(candidate, "candidate_id")
    && Str(record.businessId) == Get(candidate, "business_id")
    && Str(record.candidateChecksum) == Get(candidate, "candidate_checksum")
    && ComputePublishingSha256(host, record.payload).Some?
    && ComputePublishingSha256(host, record.payload) == ComputePublishingSha256(host, candidate)
    && record.sourceState == "active"
    && Num(record.sourceStateVersion) == Get(status, "state_version")
    && ComputePublishingSha256(host, record.sourceStatus).Some?
    && ComputePublishingSha256(host, record.sourceStatus) == ComputePublishingSha256(host, status)
  }

  predicate OperationBound(e: SignedEnvelope, intent: Value, attempt: Value) {
    var body := e.body;
    && Get(body, "attempt_id") == Get(attempt, "attempt_id")
    && Get(body, "intent_id") == Get(intent, "intent_id")
    && Get(body, "intent_id") == Get(attempt, "intent_id")
    && Get(body, "intent_version") == Get(intent, "version")
    && Get(body, "intent_version") == Get(attempt, "intent_version")
    && Get(body, "idempotency_key") == Get(attempt, "idempotency_key")
    && Get(body, "workflow_version") == Get(attempt, "workflow_version")
    && Get(body, "mode") == Get(intent, "mode")
    && Get(Get(body, "candidate"), "candidate_id") == Get(intent, "candidate_id")
    && Get(Get(body, "candidate"), "candidate_checksum") == Get(intent, "candidate_checksum")
    && Get(attempt, "request_fingerprint") == Str(e.bodySha256)
  }

  /** validateExactPublicationApproval. */
  predicate ExactApproval(host: Host, intent: Value, candidate: Value, status: Value, target: Value, approval: Value) {
    && IntentOk(host, intent)
    && HandoffIssue(host, candidate, status).None?
    && TargetOk(host, target) && ApprovalOk(host, approval)
    && Get(intent, "mode") == Str("real")
    && Get(approval, "intent_id") == Get(intent, "intent_id")
    && Get(approval, "intent_version") == Get(intent, "version")
    && Get(approval, "candidate_id") == Get(intent, "candidate_id")
    && Get(approval, "candidate_id") == Get(candidate, "candidate_id")
    && Get(approval, "candidate_checksum") == Get(intent, "candidate_checksum")
    && Get(approval, "candidate_checksum") == Get(candidate, "candidate_checksum")
    && Get(approval, "target_id") == Get(intent, "target_id")
    && Get(approval, "target_id") == Get(target, "target_id")
    && Get(approval, "scheduled_local") == Get(intent, "scheduled_local")
    && Get(approval, "time_zone") == Get(intent, "time_zone")
    && Get(approval, "scheduled_utc") == Get(intent, "scheduled_utc")
    && Get(intent, "approved_decision_id") == Get(approval, "decision_id")
    && Get(target, "business_id") == Get(intent, "business_id")
    && Get(candidate, "business_id") == Get(intent, "business_id")
    && Get(target, "channel") == Get(candidate, "target_channel")
    && Get(target, "connection_state") == Str("connected")
    && CapabilityFor(candidate, target)
  }

  const DISPATCH_CONTRACT := "publishing-dispatch-envelope-v1"

  /** validatePublicationDispatchContext lets the dispatch through. */
  ghost predicate LetThrough(
    host: Host, e: SignedEnvelope, intent: Value, attempt: Value, record: Record, context: Context) {
    && EnvelopeValid(host, e, DISPATCH_CONTRACT, context)
    && DispatchBodyOk(host, e.body)
    && IntentOk(host, intent)
    && AttemptOk(host, attempt)
    && AuthoritativeOk(host, record, Get(e.body, "candidate"), Get(e.body, "candidate_status"))
    && OperationBound(e, intent, attempt)
    && (Get(e.body, "mode") == Str("real") ==>
          ExactApproval(host, intent, Get(e.body, "candidate"), Get(e.body, "candidate_status"),
                        Get(e.body, "target"), Get(e.body, "approval")))
  }

  /** One attempt binds one body: whatever two dispatches are let through for an attempt, by any
      receivers and at any times, carry the same body up to key order, or exhibit a collision. */
  lemma {:induction false} OneAttemptOneBody(
    host: Host, attempt: Value,
    e: SignedEnvelope, intent: Value, record: Record, context: Context,
    e': SignedEnvelope, intent': Value, record': Record, context': Context)
    requires WellFormed(e.body) && WellFormed(e'.body)
    requires LetThrough(host, e, intent, attempt, record, context)
    requires LetThrough(host, e', intent', attempt, record', context')
    ensures Equiv(e.body, e'.body) || FingerprintCollision(host, e.body, e'.body)
  {
    hide DispatchBodyOk, IntentOk, AttemptOk, AuthoritativeOk, ExactApproval, Get;
    FingerprintBinds(host, e.body, e'.body);
  }

  /** At every point of an intake run, a dispatch that is let through carries the candidate of the
      created event first applied, up to key order. */
  lemma {:induction false} DispatchedCandidateIsFirstCreated(
    host: Host, ds: seq<Delivery>, e: SignedEnvelope, intent: Value, attempt: Value, context: Context) returns (k: nat)
    requires HexDigests(host) && WellFormed(e.body)
    requires forall i :: 0 <= i < |ds| ==> WellFormed(ds[i].event)
    requires Run(host, None, ds).Some? && LetThrough(host, e, intent, attempt, Run(host, None, ds).value, context)
    ensures FirstCreated(host, ds, k)
    ensures var candidate, payload := Get(e.body, "candidate"), Get(ds[k].event, "payload");
            Equiv(payload, candidate) || FingerprintCollision(host, payload, candidate)
  {
    hide DispatchBodyOk, IntentOk, AttemptOk, ExactApproval, EnvelopeValid, OperationBound, RecordIssue, HandoffIssue,
         Get, CreatesCandidate;
    k := ReachableRecord(host, ds, |ds|);
    GetWellFormed(e.body, "candidate");
    GetWellFormed(ds[k].event, "payload");
    FingerprintBinds(host, Get(ds[k].event, "payload"), Get(e.body, "candidate"));
  }

  /** Revocation is final: once a run has applied a change, no later point of it lets any dispatch
      through. */
  lemma {:induction false} NoDispatchAfterChange(
    host: Host, ds: seq<Delivery>, n: nat, e: SignedEnvelope, intent: Value, attempt: Value, context: Context)
    requires HexDigests(host) && n <= |ds|
    requires Run(host, None, ds[..n]).Some? && Run(host, None, ds[..n]).value.sourceState != "active"
    ensures Run(host, None, ds).Some?
    ensures !LetThrough(host, e, intent, attempt, Run(host, None, ds).value, context)
  {
    hide DispatchBodyOk, IntentOk, AttemptOk, ExactApproval, EnvelopeValid, OperationBound, RecordIssue, HandoffIssue,
         Get, CreatesCandidate, Step;
    var k0 := ReachableRecord(host, ds[..n], n);
    assert FirstCreated(host, ds, k0);
    RunSplits(host, ds, k0);
    ReachableFrom(host, Created(host, ds[k0]), ds[k0 + 1..], 0);
    var k := ReachableRecord(host, ds, n);
    assert ds[..n][..n] == ds[..n];
  }

  /** No real publication without its exact approval: what is let through for real binds the
      attempt, the intent's version, the stored candidate, the connected target and the schedule to
      one approval of that intent, under a fingerprint of that approval. */
  lemma {:induction false} RealDispatchIsApproved(
    host: Host, e: SignedEnvelope, intent: Value, attempt: Value, record: Record, context: Context)
    requires LetThrough(host, e, intent, attempt, record, context)
    requires Get(e.body, "mode") == Str("real")
    ensures var approval, target := Get(e.body, "approval"), Get(e.body, "target");
            && approval.Obj? && ApprovalFingerprintValid(host, approval)
            && Get(approval, "decision_id") == Get(intent, "approved_decision_id")
            && Get(approval, "intent_id") == Get(intent, "intent_id") == Get(attempt, "intent_id")
            && Get(approval, "intent_version") == Get(intent, "version") == Get(attempt, "intent_version")
            && Get(approval, "candidate_id") == Str(record.candidateId)
            && Get(approval, "candidate_checksum") == Str(record.candidateChecksum)
            && Get(approval, "target_id") == Get(target, "target_id") == Get(intent, "target_id")
            && Get(approval, "scheduled_local") == Get(intent, "scheduled_local")
            && Get(approval, "time_zone") == Get(intent, "time_zone")
            && Get(approval, "scheduled_utc") == Get(intent, "scheduled_utc") == Get(e.body, "scheduled_utc")
            && Get(target, "connection_state") == Str("connected")
            && Get(target, "business_id") == Str(record.businessId)
            && record.sourceState == "active"
  {
    hide Get, IntentOk, AttemptOk, HandoffIssue, RecordIssue, TargetOk;
  }

  /** What a provider can be asked to publish, and where. */
  predicate Publishable(candidate: Value) {
    && TextOf(Get(candidate, "target_channel")) in {"facebook", "instagram"}
    && TextOf(Get(candidate, "content_format")) in {"static_image_post", "text_post"}
  }

  lemma {:induction false} TargetTakesPublishable(host: Host, candidate: Value, target: Value)
    requires TargetOk(host, target) && CapabilityFor(candidate, target)
    requires Get(target, "channel") == Get(candidate, "target_channel")
    ensures Publishable(candidate)
  {
    hide Get, NoExtraField, IsUuidValue, IsRequiredText, CapabilitiesOk, IsIsoDateTime;
  }

  lemma {:induction false} RealDispatchIsPublishable(
    host: Host, e: SignedEnvelope, intent: Value, attempt: Value, record: Record, context: Context)
    requires LetThrough(host, e, intent, attempt, record, context)
    requires Get(e.body, "mode") == Str("real")
    ensures Publishable(Get(e.body, "candidate"))
  {
    hide Get, IntentOk, AttemptOk, HandoffIssue, RecordIssue, TargetOk, ApprovalOk, CapabilityFor, AuthoritativeOk,
         EnvelopeValid, DispatchBodyOk, OperationBound, Publishable;
    TargetTakesPublishable(host, Get(e.body, "candidate"), Get(e.body, "target"));
  }

  /** What is let through for an export or a simulation carries nothing a provider could act on. */
  lemma {:induction false} OtherDispatchHasNoProvider(
    host: Host, e: SignedEnvelope, intent: Value, attempt: Value, record: Record, context: Context)
    requires LetThrough(host, e, intent, attempt, record, context)
    requires Get(e.body, "mode") != Str("real")
    ensures NoProviderFields(e.body) && EmptySchedule(intent) && Get(intent, "approved_decision_id").Null?
  {
    hide Get, AttemptOk, HandoffIssue, RecordIssue, TargetOk;
  }

  lemma {:induction false} WithoutFieldWellFormed(fields: seq<Field>, key: string)
    requires DistinctKeys(fields) && forall i :: 0 <= i < |fields| ==> WellFormed(fields[i].value)
    ensures WellFormed(Obj(WithoutField(fields, key)))
    ensures forall f :: f in WithoutField(fields, key) ==> f in fields
  {
    if fields != [] {
      WithoutFieldWellFormed(fields[1..], key);
      var rest := WithoutField(fields[1..], key);
      assert fields == [fields[0]] + fields[1..];
      forall f | f in rest ensures f.key != fields[0].key {
        assert f in fields[1..];
      }
    }
  }

  /** An approval fingerprint binds the whole approval. */
  lemma {:induction false} ApprovalFingerprintBinds(host: Host, a: Value, b: Value)
    requires WellFormed(a) && WellFormed(b)
    requires ApprovalOk(host, a) && ApprovalOk(host, b)
    requires Get(a, "approval_fingerprint") == Get(b, "approval_fingerprint")
    ensures || Equiv(ApprovalPayload(a), ApprovalPayload(b))
            || FingerprintCollision(host, ApprovalPayload(a), ApprovalPayload(b))
  {
    hide Get;
    WithoutFieldWellFormed(a.fields, "approval_fingerprint");
    WithoutFieldWellFormed(b.fields, "approval_fingerprint");
    FingerprintBinds(host, ApprovalPayload(a), ApprovalPayload(b));
  }

  lemma {:induction false} WithoutFieldReads(fields: seq<Field>, without: string, key: string)
    requires key != without
    ensures Lookup(WithoutField(fields, without), key) == Lookup(fields, key)
  {
    if fields != [] {
      WithoutFieldReads(fields[1..], without, key);
      var rest := WithoutField(fields[1..], without);
      if fields[0].key != without {
        assert ([fields[0]] + rest)[1..] == rest;
      } else {
        assert [] + rest == rest;
      }
    }
  }

  lemma {:induction false} PayloadReads(approval: Value, key: string)
    requires approval.Obj? && |key| != |"approval_fingerprint"|
    ensures Get(ApprovalPayload(approval), key) == Get(approval, key)
  {
    WithoutFieldReads(approval.fields, "approval_fingerprint", key);
  }

  /** What a recorded approval decides. */
  const DECIDED_FIELDS := [
    "decision_id", "intent_id", "intent_version", "candidate_id", "candidate_checksum", "target_id", "scheduled_local",
    "time_zone", "scheduled_utc", "decided_by_user_id", "decided_at"
  ]

  lemma {:induction false} DecidedFieldsArePlain(host: Host, approval: Value)
    requires ApprovalOk(host, approval)
    ensures forall i :: 0 <= i < |DECIDED_FIELDS| ==> IsPrimitive(Get(approval, DECIDED_FIELDS[i]))
  {
    hide Get, NoExtraField, ApprovalFingerprintValid, CairoPair;
  }

  lemma {:induction false} PayloadWellFormed(approval: Value)
    requires approval.Obj? && WellFormed(approval)
    ensures WellFormed(ApprovalPayload(approval))
  {
    WithoutFieldWellFormed(approval.fields, "approval_fingerprint");
  }

  lemma {:induction false} DecidedIsNoFingerprint(i: nat)
    requires i < |DECIDED_FIELDS|
    ensures |DECIDED_FIELDS[i]| != |"approval_fingerprint"|
  {
  }

  lemma {:induction false} DecidedFieldsAgree(host: Host, a: Value, b: Value, i: nat)
    requires WellFormed(a) && WellFormed(b) && ApprovalOk(host, a) && ApprovalOk(host, b)
    requires Equiv(ApprovalPayload(a), ApprovalPayload(b)) && i < |DECIDED_FIELDS|
    ensures Get(a, DECIDED_FIELDS[i]) == Get(b, DECIDED_FIELDS[i])
  {
    hide Get, ApprovalOk, IsPrimitive, DECIDED_FIELDS, WellFormed;
    var key := DECIDED_FIELDS[i];
    DecidedIsNoFingerprint(i);
    DecidedFieldsArePlain(host, a);
    ApprovalIsObject(host, a);
    ApprovalIsObject(host, b);
    PayloadReads(a, key);
    PayloadReads(b, key);
    PayloadWellFormed(a);
    PayloadWellFormed(b);
    EquivReads(ApprovalPayload(a), ApprovalPayload(b), key);
    PlainIsEqual(Get(a, key), Get(b, key));
  }

  lemma {:induction false} ApprovalIsObject(host: Host, a: Value)
    requires ApprovalOk(host, a)
    ensures a.Obj?
  {
  }

  lemma {:induction false} DecidedFieldNames()
    ensures |DECIDED_FIELDS| == 11
    ensures var d := DECIDED_FIELDS;
            && d[0] == "decision_id" && d[1] == "intent_id" && d[2] == "intent_version" && d[3] == "candidate_id"
            && d[4] == "candidate_checksum" && d[5] == "target_id" && d[6] == "scheduled_local" && d[7] == "time_zone"
            && d[8] == "scheduled_utc"
  {
  }

  /** What is published is what the owner approved. Whatever valid approval was recorded: a real dispatch that
      is let through under its fingerprint is of its candidate, with its target, at its time, for its
      version of the intent, or the two approvals collide. */
  lemma {:induction false} PublishedAsApproved(
    host: Host, e: SignedEnvelope, intent: Value, attempt: Value, record: Record, context: Context, recorded: Value)
    requires LetThrough(host, e, intent, attempt, record, context) && Get(e.body, "mode") == Str("real")
    requires WellFormed(e.body) && WellFormed(recorded) && ApprovalOk(host, recorded)
    requires Get(Get(e.body, "approval"), "approval_fingerprint") == Get(recorded, "approval_fingerprint")
    ensures Get(e.body, "approval").Obj? && recorded.Obj?
    ensures || FingerprintCollision(host, ApprovalPayload(Get(e.body, "approval")), ApprovalPayload(recorded))
            || (&& Get(recorded, "candidate_id") == Str(record.candidateId)
                && Get(recorded, "candidate_checksum") == Str(record.candidateChecksum)
                && Get(recorded, "target_id") == Get(Get(e.body, "target"), "target_id")
                && Get(recorded, "scheduled_local") == Get(intent, "scheduled_local")
                && Get(recorded, "time_zone") == Get(intent, "time_zone")
                && Get(recorded, "scheduled_utc") == Get(e.body, "scheduled_utc")
                && Get(recorded, "intent_id") == Get(attempt, "intent_id")
                && Get(recorded, "intent_version") == Get(attempt, "intent_version")
                && Get(recorded, "decision_id") == Get(intent, "approved_decision_id"))
  {
    hide Get, LetThrough, ApprovalOk, Equiv, FingerprintCollision, ApprovalFingerprintValid, DECIDED_FIELDS, WellFormed;
    var approval := Get(e.body, "approval");
    RealDispatchIsApproved(host, e, intent, attempt, record, context);
    GetWellFormed(e.body, "approval");
    RealApprovalOk(host, e, intent, attempt, record, context);
    ApprovalIsObject(host, recorded);
    ApprovalFingerprintBinds(host, approval, recorded);
    DecidedFieldNames();
    if Equiv(ApprovalPayload(approval), ApprovalPayload(recorded)) {
      forall i | 0 <= i < 11 ensures Get(approval, DECIDED_FIELDS[i]) == Get(recorded, DECIDED_FIELDS[i]) {
        DecidedFieldsAgree(host, approval, recorded, i);
      }
    }
  }

  lemma {:induction false} RealApprovalOk(
    host: Host, e: SignedEnvelope, intent: Value, attempt: Value, record: Record, context: Context)
    requires LetThrough(host, e, intent, attempt, record, context) && Get(e.body, "mode") == Str("real")
    ensures ApprovalOk(host, Get(e.body, "approval"))
  {
    hide Get, ApprovalOk, IntentOk, AttemptOk, HandoffIssue, TargetOk, AuthoritativeOk, EnvelopeValid, DispatchBodyOk,
         OperationBound;
  }

  /** An attempt is in one mode for good. Once it was let through as an export or a simulation, whatever else
      is let through for it, anywhere and at any time, carries nothing a provider could act on, or the two
      bodies collide. */
  lemma {:induction false} ExportNeverPublishes(
    host: Host, attempt: Value,
    e: SignedEnvelope, intent: Value, record: Record, context: Context,
    e': SignedEnvelope, intent': Value, record': Record, context': Context)
    requires WellFormed(e.body) && WellFormed(e'.body)
    requires LetThrough(host, e, intent, attempt, record, context) && Get(e.body, "mode") != Str("real")
    requires LetThrough(host, e', intent', attempt, record', context')
    ensures || FingerprintCollision(host, e.body, e'.body)
            || (&& Get(e'.body, "mode") == Get(e.body, "mode")
                && Get(e'.body, "target").Null? && Get(e'.body, "approval").Null? && Get(e'.body, "scheduled_utc").Null?
                && EmptySchedule(intent') && Get(intent', "approved_decision_id").Null?)
  {
    hide Get, LetThrough, Equiv, FingerprintCollision, EmptySchedule, WellFormed;
    OneAttemptOneBody(host, attempt, e, intent, record, context, e', intent', record', context');
    if Equiv(e.body, e'.body) {
      EquivReads(e.body, e'.body, "mode");
      ModeIsText(host, e, intent, attempt, record, context);
      PlainIsEqual(Get(e.body, "mode"), Get(e'.body, "mode"));
      OtherDispatchHasNoProvider(host, e', intent', attempt, record', context');
    }
  }

  lemma {:induction false} ModeIsText(
    host: Host, e: SignedEnvelope, intent: Value, attempt: Value, record: Record, context: Context)
    requires LetThrough(host, e, intent, attempt, record, context)
    ensures IsPrimitive(Get(e.body, "mode"))
  {
    hide Get, IntentOk, AttemptOk, HandoffIssue, AuthoritativeOk, EnvelopeValid, OperationBound, ExactApproval,
         NoExtraField, RealBodyOk, NoProviderFields, DispatchAssetsOk;
  }

  // ----- One body, one operation -----

  lemma {:induction false} IntentTies(
    host: Host, e: SignedEnvelope, intent: Value, attempt: Value, record: Record, context: Context)
    requires LetThrough(host, e, intent, attempt, record, context)
    ensures Get(intent, "intent_id") == Get(e.body, "intent_id")
            && Get(intent, "version") == Get(e.body, "intent_version")
    ensures Get(intent, "mode") == Get(e.body, "mode")
    ensures Get(intent, "candidate_id") == Str(record.candidateId)
    ensures Get(intent, "candidate_checksum") == Str(record.candidateChecksum)
  {
    hide Get, IntentOk, AttemptOk, HandoffIssue, RecordIssue, ExactApproval, DispatchBodyOk, EnvelopeValid;
  }

  lemma {:induction false} AttemptTies(
    host: Host, e: SignedEnvelope, intent: Value, attempt: Value, record: Record, context: Context)
    requires LetThrough(host, e, intent, attempt, record, context)
    ensures Get(attempt, "attempt_id") == Get(e.body, "attempt_id")
            && Get(attempt, "intent_id") == Get(e.body, "intent_id")
    ensures Get(attempt, "intent_version") == Get(e.body, "intent_version")
    ensures Get(attempt, "idempotency_key") == Get(e.body, "idempotency_key")
    ensures Get(attempt, "workflow_version") == Get(e.body, "workflow_version")
    ensures Get(attempt, "request_fingerprint") == Str(e.bodySha256)
  {
    hide Get, IntentOk, AttemptOk, HandoffIssue, RecordIssue, ExactApproval, DispatchBodyOk, EnvelopeValid,
         AuthoritativeOk;
  }

  lemma {:induction false} BodyTiesArePrimitive(
    host: Host, e: SignedEnvelope, intent: Value, attempt: Value, record: Record, context: Context)
    requires LetThrough(host, e, intent, attempt, record, context)
    ensures IsPrimitive(Get(e.body, "intent_id")) && IsPrimitive(Get(e.body, "intent_version"))
    ensures IsPrimitive(Get(e.body, "mode")) && IsPrimitive(Get(e.body, "attempt_id"))
    ensures IsPrimitive(Get(e.body, "idempotency_key")) && IsPrimitive(Get(e.body, "workflow_version"))
  {
    hide Get, IntentOk, AttemptOk, HandoffIssue, AuthoritativeOk, EnvelopeValid, OperationBound, ExactApproval,
         NoExtraField, RealBodyOk, NoProviderFields, DispatchAssetsOk, IsUuid, IsNonEmptyText;
  }

  /** One body is one operation, in every mode. Whatever intents, attempts and stored records two dispatches of
      one body are let through for, anywhere and at any time: the intents agree on identity, version, mode
      and candidate, the attempts on identity, intent, version, key, workflow and fingerprint, and both
      intents name the candidate that is stored; or the bodies collide. */
  lemma {:induction false} OneBodyOneOperation(
    host: Host, e: SignedEnvelope, intent: Value, attempt: Value, record: Record, context: Context,
    e': SignedEnvelope, intent': Value, attempt': Value, record': Record, context': Context)
    requires WellFormed(e.body) && WellFormed(e'.body) && e.bodySha256 == e'.bodySha256
    requires LetThrough(host, e, intent, attempt, record, context)
    requires LetThrough(host, e', intent', attempt', record', context')
    ensures Get(intent, "candidate_id") == Str(record.candidateId)
    ensures Get(intent, "candidate_checksum") == Str(record.candidateChecksum)
    ensures || FingerprintCollision(host, e.body, e'.body)
            || (&& Get(intent, "intent_id") == Get(intent', "intent_id")
                && Get(intent, "version") == Get(intent', "version")
                && Get(intent, "mode") == Get(intent', "mode")
                && record.candidateId == record'.candidateId
                && record.candidateChecksum == record'.candidateChecksum
                && Get(attempt, "attempt_id") == Get(attempt', "attempt_id")
                && Get(attempt, "intent_id") == Get(attempt', "intent_id") == Get(intent, "intent_id")
                && Get(attempt, "intent_version") == Get(attempt', "intent_version") == Get(intent, "version")
                && Get(attempt, "idempotency_key") == Get(attempt', "idempotency_key")
                && Get(attempt, "workflow_version") == Get(attempt', "workflow_version")
                && Get(attempt, "request_fingerprint") == Get(attempt', "request_fingerprint"))
  {
    hide Get, LetThrough, Equiv, FingerprintCollision, WellFormed, IsPrimitive;
    IntentTies(host, e, intent, attempt, record, context);
    IntentTies(host, e', intent', attempt', record', context');
    AttemptTies(host, e, intent, attempt, record, context);
    AttemptTies(host, e', intent', attempt', record', context');
    SameDigestSameBody(host, e, intent, attempt, record, context, e', intent', attempt', record', context');
    if Equiv(e.body, e'.body) {
      BodyTiesArePrimitive(host, e, intent, attempt, record, context);
      SamePrimitive(e.body, e'.body, "intent_id");
      SamePrimitive(e.body, e'.body, "intent_version");
      SamePrimitive(e.body, e'.body, "mode");
      SamePrimitive(e.body, e'.body, "attempt_id");
      SamePrimitive(e.body, e'.body, "idempotency_key");
      SamePrimitive(e.body, e'.body, "workflow_version");
      SameCandidateNamed(host, e, intent, attempt, record, context, e', intent', attempt', record', context');
    }
  }

  lemma {:induction false} SameDigestSameBody(
    host: Host, e: SignedEnvelope, intent: Value, attempt: Value, record: Record, context: Context,
    e': SignedEnvelope, intent': Value, attempt': Value, record': Record, context': Context)
    requires WellFormed(e.body) && WellFormed(e'.body) && e.bodySha256 == e'.bodySha256
    requires LetThrough(host, e, intent, attempt, record, context)
    requires LetThrough(host, e', intent', attempt', record', context')
    ensures Equiv(e.body, e'.body) || FingerprintCollision(host, e.body, e'.body)
  {
    hide DispatchBodyOk, IntentOk, AttemptOk, AuthoritativeOk, ExactApproval, OperationBound, Get;
    FingerprintBinds(host, e.body, e'.body);
  }

  lemma {:induction false} StoredCandidateNamed(
    host: Host, e: SignedEnvelope, intent: Value, attempt: Value, record: Record, context: Context)
    requires LetThrough(host, e, intent, attempt, record, context)
    ensures Get(Get(e.body, "candidate"), "candidate_id") == Str(record.candidateId)
    ensures Get(Get(e.body, "candidate"), "candidate_checksum") == Str(record.candidateChecksum)
  {
    hide Get, IntentOk, AttemptOk, HandoffIssue, RecordIssue, ExactApproval, DispatchBodyOk, EnvelopeValid,
         OperationBound;
  }

  lemma {:induction false} SameCandidateNamed(
    host: Host, e: SignedEnvelope, intent: Value, attempt: Value, record: Record, context: Context,
    e': SignedEnvelope, intent': Value, attempt': Value, record': Record, context': Context)
    requires WellFormed(e.body) && WellFormed(e'.body) && Equiv(e.body, e'.body)
    requires LetThrough(host, e, intent, attempt, record, context)
    requires LetThrough(host, e', intent', attempt', record', context')
    ensures record.candidateId == record'.candidateId && record.candidateChecksum == record'.candidateChecksum
  {
    hide Get, LetThrough, Equiv, WellFormed;
    StoredCandidateNamed(host, e, intent, attempt, record, context);
    StoredCandidateNamed(host, e', intent', attempt', record', context');
    EquivReads(e.body, e'.body, "candidate");
    GetWellFormed(e.body, "candidate");
    GetWellFormed(e'.body, "candidate");
    SamePrimitive(Get(e.body, "candidate"), Get(e'.body, "candidate"), "candidate_id");
    SamePrimitive(Get(e.body, "candidate"), Get(e'.body, "candidate"), "candidate_checksum");
  }

  /** The bytes retrieved for a dispatch that is let through are the stored candidate's assets. */
  lemma {:induction false} DispatchedAssetsCorrespond(
    host: Host, e: SignedEnvelope, intent: Value, attempt: Value, record: Record, context: Context,
    retrieved: seq<Retrieved>)
    requires LetThrough(host, e, intent, attempt, record, context)
    requires RetrievedAssetsOk(host, AssetsOf(e.body), retrieved)
    ensures var candidateAssets := AssetsOf(Get(e.body, "candidate"));
            && DistinctIds(CandidateKeys(candidateAssets))
            && multiset(RetrievedKeys(host, retrieved)) == multiset(CandidateKeys(candidateAssets))
  {
    hide Get, IntentOk, AttemptOk, HandoffIssue, RecordIssue, TargetOk, BodyFieldsOk, AuthoritativeOk, ExactApproval;
    var candidate := Get(e.body, "candidate");
    AssetsCorrespond(host, AssetsOf(candidate), IsTextPost(candidate), AssetsOf(e.body), retrieved);
  }

  /** publicationOperationForMode, which the sender uses. */
  function PublicationOperationForMode(mode: string, contentFormat: string): Option<string> {
    match mode
    case "real" => Some(if contentFormat == "text_post" then "meta.publish_text" else "meta.publish_static_image")
    case "manual_export" => Some("manual_export.build")
    case "simulation" => Some("simulation.run")
    case _ => None
  }

  /** The gate lets through only the operation the sender derives from the intent's mode and the
      candidate's format. */
  lemma {:induction false} OperationFollowsMode(
    host: Host, e: SignedEnvelope, intent: Value, attempt: Value, record: Record, context: Context)
    requires LetThrough(host, e, intent, attempt, record, context)
    ensures var operation := PublicationOperationForMode(
              TextOf(Get(intent, "mode")), TextOf(Get(Get(e.body, "candidate"), "content_format")));
            operation.Some? && Get(e.body, "operation") == Str(operation.value)
  {
    hide Get, IntentOk, AttemptOk, HandoffIssue, RecordIssue, TargetOk, ApprovalOk, AuthoritativeOk, ExactApproval,
         DispatchAssetsOk, EnvelopeValid;
  }

  // ----- Editing an approved intent -----

  const APPROVED_FIELDS := [
    "candidate_id", "candidate_checksum", "mode", "target_id", "scheduled_local", "time_zone", "scheduled_utc"
  ]

  /** requiresPublicationApprovalInvalidation. */
  predicate RequiresApprovalInvalidation(current: Value, next: Value) {
    exists i :: 0 <= i < |APPROVED_FIELDS| && Get(current, APPROVED_FIELDS[i]) != Get(next, APPROVED_FIELDS[i])
  }

  lemma {:induction false} ApprovedFieldsUnchanged(current: Value, next: Value)
    ensures !RequiresApprovalInvalidation(current, next) <==>
            && Get(current, "candidate_id") == Get(next, "candidate_id")
            && Get(current, "candidate_checksum") == Get(next, "candidate_checksum")
            && Get(current, "mode") == Get(next, "mode")
            && Get(current, "target_id") == Get(next, "target_id")
            && Get(current, "scheduled_local") == Get(next, "scheduled_local")
            && Get(current, "time_zone") == Get(next, "time_zone")
            && Get(current, "scheduled_utc") == Get(next, "scheduled_utc")
  {
    hide Get;
    assert APPROVED_FIELDS[0] == "candidate_id" && APPROVED_FIELDS[1] == "candidate_checksum"
      && APPROVED_FIELDS[2] == "mode";
    assert APPROVED_FIELDS[3] == "target_id" && APPROVED_FIELDS[4] == "scheduled_local";
    assert APPROVED_FIELDS[5] == "time_zone" && APPROVED_FIELDS[6] == "scheduled_utc";
  }

  /** The invalidation rule is exact: after an edit that keeps the identity, version, business and
      decision, the old approval still approves the intent if and only if the rule asks for no
      invalidation. */
  lemma {:induction false} ApprovalSurvivesIffNotInvalidated(
    host: Host, current: Value, next: Value, candidate: Value, status: Value, target: Value, approval: Value)
    requires ExactApproval(host, current, candidate, status, target, approval) && IntentOk(host, next)
    requires Get(next, "intent_id") == Get(current, "intent_id") && Get(next, "version") == Get(current, "version")
    requires Get(next, "business_id") == Get(current, "business_id")
    requires Get(next, "approved_decision_id") == Get(current, "approved_decision_id")
    ensures ExactApproval(host, next, candidate, status, target, approval) <==>
            !RequiresApprovalInvalidation(current, next)
  {
    hide Get, IntentOk, HandoffIssue, TargetOk, ApprovalOk, CapabilityFor, RequiresApprovalInvalidation;
    ApprovedFieldsUnchanged(current, next);
  }

  // ----- Replays -----

  datatype ReplayDisposition = New | Replayed | Conflict

  function ClassifyPublishingReplay(existing: Option<string>, incoming: string): ReplayDisposition {
    if existing.None? then New else if existing.value == incoming then Replayed else Conflict
  }

  /** Classifying by fingerprint is classifying by document: a request is a replay of an earlier one
      exactly when the two are equal up to key order, or their canonical texts collide. */
  lemma {:induction false} ReplayMeansSameDocument(host: Host, earlier: Value, incoming: Value)
    requires WellFormed(earlier) && WellFormed(incoming) && Serializable(earlier) && Serializable(incoming)
    ensures ComputePublishingSha256(host, earlier).Some? && ComputePublishingSha256(host, incoming).Some?
    ensures var disposition := ClassifyPublishingReplay(
              ComputePublishingSha256(host, earlier), ComputePublishingSha256(host, incoming).value);
            && (disposition == Replayed <==> Equiv(earlier, incoming) || FingerprintCollision(host, earlier, incoming))
            && disposition != New
  {
    CanonicalizeThrows(earlier);
    CanonicalizeThrows(incoming);
    FingerprintBinds(host, earlier, incoming);
  }
}
