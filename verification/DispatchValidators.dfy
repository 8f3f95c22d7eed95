/** The validators around the dispatch gate as they run (publishing-policy.ts, publication-candidate-state.ts): of a
    target, an approval, an intent, an attempt and a stored candidate, and the gate itself. */
module DispatchValidators {
  import opened Text
  import opened PublishingCanonical
  import opened Fingerprints
  import opened PublicationCandidate
  import opened CandidateIntake
  import opened CandidateValidators
  import opened PublishingEnvelope
  import opened DispatchAssets
  import opened DispatchGate
  import opened DispatchBody

  /** rejectExtraFields, with the contract version. */
  method CheckBoundary(v: Value, allowed: set<string>, contract: string) returns (issues: seq<PublishingCode>)
    requires v.Obj?
    ensures First(issues)
            == Unless(NoExtraField(v, allowed) && Get(v, "contract_version") == Str(contract), ContractUnsupported)
    ensures forall code :: code in issues ==> code == ContractUnsupported
  {
    hide Get, NoExtraField;
    issues := [];
    var extraField := FindExtraField(v, allowed);
    if extraField.Some? && extraField.value != "" {
      issues := issues + [ContractUnsupported];
    }
    if Get(v, "contract_version") != Str(contract) {
      issues := issues + [ContractUnsupported];
    }
  }

  /** The fields among these that are no UUIDs. */
  method CheckUuids(v: Value, names: seq<string>, code: PublishingCode) returns (issues: seq<PublishingCode>)
    ensures First(issues) == Unless(forall i :: 0 <= i < |names| ==> IsUuidValue(Get(v, names[i])), code)
    ensures forall c :: c in issues ==> c == code
  {
    hide Get, IsUuid;
    issues := [];
    for i := 0 to |names|
      invariant First(issues) == Unless(forall k :: 0 <= k < i ==> IsUuidValue(Get(v, names[k])), code)
      invariant forall c :: c in issues ==> c == code
    {
      var field := Get(v, names[i]);
      if !field.Str? || !IsUuid(field.s) {
        issues := issues + [code];
      }
    }
  }

  // ----- Targets -----

  const TARGET_UUIDS := ["target_id", "business_id"]

  /** validatePublishingTargetV1. */
  method ValidatePublishingTargetV1(host: Host, v: Value) returns (issues: seq<PublishingCode>)
    ensures First(issues) == TargetIssue(host, v)
  {
    hide Get, NoExtraField, IsUuid, IsTime, IsIsoDateTime, IsNonEmptyString, IsRequiredText, CapabilitiesOk;
    if !v.Obj? {
      return [TargetNotConnected];
    }
    issues := CheckBoundary(v, TARGET_FIELDS, "publishing-target-v1");
    var found := CheckUuids(v, TARGET_UUIDS, TargetNotConnected);
    issues := issues + found;
    assert (forall i :: 0 <= i < 2 ==> IsUuidValue(Get(v, TARGET_UUIDS[i])))
      <==> IsUuidValue(Get(v, "target_id")) && IsUuidValue(Get(v, "business_id")) by {
      assert TARGET_UUIDS[0] == "target_id" && TARGET_UUIDS[1] == "business_id";
    }
    found := CheckTargetDetails(host, v);
    issues := issues + found;
  }

  method CheckTargetDetails(host: Host, v: Value) returns (issues: seq<PublishingCode>)
    requires v.Obj?
    ensures First(issues) ==
            OrElse(Unless(IsIntegerFrom(Get(v, "version"), 1), StateConflict),
            OrElse(Unless(IsRequiredText(Get(v, "external_account_id")) && IsRequiredText(Get(v, "display_name"))
                          && IsRequiredText(Get(v, "credential_ref")), TargetNotConnected),
            OrElse(Unless(Get(v, "provider") == Str("meta"), FormatUnsupported),
            OrElse(Unless(TextOf(Get(v, "channel")) in {"facebook", "instagram"}, FormatUnsupported),
            OrElse(Unless(TextOf(Get(v, "connection_state")) in {"connected", "expired", "revoked", "error"},
                          TargetNotConnected),
            OrElse(Unless(CapabilitiesOk(Get(v, "capabilities")), FormatUnsupported),
                   Unless(Get(v, "last_verified_at").Null? || IsIsoDateTime(host, Get(v, "last_verified_at")),
                          TargetNotConnected)))))))
  {
    hide Get, IsTime, IsIsoDateTime, IsNonEmptyString, IsRequiredText, CapabilitiesOk;
    issues := [];
    var version := Get(v, "version");
    if !version.Num? || version.n < 1 {
      issues := issues + [StateConflict];
    }
    var account, name, credential := Get(v, "external_account_id"), Get(v, "display_name"), Get(v, "credential_ref");
    NonEmptyStringIsText(account);
    NonEmptyStringIsText(name);
    NonEmptyStringIsText(credential);
    if !IsNonEmptyString(account) {
      issues := issues + [TargetNotConnected];
    }
    if !IsNonEmptyString(name) {
      issues := issues + [TargetNotConnected];
    }
    if !IsNonEmptyString(credential) {
      issues := issues + [TargetNotConnected];
    }
    var found := CheckTargetState(host, v);
    issues := issues + found;
  }

  method CheckTargetState(host: Host, v: Value) returns (issues: seq<PublishingCode>)
    requires v.Obj?
    ensures First(issues) ==
            OrElse(Unless(Get(v, "provider") == Str("meta"), FormatUnsupported),
            OrElse(Unless(TextOf(Get(v, "channel")) in {"facebook", "instagram"}, FormatUnsupported),
            OrElse(Unless(TextOf(Get(v, "connection_state")) in {"connected", "expired", "revoked", "error"},
                          TargetNotConnected),
            OrElse(Unless(CapabilitiesOk(Get(v, "capabilities")), FormatUnsupported),
                   Unless(Get(v, "last_verified_at").Null? || IsIsoDateTime(host, Get(v, "last_verified_at")),
                          TargetNotConnected)))))
  {
    hide Get, IsTime, IsIsoDateTime, CapabilitiesOk;
    issues := [];
    if Get(v, "provider") != Str("meta") {
      issues := issues + [FormatUnsupported];
    }
    if Get(v, "channel") != Str("facebook") && Get(v, "channel") != Str("instagram") {
      issues := issues + [FormatUnsupported];
    }
    if Get(v, "connection_state") !in {Str("connected"), Str("expired"), Str("revoked"), Str("error")} {
      issues := issues + [TargetNotConnected];
    }
    var unique := UniqueCapabilities(Get(v, "capabilities"));
    if !unique {
      issues := issues + [FormatUnsupported];
    }
    var verified := Get(v, "last_verified_at");
    TimeIsDateTime(host, verified);
    if verified != Null && !IsTime(host, verified) {
      issues := issues + [TargetNotConnected];
    }
  }

  /** Supported values, none twice; the source compares the size of a set with the length. */
  method UniqueCapabilities(v: Value) returns (ok: bool)
    ensures ok <==> CapabilitiesOk(v)
  {
    if !v.Arr? || |v.items| == 0 {
      return false;
    }
    var seen: set<Value> := {};
    for i := 0 to |v.items|
      invariant forall x :: x in seen <==> x in v.items[..i]
      invariant forall k :: 0 <= k < i ==> v.items[k] in {Str("static_image"), Str("text")}
      invariant forall j, k :: 0 <= j < k < i ==> v.items[j] != v.items[k]
    {
      if v.items[i] != Str("static_image") && v.items[i] != Str("text") {
        return false;
      }
      if v.items[i] in seen {
        var k :| 0 <= k < i && v.items[..i][k] == v.items[i];
        assert v.items[k] == v.items[i];
        return false;
      }
      assert v.items[..i + 1] == v.items[..i] + [v.items[i]];
      seen := seen + {v.items[i]};
    }
    return true;
  }

  // ----- Approvals -----

  const APPROVAL_UUIDS := ["decision_id", "intent_id", "candidate_id", "target_id", "decided_by_user_id"]

  lemma {:induction false} ApprovalUuids(v: Value)
    ensures (forall i :: 0 <= i < |APPROVAL_UUIDS| ==> IsUuidValue(Get(v, APPROVAL_UUIDS[i]))) <==>
            && IsUuidValue(Get(v, "decision_id")) && IsUuidValue(Get(v, "intent_id"))
            && IsUuidValue(Get(v, "candidate_id")) && IsUuidValue(Get(v, "target_id"))
            && IsUuidValue(Get(v, "decided_by_user_id"))
  {
    hide Get, IsUuidValue;
    assert APPROVAL_UUIDS[0] == "decision_id" && APPROVAL_UUIDS[1] == "intent_id";
    assert APPROVAL_UUIDS[2] == "candidate_id" && APPROVAL_UUIDS[3] == "target_id";
    assert APPROVAL_UUIDS[4] == "decided_by_user_id";
  }

  /** validatePublicationApprovalSnapshotV1. */
  method ValidatePublicationApprovalSnapshotV1(host: Host, v: Value) returns (issues: seq<PublishingCode>)
    ensures First(issues) == ApprovalSnapshotIssue(host, v)
  {
    hide Get, NoExtraField, IsUuidValue, IsSha256, CairoSchedule, CairoPair, IsIsoDateTime, IsTime,
         ApprovalFingerprintValid;
    if !v.Obj? {
      return [ApprovalRequired];
    }
    issues := CheckBoundary(v, APPROVAL_FIELDS, "publication-approval-v1");
    var found := CheckUuids(v, APPROVAL_UUIDS, ApprovalRequired);
    issues := issues + found;
    ApprovalUuids(v);
    var version, checksum := Get(v, "intent_version"), Get(v, "candidate_checksum");
    if !version.Num? || version.n < 1 {
      issues := issues + [StateConflict];
    }
    if !checksum.Str? || !IsSha256(checksum.s) {
      issues := issues + [CandidateTamperedCode];
    }
    found := CheckApprovedSchedule(host, v);
    issues := issues + found;
    found := CheckApprovalFingerprint(host, v);
    issues := issues + found;
  }

  method CheckApprovedSchedule(host: Host, v: Value) returns (issues: seq<PublishingCode>)
    requires v.Obj?
    ensures First(issues) ==
            if Get(v, "mode") == Str("real") && CairoSchedule(host, v) && IsIsoDateTime(host, Get(v, "decided_at")) then
              Unless(CairoPair(host, v), StateConflict)
            else Some(ApprovalRequired)
  {
    hide Get, IsLocalDateTime, IsIsoDateTime, IsTime;
    TimeIsDateTime(host, Get(v, "scheduled_utc"));
    TimeIsDateTime(host, Get(v, "decided_at"));
    var local, utc := Get(v, "scheduled_local"), Get(v, "scheduled_utc");
    if || Get(v, "mode") != Str("real") || !IsLocalDateTime(local) || Get(v, "time_zone") != Str("Africa/Cairo")
       || !IsTime(host, utc) || !IsTime(host, Get(v, "decided_at")) {
      return [ApprovalRequired];
    }
    if !host.cairoAgrees(TextOf(local), TextOf(utc)) {
      return [StateConflict];
    }
    return [];
  }

  method CheckApprovalFingerprint(host: Host, v: Value) returns (issues: seq<PublishingCode>)
    requires v.Obj?
    ensures First(issues) ==
            OrElse(Unless(IsDigest(Get(v, "approval_fingerprint")), ApprovalRequired),
                   Unless(ApprovalFingerprintValid(host, v), StateConflict))
  {
    hide Get, IsSha256, ApprovalPayload, ComputePublishingSha256;
    var fingerprint := Get(v, "approval_fingerprint");
    if !fingerprint.Str? || !IsSha256(fingerprint.s) {
      return [ApprovalRequired];
    }
    if ComputePublishingSha256(host, ApprovalPayload(v)) != Some(fingerprint.s) {
      return [StateConflict];
    }
    return [];
  }

  // ----- Intents -----

  const INTENT_UUIDS := ["intent_id", "business_id", "candidate_id", "created_by_user_id"]

  lemma {:induction false} IntentUuids(v: Value)
    ensures (forall i :: 0 <= i < |INTENT_UUIDS| ==> IsUuidValue(Get(v, INTENT_UUIDS[i]))) <==>
            && IsUuidValue(Get(v, "intent_id")) && IsUuidValue(Get(v, "business_id"))
            && IsUuidValue(Get(v, "candidate_id")) && IsUuidValue(Get(v, "created_by_user_id"))
  {
    hide Get, IsUuidValue;
    assert INTENT_UUIDS[0] == "intent_id" && INTENT_UUIDS[1] == "business_id";
    assert INTENT_UUIDS[2] == "candidate_id" && INTENT_UUIDS[3] == "created_by_user_id";
  }

  /** The decision that an intent should have and has not, or has and should not have. */
  predicate DecisionMisplaced(v: Value) {
    var decision, state := Get(v, "approved_decision_id"), TextOf(Get(v, "state"));
    if Get(v, "mode") == Str("real") then
      state in {"scheduled", "dispatching", "succeeded", "failed", "action_required"} && !IsUuidValue(decision)
    else decision != Null
  }

  predicate IntentHeadOk(v: Value)
    requires v.Obj?
  {
    && NoExtraField(v, INTENT_FIELDS) && Get(v, "contract_version") == Str("publication-intent-v1")
    && IsUuidValue(Get(v, "intent_id")) && IsUuidValue(Get(v, "business_id"))
    && IsUuidValue(Get(v, "candidate_id")) && IsUuidValue(Get(v, "created_by_user_id"))
    && IsIntegerFrom(Get(v, "version"), 1) && IsDigest(Get(v, "candidate_checksum"))
  }

  /** Boundary, contract, identities, version and checksum. */
  method CheckIntentHead(v: Value) returns (issues: seq<PublishingCode>)
    requires v.Obj?
    ensures issues == [] <==> IntentHeadOk(v)
    ensures CandidateTamperedCode in issues <==> !IsDigest(Get(v, "candidate_checksum"))
    ensures forall code :: code in issues ==>
              code == ContractUnsupported || code == StateConflict || code == CandidateTamperedCode
  {
    hide Get, NoExtraField, IsUuidValue, IsSha256;
    issues := CheckBoundary(v, INTENT_FIELDS, "publication-intent-v1");
    var found := CheckUuids(v, INTENT_UUIDS, StateConflict);
    issues := issues + found;
    IntentUuids(v);
    var version, checksum := Get(v, "version"), Get(v, "candidate_checksum");
    if !version.Num? || version.n < 1 {
      issues := issues + [StateConflict];
    }
    if !checksum.Str? || !IsSha256(checksum.s) {
      issues := issues + [CandidateTamperedCode];
    }
  }

  predicate IntentTimesOk(host: Host, v: Value) {
    && IsIsoDateTime(host, Get(v, "created_at")) && IsIsoDateTime(host, Get(v, "updated_at"))
    && host.dateParse(TextOf(Get(v, "created_at"))).value <= host.dateParse(TextOf(Get(v, "updated_at"))).value
  }

  predicate IntentChoicesOk(v: Value) {
    TextOf(Get(v, "mode")) in {"real", "manual_export", "simulation"} && TextOf(Get(v, "state")) in INTENT_STATES
  }

  lemma {:induction false} IntentParts(host: Host, v: Value)
    requires v.Obj?
    ensures IntentOk(host, v) <==>
            && IntentHeadOk(v) && IntentChoicesOk(v)
            && (if Get(v, "mode") == Str("real") then RealIntentOk(host, v) else OtherIntentOk(v))
            && IntentTimesOk(host, v)
  {
    hide Get, NoExtraField, IsUuidValue, IsDigest, RealIntentOk, OtherIntentOk, IsIsoDateTime;
  }

  /** validatePublicationIntentV1. The approval code is pushed for a misplaced decision, the tampering code for a
      checksum that is no digest, and neither for anything else. */
  method ValidatePublicationIntentV1(host: Host, v: Value) returns (issues: seq<PublishingCode>)
    ensures issues == [] <==> IntentOk(host, v)
    ensures v.Obj? ==> (ApprovalRequired in issues <==> DecisionMisplaced(v))
    ensures v.Obj? ==> (CandidateTamperedCode in issues <==> !IsDigest(Get(v, "candidate_checksum")))
    ensures forall code :: code in issues ==>
              || code == ContractUnsupported || code == StateConflict
              || code == CandidateTamperedCode || code == ApprovalRequired
  {
    hide Get, IsDigest, IntentHeadOk, IntentChoicesOk, IntentTimesOk, RealIntentOk, OtherIntentOk, DecisionMisplaced;
    if !v.Obj? {
      return [StateConflict];
    }
    IntentParts(host, v);
    hide IntentOk;
    issues := CheckIntentHead(v);
    var found := CheckIntentChoices(v);
    issues := issues + found;
    found := CheckIntentSchedule(host, v);
    issues := issues + found;
    found := CheckIntentTimes(host, v);
    issues := issues + found;
  }

  method CheckIntentChoices(v: Value) returns (issues: seq<PublishingCode>)
    requires v.Obj?
    ensures issues == [] <==> IntentChoicesOk(v)
    ensures forall code :: code in issues ==> code == StateConflict
  {
    hide Get;
    issues := [];
    if Get(v, "mode") !in {Str("real"), Str("manual_export"), Str("simulation")} {
      issues := issues + [StateConflict];
    }
    if Get(v, "state") !in {Str("draft"), Str("awaiting_approval"), Str("scheduled"), Str("dispatching"),
                            Str("succeeded"), Str("failed"), Str("action_required"), Str("cancelled")} {
      issues := issues + [StateConflict];
    }
  }

  /** Schedule and decision, by mode. */
  method CheckIntentSchedule(host: Host, v: Value) returns (issues: seq<PublishingCode>)
    requires v.Obj?
    ensures issues == [] <==> if Get(v, "mode") == Str("real") then RealIntentOk(host, v) else OtherIntentOk(v)
    ensures ApprovalRequired in issues <==> DecisionMisplaced(v)
    ensures forall code :: code in issues ==> code == StateConflict || code == ApprovalRequired
  {
    hide Get, IsUuidValue, IsLocalDateTime, IsIsoDateTime, IsTime;
    var target, local, utc, state :=
      Get(v, "target_id"), Get(v, "scheduled_local"), Get(v, "scheduled_utc"), Get(v, "state");
    var zone, decision := Get(v, "time_zone"), Get(v, "approved_decision_id");
    TimeIsDateTime(host, utc);
    var completeRealSchedule :=
      IsUuidValue(target) && IsLocalDateTime(local) && zone == Str("Africa/Cairo") && IsTime(host, utc);
    var emptySchedule := target == Null && local == Null && zone == Null && utc == Null;
    var isReal := Get(v, "mode") == Str("real");
    issues := [];
    if isReal {
      if !completeRealSchedule && !(state == Str("draft") && emptySchedule) {
        issues := issues + [StateConflict];
      }
      if completeRealSchedule && !host.cairoAgrees(TextOf(local), TextOf(utc)) {
        issues := issues + [StateConflict];
      }
    } else if !emptySchedule {
      issues := issues + [StateConflict];
    }
    var approvalRequired :=
      state in {Str("scheduled"), Str("dispatching"), Str("succeeded"), Str("failed"), Str("action_required")};
    if isReal && approvalRequired && !IsUuidValue(decision) {
      issues := issues + [ApprovalRequired];
    }
    if !isReal && decision != Null {
      issues := issues + [ApprovalRequired];
    }
    if !isReal
       && (state == Str("awaiting_approval") || state == Str("scheduled") || state == Str("action_required")) {
      issues := issues + [StateConflict];
    }
  }

  method CheckIntentTimes(host: Host, v: Value) returns (issues: seq<PublishingCode>)
    requires v.Obj?
    ensures issues == [] <==> IntentTimesOk(host, v)
    ensures forall code :: code in issues ==> code == StateConflict
  {
    hide Get, IsNonEmptyString, IsRequiredText;
    var created, updated := Get(v, "created_at"), Get(v, "updated_at");
    TimeIsDateTime(host, created);
    TimeIsDateTime(host, updated);
    if !IsTime(host, created) || !IsTime(host, updated) {
      return [StateConflict];
    }
    assert created.Str? && updated.Str? by {
      TimeParses(host, created);
      TimeParses(host, updated);
    }
    if host.dateParse(updated.s).value < host.dateParse(created.s).value {
      return [StateConflict];
    }
    return [];
  }

  // ----- Attempts -----

  const ATTEMPT_UUIDS := ["attempt_id", "intent_id"]

  /** validatePublicationAttemptV1. The idempotency code is pushed for a missing key, workflow version or request
      fingerprint, and for nothing else. */
  method ValidatePublicationAttemptV1(host: Host, v: Value) returns (issues: seq<PublishingCode>)
    ensures issues == [] <==> AttemptOk(host, v)
    ensures v.Obj? ==>
              (IdempotencyConflict in issues <==>
               || !IsRequiredText(Get(v, "idempotency_key")) || !IsRequiredText(Get(v, "workflow_version"))
               || !IsDigest(Get(v, "request_fingerprint")))
    ensures forall code :: code in issues ==>
              code == ContractUnsupported || code == StateConflict || code == IdempotencyConflict
  {
    hide Get, NoExtraField, IsUuidValue, IsSha256, IsRequiredText, IsNonEmptyString, AttemptTimesOk;
    if !v.Obj? {
      return [StateConflict];
    }
    issues := CheckBoundary(v, ATTEMPT_FIELDS, "publication-attempt-v1");
    var found := CheckUuids(v, ATTEMPT_UUIDS, StateConflict);
    issues := issues + found;
    assert (forall i :: 0 <= i < 2 ==> IsUuidValue(Get(v, ATTEMPT_UUIDS[i])))
      <==> IsUuidValue(Get(v, "attempt_id")) && IsUuidValue(Get(v, "intent_id")) by {
      assert ATTEMPT_UUIDS[0] == "attempt_id" && ATTEMPT_UUIDS[1] == "intent_id";
    }
    var version, number := Get(v, "intent_version"), Get(v, "attempt_number");
    if !version.Num? || version.n < 1 {
      issues := issues + [StateConflict];
    }
    if !number.Num? || number.n < 1 {
      issues := issues + [StateConflict];
    }
    var key, workflow, fingerprint :=
      Get(v, "idempotency_key"), Get(v, "workflow_version"), Get(v, "request_fingerprint");
    NonEmptyStringIsText(key);
    NonEmptyStringIsText(workflow);
    if || !IsNonEmptyString(key) || !IsNonEmptyString(workflow)
       || !fingerprint.Str? || !IsSha256(fingerprint.s) {
      issues := issues + [IdempotencyConflict];
    }
    found := CheckAttemptState(host, v);
    issues := issues + found;
  }

  method CheckAttemptState(host: Host, v: Value) returns (issues: seq<PublishingCode>)
    requires v.Obj?
    ensures issues == [] <==>
            && TextOf(Get(v, "state")) in {"queued", "running", "succeeded", "failed", "unknown", "cancelled"}
            && AttemptTimesOk(host, v)
    ensures forall code :: code in issues ==> code == StateConflict
  {
    hide Get, IsTime, IsIsoDateTime;
    issues := [];
    var state, started, finished := Get(v, "state"), Get(v, "started_at"), Get(v, "finished_at");
    TimeIsDateTime(host, Get(v, "created_at"));
    TimeIsDateTime(host, started);
    TimeIsDateTime(host, finished);
    if state !in {Str("queued"), Str("running"), Str("succeeded"), Str("failed"), Str("unknown"), Str("cancelled")} {
      issues := issues + [StateConflict];
    }
    if || !IsTime(host, Get(v, "created_at")) || (started != Null && !IsTime(host, started))
       || (finished != Null && !IsTime(host, finished)) {
      issues := issues + [StateConflict];
    }
    if || (state == Str("queued") && (started != Null || finished != Null))
       || (state == Str("running") && (!IsTime(host, started) || finished != Null))
       || (state in {Str("succeeded"), Str("failed"), Str("unknown"), Str("cancelled")} && !IsTime(host, finished)) {
      issues := issues + [StateConflict];
    }
  }

  // ----- The exact approval -----

  /** Two documents say the same under these keys. */
  predicate Agree(a: Value, key: string, b: Value, key': string) {
    Get(a, key) == Get(b, key')
  }

  predicate ApprovesIntent(intent: Value, approval: Value) {
    && Get(intent, "mode") == Str("real")
    && Agree(approval, "intent_id", intent, "intent_id")
    && Agree(approval, "intent_version", intent, "version")
    && Agree(approval, "decision_id", intent, "approved_decision_id")
  }

  predicate ApprovesCandidate(intent: Value, candidate: Value, approval: Value) {
    && Agree(approval, "candidate_id", intent, "candidate_id")
    && Agree(approval, "candidate_id", candidate, "candidate_id")
    && Agree(approval, "candidate_checksum", intent, "candidate_checksum")
    && Agree(approval, "candidate_checksum", candidate, "candidate_checksum")
  }

  predicate ApprovesSchedule(intent: Value, target: Value, approval: Value) {
    && Agree(approval, "target_id", intent, "target_id")
    && Agree(approval, "target_id", target, "target_id")
    && Agree(approval, "scheduled_local", intent, "scheduled_local")
    && Agree(approval, "time_zone", intent, "time_zone")
    && Agree(approval, "scheduled_utc", intent, "scheduled_utc")
  }

  /** The approval is for this version of the intent, this candidate, this target and this schedule. */
  predicate ApprovalIsFor(intent: Value, candidate: Value, target: Value, approval: Value) {
    && ApprovesIntent(intent, approval)
    && ApprovesCandidate(intent, candidate, approval)
    && ApprovesSchedule(intent, target, approval)
  }

  predicate SameBusinessAndChannel(intent: Value, candidate: Value, target: Value) {
    && Agree(target, "business_id", intent, "business_id")
    && Agree(candidate, "business_id", intent, "business_id")
    && Agree(target, "channel", candidate, "target_channel")
  }

  method CheckCapability(candidate: Value, target: Value) returns (ok: bool)
    ensures ok <==> CapabilityFor(candidate, target)
  {
    hide Get;
    var format, capabilities := Get(candidate, "content_format"), Get(target, "capabilities");
    var required :=
      if format == Str("static_image_post") then Some("static_image")
      else if format == Str("text_post") then Some("text") else None;
    return required.Some? && capabilities.Arr? && Str(required.value) in capabilities.items;
  }

  lemma {:induction false} ExactForIntent(
    host: Host, intent: Value, candidate: Value, status: Value, target: Value, approval: Value)
    requires ExactApproval(host, intent, candidate, status, target, approval)
    ensures ApprovesIntent(intent, approval)
  {
    hide Get, IntentOk, HandoffIssue, TargetOk, ApprovalOk, CapabilityFor;
  }

  lemma {:induction false} ExactForCandidate(
    host: Host, intent: Value, candidate: Value, status: Value, target: Value, approval: Value)
    requires ExactApproval(host, intent, candidate, status, target, approval)
    ensures ApprovesCandidate(intent, candidate, approval)
  {
    hide Get, IntentOk, HandoffIssue, TargetOk, ApprovalOk, CapabilityFor;
  }

  lemma {:induction false} ExactForSchedule(
    host: Host, intent: Value, candidate: Value, status: Value, target: Value, approval: Value)
    requires ExactApproval(host, intent, candidate, status, target, approval)
    ensures ApprovesSchedule(intent, target, approval)
  {
    hide Get, IntentOk, HandoffIssue, TargetOk, ApprovalOk, CapabilityFor;
  }

  lemma {:induction false} ExactForBusiness(
    host: Host, intent: Value, candidate: Value, status: Value, target: Value, approval: Value)
    requires ExactApproval(host, intent, candidate, status, target, approval)
    ensures SameBusinessAndChannel(intent, candidate, target)
  {
    hide Get, IntentOk, HandoffIssue, TargetOk, ApprovalOk, CapabilityFor;
  }

  lemma {:induction false} AgreementIsExact(
    host: Host, intent: Value, candidate: Value, status: Value, target: Value, approval: Value)
    requires IntentOk(host, intent) && HandoffIssue(host, candidate, status).None?
    requires TargetOk(host, target) && ApprovalOk(host, approval)
    requires ApprovalIsFor(intent, candidate, target, approval) && SameBusinessAndChannel(intent, candidate, target)
    requires Get(target, "connection_state") == Str("connected") && CapabilityFor(candidate, target)
    ensures ExactApproval(host, intent, candidate, status, target, approval)
  {
    hide Get, IntentOk, HandoffIssue, TargetOk, ApprovalOk, CapabilityFor;
  }

  lemma {:induction false} ExactApprovalRest(
    host: Host, intent: Value, candidate: Value, status: Value, target: Value, approval: Value)
    requires ExactApproval(host, intent, candidate, status, target, approval)
    ensures IntentOk(host, intent) && HandoffIssue(host, candidate, status).None?
    ensures TargetOk(host, target) && ApprovalOk(host, approval)
    ensures Get(target, "connection_state") == Str("connected") && CapabilityFor(candidate, target)
  {
    hide Get, IntentOk, HandoffIssue, TargetOk, ApprovalOk, CapabilityFor;
  }

  lemma {:induction false} ExactApprovalParts(
    host: Host, intent: Value, candidate: Value, status: Value, target: Value, approval: Value)
    ensures ExactApproval(host, intent, candidate, status, target, approval) <==>
            && IntentOk(host, intent) && HandoffIssue(host, candidate, status).None?
            && TargetOk(host, target) && ApprovalOk(host, approval)
            && ApprovalIsFor(intent, candidate, target, approval) && SameBusinessAndChannel(intent, candidate, target)
            && Get(target, "connection_state") == Str("connected") && CapabilityFor(candidate, target)
  {
    hide Get, IntentOk, HandoffIssue, TargetOk, ApprovalOk, CapabilityFor, ExactApproval, ApprovesIntent,
         ApprovesCandidate, ApprovesSchedule, SameBusinessAndChannel;
    if ExactApproval(host, intent, candidate, status, target, approval) {
      ExactForIntent(host, intent, candidate, status, target, approval);
      ExactForCandidate(host, intent, candidate, status, target, approval);
      ExactForSchedule(host, intent, candidate, status, target, approval);
      ExactForBusiness(host, intent, candidate, status, target, approval);
      ExactApprovalRest(host, intent, candidate, status, target, approval);
    } else if
        && IntentOk(host, intent) && HandoffIssue(host, candidate, status).None?
        && TargetOk(host, target) && ApprovalOk(host, approval)
        && ApprovalIsFor(intent, candidate, target, approval) && SameBusinessAndChannel(intent, candidate, target)
        && Get(target, "connection_state") == Str("connected") && CapabilityFor(candidate, target) {
      AgreementIsExact(host, intent, candidate, status, target, approval);
    }
  }

  /** validateExactPublicationApproval: the first code. The unauthorized-target code means that all four documents are
      good and agree, and the target is not connected. */
  method ValidateExactPublicationApproval(
    host: Host, intent: Value, candidate: Value, status: Value, target: Value, approval: Value)
    returns (issue: Option<PublishingCode>)
    ensures issue.None? <==> ExactApproval(host, intent, candidate, status, target, approval)
    ensures issue == Some(TargetUnauthorized) <==>
            && IntentOk(host, intent) && HandoffIssue(host, candidate, status).None?
            && TargetOk(host, target) && ApprovalOk(host, approval)
            && ApprovalIsFor(intent, candidate, target, approval) && SameBusinessAndChannel(intent, candidate, target)
            && Get(target, "connection_state") != Str("connected")
    ensures && IntentOk(host, intent) && HandoffIssue(host, candidate, status).None?
            && TargetOk(host, target) && ApprovalOk(host, approval)
            && !(ApprovalIsFor(intent, candidate, target, approval)
                 && SameBusinessAndChannel(intent, candidate, target)) ==>
              issue == Some(StateConflict)
  {
    hide Get, IntentOk, HandoffIssue, TargetOk, ApprovalOk, TargetIssue, ApprovalSnapshotIssue, CapabilityFor,
         DecisionMisplaced, ExactApproval, ApprovalIsFor, SameBusinessAndChannel,
         IsDigest, CandidateIssue, StatusOk;
    ExactApprovalParts(host, intent, candidate, status, target, approval);
    TargetIssueDecides(host, target);
    ApprovalIssueDecides(host, approval);
    TargetNeverRevoked(host, target);
    ApprovalNeverRevoked(host, approval);
    var ofIntent := ValidatePublicationIntentV1(host, intent);
    if ofIntent != [] {
      assert ofIntent[0] in ofIntent;
      return Some(ofIntent[0]);
    }
    var ofHandoff := ValidatePublicationCandidateHandoff(host, candidate, status);
    if ofHandoff != [] {
      return MapContentIssue(First(ofHandoff));
    }
    var ofTarget := ValidatePublishingTargetV1(host, target);
    if ofTarget != [] {
      return First(ofTarget);
    }
    var ofApproval := ValidatePublicationApprovalSnapshotV1(host, approval);
    if ofApproval != [] {
      return First(ofApproval);
    }
    if !ApprovalIsFor(intent, candidate, target, approval) {
      return Some(StateConflict);
    }
    if !SameBusinessAndChannel(intent, candidate, target) {
      return Some(StateConflict);
    }
    if Get(target, "connection_state") != Str("connected") {
      return Some(TargetUnauthorized);
    }
    var capable := CheckCapability(candidate, target);
    return Unless(capable, FormatUnsupported);
  }

  // ----- The stored candidate -----

  datatype Answer = Passed | Refused(code: PublishingCode) | Threw

  function Answered(code: Option<PublishingCode>): Answer {
    if code.None? then Passed else Refused(code.value)
  }

  /** Same digest; None is the TypeError of canonicalizing either. */
  function SameDigest(host: Host, a: Value, b: Value): Option<bool> {
    var digest, digest' := ComputePublishingSha256(host, a), ComputePublishingSha256(host, b);
    if digest.None? || digest'.None? then None else Some(digest.value == digest'.value)
  }

  predicate NamesRecord(record: Record, candidate: Value) {
    && Str(record.candidateId) == Get(candidate, "candidate_id")
    && Str(record.businessId) == Get(candidate, "business_id")
    && Str(record.candidateChecksum) == Get(candidate, "candidate_checksum")
  }

  /** The comparison of a good candidate and status with a good record. */
  method CompareWithRecord(host: Host, record: Record, candidate: Value, status: Value) returns (answer: Answer)
    ensures answer == Passed <==>
            && NamesRecord(record, candidate)
            && SameDigest(host, record.payload, candidate) == Some(true)
            && record.sourceState == "active"
            && Num(record.sourceStateVersion) == Get(status, "state_version")
            && SameDigest(host, record.sourceStatus, status) == Some(true)
    ensures answer == Refused(CandidateRevokedCode) <==>
            && NamesRecord(record, candidate)
            && SameDigest(host, record.payload, candidate) == Some(true)
            && record.sourceState != "active"
    ensures answer == Refused(CandidateTamperedCode) <==>
            !NamesRecord(record, candidate) || SameDigest(host, record.payload, candidate) == Some(false)
    ensures answer.Refused? ==> answer.code in {CandidateTamperedCode, CandidateRevokedCode, StateConflict}
    ensures answer == Threw ==>
              || SameDigest(host, record.payload, candidate).None?
              || SameDigest(host, record.sourceStatus, status).None?
  {
    hide Get, NamesRecord, SameDigest;
    if !NamesRecord(record, candidate) {
      return Refused(CandidateTamperedCode);
    }
    var samePayload := SameDigest(host, record.payload, candidate);
    if samePayload.None? {
      return Threw;
    }
    if !samePayload.value {
      return Refused(CandidateTamperedCode);
    }
    if record.sourceState != "active" {
      return Refused(CandidateRevokedCode);
    }
    if Num(record.sourceStateVersion) != Get(status, "state_version") {
      return Refused(StateConflict);
    }
    var sameStatus := SameDigest(host, record.sourceStatus, status);
    if sameStatus.None? {
      return Threw;
    }
    return if sameStatus.value then Passed else Refused(StateConflict);
  }

  lemma {:induction false} AuthoritativeParts(host: Host, record: Record, candidate: Value, status: Value)
    ensures AuthoritativeOk(host, record, candidate, status) <==>
            && RecordIssue(host, record).None? && HandoffIssue(host, candidate, status).None?
            && NamesRecord(record, candidate)
            && SameDigest(host, record.payload, candidate) == Some(true)
            && record.sourceState == "active"
            && Num(record.sourceStateVersion) == Get(status, "state_version")
            && SameDigest(host, record.sourceStatus, status) == Some(true)
  {
    hide Get, RecordIssue, HandoffIssue, ComputePublishingSha256;
  }

  /** validateAuthoritativePublicationCandidateV1. A candidate that the store no longer has as active is reported as
      revoked once record and documents are good and name the stored payload; a status that says so itself is
      reported before the comparison. */
  method ValidateAuthoritativePublicationCandidateV1(host: Host, record: Record, candidate: Value, status: Value)
    returns (answer: Answer)
    ensures answer == Passed <==> AuthoritativeOk(host, record, candidate, status)
    ensures answer == Refused(CandidateRevokedCode) <==>
            && RecordIssue(host, record).None?
            && (HandoffIssue(host, candidate, status) == Some(CandidateRevoked)
               || (HandoffIssue(host, candidate, status).None? && NamesRecord(record, candidate)
                   && SameDigest(host, record.payload, candidate) == Some(true) && record.sourceState != "active"))
  {
    hide Get, RecordIssue, HandoffIssue, SameDigest, NamesRecord, AuthoritativeOk;
    AuthoritativeParts(host, record, candidate, status);
    RecordNeverRevoked(host, record);
    var issue := ValidatePublicationCandidateRecordV1(host, record);
    if issue.Some? {
      return Refused(issue.value);
    }
    var found := ValidatePublicationCandidateHandoff(host, candidate, status);
    if found != [] {
      return Answered(MapContentIssue(First(found)));
    }
    answer := CompareWithRecord(host, record, candidate, status);
  }

  lemma {:induction false} RecordNeverRevoked(host: Host, r: Record)
    ensures RecordIssue(host, r) != Some(CandidateRevokedCode)
  {
    hide Get, StatusOk, OnlyFields, AltTextOk, AssetsOk, WindowOk;
    if r.payload.Obj? {
      OnlySchemaFailures(r.payload, CANDIDATE_TEXT_FIELDS);
    }
  }

  // ----- The gate -----

  datatype GateAnswer = LetPast | Stopped | FailedToAnswer

  /** validateSignedPublicationDispatchEnvelopeV1; failing to answer is the TypeError of canonicalizing the body. */
  method ValidateSignedPublicationDispatchEnvelopeV1(host: Host, envelope: Value, context: Context)
    returns (answer: GateAnswer)
    ensures answer == LetPast <==>
            && envelope.Obj? && SentAsText(envelope)
            && EnvelopeValid(host, EnvelopeOf(host, envelope), DISPATCH_CONTRACT, context)
            && DispatchBodyOk(host, EnvelopeOf(host, envelope).body)
    ensures answer == FailedToAnswer ==>
              envelope.Obj? && ComputePublishingSha256(host, EnvelopeOf(host, envelope).body).None?
  {
    hide Get, EnvelopeValid, DispatchBodyOk, BodyIssue, SentAsText, SignatureOk, AuthenticationComplete, NoExtraField,
         ComputePublishingSha256, NonceOk, TimestampOk, HandoffIssue, IsUuid;
    var issues := ValidateEnvelopeCommon(host, envelope, DISPATCH_CONTRACT, context);
    if issues.None? {
      return FailedToAnswer;
    }
    if issues.value != [] {
      return Stopped;
    }
    var ofBody := ValidateDispatchBody(host, EnvelopeOf(host, envelope).body);
    return if ofBody == [] then LetPast else Stopped;
  }

  /** validatePublicationDispatchContext, on what arrived: it passes exactly what the theorems of the gate speak of. */
  method ValidatePublicationDispatchContext(
    host: Host, envelope: Value, intent: Value, attempt: Value, record: Record, context: Context)
    returns (answer: GateAnswer)
    ensures answer == LetPast <==>
            && envelope.Obj? && SentAsText(envelope)
            && LetThrough(host, EnvelopeOf(host, envelope), intent, attempt, record, context)
  {
    hide Get, EnvelopeValid, DispatchBodyOk, IntentOk, AttemptOk, AuthoritativeOk, ExactApproval, BodyIssue,
         EnvelopeOf, SentAsText, DecisionMisplaced, CandidateIssue, StatusOk, SignatureOk, AuthenticationComplete,
         ComputePublishingSha256, NonceOk, TimestampOk, OperationBound, NamesAttempt, NamesOperation,
         ApprovalIsFor, SameBusinessAndChannel, TargetOk, ApprovalOk, IsDigest, IsRequiredText;
    var ofEnvelope := ValidateSignedPublicationDispatchEnvelopeV1(host, envelope, context);
    if ofEnvelope == FailedToAnswer {
      return FailedToAnswer;
    }
    var ofIntent := ValidatePublicationIntentV1(host, intent);
    var ofAttempt := ValidatePublicationAttemptV1(host, attempt);
    if ofEnvelope == Stopped || ofIntent != [] || ofAttempt != [] {
      return Stopped;
    }
    var e := EnvelopeOf(host, envelope);
    var body := e.body;
    var candidate, status := Get(body, "candidate"), Get(body, "candidate_status");
    var ofCandidate := ValidateAuthoritativePublicationCandidateV1(host, record, candidate, status);
    if ofCandidate == Threw {
      return FailedToAnswer;
    }
    if ofCandidate != Passed {
      return Stopped;
    }
    OperationParts(e, intent, attempt);
    if || !NamesAttempt(body, intent, attempt) || !NamesOperation(body, intent, attempt)
       || Get(attempt, "request_fingerprint") != Str(e.bodySha256) {
      return Stopped;
    }
    if Get(body, "mode") == Str("real") {
      var issue := ValidateExactPublicationApproval(
        host, intent, candidate, status, Get(body, "target"), Get(body, "approval"));
      return if issue.None? then LetPast else Stopped;
    }
    return LetPast;
  }

  predicate NamesAttempt(body: Value, intent: Value, attempt: Value) {
    && Agree(body, "attempt_id", attempt, "attempt_id")
    && Agree(body, "intent_id", intent, "intent_id") && Agree(body, "intent_id", attempt, "intent_id")
    && Agree(body, "intent_version", intent, "version") && Agree(body, "intent_version", attempt, "intent_version")
  }

  predicate NamesOperation(body: Value, intent: Value, attempt: Value) {
    && Agree(body, "idempotency_key", attempt, "idempotency_key")
    && Agree(body, "workflow_version", attempt, "workflow_version")
    && Agree(body, "mode", intent, "mode")
    && Agree(Get(body, "candidate"), "candidate_id", intent, "candidate_id")
    && Agree(Get(body, "candidate"), "candidate_checksum", intent, "candidate_checksum")
  }

  lemma {:induction false} OperationParts(e: SignedEnvelope, intent: Value, attempt: Value)
    ensures OperationBound(e, intent, attempt) <==>
            && NamesAttempt(e.body, intent, attempt) && NamesOperation(e.body, intent, attempt)
            && Get(attempt, "request_fingerprint") == Str(e.bodySha256)
  {
    hide Get;
  }
}
