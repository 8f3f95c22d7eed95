/** validateDispatchBody (publishing-policy.ts) as it runs: issues are pushed one by one, and three early
    returns throw away what was pushed before. What a caller reads is the first code. */
module DispatchBody {
  import opened Text
  import opened PublishingCanonical
  import opened Fingerprints
  import opened PublicationCandidate
  import opened CandidateIntake
  import opened DispatchAssets
  import opened DispatchGate

  // ----- First codes -----

  /** The first code of validatePublishingTargetV1; None is valid. */
  function TargetIssue(host: Host, v: Value): Option<PublishingCode> {
    if !v.Obj? then Some(TargetNotConnected)
    else if !NoExtraField(v, TARGET_FIELDS) then Some(ContractUnsupported)
    else if Get(v, "contract_version") != Str("publishing-target-v1") then Some(ContractUnsupported)
    else if !IsUuidValue(Get(v, "target_id")) || !IsUuidValue(Get(v, "business_id")) then Some(TargetNotConnected)
    else if !IsIntegerFrom(Get(v, "version"), 1) then Some(StateConflict)
    else if !IsRequiredText(Get(v, "external_account_id")) || !IsRequiredText(Get(v, "display_name"))
            || !IsRequiredText(Get(v, "credential_ref")) then Some(TargetNotConnected)
    else if Get(v, "provider") != Str("meta") then Some(FormatUnsupported)
    else if TextOf(Get(v, "channel")) !in {"facebook", "instagram"} then Some(FormatUnsupported)
    else if TextOf(Get(v, "connection_state")) !in {"connected", "expired", "revoked", "error"} then
      Some(TargetNotConnected)
    else if !CapabilitiesOk(Get(v, "capabilities")) then Some(FormatUnsupported)
    else Unless(Get(v, "last_verified_at").Null? || IsIsoDateTime(host, Get(v, "last_verified_at")), TargetNotConnected)
  }

  lemma {:induction false} TargetIssueDecides(host: Host, v: Value)
    ensures TargetIssue(host, v).None? <==> TargetOk(host, v)
  {
    hide Get;
  }

  /** The first code of validatePublicationApprovalSnapshotV1; None is valid. */
  function ApprovalSnapshotIssue(host: Host, v: Value): Option<PublishingCode> {
    if !v.Obj? then Some(ApprovalRequired)
    else if !NoExtraField(v, APPROVAL_FIELDS) then Some(ContractUnsupported)
    else if Get(v, "contract_version") != Str("publication-approval-v1") then Some(ContractUnsupported)
    else if !IsUuidValue(Get(v, "decision_id")) || !IsUuidValue(Get(v, "intent_id"))
            || !IsUuidValue(Get(v, "candidate_id")) || !IsUuidValue(Get(v, "target_id"))
            || !IsUuidValue(Get(v, "decided_by_user_id")) then Some(ApprovalRequired)
    else if !IsIntegerFrom(Get(v, "intent_version"), 1) then Some(StateConflict)
    else if !IsDigest(Get(v, "candidate_checksum")) then Some(CandidateTamperedCode)
    else if Get(v, "mode") != Str("real") || !CairoSchedule(host, v) || !IsIsoDateTime(host, Get(v, "decided_at")) then
      Some(ApprovalRequired)
    else if !CairoPair(host, v) then Some(StateConflict)
    else if !IsDigest(Get(v, "approval_fingerprint")) then Some(ApprovalRequired)
    else Unless(ApprovalFingerprintValid(host, v), StateConflict)
  }

  lemma {:induction false} ApprovalIssueDecides(host: Host, v: Value)
    ensures ApprovalSnapshotIssue(host, v).None? <==> ApprovalOk(host, v)
  {
    hide Get, ApprovalFingerprintValid;
  }

  function AssetPublishingCode(code: AssetCode): PublishingCode {
    match code
    case AssetUnavailable => AssetUnavailableCode
    case AssetTampered => AssetTamperedCode
  }

  function MapAssetCode(code: Option<AssetCode>): Option<PublishingCode> {
    if code.None? then None else Some(AssetPublishingCode(code.value))
  }

  const BODY_UUIDS := ["attempt_id", "intent_id", "business_id", "correlation_id"]

  predicate BodyUuidsOk(body: Value) {
    && IsUuidValue(Get(body, "attempt_id")) && IsUuidValue(Get(body, "intent_id"))
    && IsUuidValue(Get(body, "business_id")) && IsUuidValue(Get(body, "correlation_id"))
  }

  predicate IdempotencyComplete(body: Value) {
    && IsIntegerFrom(Get(body, "intent_version"), 1)
    && IsRequiredText(Get(body, "idempotency_key")) && IsRequiredText(Get(body, "workflow_version"))
  }

  predicate CallbackOk(host: Host, body: Value) {
    IsRequiredText(Get(body, "callback_url")) && host.safeUrl(Get(body, "callback_url").s)
  }

  /** The checks before the candidate is looked at. */
  function HeadIssue(body: Value): Option<PublishingCode>
    requires body.Obj?
  {
    OrElse(Unless(NoExtraField(body, DISPATCH_BODY_FIELDS), ContractUnsupported),
    OrElse(Unless(Get(body, "contract_version") == Str("publication-dispatch-v1"), ContractUnsupported),
    OrElse(Unless(BodyUuidsOk(body), StateConflict),
           Unless(IdempotencyComplete(body), IdempotencyConflict))))
  }

  /** A real body that carries what a real dispatch needs, so that target and approval are validated. */
  predicate RealComplete(body: Value) {
    && Get(body, "operation") == Str(if IsTextPost(Get(body, "candidate")) then "meta.publish_text"
       else "meta.publish_static_image")
    && !Get(body, "scheduled_utc").Null? && !Get(body, "target").Null? && !Get(body, "approval").Null?
  }

  predicate ApprovalBinds(body: Value) {
    var candidate, target, approval := Get(body, "candidate"), Get(body, "target"), Get(body, "approval");
    && Get(approval, "intent_id") == Get(body, "intent_id")
    && Get(approval, "intent_version") == Get(body, "intent_version")
    && Get(approval, "candidate_id") == Get(candidate, "candidate_id")
    && Get(approval, "candidate_checksum") == Get(candidate, "candidate_checksum")
    && Get(approval, "target_id") == Get(target, "target_id")
    && Get(approval, "scheduled_utc") == Get(body, "scheduled_utc")
  }

  predicate TargetBelongs(body: Value) {
    && Get(Get(body, "target"), "business_id") == Get(body, "business_id")
    && Get(Get(body, "target"), "channel") == Get(Get(body, "candidate"), "target_channel")
  }

  predicate TargetConnected(body: Value) {
    Get(Get(body, "target"), "connection_state") == Str("connected")
  }

  /** The checks of a real body whose target and approval are valid. */
  function RealIssue(body: Value): Option<PublishingCode> {
    OrElse(Unless(ApprovalBinds(body), StateConflict),
    OrElse(Unless(TargetBelongs(body), StateConflict),
    OrElse(Unless(TargetConnected(body), TargetUnauthorized),
           Unless(CapabilityFor(Get(body, "candidate"), Get(body, "target")), FormatUnsupported))))
  }

  function ModeIssue(body: Value): Option<PublishingCode> {
    var mode := TextOf(Get(body, "mode"));
    if mode == "real" then (if RealComplete(body) then RealIssue(body) else Some(ApprovalRequired))
    else if mode == "manual_export" then
      Unless(Get(body, "operation") == Str("manual_export.build") && NoProviderFields(body), StateConflict)
    else if mode == "simulation" then
      Unless(Get(body, "operation") == Str("simulation.run") && NoProviderFields(body), StateConflict)
    else Some(StateConflict)
  }

  ghost function AssetPartIssue(host: Host, body: Value): Option<PublishingCode> {
    var candidate := Get(body, "candidate");
    if !Get(body, "assets").Arr? then Some(AssetUnavailableCode)
    else MapAssetCode(AssetIssue(host, AssetsOf(candidate), IsTextPost(candidate), AssetsOf(body)))
  }

  /** What the early returns leave: a bad candidate hides everything, and a bad target or approval of a
      complete real body hides everything but that. */
  function EarlyIssue(host: Host, body: Value): Option<PublishingCode> {
    OrElse(MapContentIssue(HandoffIssue(host, Get(body, "candidate"), Get(body, "candidate_status"))),
           if TextOf(Get(body, "mode")) == "real" && RealComplete(body) then
             OrElse(TargetIssue(host, Get(body, "target")), ApprovalSnapshotIssue(host, Get(body, "approval")))
           else None)
  }

  /** What was pushed, when nothing returned early. */
  ghost function PushedIssue(host: Host, body: Value): Option<PublishingCode>
    requires body.Obj?
  {
    OrElse(HeadIssue(body),
    OrElse(Unless(Get(Get(body, "candidate"), "business_id") == Get(body, "business_id"), CandidateTamperedCode),
    OrElse(AssetPartIssue(host, body),
    OrElse(Unless(CallbackOk(host, body), WebhookUnauthorized),
           ModeIssue(body)))))
  }

  /** The first code of validateDispatchBody; None is valid. */
  ghost function BodyIssue(host: Host, body: Value): Option<PublishingCode> {
    if !body.Obj? then Some(StateConflict) else OrElse(EarlyIssue(host, body), PushedIssue(host, body))
  }

  // ----- Running it -----

  method CheckHead(body: Value) returns (issues: seq<PublishingCode>)
    requires body.Obj?
    ensures First(issues) == HeadIssue(body)
  {
    hide Get, NoExtraField;
    issues := [];
    if !NoExtraField(body, DISPATCH_BODY_FIELDS) {
      issues := issues + [ContractUnsupported];
    }
    if Get(body, "contract_version") != Str("publication-dispatch-v1") {
      issues := issues + [ContractUnsupported];
    }
    ghost var start := First(issues);
    for i := 0 to |BODY_UUIDS|
      invariant First(issues) == OrElse(start, Unless(forall k :: 0 <= k < i ==> IsUuidValue(Get(body, BODY_UUIDS[k])),
              StateConflict))
    {
      if !IsUuidValue(Get(body, BODY_UUIDS[i])) {
        issues := issues + [StateConflict];
      }
    }
    assert BodyUuidsOk(body) <==> forall k :: 0 <= k < |BODY_UUIDS| ==> IsUuidValue(Get(body, BODY_UUIDS[k])) by {
      assert BODY_UUIDS[0] == "attempt_id" && BODY_UUIDS[1] == "intent_id";
      assert BODY_UUIDS[2] == "business_id" && BODY_UUIDS[3] == "correlation_id";
    }
    if !IdempotencyComplete(body) {
      issues := issues + [IdempotencyConflict];
    }
  }

  method CheckAssetPart(host: Host, body: Value) returns (issues: seq<PublishingCode>)
    ensures First(issues) == AssetPartIssue(host, body)
  {
    hide Get, AssetIssue;
    if !Get(body, "assets").Arr? {
      return [AssetUnavailableCode];
    }
    var candidate := Get(body, "candidate");
    var codes := CheckDispatchAssets(host, AssetsOf(candidate), IsTextPost(candidate), AssetsOf(body));
    issues := [];
    for i := 0 to |codes|
      invariant |issues| == i && forall k :: 0 <= k < i ==> issues[k] == AssetPublishingCode(codes[k])
    {
      issues := issues + [AssetPublishingCode(codes[i])];
    }
  }

  method CheckReal(body: Value) returns (issues: seq<PublishingCode>)
    ensures First(issues) == RealIssue(body)
  {
    hide Get, ApprovalBinds, TargetBelongs, TargetConnected, CapabilityFor;
    issues := [];
    if !ApprovalBinds(body) {
      issues := issues + [StateConflict];
    }
    if !TargetBelongs(body) {
      issues := issues + [StateConflict];
    }
    if !TargetConnected(body) {
      issues := issues + [TargetUnauthorized];
    }
    if !CapabilityFor(Get(body, "candidate"), Get(body, "target")) {
      issues := issues + [FormatUnsupported];
    }
  }

  /** The operation is not the one for the format, or schedule, target or approval is null. */
  method MissesRealField(body: Value) returns (misses: bool)
    ensures misses <==> !RealComplete(body)
  {
    hide Get;
    var operation := if IsTextPost(Get(body, "candidate")) then "meta.publish_text" else "meta.publish_static_image";
    return || Get(body, "operation") != Str(operation) || Get(body, "scheduled_utc") == Null
           || Get(body, "target") == Null || Get(body, "approval") == Null;
  }

  /** Another operation, or something of a real publication. */
  method OtherThan(body: Value, operation: string) returns (misses: bool)
    ensures misses <==> !(Get(body, "operation") == Str(operation) && NoProviderFields(body))
  {
    hide Get;
    return || Get(body, "operation") != Str(operation) || Get(body, "target") != Null
           || Get(body, "approval") != Null || Get(body, "scheduled_utc") != Null;
  }

  /** The whole validator: no issue exactly on a good body, the first code in the order of the early
      returns, and exactly one code when the candidate is at fault. */
  method ValidateDispatchBody(host: Host, body: Value) returns (issues: seq<PublishingCode>)
    ensures issues == [] <==> DispatchBodyOk(host, body)
    ensures First(issues) == BodyIssue(host, body)
    ensures body.Obj? && HandoffIssue(host, Get(body, "candidate"), Get(body, "candidate_status")).Some? ==>
            |issues| == 1
  {
    hide Get, DispatchBodyOk, HandoffIssue, TargetIssue, ApprovalSnapshotIssue, HeadIssue, AssetPartIssue, RealIssue,
         RealComplete, CallbackOk, NoProviderFields;
    BodyIssueDecides(host, body);
    if !body.Obj? {
      return [StateConflict];
    }
    issues := CheckHead(body);
    var candidateIssue := MapContentIssue(HandoffIssue(host, Get(body, "candidate"), Get(body, "candidate_status")));
    if candidateIssue.Some? {
      return [candidateIssue.value];
    }
    if Get(Get(body, "candidate"), "business_id") != Get(body, "business_id") {
      issues := issues + [CandidateTamperedCode];
    }
    var ofAssets := CheckAssetPart(host, body);
    issues := issues + ofAssets;
    if !CallbackOk(host, body) {
      issues := issues + [WebhookUnauthorized];
    }
    var mode := TextOf(Get(body, "mode"));
    if mode == "real" {
      var incomplete := MissesRealField(body);
      if incomplete {
        return issues + [ApprovalRequired];
      }
      var targetIssue := TargetIssue(host, Get(body, "target"));
      if targetIssue.Some? {
        return [targetIssue.value];
      }
      var approvalIssue := ApprovalSnapshotIssue(host, Get(body, "approval"));
      if approvalIssue.Some? {
        return [approvalIssue.value];
      }
      var ofReal := CheckReal(body);
      return issues + ofReal;
    }
    if mode == "manual_export" {
      var misses := OtherThan(body, "manual_export.build");
      if misses {
        issues := issues + [StateConflict];
      }
    } else if mode == "simulation" {
      var misses := OtherThan(body, "simulation.run");
      if misses {
        issues := issues + [StateConflict];
      }
    } else {
      issues := issues + [StateConflict];
    }
  }

  // ----- What the codes say -----

  lemma {:induction false} RealIssueDecides(host: Host, body: Value)
    ensures RealBodyOk(host, body) <==>
            && RealComplete(body)
            && TargetIssue(host, Get(body, "target")).None? && ApprovalSnapshotIssue(host, Get(body, "approval")).None?
            && RealIssue(body).None?
  {
    hide Get, TargetOk, ApprovalOk, TargetIssue, ApprovalSnapshotIssue, CapabilityFor;
    TargetIssueDecides(host, Get(body, "target"));
    ApprovalIssueDecides(host, Get(body, "approval"));
    NullIsNoDocument(host);
  }

  lemma {:induction false} NullIsNoDocument(host: Host)
    ensures !TargetOk(host, Null) && !ApprovalOk(host, Null)
  {
  }

  lemma {:induction false} ModeIssueDecides(host: Host, body: Value)
    ensures ModeOk(host, body) <==>
            && ModeIssue(body).None?
            && (TextOf(Get(body, "mode")) == "real" ==>
                  TargetIssue(host, Get(body, "target")).None?
                    && ApprovalSnapshotIssue(host, Get(body, "approval")).None?)
  {
    hide Get, RealBodyOk, TargetIssue, ApprovalSnapshotIssue, RealIssue, RealComplete, NoProviderFields;
    RealIssueDecides(host, body);
    assert |"real"| == 4 && |"manual_export"| == 13 && |"simulation"| == 10;
  }

  lemma {:induction false} HeadIssueDecides(body: Value)
    requires body.Obj?
    ensures HeadIssue(body).None? <==>
            && NoExtraField(body, DISPATCH_BODY_FIELDS)
            && Get(body, "contract_version") == Str("publication-dispatch-v1")
            && BodyUuidsOk(body) && IdempotencyComplete(body)
  {
    hide Get, NoExtraField, BodyUuidsOk, IdempotencyComplete;
  }

  /** A body has no first code exactly when it is good, although the validator forgets what it pushed
      before an early return. */
  lemma {:induction false} BodyIssueDecides(host: Host, body: Value)
    ensures BodyIssue(host, body).None? <==> DispatchBodyOk(host, body)
  {
    hide Get, NoExtraField, HandoffIssue, TargetIssue, ApprovalSnapshotIssue, ModeIssue, ModeOk, HeadIssue,
         RealComplete, AssetIssue, DispatchAssetsOk, IsRequiredText, IsUuidValue, IsIntegerFrom, IsTextPost;
    if body.Obj? {
      HeadIssueDecides(body);
      ModeIssueDecides(host, body);
      IncompleteHasCode(body);
      var candidate := Get(body, "candidate");
      AssetIssueDecides(host, AssetsOf(candidate), IsTextPost(candidate), AssetsOf(body));
    }
  }

  lemma {:induction false} IncompleteHasCode(body: Value)
    ensures TextOf(Get(body, "mode")) == "real" && !RealComplete(body) ==> ModeIssue(body).Some?
  {
    hide Get, RealComplete, RealIssue;
  }

  /** A revoked candidate is reported as such whatever else is wrong with the body, and that code is
      reported for nothing else. */
  lemma {:induction false} RevokedCodeMeansRevoked(host: Host, body: Value)
    requires body.Obj?
    ensures BodyIssue(host, body) == Some(CandidateRevokedCode) <==>
            HandoffIssue(host, Get(body, "candidate"), Get(body, "candidate_status")) == Some(CandidateRevoked)
  {
    hide Get, NoExtraField, HandoffIssue, RealComplete, BodyUuidsOk, IdempotencyComplete, CallbackOk, NoProviderFields,
         AssetIssue, ApprovalBinds, TargetBelongs, TargetConnected, CapabilityFor, TargetIssue, ApprovalSnapshotIssue;
    TargetNeverRevoked(host, Get(body, "target"));
    ApprovalNeverRevoked(host, Get(body, "approval"));
  }

  lemma {:induction false} TargetNeverRevoked(host: Host, v: Value)
    ensures TargetIssue(host, v) != Some(CandidateRevokedCode) && TargetIssue(host, v) != Some(TargetUnauthorized)
  {
    hide Get, CapabilitiesOk, NoExtraField;
  }

  lemma {:induction false} ApprovalNeverRevoked(host: Host, v: Value)
    ensures ApprovalSnapshotIssue(host, v) != Some(CandidateRevokedCode)
            && ApprovalSnapshotIssue(host, v) != Some(TargetUnauthorized)
  {
    hide Get, CairoSchedule, CairoPair, ApprovalFingerprintValid, NoExtraField;
  }

  /** The unauthorized-target code is the last word: everything else about candidate, assets, target and
      approval was in order, and the target is not connected. */
  lemma {:induction false} UnauthorizedCodeMeansDisconnected(host: Host, body: Value)
    requires body.Obj? && BodyIssue(host, body) == Some(TargetUnauthorized)
    ensures TextOf(Get(body, "mode")) == "real" && !TargetConnected(body)
    ensures TargetOk(host, Get(body, "target")) && ApprovalOk(host, Get(body, "approval"))
    ensures HandoffIssue(host, Get(body, "candidate"), Get(body, "candidate_status")).None?
    ensures DispatchAssetsOk(host, AssetsOf(Get(body, "candidate")), IsTextPost(Get(body, "candidate")), AssetsOf(body))
    ensures ApprovalBinds(body) && TargetBelongs(body)
  {
    hide Get, NoExtraField, HandoffIssue, RealComplete, BodyUuidsOk, IdempotencyComplete, CallbackOk, NoProviderFields,
         AssetIssue, ApprovalBinds, TargetBelongs, TargetConnected, CapabilityFor, TargetIssue, ApprovalSnapshotIssue,
         TargetOk, ApprovalOk, DispatchAssetsOk, IsTextPost, AssetsOf;
    var target, approval, candidate := Get(body, "target"), Get(body, "approval"), Get(body, "candidate");
    TargetNeverRevoked(host, target);
    ApprovalNeverRevoked(host, approval);
    TargetIssueDecides(host, target);
    ApprovalIssueDecides(host, approval);
    AssetIssueDecides(host, AssetsOf(candidate), IsTextPost(candidate), AssetsOf(body));
  }
}
