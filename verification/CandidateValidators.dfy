/** The validators of candidates, statuses, events and records as they run (content/publication-candidate.ts,
    publication-candidate-state.ts): issues are pushed one by one, and callers read the first. */
module CandidateValidators {
  import opened Text
  import opened PublishingCanonical
  import opened Fingerprints
  import opened PublicationCandidate
  import opened CandidateIntake

  /** isNonEmptyString. */
  predicate IsNonEmptyString(v: Value) {
    v.Str? && |Trim(v.s)| > 0
  }

  lemma {:induction false} NonEmptyStringIsText(v: Value)
    ensures IsNonEmptyString(v) <==> IsRequiredText(v)
  {
    if v.Str? {
      StripLeaves(IsJsSpace, v.s);
    }
  }

  // ----- Candidates -----

  /** Boundary, contract, texts and numbers. */
  method CheckIdentity(v: Value) returns (issues: seq<ContentCode>)
    requires v.Obj?
    ensures First(issues) ==
            OrElse(Unless(OnlyFields(v, CANDIDATE_FIELDS), SchemaFailure),
            OrElse(Unless(Get(v, "contract_version") == Str("publication-candidate-v1"), SchemaFailure),
            OrElse(MissingTexts(v, CANDIDATE_TEXT_FIELDS),
            OrElse(Unless(IsIntegerFrom(Get(v, "strategy_version"), 1), SchemaFailure),
            OrElse(Unless(InWeekRange(Get(v, "strategy_week_number")), WeekOutOfRange),
                   Unless(IsIntegerFrom(Get(v, "content_item_version"), 1), SchemaFailure))))))
  {
    hide Get, OnlyFields, IsRequiredText, MissingTexts;
    issues := [];
    if !OnlyFields(v, CANDIDATE_FIELDS) {
      issues := issues + [SchemaFailure];
    }
    if Get(v, "contract_version") != Str("publication-candidate-v1") {
      issues := issues + [SchemaFailure];
    }
    var ofTexts := CheckTexts(v, CANDIDATE_TEXT_FIELDS);
    issues := issues + ofTexts;
    var strategyVersion := Get(v, "strategy_version");
    if !strategyVersion.Num? || strategyVersion.n < 1 {
      issues := issues + [SchemaFailure];
    }
    var week := Get(v, "strategy_week_number");
    if !week.Num? || week.n < 1 || week.n > 12 {
      issues := issues + [WeekOutOfRange];
    }
    var itemVersion := Get(v, "content_item_version");
    if !itemVersion.Num? || itemVersion.n < 1 {
      issues := issues + [SchemaFailure];
    }
  }

  predicate InWeekRange(v: Value) {
    IsIntegerFrom(v, 1) && v.n <= 12
  }

  method CheckTexts(v: Value, names: seq<string>) returns (issues: seq<ContentCode>)
    ensures First(issues) == MissingTexts(v, names)
  {
    hide Get, IsRequiredText;
    issues := [];
    for i := 0 to |names|
      invariant First(issues)
                == Unless(forall k :: 0 <= k < i ==> IsRequiredText(Get(v, names[k])), SchemaFailure)
    {
      NonEmptyStringIsText(Get(v, names[i]));
      if !IsNonEmptyString(Get(v, names[i])) {
        issues := issues + [SchemaFailure];
      }
    }
    OnlySchemaFailures(v, names);
  }

  lemma {:induction false} OnlySchemaFailures(v: Value, names: seq<string>)
    ensures MissingTexts(v, names).Some? ==> MissingTexts(v, names).value == SchemaFailure
  {
    hide Get, IsRequiredText;
    if names != [] {
      OnlySchemaFailures(v, names[1..]);
    }
  }

  /** Channel, format and language. */
  method CheckPlacement(v: Value) returns (issues: seq<ContentCode>)
    requires v.Obj?
    ensures First(issues) ==
            OrElse(Unless(TextOf(Get(v, "target_channel")) in CONTENT_CHANNELS, ChannelMismatch),
            OrElse(Unless(TextOf(Get(v, "content_format")) in CONTENT_FORMATS, SchemaFailure),
                   Unless(TextOf(Get(v, "selected_locale")) in {"ar", "en"}, SchemaFailure)))
  {
    hide Get;
    issues := [];
    var channel := Get(v, "target_channel");
    if channel !in {Str("facebook"), Str("instagram"), Str("tiktok"), Str("google_business_profile")} {
      issues := issues + [ChannelMismatch];
    }
    var format := Get(v, "content_format");
    if format !in {Str("static_image_post"), Str("short_video_script"), Str("carousel_brief"), Str("text_post")} {
      issues := issues + [SchemaFailure];
    }
    var locale := Get(v, "selected_locale");
    if locale != Str("ar") && locale != Str("en") {
      issues := issues + [SchemaFailure];
    }
  }

  /** Call to action, tags and alternative text. */
  method CheckContent(v: Value) returns (issues: seq<ContentCode>)
    requires v.Obj?
    ensures First(issues) ==
            OrElse(Unless(Get(v, "cta").Null? || Get(v, "cta").Str?, SchemaFailure),
            OrElse(Unless(HashtagsOk(Get(v, "hashtags")), SchemaFailure),
                   Unless(AltTextOk(v), AssetRequired)))
  {
    hide Get, Strip, IsNonEmptyText, Utf16Length;
    issues := [];
    var cta := Get(v, "cta");
    if cta != Null && !cta.Str? {
      issues := issues + [SchemaFailure];
    }
    var tags := Get(v, "hashtags");
    if !tags.Arr? || exists i :: 0 <= i < |tags.items| && !tags.items[i].Str? {
      issues := issues + [SchemaFailure];
    }
    var textOnly, alt := Get(v, "content_format") == Str("text_post"), Get(v, "alt_text");
    NonEmptyStringIsText(alt);
    if !alt.Str? || Utf16Length(alt.s) > 100 || (!textOnly && |Trim(alt.s)| == 0) {
      issues := issues + [AssetRequired];
    }
  }

  method CheckAssets(v: Value) returns (issues: seq<ContentCode>)
    requires v.Obj?
    ensures First(issues) == Unless(AssetsOk(v), AssetRequired)
  {
    hide Get, IsTextPost, IsNonEmptyString, IsRequiredText, IsSha256;
    var assets := Get(v, "assets");
    if !assets.Arr? || (!IsTextPost(v) && |assets.items| == 0) {
      return [AssetRequired];
    }
    issues := [];
    for i := 0 to |assets.items|
      invariant First(issues) == Unless(forall k :: 0 <= k < i ==> AssetOk(assets.items[k]), AssetRequired)
    {
      var asset := assets.items[i];
      NonEmptyStringIsText(Get(asset, "asset_id"));
      NonEmptyStringIsText(Get(asset, "mime_type"));
      NonEmptyStringIsText(Get(asset, "storage_key"));
      if || !asset.Obj? || !IsNonEmptyString(Get(asset, "asset_id"))
         || (Get(asset, "kind") != Str("owner_supplied") && Get(asset, "kind") != Str("generated_static"))
         || !IsNonEmptyString(Get(asset, "mime_type")) || !IsNonEmptyString(Get(asset, "storage_key")) {
        issues := issues + [AssetRequired];
      } else if !Get(asset, "checksum").Str? || !IsSha256(Get(asset, "checksum").s) {
        issues := issues + [AssetRequired];
      }
    }
  }

  predicate IsTime(host: Host, v: Value) {
    IsNonEmptyString(v) && host.dateParse(v.s) != None
  }

  lemma {:induction false} TimeIsDateTime(host: Host, v: Value)
    ensures IsTime(host, v) <==> IsIsoDateTime(host, v)
  {
    NonEmptyStringIsText(v);
  }

  method CheckWindow(host: Host, v: Value) returns (issues: seq<ContentCode>)
    requires v.Obj?
    ensures First(issues) == Unless(WindowOk(host, Get(v, "recommended_publish_window")), SchemaFailure)
  {
    hide Get, IsTime, IsIsoDateTime;
    var window := Get(v, "recommended_publish_window");
    if !window.Obj? {
      return [SchemaFailure];
    }
    var start, end := Get(window, "starts_at"), Get(window, "ends_at");
    TimeIsDateTime(host, start);
    TimeIsDateTime(host, end);
    if !IsTime(host, start) || !IsTime(host, end) {
      return [SchemaFailure];
    }
    assert start.Str? && host.dateParse(start.s).Some? by { TimeParses(host, start); }
    assert end.Str? && host.dateParse(end.s).Some? by { TimeParses(host, end); }
    if Get(window, "timezone") != Str("Africa/Cairo")
       || host.dateParse(start.s).value >= host.dateParse(end.s).value {
      return [SchemaFailure];
    }
    return [];
  }

  lemma {:induction false} TimeParses(host: Host, v: Value)
    requires IsTime(host, v)
    ensures v.Str? && host.dateParse(v.s).Some?
  {
  }

  method CheckApproval(host: Host, v: Value) returns (issues: seq<ContentCode>)
    requires v.Obj?
    ensures First(issues) == ApprovalIssue(host, v)
  {
    hide Get, IsTime, IsIsoDateTime, IsNonEmptyString, IsRequiredText;
    var approval := Get(v, "approval");
    NonEmptyStringIsText(Get(approval, "decision_id"));
    NonEmptyStringIsText(Get(approval, "decided_by_user_id"));
    TimeIsDateTime(host, Get(approval, "decided_at"));
    if || !approval.Obj?
       || Get(approval, "decision") != Str("approved")
       || !IsNonEmptyString(Get(approval, "decision_id"))
       || !IsNonEmptyString(Get(approval, "decided_by_user_id"))
       || !IsTime(host, Get(approval, "decided_at")) {
      return [ApprovalBlocked];
    }
    if || Get(approval, "content_item_version_id") != Get(v, "content_item_version_id")
       || Get(approval, "content_item_version_checksum") != Get(v, "content_item_version_checksum") {
      return [VersionConflict];
    }
    return [];
  }

  /** When the candidate was made, and its checksum. */
  method CheckSeal(host: Host, v: Value) returns (issues: seq<ContentCode>)
    requires v.Obj?
    ensures First(issues)
            == OrElse(Unless(IsIsoDateTime(host, Get(v, "created_at")), SchemaFailure), ChecksumIssue(host, v))
  {
    hide Get, IsTime, IsIsoDateTime, IsSha256;
    issues := [];
    TimeIsDateTime(host, Get(v, "created_at"));
    if !IsTime(host, Get(v, "created_at")) {
      issues := issues + [SchemaFailure];
    }
    var checksum := Get(v, "candidate_checksum");
    if !checksum.Str? || !IsSha256(checksum.s) {
      issues := issues + [SchemaFailure];
    } else if host.candidateChecksum(v) != checksum.s {
      issues := issues + [CandidateTampered];
    }
  }

  /** validatePublicationCandidateV1. */
  method ValidatePublicationCandidateV1(host: Host, v: Value) returns (issues: seq<ContentCode>)
    ensures First(issues) == CandidateIssue(host, v)
  {
    hide Get, OnlyFields, MissingTexts, HashtagsOk, AltTextOk, AssetsOk, WindowOk, ApprovalIssue, IsIsoDateTime,
         ChecksumIssue;
    if !v.Obj? {
      return [SchemaFailure];
    }
    issues := CheckIdentity(v);
    var found := CheckPlacement(v);
    issues := issues + found;
    found := CheckContent(v);
    issues := issues + found;
    found := CheckAssets(v);
    issues := issues + found;
    found := CheckWindow(host, v);
    issues := issues + found;
    found := CheckApproval(host, v);
    issues := issues + found;
    found := CheckSeal(host, v);
    issues := issues + found;
    OnlySchemaFailures(v, CANDIDATE_TEXT_FIELDS);
  }

  // ----- Statuses -----

  /** validatePublicationCandidateStatusV1. */
  method ValidatePublicationCandidateStatusV1(host: Host, v: Value) returns (issues: seq<ContentCode>)
    ensures First(issues) == Unless(StatusOk(host, v), SchemaFailure)
  {
    hide Get, OnlyFields, IsTime, IsIsoDateTime, IsNonEmptyString, IsRequiredText, IsSha256;
    if !v.Obj? {
      return [SchemaFailure];
    }
    issues := [];
    if !OnlyFields(v, STATUS_FIELDS) {
      issues := issues + [SchemaFailure];
    }
    if Get(v, "contract_version") != Str("publication-candidate-status-v1") {
      issues := issues + [SchemaFailure];
    }
    NonEmptyStringIsText(Get(v, "candidate_id"));
    NonEmptyStringIsText(Get(v, "business_id"));
    if !IsNonEmptyString(Get(v, "candidate_id")) {
      issues := issues + [SchemaFailure];
    }
    if !IsNonEmptyString(Get(v, "business_id")) {
      issues := issues + [SchemaFailure];
    }
    var found := CheckStatusDetails(host, v);
    issues := issues + found;
  }

  method CheckStatusDetails(host: Host, v: Value) returns (issues: seq<ContentCode>)
    requires v.Obj?
    ensures First(issues) ==
            Unless(
              && IsDigest(Get(v, "candidate_checksum"))
              && IsIntegerFrom(Get(v, "state_version"), 1)
              && TextOf(Get(v, "candidate_state")) in {"active", "revoked", "replaced"}
              && ReplacementOk(v)
              && (Get(v, "changed_by_user_id").Null? || IsRequiredText(Get(v, "changed_by_user_id")))
              && IsIsoDateTime(host, Get(v, "changed_at")), SchemaFailure)
  {
    hide Get, IsTime, IsIsoDateTime, IsNonEmptyString, IsRequiredText, IsSha256;
    issues := [];
    var checksum, version, state := Get(v, "candidate_checksum"), Get(v, "state_version"), Get(v, "candidate_state");
    if !checksum.Str? || !IsSha256(checksum.s) {
      issues := issues + [SchemaFailure];
    }
    if !version.Num? || version.n < 1 {
      issues := issues + [SchemaFailure];
    }
    if state !in {Str("active"), Str("revoked"), Str("replaced")} {
      issues := issues + [SchemaFailure];
    }
    var replacement, changedBy := Get(v, "replacement_candidate_id"), Get(v, "changed_by_user_id");
    NonEmptyStringIsText(replacement);
    NonEmptyStringIsText(changedBy);
    TimeIsDateTime(host, Get(v, "changed_at"));
    if || (state == Str("replaced") && !IsNonEmptyString(replacement))
       || (state != Str("replaced") && replacement != Null) {
      issues := issues + [SchemaFailure];
    }
    if changedBy != Null && !IsNonEmptyString(changedBy) {
      issues := issues + [SchemaFailure];
    }
    if !IsTime(host, Get(v, "changed_at")) {
      issues := issues + [SchemaFailure];
    }
  }

  /** validatePublicationCandidateHandoff. */
  method ValidatePublicationCandidateHandoff(host: Host, candidate: Value, status: Value)
    returns (issues: seq<ContentCode>)
    ensures First(issues) == HandoffIssue(host, candidate, status)
  {
    hide Get, CandidateIssue, OnlyFields, IsIsoDateTime, IsRequiredText, IsSha256, ReplacementOk;
    issues := ValidatePublicationCandidateV1(host, candidate);
    if issues != [] {
      return;
    }
    issues := ValidatePublicationCandidateStatusV1(host, status);
    if issues != [] {
      return;
    }
    if || Get(status, "candidate_id") != Get(candidate, "candidate_id")
       || Get(status, "business_id") != Get(candidate, "business_id")
       || Get(status, "candidate_checksum") != Get(candidate, "candidate_checksum") {
      return [CandidateTampered];
    }
    if Get(status, "candidate_state") == Str("revoked") || Get(status, "candidate_state") == Str("replaced") {
      return [CandidateRevoked];
    }
  }

  // ----- Events and records -----

  /** Object.keys(value).find(field => !allowed.has(field)). The array-index keys come first; which of them is found
      makes no difference, since no such key is empty. */
  method FindExtraField(v: Value, allowed: set<string>) returns (extraField: Option<string>)
    requires v.Obj?
    ensures extraField.Some? && extraField.value != "" <==> !NoExtraField(v, allowed)
    ensures extraField.None? <==> OnlyFields(v, allowed)
  {
    hide IsIndexKey;
    IndexKeysAreNotEmpty();
    for i := 0 to |v.fields|
      invariant forall k :: 0 <= k < i ==> v.fields[k].key in allowed || !IsIndexKey(v.fields[k].key)
    {
      if IsIndexKey(v.fields[i].key) && v.fields[i].key !in allowed {
        return Some(v.fields[i].key);
      }
    }
    for i := 0 to |v.fields|
      invariant forall k :: 0 <= k < i ==> v.fields[k].key in allowed
      invariant FirstOutside(v.fields, allowed) == FirstOutside(v.fields[i..], allowed)
    {
      assert v.fields[i..][1..] == v.fields[i + 1..];
      if v.fields[i].key !in allowed {
        return Some(v.fields[i].key);
      }
    }
    return None;
  }

  lemma {:induction false} IndexKeysAreNotEmpty()
    ensures !IsIndexKey("")
  {
  }

  lemma {:induction false} ReceivedIsTime(host: Host, receivedAt: string)
    ensures IsTime(host, Str(receivedAt)) <==> IsIsoText(host, receivedAt)
  {
    TimeIsDateTime(host, Str(receivedAt));
  }

  /** validateEventEnvelope. */
  method ValidateEventEnvelope(host: Host, event: Value, receivedAt: string) returns (issue: Option<PublishingCode>)
    requires event.Obj?
    ensures issue == EventEnvelopeIssue(host, event, receivedAt)
  {
    hide Get, IsUuid, IsTime, IsIsoDateTime, IsNonEmptyText;
    var extraField := FindExtraField(event, EVENT_FIELDS);
    if extraField.Some? && extraField.value != "" {
      return Some(ContractUnsupported);
    }
    var eventId, correlationId := Get(event, "event_id"), Get(event, "correlation_id");
    TimeIsDateTime(host, Get(event, "occurred_at"));
    TimeIsDateTime(host, Str(receivedAt));
    assert IsTime(host, Str(receivedAt)) <==> IsIsoText(host, receivedAt) by { ReceivedIsTime(host, receivedAt); }
    if || !eventId.Str? || !IsUuid(eventId.s) || !correlationId.Str? || !IsUuid(correlationId.s)
       || !IsTime(host, Get(event, "occurred_at")) || !IsTime(host, Str(receivedAt)) {
      return Some(CandidateInvalid);
    }
    return None;
  }

  /** validatePublicationCandidateRecordV1, on a record with its own fields and contract version. */
  method ValidatePublicationCandidateRecordV1(host: Host, r: Record) returns (issue: Option<PublishingCode>)
    ensures issue == RecordIssue(host, r)
  {
    hide Get, IsUuid, IsSha256, CandidateIssue, StatusOk;
    ReceivedIsTime(host, r.receivedAt);
    hide IsTime, IsIsoText;
    if || !IsUuid(r.candidateId) || !IsUuid(r.eventId) || !IsUuid(r.businessId) || !IsSha256(r.candidateChecksum)
       || !IsSha256(r.eventFingerprint) || r.sourceStateVersion < 1 || !IsTime(host, Str(r.receivedAt)) {
      return Some(CandidateInvalid);
    }
    var candidate, status := r.payload, r.sourceStatus;
    var found := ValidatePublicationCandidateV1(host, candidate);
    if found != [] {
      return MapContentIssue(First(found));
    }
    found := ValidatePublicationCandidateStatusV1(host, status);
    if found != [] {
      return MapContentIssue(First(found));
    }
    if || Str(r.candidateId) != Get(candidate, "candidate_id") || Str(r.businessId) != Get(candidate, "business_id")
       || Str(r.candidateChecksum) != Get(candidate, "candidate_checksum")
       || Get(status, "candidate_id") != Get(candidate, "candidate_id")
       || Get(status, "business_id") != Get(candidate, "business_id")
       || Get(status, "candidate_checksum") != Get(candidate, "candidate_checksum") {
      return Some(CandidateTamperedCode);
    }
    if || Str(r.sourceState) != Get(status, "candidate_state")
       || Num(r.sourceStateVersion) != Get(status, "state_version") {
      return Some(StateConflict);
    }
    return None;
  }

  // ----- What the codes say -----

  /** The tampering code, which callers tell apart, comes first only when it is the one thing wrong: the checksum is
      a digest but not the candidate's own, and with another hash that gives it the candidate would be valid. */
  lemma {:induction false} TamperedMeansChecksum(host: Host, v: Value)
    ensures var checksum := Get(v, "candidate_checksum");
            CandidateIssue(host, v) == Some(CandidateTampered) <==>
            && v.Obj? && IsDigest(checksum) && Str(host.candidateChecksum(v)) != checksum
            && ValidCandidate(host.(candidateChecksum := _ => TextOf(checksum)), v)
  {
    hide Get, OnlyFields, IsSha256, MissingTexts, HashtagsOk, AltTextOk, AssetsOk, IsNonEmptyText;
    if v.Obj? {
      OnlySchemaFailures(v, CANDIDATE_TEXT_FIELDS);
    }
  }
}
