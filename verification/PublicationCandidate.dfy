/** The candidate and status validators of content/publication-candidate.ts, over untyped values. */
module PublicationCandidate {
  import opened Text
  import opened PublishingCanonical
  import opened Fingerprints

  datatype ContentCode =
    | SchemaFailure | WeekOutOfRange | ChannelMismatch | AssetRequired
    | ApprovalBlocked | VersionConflict | CandidateTampered | CandidateRevoked

  // ----- Reading untyped values -----

  function Lookup(fields: seq<Field>, key: string): Value {
    if fields == [] then Undefined
    else if fields[0].key == key then fields[0].value
    else Lookup(fields[1..], key)
  }

  /** Property access; what has no fields answers undefined. */
  function Get(v: Value, key: string): Value {
    if v.Obj? then Lookup(v.fields, key) else Undefined
  }

  function TextOf(v: Value): string {
    if v.Str? then v.s else ""
  }

  function IntOf(v: Value): int {
    if v.Num? then v.n else 0
  }

  predicate IsRequiredText(v: Value) {
    v.Str? && IsNonEmptyText(v.s)
  }

  predicate IsIsoDateTime(host: Host, v: Value) {
    IsRequiredText(v) && host.dateParse(v.s).Some?
  }

  predicate IsDigest(v: Value) {
    v.Str? && IsSha256(v.s)
  }

  predicate IsUuidValue(v: Value) {
    v.Str? && IsUuid(v.s)
  }

  predicate IsIntegerFrom(v: Value, low: int) {
    v.Num? && v.n >= low
  }

  /** No field outside the frozen boundary. */
  predicate OnlyFields(v: Value, allowed: set<string>)
    requires v.Obj?
  {
    forall i :: 0 <= i < |v.fields| ==> v.fields[i].key in allowed
  }

  /** The first string key outside the boundary; array-index keys are listed before it. */
  function FirstOutside(fields: seq<Field>, allowed: set<string>): Option<string> {
    if fields == [] then None
    else if fields[0].key in allowed || IsIndexKey(fields[0].key) then FirstOutside(fields[1..], allowed)
    else Some(fields[0].key)
  }

  /** The publishing validators look for one key outside the boundary and test it for truth, so a first
      such key that is the empty text passes, together with everything after it. */
  predicate NoExtraField(v: Value, allowed: set<string>)
    requires v.Obj?
  {
    && (forall i :: 0 <= i < |v.fields| ==> v.fields[i].key in allowed || !IsIndexKey(v.fields[i].key))
    && (FirstOutside(v.fields, allowed).None? || FirstOutside(v.fields, allowed) == Some(""))
  }

  /** Field i is the first outside the boundary, array-index keys aside. */
  ghost predicate OutsideFirst(fields: seq<Field>, allowed: set<string>, i: int) {
    && 0 <= i < |fields|
    && fields[i].key !in allowed
    && forall j :: 0 <= j < i ==> fields[j].key in allowed
  }

  ghost predicate NoIndexOutside(fields: seq<Field>, allowed: set<string>) {
    forall i :: 0 <= i < |fields| ==> fields[i].key in allowed || !IsIndexKey(fields[i].key)
  }

  /** Exactly what that test lets through: documents inside the boundary, and those whose first key
      outside it is empty. */
  lemma {:induction false} NoExtraFieldMeans(v: Value, allowed: set<string>)
    requires v.Obj?
    ensures NoExtraField(v, allowed) <==>
            || OnlyFields(v, allowed)
            || (NoIndexOutside(v.fields, allowed) && exists i ::
               OutsideFirst(v.fields, allowed, i)
               && v.fields[i].key == "")
  {
    hide IsIndexKey;
    if NoIndexOutside(v.fields, allowed) {
      var i := FirstOutsideAt(v.fields, allowed);
    }
  }

  lemma {:induction false} FirstOutsideAt(fields: seq<Field>, allowed: set<string>) returns (i: int)
    requires NoIndexOutside(fields, allowed)
    ensures FirstOutside(fields, allowed).None? ==> forall j :: 0 <= j < |fields| ==> fields[j].key in allowed
    ensures FirstOutside(fields, allowed).Some? ==>
              OutsideFirst(fields, allowed, i) && FirstOutside(fields, allowed).value == fields[i].key
  {
    hide IsIndexKey;
    i := 0;
    if fields != [] && fields[0].key in allowed {
      var rest := FirstOutsideAt(fields[1..], allowed);
      i := rest + 1;
      assert forall j :: 0 < j < |fields| ==> fields[j] == fields[1..][j - 1];
    }
  }

  // ----- Candidates -----

  const CANDIDATE_FIELDS := {
    "contract_version", "candidate_id", "business_id", "strategy_id", "strategy_version",
    "content_cycle_id", "strategy_week_number", "content_pack_id", "content_item_id",
    "content_item_version_id", "content_item_version", "content_item_version_checksum",
    "target_channel", "content_format", "selected_locale", "caption", "cta", "hashtags",
    "alt_text", "assets", "recommended_publish_window", "approval", "candidate_checksum",
    "created_at"
  }

  const CANDIDATE_TEXT_FIELDS := [
    "candidate_id", "business_id", "strategy_id", "content_cycle_id", "content_pack_id",
    "content_item_id", "content_item_version_id", "content_item_version_checksum", "caption"
  ]

  const CONTENT_CHANNELS := {"facebook", "instagram", "tiktok", "google_business_profile"}
  const CONTENT_FORMATS := {"static_image_post", "short_video_script", "carousel_brief", "text_post"}
  const ALT_TEXT_MAX_LENGTH := 100

  function MissingTexts(v: Value, names: seq<string>): (issue: Option<ContentCode>)
    ensures issue.None? <==> forall i :: 0 <= i < |names| ==> IsRequiredText(Get(v, names[i]))
  {
    if names == [] then None
    else if !IsRequiredText(Get(v, names[0])) then Some(SchemaFailure)
    else MissingTexts(v, names[1..])
  }

  predicate AssetOk(asset: Value) {
    && asset.Obj?
    && IsRequiredText(Get(asset, "asset_id"))
    && Get(asset, "kind") in {Str("owner_supplied"), Str("generated_static")}
    && IsRequiredText(Get(asset, "mime_type"))
    && IsRequiredText(Get(asset, "storage_key"))
    && IsDigest(Get(asset, "checksum"))
  }

  predicate IsTextPost(v: Value) {
    Get(v, "content_format") == Str("text_post")
  }

  predicate AltTextOk(v: Value) {
    var alt := Get(v, "alt_text");
    alt.Str? && Utf16Length(alt.s) <= ALT_TEXT_MAX_LENGTH && (IsTextPost(v) || IsNonEmptyText(alt.s))
  }

  predicate AssetsOk(v: Value) {
    var assets := Get(v, "assets");
    && assets.Arr?
    && (IsTextPost(v) || assets.items != [])
    && forall i :: 0 <= i < |assets.items| ==> AssetOk(assets.items[i])
  }

  predicate WindowOk(host: Host, window: Value) {
    && window.Obj?
    && IsIsoDateTime(host, Get(window, "starts_at"))
    && IsIsoDateTime(host, Get(window, "ends_at"))
    && Get(window, "timezone") == Str("Africa/Cairo")
    && host.dateParse(TextOf(Get(window, "starts_at"))).value < host.dateParse(TextOf(Get(window, "ends_at"))).value
  }

  function ApprovalIssue(host: Host, v: Value): Option<ContentCode> {
    var approval := Get(v, "approval");
    if !approval.Obj?
       || Get(approval, "decision") != Str("approved")
       || !IsRequiredText(Get(approval, "decision_id"))
       || !IsRequiredText(Get(approval, "decided_by_user_id"))
       || !IsIsoDateTime(host, Get(approval, "decided_at"))
    then Some(ApprovalBlocked)
    else Unless(
           && Get(approval, "content_item_version_id") == Get(v, "content_item_version_id")
           && Get(approval, "content_item_version_checksum") == Get(v, "content_item_version_checksum"),
           VersionConflict)
  }

  function ChecksumIssue(host: Host, v: Value): Option<ContentCode> {
    var checksum := Get(v, "candidate_checksum");
    if !IsDigest(checksum) then Some(SchemaFailure)
    else Unless(host.candidateChecksum(v) == checksum.s, CandidateTampered)
  }

  predicate HashtagsOk(v: Value) {
    v.Arr? && forall i :: 0 <= i < |v.items| ==> v.items[i].Str?
  }

  /** The first issue of validatePublicationCandidateV1; None is valid. */
  function CandidateIssue(host: Host, v: Value): Option<ContentCode> {
    if !v.Obj? || !OnlyFields(v, CANDIDATE_FIELDS) then Some(SchemaFailure)
    else if Get(v, "contract_version") != Str("publication-candidate-v1") then Some(SchemaFailure)
    else if MissingTexts(v, CANDIDATE_TEXT_FIELDS).Some? then Some(SchemaFailure)
    else if !IsIntegerFrom(Get(v, "strategy_version"), 1) then Some(SchemaFailure)
    else if !IsIntegerFrom(Get(v, "strategy_week_number"), 1) || Get(v, "strategy_week_number").n > 12 then
      Some(WeekOutOfRange)
    else if !IsIntegerFrom(Get(v, "content_item_version"), 1) then Some(SchemaFailure)
    else if TextOf(Get(v, "target_channel")) !in CONTENT_CHANNELS then Some(ChannelMismatch)
    else if TextOf(Get(v, "content_format")) !in CONTENT_FORMATS then Some(SchemaFailure)
    else if TextOf(Get(v, "selected_locale")) !in {"ar", "en"} then Some(SchemaFailure)
    else if !Get(v, "cta").Null? && !Get(v, "cta").Str? then Some(SchemaFailure)
    else if !HashtagsOk(Get(v, "hashtags")) then Some(SchemaFailure)
    else if !AltTextOk(v) then Some(AssetRequired)
    else if !AssetsOk(v) then Some(AssetRequired)
    else if !WindowOk(host, Get(v, "recommended_publish_window")) then Some(SchemaFailure)
    else if ApprovalIssue(host, v).Some? then ApprovalIssue(host, v)
    else if !IsIsoDateTime(host, Get(v, "created_at")) then Some(SchemaFailure)
    else ChecksumIssue(host, v)
  }

  ghost predicate ValidCandidate(host: Host, v: Value) {
    CandidateIssue(host, v).None?
  }

  // ----- Statuses -----

  const STATUS_FIELDS := {
    "contract_version", "candidate_id", "business_id", "candidate_checksum", "state_version",
    "candidate_state", "replacement_candidate_id", "changed_by_user_id", "changed_at"
  }

  predicate ReplacementOk(v: Value) {
    var replacement := Get(v, "replacement_candidate_id");
    if Get(v, "candidate_state") == Str("replaced") then IsRequiredText(replacement) else replacement.Null?
  }

  /** The first issue of validatePublicationCandidateStatusV1, always a schema failure. */
  predicate StatusOk(host: Host, v: Value) {
    && v.Obj?
    && OnlyFields(v, STATUS_FIELDS)
    && Get(v, "contract_version") == Str("publication-candidate-status-v1")
    && IsRequiredText(Get(v, "candidate_id"))
    && IsRequiredText(Get(v, "business_id"))
    && IsDigest(Get(v, "candidate_checksum"))
    && IsIntegerFrom(Get(v, "state_version"), 1)
    && TextOf(Get(v, "candidate_state")) in {"active", "revoked", "replaced"}
    && ReplacementOk(v)
    && (Get(v, "changed_by_user_id").Null? || IsRequiredText(Get(v, "changed_by_user_id")))
    && IsIsoDateTime(host, Get(v, "changed_at"))
  }

  predicate StatusBinds(status: Value, candidate: Value) {
    && Get(status, "candidate_id") == Get(candidate, "candidate_id")
    && Get(status, "business_id") == Get(candidate, "business_id")
    && Get(status, "candidate_checksum") == Get(candidate, "candidate_checksum")
  }

  /** The first issue of validatePublicationCandidateHandoff. */
  function HandoffIssue(host: Host, candidate: Value, status: Value): Option<ContentCode> {
    if CandidateIssue(host, candidate).Some? then CandidateIssue(host, candidate)
    else if !StatusOk(host, status) then Some(SchemaFailure)
    else if !StatusBinds(status, candidate) then Some(CandidateTampered)
    else if Get(status, "candidate_state") != Str("active") then Some(CandidateRevoked)
    else None
  }

  lemma {:induction false} CandidateFacts(host: Host, v: Value)
    requires ValidCandidate(host, v)
    ensures v.Obj? && IsDigest(Get(v, "candidate_checksum")) && IsIsoDateTime(host, Get(v, "created_at"))
    ensures IsRequiredText(Get(v, "candidate_id")) && IsRequiredText(Get(v, "business_id"))
  {
    assert CANDIDATE_TEXT_FIELDS[0] == "candidate_id" && CANDIDATE_TEXT_FIELDS[1] == "business_id";
  }

  // ----- The implicit first status -----

  /** activeStatusForCandidate. */
  function ActiveStatusForCandidate(candidate: Value): Value {
    Obj([Field("contract_version", Str("publication-candidate-status-v1")),
         Field("candidate_id", Get(candidate, "candidate_id")),
         Field("business_id", Get(candidate, "business_id")),
         Field("candidate_checksum", Get(candidate, "candidate_checksum")),
         Field("state_version", Num(1)),
         Field("candidate_state", Str("active")),
         Field("replacement_candidate_id", Null),
         Field("changed_by_user_id", Null),
         Field("changed_at", Get(candidate, "created_at"))])
  }

  lemma {:induction false} LookupAt(fields: seq<Field>, i: nat)
    requires i < |fields| && forall j :: 0 <= j < i ==> fields[j].key != fields[i].key
    ensures Lookup(fields, fields[i].key) == fields[i].value
  {
    if i > 0 {
      LookupAt(fields[1..], i - 1);
    }
  }

  lemma {:induction false} ActiveStatusKeyNames(candidate: Value)
    ensures ActiveStatusForCandidate(candidate).Obj? && |ActiveStatusForCandidate(candidate).fields| == 9
    ensures var f := ActiveStatusForCandidate(candidate).fields;
            && f[0].key == "contract_version" && f[1].key == "candidate_id" && f[2].key == "business_id"
            && f[3].key == "candidate_checksum" && f[4].key == "state_version" && f[5].key == "candidate_state"
            && f[6].key == "replacement_candidate_id" && f[7].key == "changed_by_user_id" && f[8].key == "changed_at"
  {
  }

  lemma {:induction false} ActiveStatusValues(candidate: Value)
    ensures |ActiveStatusForCandidate(candidate).fields| == 9
    ensures var f := ActiveStatusForCandidate(candidate).fields;
            && f[0].value == Str("publication-candidate-status-v1")
            && f[1].value == Get(candidate, "candidate_id") && f[2].value == Get(candidate, "business_id")
            && f[3].value == Get(candidate, "candidate_checksum") && f[4].value == Num(1) && f[5].value == Str("active")
            && f[6].value == Null && f[7].value == Null && f[8].value == Get(candidate, "created_at")
  {
    hide Get;
  }

  lemma {:induction false} ActiveStatusFields(candidate: Value)
    ensures var s := ActiveStatusForCandidate(candidate);
            && Get(s, "contract_version") == Str("publication-candidate-status-v1")
            && StatusBinds(s, candidate)
            && Get(s, "state_version") == Num(1)
            && Get(s, "candidate_state") == Str("active")
            && Get(s, "replacement_candidate_id") == Null
            && Get(s, "changed_by_user_id") == Null
            && Get(s, "changed_at") == Get(candidate, "created_at")
  {
    hide ActiveStatusForCandidate, Get;
    ActiveStatusKeysDistinct(candidate);
    ActiveStatusKeyNames(candidate);
    ActiveStatusValues(candidate);
    var s := ActiveStatusForCandidate(candidate);
    forall i | 0 <= i < 9 ensures Get(s, s.fields[i].key) == s.fields[i].value {
      GetField(s, i);
    }
  }

  lemma {:induction false} GetField(v: Value, i: nat)
    requires v.Obj? && DistinctKeys(v.fields) && i < |v.fields|
    ensures Get(v, v.fields[i].key) == v.fields[i].value
  {
    LookupAt(v.fields, i);
  }

  lemma {:induction false} ActiveStatusKeysDistinct(candidate: Value)
    ensures DistinctKeys(ActiveStatusForCandidate(candidate).fields)
  {
    var fields := ActiveStatusForCandidate(candidate).fields;
    assert |fields[0].key| == 16 && |fields[1].key| == 12 && |fields[2].key| == 11 && |fields[3].key| == 18;
    assert |fields[4].key| == 13 && |fields[5].key| == 15 && |fields[6].key| == 24 && |fields[7].key| == 18;
    assert |fields[8].key| == 10 && fields[3].key[1] == 'a' && fields[7].key[1] == 'h';
  }

  lemma {:induction false} ActiveStatusKeysAllowed(candidate: Value)
    ensures OnlyFields(ActiveStatusForCandidate(candidate), STATUS_FIELDS)
  {
    hide Get;
  }

  lemma {:induction false} ActiveIsNotReplaced()
    ensures Str("active") != Str("replaced")
  {
    assert |"active"| != |"replaced"|;
  }

  /** The implicit first status of a valid candidate passes the status validator. */
  lemma {:induction false} ActiveStatusValid(host: Host, candidate: Value)
    requires ValidCandidate(host, candidate)
    ensures StatusOk(host, ActiveStatusForCandidate(candidate))
  {
    hide Get, ValidCandidate, ActiveStatusForCandidate, OnlyFields, IsRequiredText, IsIsoDateTime, IsDigest;
    CandidateFacts(host, candidate);
    ActiveStatusFields(candidate);
    ActiveStatusKeyNames(candidate);
    ActiveStatusKeysAllowed(candidate);
    ActiveIsNotReplaced();
  }
}
