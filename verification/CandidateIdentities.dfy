/** Complete created events for any identities, channel, format and assets, before any service whose clock
    reads two given times in order. Intake accepts all of them, and can use exactly those with UUIDs. */
module CandidateIdentities {
  import opened Text
  import opened PublishingCanonical
  import opened Fingerprints
  import opened Documents
  import opened PublicationCandidate
  import opened CandidateIntake

  const START := "2026-03-01T09:00:00.000Z"
  const END := "2026-03-01T12:00:00.000Z"

  /** What varies between the candidates. */
  datatype Particulars = Particulars(
    candidateId: string, businessId: string, channel: string, contentFormat: string, assets: seq<Value>,
    checksum: string)

  const WINDOW_KEYS := ["ends_at", "timezone", "starts_at"]

  function Window(): Value {
    Object(WINDOW_KEYS, [Str(END), Str("Africa/Cairo"), Str(START)])
  }

  const DECISION_KEYS := [
    "decision", "decided_at", "decision_id", "decided_by_user_id", "content_item_version_id",
    "content_item_version_checksum"
  ]

  function DecisionValues(): (values: seq<Value>)
    ensures |values| == 6
  {
    [Str("approved"), Str(START), Str("decision"), Str("owner"), Str("version"), Str("digest")]
  }

  function Decision(): Value {
    Object(DECISION_KEYS, DecisionValues())
  }

  const CANDIDATE_KEYS := [
    "cta", "assets", "caption", "alt_text", "approval", "hashtags", "created_at", "business_id", "strategy_id",
    "candidate_id", "content_format", "target_channel", "content_pack_id", "content_item_id", "selected_locale",
    "content_cycle_id", "contract_version", "strategy_version", "candidate_checksum", "content_item_version",
    "strategy_week_number", "content_item_version_id", "recommended_publish_window", "content_item_version_checksum"
  ]

  function CandidateValues(p: Particulars): (values: seq<Value>)
    ensures |values| == 24
  {
    [Null, Arr(p.assets), Str("caption"), Str("picture"), Decision(), Arr([]), Str(START), Str(p.businessId),
     Str("strategy"), Str(p.candidateId), Str(p.contentFormat), Str(p.channel), Str("pack"), Str("item"), Str("en"),
     Str("cycle"), Str("publication-candidate-v1"), Num(1), Str(p.checksum), Num(1), Num(1), Str("version"),
     Window(), Str("digest")]
  }

  function Candidate(p: Particulars): Value {
    Object(CANDIDATE_KEYS, CandidateValues(p))
  }

  const EVENT_KEYS := ["payload", "event_id", "event_type", "occurred_at", "correlation_id"]
  const CREATED_TYPE := "content.publication_candidate.created.v1"

  function Event(p: Particulars, eventId: string, correlationId: string): Value {
    Object(EVENT_KEYS, [Candidate(p), Str(eventId), Str(CREATED_TYPE), Str(START), Str(correlationId)])
  }

  function CreatedDelivery(p: Particulars, eventId: string, correlationId: string): Delivery {
    Delivery(Event(p, eventId, correlationId), START)
  }

  /** A service that reads the two times in order. */
  ghost predicate ReadsTimes(host: Host) {
    && host.dateParse(START).Some? && host.dateParse(END).Some?
    && host.dateParse(START).value < host.dateParse(END).value
  }

  /** Particulars the candidate validator allows, with the checksum the service computes for them. */
  ghost predicate Allowed(host: Host, p: Particulars) {
    && IsNonEmptyText(p.candidateId) && IsNonEmptyText(p.businessId)
    && p.channel in CONTENT_CHANNELS && p.contentFormat in CONTENT_FORMATS
    && (p.contentFormat == "text_post" || p.assets != [])
    && (forall i :: 0 <= i < |p.assets| ==> AssetOk(p.assets[i]) && IsDocument(p.assets[i]))
    && IsSha256(p.checksum) && host.candidateChecksum(Candidate(p)) == p.checksum
  }

  // ----- Reading the documents -----

  lemma {:induction false} ShortKeysMarked()
    ensures |CANDIDATE_KEYS| == 24 && forall i :: 0 < i < 13 ==> Mark(CANDIDATE_KEYS[i - 1]) < Mark(CANDIDATE_KEYS[i])
  {
    var k := CANDIDATE_KEYS;
    assert |k[0]| == 3 && |k[1]| == 6 && |k[2]| == 7 && |k[3]| == 8 && |k[4]| == 8 && |k[5]| == 8 && |k[6]| == 10
      && |k[7]| == 11;
    assert |k[8]| == 11 && |k[9]| == 12 && |k[10]| == 14 && |k[11]| == 14 && |k[12]| == 15;
    assert k[3][0] == 'a' && k[3][3] == '_' && k[4][0] == 'a' && k[4][3] == 'r' && k[5][0] == 'h' && k[7][0] == 'b'
      && k[8][0] == 's';
    assert k[10][0] == 'c' && k[11][0] == 't';
    hide CANDIDATE_KEYS;
  }

  lemma {:induction false} LongKeysMarked()
    ensures |CANDIDATE_KEYS| == 24 && forall i :: 13 <= i < 24 ==> Mark(CANDIDATE_KEYS[i - 1]) < Mark(CANDIDATE_KEYS[i])
  {
    var k := CANDIDATE_KEYS;
    assert |k[12]| == 15 && |k[13]| == 15 && |k[14]| == 15 && |k[15]| == 16 && |k[16]| == 16 && |k[17]| == 16
      && |k[18]| == 18;
    assert |k[19]| == 20 && |k[20]| == 20 && |k[21]| == 23 && |k[22]| == 26 && |k[23]| == 29;
    assert k[12][0] == 'c' && k[12][3] == 't' && k[12][11] == 'k' && k[13][0] == 'c' && k[13][3] == 't'
      && k[13][11] == 'm';
    assert k[14][0] == 's' && k[15][0] == 'c' && k[15][3] == 't' && k[15][12] == 'e';
    assert k[16][0] == 'c' && k[16][3] == 't' && k[16][12] == 's' && k[17][0] == 's' && k[19][0] == 'c'
      && k[20][0] == 's';
    hide CANDIDATE_KEYS;
  }

  lemma {:induction false} CandidateKeysMarked()
    ensures |CANDIDATE_KEYS| == 24 && MarksGrow(CANDIDATE_KEYS)
  {
    hide CANDIDATE_KEYS, Mark, MarksGrow;
    ShortKeysMarked();
    LongKeysMarked();
    NeighboursSuffice(CANDIDATE_KEYS);
  }

  lemma {:induction false} WindowKeysMarked()
    ensures MarksGrow(WINDOW_KEYS)
  {
    var w := WINDOW_KEYS;
    assert |w[0]| == 7 && |w[1]| == 8 && |w[2]| == 9;
    NeighboursSuffice(w);
  }

  lemma {:induction false} DecisionKeysMarked()
    ensures MarksGrow(DECISION_KEYS)
  {
    var d := DECISION_KEYS;
    assert |d[0]| == 8 && |d[1]| == 10 && |d[2]| == 11 && |d[3]| == 18 && |d[4]| == 23 && |d[5]| == 29;
    NeighboursSuffice(d);
  }

  lemma {:induction false} EventKeysMarked()
    ensures MarksGrow(EVENT_KEYS)
  {
    var e := EVENT_KEYS;
    assert |e[0]| == 7 && |e[1]| == 8 && |e[2]| == 10 && |e[3]| == 11 && |e[4]| == 14;
    NeighboursSuffice(e);
  }

  lemma {:induction false} CandidateKeyNames()
    ensures |CANDIDATE_KEYS| == 24
    ensures var k := CANDIDATE_KEYS;
            && k[0] == "cta" && k[1] == "assets" && k[2] == "caption" && k[3] == "alt_text"
            && k[4] == "approval" && k[5] == "hashtags" && k[6] == "created_at" && k[7] == "business_id"
            && k[8] == "strategy_id" && k[9] == "candidate_id" && k[10] == "content_format" && k[11] == "target_channel"
            && k[12] == "content_pack_id" && k[13] == "content_item_id" && k[14] == "selected_locale"
            && k[15] == "content_cycle_id"
            && k[16] == "contract_version" && k[17] == "strategy_version" && k[18] == "candidate_checksum"
            && k[19] == "content_item_version"
            && k[20] == "strategy_week_number" && k[21] == "content_item_version_id"
            && k[22] == "recommended_publish_window" && k[23] == "content_item_version_checksum"
  {
  }

  lemma {:induction false} CandidateAt(p: Particulars, i: nat, key: string)
    requires i < 24 == |CANDIDATE_KEYS| && CANDIDATE_KEYS[i] == key
    ensures Get(Candidate(p), key) == CandidateValues(p)[i]
  {
    hide Get, CandidateValues, CANDIDATE_KEYS, Object, MarksGrow;
    CandidateKeysMarked();
    GetAt(CANDIDATE_KEYS, CandidateValues(p), i);
  }

  lemma {:induction false} ContentReads(p: Particulars)
    ensures var v := Candidate(p);
            && Get(v, "cta") == Null && Get(v, "caption") == Str("caption")
            && Get(v, "alt_text") == Str("picture") && Get(v, "hashtags") == Arr([])
            && Get(v, "selected_locale") == Str("en") && Get(v, "strategy_week_number") == Num(1)
  {
    hide Candidate, Get, Decision, Window, CANDIDATE_KEYS;
    CandidateKeyNames();
    CandidateAt(p, 0, "cta");
    CandidateAt(p, 2, "caption");
    CandidateAt(p, 3, "alt_text");
    CandidateAt(p, 5, "hashtags");
    CandidateAt(p, 14, "selected_locale");
    CandidateAt(p, 20, "strategy_week_number");
  }

  lemma {:induction false} PlaceReads(p: Particulars)
    ensures var v := Candidate(p);
            && Get(v, "content_format") == Str(p.contentFormat) && Get(v, "target_channel") == Str(p.channel)
            && Get(v, "contract_version") == Str("publication-candidate-v1") && Get(v, "assets") == Arr(p.assets)
            && Get(v, "content_cycle_id") == Str("cycle") && Get(v, "strategy_version") == Num(1)
  {
    hide Candidate, Get, Decision, Window, CANDIDATE_KEYS;
    CandidateKeyNames();
    CandidateAt(p, 10, "content_format");
    CandidateAt(p, 11, "target_channel");
    CandidateAt(p, 16, "contract_version");
    CandidateAt(p, 1, "assets");
    CandidateAt(p, 15, "content_cycle_id");
    CandidateAt(p, 17, "strategy_version");
  }

  lemma {:induction false} ReviewReads(p: Particulars)
    ensures var v := Candidate(p);
            && Get(v, "approval") == Decision() && Get(v, "created_at") == Str(START)
            && Get(v, "candidate_checksum") == Str(p.checksum) && Get(v, "content_item_version_id") == Str("version")
            && Get(v, "recommended_publish_window") == Window()
            && Get(v, "content_item_version_checksum") == Str("digest")
  {
    hide Candidate, Get, Decision, Window, CANDIDATE_KEYS;
    CandidateKeyNames();
    CandidateAt(p, 4, "approval");
    CandidateAt(p, 6, "created_at");
    CandidateAt(p, 18, "candidate_checksum");
    CandidateAt(p, 21, "content_item_version_id");
    CandidateAt(p, 22, "recommended_publish_window");
    CandidateAt(p, 23, "content_item_version_checksum");
  }

  lemma {:induction false} IdentityReads(p: Particulars)
    ensures var v := Candidate(p);
            && Get(v, "business_id") == Str(p.businessId) && Get(v, "strategy_id") == Str("strategy")
            && Get(v, "candidate_id") == Str(p.candidateId) && Get(v, "content_pack_id") == Str("pack")
            && Get(v, "content_item_id") == Str("item") && Get(v, "content_item_version") == Num(1)
  {
    hide Candidate, Get, Decision, Window, CANDIDATE_KEYS;
    CandidateKeyNames();
    CandidateAt(p, 7, "business_id");
    CandidateAt(p, 8, "strategy_id");
    CandidateAt(p, 9, "candidate_id");
    CandidateAt(p, 12, "content_pack_id");
    CandidateAt(p, 13, "content_item_id");
    CandidateAt(p, 19, "content_item_version");
  }

  lemma {:induction false} PartReads()
    ensures Get(Window(), "ends_at") == Str(END) && Get(Window(), "timezone") == Str("Africa/Cairo")
    ensures Get(Window(), "starts_at") == Str(START) && Window().Obj? && Decision().Obj?
    ensures var d := Decision();
            && Get(d, "decision") == Str("approved") && Get(d, "decided_at") == Str(START)
            && Get(d, "decision_id") == Str("decision")
            && Get(d, "decided_by_user_id") == Str("owner") && Get(d, "content_item_version_id") == Str("version")
            && Get(d, "content_item_version_checksum") == Str("digest")
  {
    WindowKeysMarked();
    DecisionKeysMarked();
    hide MarksGrow, Get;
    var w, d := WINDOW_KEYS, DECISION_KEYS;
    forall i | 0 <= i < 3 { GetAt(w, [Str(END), Str("Africa/Cairo"), Str(START)], i); }
    forall i | 0 <= i < 6 { GetAt(d, DecisionValues(), i); }
    assert w[0] == "ends_at" && w[1] == "timezone" && w[2] == "starts_at";
    assert d[0] == "decision" && d[1] == "decided_at" && d[2] == "decision_id" && d[3] == "decided_by_user_id";
    assert d[4] == "content_item_version_id" && d[5] == "content_item_version_checksum";
  }

  lemma {:induction false} EventReads(p: Particulars, eventId: string, correlationId: string)
    ensures var v := Event(p, eventId, correlationId);
            && v.Obj? && Get(v, "payload") == Candidate(p) && Get(v, "event_id") == Str(eventId)
            && Get(v, "event_type") == Str(CREATED_TYPE) && Get(v, "occurred_at") == Str(START)
            && Get(v, "correlation_id") == Str(correlationId) && NoExtraField(v, EVENT_FIELDS)
  {
    EventKeysMarked();
    hide MarksGrow, Get, Candidate, NoExtraField;
    var k, values := EVENT_KEYS, [Candidate(p), Str(eventId), Str(CREATED_TYPE), Str(START), Str(correlationId)];
    forall i | 0 <= i < 5 { GetAt(k, values, i); }
    assert k[0] == "payload" && k[1] == "event_id" && k[2] == "event_type" && k[3] == "occurred_at"
      && k[4] == "correlation_id";
    AllowedObject(k, values, EVENT_FIELDS);
  }

  // ----- The documents are JSON -----

  lemma {:induction false} PartsAreDocuments()
    ensures IsDocument(Window()) && IsDocument(Decision())
  {
    WindowKeysMarked();
    DecisionKeysMarked();
    assert |WINDOW_KEYS| == 3 && |DECISION_KEYS| == 6;
    hide WINDOW_KEYS, DECISION_KEYS, MarksGrow, Object;
    ObjectIsDocument(WINDOW_KEYS, [Str(END), Str("Africa/Cairo"), Str(START)]);
    ObjectIsDocument(DECISION_KEYS, DecisionValues());
  }

  lemma {:induction false} CandidateIsDocument(p: Particulars)
    requires forall i :: 0 <= i < |p.assets| ==> IsDocument(p.assets[i])
    ensures IsDocument(Candidate(p))
  {
    CandidateKeysMarked();
    PartsAreDocuments();
    assert IsDocument(Arr(p.assets)) && IsDocument(Arr([]));
    hide CANDIDATE_KEYS, MarksGrow, Object, IsDocument, Window, Decision;
    var values := CandidateValues(p);
    forall i | 0 <= i < 24 ensures IsDocument(values[i]) {
      PlainIsDocument(TextOf(values[i]), IntOf(values[i]));
    }
    ObjectIsDocument(CANDIDATE_KEYS, values);
  }

  lemma {:induction false} EventIsDocument(p: Particulars, eventId: string, correlationId: string)
    requires forall i :: 0 <= i < |p.assets| ==> IsDocument(p.assets[i])
    ensures IsDocument(Event(p, eventId, correlationId))
  {
    CandidateIsDocument(p);
    EventKeysMarked();
    hide Candidate, Object, MarksGrow;
    ObjectIsDocument(EVENT_KEYS, [Candidate(p), Str(eventId), Str(CREATED_TYPE), Str(START), Str(correlationId)]);
  }

  // ----- The candidates are valid -----

  lemma {:induction false} StartsWithText(s: string)
    requires s != "" && !IsJsSpace(s[0])
    ensures IsNonEmptyText(s)
  {
  }

  lemma {:induction false} ConstantsAreText()
    ensures IsNonEmptyText("caption") && IsNonEmptyText("picture") && IsNonEmptyText("strategy")
            && IsNonEmptyText("pack")
    ensures IsNonEmptyText("item") && IsNonEmptyText("cycle") && IsNonEmptyText("version") && IsNonEmptyText("digest")
    ensures IsNonEmptyText("decision") && IsNonEmptyText("owner") && IsNonEmptyText(START) && IsNonEmptyText(END)
  {
    StartsWithText("caption");
    StartsWithText("picture");
    StartsWithText("strategy");
    StartsWithText("pack");
    StartsWithText("item");
    StartsWithText("cycle");
    StartsWithText("version");
    StartsWithText("digest");
    StartsWithText("decision");
    StartsWithText("owner");
    StartsWithText(START);
    StartsWithText(END);
    hide IsNonEmptyText;
  }

  lemma {:induction false} TextsPresent(host: Host, p: Particulars)
    requires Allowed(host, p)
    ensures MissingTexts(Candidate(p), CANDIDATE_TEXT_FIELDS).None?
  {
    hide Candidate, Get, MissingTexts, IsNonEmptyText, Decision, Window;
    IdentityReads(p);
    ContentReads(p);
    ReviewReads(p);
    PlaceReads(p);
    ConstantsAreText();
    var v := Candidate(p);
    assert IsRequiredText(Get(v, "candidate_id")) && IsRequiredText(Get(v, "business_id"));
    hide Allowed;
    assert IsRequiredText(Get(v, "strategy_id")) && IsRequiredText(Get(v, "content_cycle_id"))
      && IsRequiredText(Get(v, "content_pack_id"));
    assert IsRequiredText(Get(v, "content_item_id")) && IsRequiredText(Get(v, "content_item_version_id"));
    assert IsRequiredText(Get(v, "content_item_version_checksum")) && IsRequiredText(Get(v, "caption"));
    hide IsRequiredText;
  }

  lemma {:induction false} DecisionPasses(host: Host, p: Particulars)
    requires ReadsTimes(host)
    ensures ApprovalIssue(host, Candidate(p)).None? && WindowOk(host, Window()) && IsIsoDateTime(host, Str(START))
  {
    hide Candidate, Get, Decision, Window, IsNonEmptyText, START, END;
    PartReads();
    ReviewReads(p);
    ConstantsAreText();
  }

  lemma {:induction false} CandidateKeysAllowed(p: Particulars)
    ensures Candidate(p).Obj? && OnlyFields(Candidate(p), CANDIDATE_FIELDS)
  {
    assert |CANDIDATE_KEYS| == 24 && forall i :: 0 <= i < 24 ==> CANDIDATE_KEYS[i] in CANDIDATE_FIELDS;
    hide CANDIDATE_KEYS, CANDIDATE_FIELDS, CandidateValues;
    AllowedObject(CANDIDATE_KEYS, CandidateValues(p), CANDIDATE_FIELDS);
  }

  lemma {:induction false} AltTextPasses(p: Particulars)
    ensures AltTextOk(Candidate(p))
  {
    hide Candidate, Get, IsNonEmptyText, Utf16Length;
    ContentReads(p);
    PlaceReads(p);
    ConstantsAreText();
    UnitLength("picture");
  }

  lemma {:induction false} UnitLength(s: string)
    requires forall i :: 0 <= i < |s| ==> s[i] as int < 0x10000
    ensures Utf16Length(s) == |s|
  {
    if s != "" {
      UnitLength(s[1..]);
    }
  }

  lemma {:induction false} CandidateValid(host: Host, p: Particulars)
    requires ReadsTimes(host) && Allowed(host, p)
    ensures ValidCandidate(host, Candidate(p))
  {
    hide Candidate, Get, MissingTexts, ApprovalIssue, WindowOk, AltTextOk, AssetOk, OnlyFields, Window, Decision,
         IsNonEmptyText, START, IsIsoDateTime, IsSha256;
    IdentityReads(p);
    ContentReads(p);
    ReviewReads(p);
    PlaceReads(p);
    TextsPresent(host, p);
    DecisionPasses(host, p);
    CandidateKeysAllowed(p);
    AltTextPasses(p);
  }

  // ----- Intake -----

  lemma {:induction false} EventCreates(host: Host, p: Particulars, eventId: string, correlationId: string)
    requires ReadsTimes(host) && Allowed(host, p) && IsUuid(eventId) && IsUuid(correlationId)
    ensures CreatesCandidate(host, CreatedDelivery(p, eventId, correlationId))
    ensures UuidIdentities(CreatedDelivery(p, eventId, correlationId)) <==>
            IsUuid(p.candidateId)
            && IsUuid(p.businessId)
  {
    hide Candidate, CandidateIssue, IsUuid, Canonicalize, Serializable, WellFormed, Get, NoExtraField, Event,
         IsNonEmptyText, START;
    EventReads(p, eventId, correlationId);
    EventIsDocument(p, eventId, correlationId);
    IdentityReads(p);
    ConstantsAreText();
    CandidateValid(host, p);
    CanonicalizeThrows(Event(p, eventId, correlationId));
  }

  /** Intake accepts every one of these events. The stored record passes its own validation exactly
      when both identities are UUIDs; otherwise it is stuck, and every later delivery is rejected, the
      same event and every revocation included. */
  lemma {:induction false} AcceptedButUsableIffUuids(
    host: Host, p: Particulars, eventId: string, correlationId: string, ds: seq<Delivery>)
    requires HexDigests(host) && ReadsTimes(host) && Allowed(host, p) && IsUuid(eventId) && IsUuid(correlationId)
    ensures var d := CreatedDelivery(p, eventId, correlationId);
            && CreatesCandidate(host, d)
            && Run(host, None, [d]) == Some(Created(host, d))
            && (ValidRecord(host, Created(host, d)) <==> IsUuid(p.candidateId) && IsUuid(p.businessId))
            && (!(IsUuid(p.candidateId) && IsUuid(p.businessId)) ==>
               Run(host, None, [d] + ds) == Some(Created(host, d)))
  {
    hide Event, RecordIssue, CreatesCandidate, UuidIdentities, Created, IsUuid, IsNonEmptyText, Step, Allowed;
    var d := CreatedDelivery(p, eventId, correlationId);
    EventCreates(host, p, eventId, correlationId);
    CreatedRecordValidIffUuid(host, d);
    assert FirstCreated(host, [d] + ds, 0);
    RunSplits(host, [d] + ds, 0);
    assert ([d] + ds)[1..] == ds && ([d] + ds)[..1] == [d];
    if !(IsUuid(p.candidateId) && IsUuid(p.businessId)) {
      InvalidRecordStuck(host, Created(host, d), ds);
    }
  }

  // ----- A field nobody asked for -----

  /** Two more fields, of which the first is named by the empty text. */
  function Extras(injected: Value): seq<Field> {
    [Field("", Null), Field("injected", injected)]
  }

  lemma {:induction false} ExtrasPass(v: Value, injected: Value, allowed: set<string>)
    requires v.Obj? && OnlyFields(v, allowed) && "" !in allowed
    ensures NoExtraField(Append(v, Extras(injected)), allowed)
    ensures !OnlyFields(Append(v, Extras(injected)), allowed)
  {
    var all := Append(v, Extras(injected));
    var n := |v.fields|;
    assert all.fields[n].key == "" && !IsIndexKey("");
    assert all.fields[n + 1].key == "injected" && "injected"[0] == 'i' && !IsIndexKey("injected");
    assert forall i :: 0 <= i < n ==> all.fields[i] == v.fields[i];
    hide IsIndexKey, FirstOutside;
    assert OutsideFirst(all.fields, allowed, n);
    NoExtraFieldMeans(all, allowed);
  }

  lemma {:induction false} EventFieldsOnly(p: Particulars, eventId: string, correlationId: string)
    ensures OnlyFields(Event(p, eventId, correlationId), EVENT_FIELDS) && "" !in EVENT_FIELDS
  {
    var k, values := EVENT_KEYS, [Candidate(p), Str(eventId), Str(CREATED_TYPE), Str(START), Str(correlationId)];
    hide Candidate, NoExtraField, START, CREATED_TYPE;
    AllowedObject(k, values, EVENT_FIELDS);
  }

  lemma {:induction false} ExtrasAreDocument(v: Value, injected: Value)
    requires v.Obj? && Serializable(v) && Serializable(injected)
    ensures Serializable(Append(v, Extras(injected)))
  {
  }

  /** The extra-field test in action: any of these events with a field named "" and any JSON value after it
      is outside the boundary, and intake accepts it as if it were not. */
  lemma {:induction false} ExtraFieldsAccepted(
    host: Host, p: Particulars, eventId: string, correlationId: string, injected: Value)
    requires ReadsTimes(host) && Allowed(host, p) && IsUuid(eventId) && IsUuid(correlationId) && Serializable(injected)
    ensures var event := Append(Event(p, eventId, correlationId), Extras(injected));
            && !OnlyFields(event, EVENT_FIELDS) && Get(event, "payload") == Candidate(p)
            && CreatesCandidate(host, Delivery(event, START))
  {
    hide Candidate, CandidateIssue, IsUuid, Canonicalize, Serializable, WellFormed, Get, NoExtraField, OnlyFields,
         Event, IsNonEmptyText, START, Extras;
    EventReads(p, eventId, correlationId);
    var plain := Event(p, eventId, correlationId);
    var event := Append(plain, Extras(injected));
    EventIsDocument(p, eventId, correlationId);
    EventFieldsOnly(p, eventId, correlationId);
    ExtrasPass(plain, injected, EVENT_FIELDS);
    ExtrasAreDocument(plain, injected);
    forall key | key in {"event_id", "event_type", "occurred_at", "correlation_id", "payload"}
      ensures !Get(plain, key).Undefined? ==> Get(event, key) == Get(plain, key)
    {
      if !Get(plain, key).Undefined? {
        AppendReads(plain, Extras(injected), key);
      }
    }
    CandidateNotUndefined(p);
    ConstantsAreText();
    CandidateValid(host, p);
    CanonicalizeThrows(event);
  }

  lemma {:induction false} CandidateNotUndefined(p: Particulars)
    ensures Candidate(p).Obj?
  {
  }
}
