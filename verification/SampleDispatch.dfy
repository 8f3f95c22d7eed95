/** Whole paths, from an empty store to the gate: which of the complete created events end in a dispatch,
    and two of them in full. */
module SampleDispatch {
  import opened Text
  import opened PublishingCanonical
  import opened Fingerprints
  import opened Documents
  import opened PublicationCandidate
  import opened CandidateIntake
  import opened CandidateIdentities
  import opened PublishingEnvelope
  import opened DispatchAssets
  import opened DispatchGate
  import opened DispatchDocuments
  import opened HonestDispatch

  /** A service and a created event with UUID identities for it. */
  ghost predicate Delivers(host: Host, p: Particulars, eventId: string, correlationId: string) {
    && HexDigests(host) && ReadsTimes(host) && Allowed(host, p)
    && IsUuid(eventId) && IsUuid(correlationId) && IsUuid(p.candidateId) && IsUuid(p.businessId)
  }

  /** What the store holds after that one delivery. */
  ghost function StoredRecord(host: Host, p: Particulars, eventId: string, correlationId: string): Record
    requires Delivers(host, p, eventId, correlationId)
  {
    EventCreates(host, p, eventId, correlationId);
    Created(host, CreatedDelivery(p, eventId, correlationId))
  }

  lemma {:induction false} StatusIsDocument(candidate: Value)
    requires IsDocument(candidate)
    requires !Get(candidate, "candidate_id").Undefined? && !Get(candidate, "business_id").Undefined?
    requires !Get(candidate, "candidate_checksum").Undefined? && !Get(candidate, "created_at").Undefined?
    ensures IsDocument(ActiveStatusForCandidate(candidate))
  {
    hide Get;
    ActiveStatusKeysDistinct(candidate);
    FieldIsDocument(candidate, "candidate_id");
    FieldIsDocument(candidate, "business_id");
    FieldIsDocument(candidate, "candidate_checksum");
    FieldIsDocument(candidate, "created_at");
    var f := ActiveStatusForCandidate(candidate).fields;
    assert forall i :: 0 <= i < |f| ==> IsDocument(f[i].value);
    hide ActiveStatusForCandidate;
  }

  lemma {:induction false} FieldIsDocument(v: Value, key: string)
    requires IsDocument(v) && !Get(v, key).Undefined?
    ensures IsDocument(Get(v, key))
  {
    GetWellFormed(v, key);
    GetSerializable(v, key);
  }

  lemma {:induction false} StoredIsDispatchable(host: Host, p: Particulars, eventId: string, correlationId: string)
    requires Delivers(host, p, eventId, correlationId)
    ensures var r := StoredRecord(host, p, eventId, correlationId);
            && Run(host, None, [CreatedDelivery(p, eventId, correlationId)]) == Some(r)
            && r.payload == Candidate(p) && Dispatchable(host, r)
  {
    hide Event, Candidate, Get, ValidRecord, WellFormed, Serializable, ActiveStatusForCandidate, CreatesCandidate,
         IsUuid, Allowed, Run, START;
    AcceptedButUsableIffUuids(host, p, eventId, correlationId, []);
    EventReads(p, eventId, correlationId);
    assert forall i :: 0 <= i < |p.assets| ==> IsDocument(p.assets[i]) by { AssetsAreDocuments(host, p); }
    CandidateIsDocument(p);
    IdentityReads(p);
    ReviewReads(p);
    StatusIsDocument(Candidate(p));
  }

  lemma {:induction false} AssetsAreDocuments(host: Host, p: Particulars)
    requires Allowed(host, p)
    ensures forall i :: 0 <= i < |p.assets| ==> IsDocument(p.assets[i])
  {
    hide Candidate, AssetOk, IsDocument, IsSha256, IsNonEmptyText;
  }

  lemma {:induction false} ReadsAsGiven(p: Particulars)
    ensures AssetsOf(Candidate(p)) == p.assets
    ensures Publishable(Candidate(p)) <==>
            p.channel in {"facebook", "instagram"}
            && p.contentFormat in {"static_image_post", "text_post"}
  {
    hide Candidate, Get;
    PlaceReads(p);
  }

  /** From an empty store, over the whole family: after its created event, a candidate with UUID identities can
      be dispatched in a mode exactly when its assets have distinct identities, the mode is one of the
      three, and for real it is an image or text post for Facebook or Instagram. */
  lemma {:induction false} DeliveredThenDispatchedIff(
    host: Host, p: Particulars, eventId: string, correlationId: string, c: Choices, mode: string, context: Context)
    requires Delivers(host, p, eventId, correlationId) && HexSignatures(host) && ChoicesOk(host, c)
    requires IsNonEmptyText(context.expectedKeyId) && WithinFiveMinutes(host, c.createdAt, context.now)
            && c.nonce !in context.seenNonces
    requires mode == "real" ==> ScheduleOk(host, c)
    ensures var r := Run(host, None, [CreatedDelivery(p, eventId, correlationId)]);
            && r.Some? && ValidRecord(host, r.value) && r.value.sourceState == "active"
            && ((&& DistinctIds(CandidateKeys(p.assets)) && mode in {"real", "manual_export", "simulation"}
                 && (mode == "real" ==>
                    p.channel in {"facebook", "instagram"}
                    && p.contentFormat in {"static_image_post", "text_post"}))
                <==>
                exists e: SignedEnvelope, intent: Value, attempt: Value ::
                  Dispatched(host, mode, e, intent, attempt, r.value, context))
  {
    hide Run, CreatedDelivery, Candidate, Get, Dispatched, ChoicesOk, ScheduleOk, WithinFiveMinutes, ValidRecord,
         AssetsOf, CandidateKeys, IsUuid, Delivers, StoredRecord, Publishable, DistinctIds, WellFormed, Serializable,
         IsNonEmptyText;
    StoredIsDispatchable(host, p, eventId, correlationId);
    assert HexDigests(host) by { DeliversHex(host, p, eventId, correlationId); }
    ReadsAsGiven(p);
    DispatchableInModeIff(host, StoredRecord(host, p, eventId, correlationId), c, mode, context);
  }

  lemma {:induction false} DeliversHex(host: Host, p: Particulars, eventId: string, correlationId: string)
    requires Delivers(host, p, eventId, correlationId)
    ensures HexDigests(host)
  {
    hide Allowed, IsUuid, ReadsTimes;
  }

  /** And a candidate whose assets share an identity never leaves: whatever is delivered afterwards, and
      whatever is offered to the gate in any key order, nothing is let through but by a hash collision. */
  lemma {:induction false} SharedIdentityNeverLeaves(
    host: Host, p: Particulars, eventId: string, correlationId: string, ds: seq<Delivery>,
    e: SignedEnvelope, intent: Value, attempt: Value, context: Context)
    requires Delivers(host, p, eventId, correlationId) && !DistinctIds(CandidateKeys(p.assets)) && WellFormed(e.body)
    ensures var r := Run(host, None, [CreatedDelivery(p, eventId, correlationId)] + ds);
            && r.Some? && ValidRecord(host, r.value)
            && (LetThrough(host, e, intent, attempt, r.value, context) ==>
                  FingerprintCollision(host, Candidate(p), Get(e.body, "candidate")))
  {
    hide Event, Candidate, Get, WellFormed, Serializable, LetThrough, FingerprintCollision, CreatesCandidate,
         UuidIdentities, IsUuid, Allowed, ReadsTimes, AssetsOf, CandidateKeys, DistinctIds, Publishable, RecordIssue,
         Step;
    var d := CreatedDelivery(p, eventId, correlationId);
    var all := [d] + ds;
    EventCreates(host, p, eventId, correlationId);
    EventReads(p, eventId, correlationId);
    AssetsAreDocuments(host, p);
    CandidateIsDocument(p);
    ReadsAsGiven(p);
    assert FirstCreated(host, all, 0);
    ReachableRecordValidIffUuid(host, all, 0);
    var k := ReachableRecord(host, all, |all|);
    assert k == 0;
    var r := Run(host, None, all).value;
    if LetThrough(host, e, intent, attempt, r, context) {
      DispatchedCandidate(host, e, intent, attempt, r, context);
    }
  }

  // ----- Two candidates in full -----

  const UUID_TEXT := "00000000-0000-0000-0000-000000000000"

  function Digest(): string {
    seq(64, i => '0')
  }

  const IMAGE_KEYS := ["kind", "asset_id", "checksum", "mime_type", "storage_key"]

  function Image(id: string): Value {
    Object(IMAGE_KEYS, [Str("owner_supplied"), Str(id), Str(Digest()), Str("image/png"), Str("key")])
  }

  /** An image post for Facebook with these two assets. */
  function ImagePost(first: string, second: string, checksum: string): Particulars {
    Particulars(UUID_TEXT, UUID_TEXT, "facebook", "static_image_post", [Image(first), Image(second)], checksum)
  }

  lemma {:induction false} UuidShape()
    ensures IsUuid(UUID_TEXT)
  {
  }

  lemma {:induction false} ImageKeys()
    ensures MarksGrow(IMAGE_KEYS) && |IMAGE_KEYS| == 5
    ensures IMAGE_KEYS[0] == "kind" && IMAGE_KEYS[1] == "asset_id" && IMAGE_KEYS[2] == "checksum"
    ensures IMAGE_KEYS[3] == "mime_type" && IMAGE_KEYS[4] == "storage_key"
  {
    var k := IMAGE_KEYS;
    assert |k[0]| == 4 && |k[1]| == 8 && |k[2]| == 8 && |k[3]| == 9 && |k[4]| == 11 && k[1][0] == 'a' && k[2][0] == 'c';
    NeighboursSuffice(k);
  }

  lemma {:induction false} ImageTexts()
    ensures IsNonEmptyText("image/png") && IsNonEmptyText("key") && IsSha256(Digest())
  {
    StartsWithText("image/png");
    StartsWithText("key");
    hide IsNonEmptyText;
  }

  lemma {:induction false} ImageReads(id: string)
    requires IsNonEmptyText(id)
    ensures AssetOk(Image(id)) && IsDocument(Image(id)) && Get(Image(id), "asset_id") == Str(id)
  {
    ImageKeys();
    ImageTexts();
    var k, values := IMAGE_KEYS, [Str("owner_supplied"), Str(id), Str(Digest()), Str("image/png"), Str("key")];
    hide Get, Digest, IsNonEmptyText, IsSha256, Mark, MarksGrow, IMAGE_KEYS;
    forall i | 0 <= i < 5 { GetAt(k, values, i); }
    ObjectIsDocument(k, values);
  }

  ghost predicate ChecksumIsOwn(host: Host, p: Particulars) {
    IsSha256(p.checksum) && host.candidateChecksum(Candidate(p)) == p.checksum
  }

  lemma {:induction false} ImagePostDelivers(host: Host, first: string, second: string, checksum: string)
    requires HexDigests(host) && ReadsTimes(host) && ChecksumIsOwn(host, ImagePost(first, second, checksum))
    requires IsNonEmptyText(first) && IsNonEmptyText(second)
    ensures Delivers(host, ImagePost(first, second, checksum), UUID_TEXT, UUID_TEXT)
    ensures DistinctIds(CandidateKeys(ImagePost(first, second, checksum).assets)) <==> first != second
  {
    hide Candidate, AssetOk, IsDocument, Get, Image, IsSha256, ReadsTimes;
    var p := ImagePost(first, second, checksum);
    ImageReads(first);
    ImageReads(second);
    UuidShape();
    assert IsNonEmptyText(UUID_TEXT) by { StartsWithText(UUID_TEXT); }
    hide IsUuid, IsNonEmptyText, UUID_TEXT;
    var keys := CandidateKeys(p.assets);
    assert |keys| == 2 && keys[0].id == first && keys[1].id == second;
  }

  const LOCAL_TIME := "2026-03-01T14:00:00"
  const HTTPS_URL := "https://example.com/a"

  function SampleChoices(): Choices {
    Choices(UUID_TEXT, UUID_TEXT, UUID_TEXT, UUID_TEXT, UUID_TEXT, UUID_TEXT, UUID_TEXT, "workflow", HTTPS_URL,
      HTTPS_URL, START,
            LOCAL_TIME, END, "0123456789abcdef")
  }

  function SampleContext(): Context {
    Context("secret", "key", START, {})
  }

  /** A service with digests of the right shape that reads the times, the URL and the Cairo schedule used here. */
  ghost predicate Serves(host: Host) {
    && HexDigests(host) && HexSignatures(host) && ReadsTimes(host)
    && host.safeUrl(HTTPS_URL) && host.cairoAgrees(LOCAL_TIME, END)
  }

  lemma {:induction false} SampleTexts()
    ensures IsNonEmptyText("workflow") && IsNonEmptyText(HTTPS_URL) && IsNonEmptyText("key") && IsNonEmptyText(START)
    ensures IsNonEmptyText(END)
  {
    StartsWithText("workflow");
    StartsWithText(HTTPS_URL);
    StartsWithText("key");
    StartsWithText(START);
    StartsWithText(END);
    hide IsNonEmptyText;
  }

  lemma {:induction false} SampleNonceOk()
    ensures NonceOk("0123456789abcdef")
  {
    StartsWithText("0123456789abcdef");
    UnitLength("0123456789abcdef");
    hide IsNonEmptyText, Utf16Length;
  }

  lemma {:induction false} SampleTimeIsLocal()
    ensures IsLocalDateTime(Str(LOCAL_TIME))
  {
  }

  lemma {:induction false} SampleChoicesOk(host: Host)
    requires Serves(host)
    ensures ChoicesOk(host, SampleChoices()) && ScheduleOk(host, SampleChoices())
    ensures IsNonEmptyText(SampleContext().expectedKeyId) && WithinFiveMinutes(host, START, START)
  {
    SampleTexts();
    SampleNonceOk();
    SampleTimeIsLocal();
    UuidShape();
    hide UUID_TEXT, NonceOk, IsNonEmptyText, IsUuid, IsLocalDateTime, START, END, HTTPS_URL, LOCAL_TIME;
  }

  /** An image post with two different images is stored by its one delivery and can be published for real;
      the same post with one image twice is stored as well, valid and active, and is never let through. Both
      before any service that reads the few texts used here. */
  lemma {:induction false} TwoImagesLeaveIffDistinct(
    host: Host, first: string, second: string, checksum: string)
    requires Serves(host) && ChecksumIsOwn(host, ImagePost(first, second, checksum))
    requires IsNonEmptyText(first) && IsNonEmptyText(second)
    ensures var r := Run(host, None, [CreatedDelivery(ImagePost(first, second, checksum), UUID_TEXT, UUID_TEXT)]);
            && r.Some? && ValidRecord(host, r.value) && r.value.sourceState == "active"
            && (first != second <==>
                exists e: SignedEnvelope, intent: Value, attempt: Value ::
                  Dispatched(host, "real", e, intent, attempt, r.value, SampleContext()))
  {
    hide Run, CreatedDelivery, Dispatched, ChoicesOk, ScheduleOk, WithinFiveMinutes, ValidRecord, CandidateKeys, Image,
         DistinctIds, UUID_TEXT, Delivers, IsNonEmptyText, ChecksumIsOwn, START, END;
    ImagePostDelivers(host, first, second, checksum);
    SampleChoicesOk(host);
    DeliveredThenDispatchedIff(
      host, ImagePost(first, second, checksum), UUID_TEXT, UUID_TEXT, SampleChoices(), "real", SampleContext());
  }

  // ----- Such a service exists -----

  function SomeHost(): Host {
    Host((t: string) => Digest(), (t: string, k: string) => Digest(), (b: Bytes) => Digest(),
         (t: string) => Some(if t == END then 1 else 0), (a: string, b: string) => true, (u: string) => true,
         (v: Value) => Digest(), (v: Value) => "")
  }

  /** The assumptions of these theorems hold together. */
  lemma {:induction false} SomeHostServes(first: string, second: string)
    ensures Serves(SomeHost()) && ChecksumIsOwn(SomeHost(), ImagePost(first, second, Digest()))
  {
    assert START[12] == '9' && END[12] == '2';
    assert IsSha256(Digest());
    hide Candidate, Digest, START, END, ImagePost;
  }
}
