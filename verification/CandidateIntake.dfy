/** The event-sourced intake of publication candidates (publication-candidate-state.ts): a reducer
    that must survive duplicated, reordered, stale and malformed deliveries. */
module CandidateIntake {
  import opened Text
  import opened PublishingCanonical
  import opened Fingerprints
  import opened PublicationCandidate

  datatype PublishingCode =
    | CandidateInvalid | CandidateTamperedCode | CandidateRevokedCode
    | ContractUnsupported | StateConflict | IdempotencyConflict
    | AssetUnavailableCode | AssetTamperedCode | WebhookUnauthorized
    | ApprovalRequired | TargetNotConnected | TargetUnauthorized | FormatUnsupported

  datatype Disposition = Applied | IdenticalReplay | RejectedStale | RejectedConflict | RejectedInvalid

  /** PublicationCandidateRecordV1. */
  datatype Record = Record(
    candidateId: string,
    eventId: string,
    businessId: string,
    candidateChecksum: string,
    eventFingerprint: string,
    sourceState: string,
    sourceStateVersion: int,
    sourceStatus: Value,
    receivedAt: string,
    payload: Value)

  /** The reducer returns a result, or canonicalizing the event throws a TypeError. */
  datatype IntakeResult =
    | Result(disposition: Disposition, record: Option<Record>, issue: Option<PublishingCode>)
    | TypeError
  {
    predicate Accepted() {
      Result? && (disposition.Applied? || disposition.IdenticalReplay?)
    }
  }

  function Failure(d: Disposition, record: Option<Record>, code: PublishingCode): IntakeResult {
    Result(d, record, Some(code))
  }

  function Success(d: Disposition, record: Record): IntakeResult {
    Result(d, Some(record), None)
  }

  /** mapContentValidation: the first content issue decides the publishing code. */
  function MapContentIssue(issue: Option<ContentCode>): Option<PublishingCode> {
    match issue
    case None => None
    case Some(CandidateTampered) => Some(CandidateTamperedCode)
    case Some(CandidateRevoked) => Some(CandidateRevokedCode)
    case _ => Some(CandidateInvalid)
  }

  predicate IsIsoText(host: Host, s: string) {
    IsNonEmptyText(s) && host.dateParse(s).Some?
  }

  const EVENT_FIELDS := {"event_id", "event_type", "occurred_at", "correlation_id", "payload"}

  /** validateEventEnvelope; None is valid. */
  function EventEnvelopeIssue(host: Host, event: Value, receivedAt: string): Option<PublishingCode>
    requires event.Obj?
  {
    if !NoExtraField(event, EVENT_FIELDS) then Some(ContractUnsupported)
    else if !IsUuidValue(Get(event, "event_id"))
            || !IsUuidValue(Get(event, "correlation_id"))
            || !IsIsoDateTime(host, Get(event, "occurred_at"))
            || !IsIsoText(host, receivedAt)
    then Some(CandidateInvalid)
    else None
  }

  predicate RecordMetadataOk(host: Host, r: Record) {
    && IsUuid(r.candidateId)
    && IsUuid(r.eventId)
    && IsUuid(r.businessId)
    && IsSha256(r.candidateChecksum)
    && IsSha256(r.eventFingerprint)
    && r.sourceStateVersion >= 1
    && IsIsoText(host, r.receivedAt)
  }

  predicate RecordBinds(r: Record) {
    && Str(r.candidateId) == Get(r.payload, "candidate_id")
    && Str(r.businessId) == Get(r.payload, "business_id")
    && Str(r.candidateChecksum) == Get(r.payload, "candidate_checksum")
    && StatusBinds(r.sourceStatus, r.payload)
  }

  /** validatePublicationCandidateRecordV1; None is valid. */
  function RecordIssue(host: Host, r: Record): Option<PublishingCode> {
    if !RecordMetadataOk(host, r) then Some(CandidateInvalid)
    else if CandidateIssue(host, r.payload).Some? then MapContentIssue(CandidateIssue(host, r.payload))
    else if !StatusOk(host, r.sourceStatus) then Some(CandidateInvalid)
    else if !RecordBinds(r) then Some(CandidateTamperedCode)
    else if Str(r.sourceState) != Get(r.sourceStatus, "candidate_state")
            || Num(r.sourceStateVersion) != Get(r.sourceStatus, "state_version")
    then Some(StateConflict)
    else None
  }

  /** The record reduceCreatedEvent stores for a first delivery. */
  function CreatedRecord(event: Value, fingerprint: string, receivedAt: string): Record {
    var candidate := Get(event, "payload");
    Record(TextOf(Get(candidate, "candidate_id")), TextOf(Get(event, "event_id")),
      TextOf(Get(candidate, "business_id")),
           TextOf(Get(candidate, "candidate_checksum")), fingerprint, "active", 1,
           ActiveStatusForCandidate(candidate), receivedAt, candidate)
  }

  function ReduceCreatedEvent(host: Host, existing: Option<Record>, event: Value, receivedAt: string): IntakeResult {
    var candidate := Get(event, "payload");
    if CandidateIssue(host, candidate).Some? then
      Result(RejectedInvalid, existing, MapContentIssue(CandidateIssue(host, candidate)))
    else match ComputePublishingSha256(host, event)
      case None => TypeError
      case Some(fingerprint) =>
        if existing.None? then Success(Applied, CreatedRecord(event, fingerprint, receivedAt))
        else if Str(existing.value.candidateId) != Get(candidate, "candidate_id")
                || Str(existing.value.businessId) != Get(candidate, "business_id")
        then Failure(RejectedConflict, existing, CandidateTamperedCode)
        else if existing.value.sourceStateVersion > 1 then Failure(RejectedStale, existing, StateConflict)
        else if existing.value.eventFingerprint == fingerprint then Success(IdenticalReplay, existing.value)
        else Failure(RejectedConflict, existing, CandidateTamperedCode)
  }

  /** The record reduceStateChangedEvent stores for a newer version. */
  function ChangedRecord(r: Record, event: Value, fingerprint: string, receivedAt: string): Record {
    var status := Get(event, "payload");
    r.(eventId := TextOf(Get(event, "event_id")),
       eventFingerprint := fingerprint,
       sourceState := TextOf(Get(status, "candidate_state")),
       sourceStateVersion := IntOf(Get(status, "state_version")),
       sourceStatus := status,
       receivedAt := receivedAt)
  }

  function ReduceStateChangedEvent(
    host: Host, existing: Option<Record>, event: Value, receivedAt: string): IntakeResult {
    var status := Get(event, "payload");
    if existing.None? then Failure(RejectedConflict, None, StateConflict)
    else
      var r := existing.value;
      if !StatusOk(host, status) then Failure(RejectedInvalid, existing, CandidateInvalid)
      else if Get(status, "candidate_state") == Str("active") then Failure(RejectedInvalid, existing, CandidateInvalid)
      else if Get(status, "candidate_id") != Str(r.candidateId)
              || Get(status, "business_id") != Str(r.businessId)
              || Get(status, "candidate_checksum") != Str(r.candidateChecksum)
      then Failure(RejectedConflict, existing, CandidateTamperedCode)
      else
        var incoming := IntOf(Get(status, "state_version"));
        if incoming < r.sourceStateVersion then Failure(RejectedStale, existing, StateConflict)
        else match ComputePublishingSha256(host, event)
          case None => TypeError
          case Some(fingerprint) =>
            if incoming == r.sourceStateVersion then
              if r.eventFingerprint == fingerprint then Success(IdenticalReplay, r)
              else Failure(RejectedConflict, existing, StateConflict)
            else Success(Applied, ChangedRecord(r, event, fingerprint, receivedAt))
  }

  function ReducePublicationCandidateEventV1(
    host: Host, existing: Option<Record>, event: Value, receivedAt: string): IntakeResult {
    if !event.Obj? then Failure(RejectedInvalid, existing, CandidateInvalid)
    else if EventEnvelopeIssue(host, event, receivedAt).Some? then
      Result(RejectedInvalid, existing, EventEnvelopeIssue(host, event, receivedAt))
    else if existing.Some? && RecordIssue(host, existing.value).Some? then
      Result(RejectedInvalid, existing, RecordIssue(host, existing.value))
    else if Get(event, "event_type") == Str("content.publication_candidate.created.v1") then
      ReduceCreatedEvent(host, existing, event, receivedAt)
    else if Get(event, "event_type") == Str("content.publication_candidate.state_changed.v1") then
      ReduceStateChangedEvent(host, existing, event, receivedAt)
    else Failure(RejectedInvalid, existing, ContractUnsupported)
  }

  // ----- Runs -----

  datatype Delivery = Delivery(event: Value, receivedAt: string)

  /** What is stored after one delivery; a thrown TypeError leaves the store as it was. */
  function Step(host: Host, stored: Option<Record>, d: Delivery): Option<Record> {
    match ReducePublicationCandidateEventV1(host, stored, d.event, d.receivedAt)
    case Result(_, record, _) => record
    case TypeError => stored
  }

  function Run(host: Host, stored: Option<Record>, ds: seq<Delivery>): Option<Record> {
    if ds == [] then stored
    else Step(host, Run(host, stored, ds[..|ds| - 1]), ds[|ds| - 1])
  }

  lemma {:induction false} RunAppend(host: Host, stored: Option<Record>, a: seq<Delivery>, b: seq<Delivery>)
    ensures Run(host, stored, a + b) == Run(host, Run(host, stored, a), b)
  {
    hide Step;
    if b == [] {
      assert a + b == a;
    } else {
      var n := |b| - 1;
      RunAppend(host, stored, a, b[..n]);
      assert (a + b)[..|a + b| - 1] == a + b[..n];
    }
  }

  ghost predicate HexDigests(host: Host) {
    forall t :: IsSha256(host.sha256(t))
  }

  ghost predicate ValidRecord(host: Host, r: Record) {
    RecordIssue(host, r).None?
  }

  ghost predicate ValidEnvelope(host: Host, d: Delivery) {
    d.event.Obj? && EventEnvelopeIssue(host, d.event, d.receivedAt).None?
  }

  /** A delivery the reducer accepts as the first one. */
  ghost predicate CreatesCandidate(host: Host, d: Delivery) {
    && ValidEnvelope(host, d)
    && Get(d.event, "event_type") == Str("content.publication_candidate.created.v1")
    && ValidCandidate(host, Get(d.event, "payload"))
    && ComputePublishingSha256(host, d.event).Some?
  }

  ghost function Created(host: Host, d: Delivery): Record
    requires CreatesCandidate(host, d)
  {
    CreatedRecord(d.event, ComputePublishingSha256(host, d.event).value, d.receivedAt)
  }

  /** A well-formed revocation or replacement of the candidate with these identities. */
  ghost predicate ChangesCandidate(host: Host, candidateId: string, businessId: string, checksum: string, d: Delivery) {
    && ValidEnvelope(host, d)
    && Get(d.event, "event_type") == Str("content.publication_candidate.state_changed.v1")
    && StatusOk(host, Get(d.event, "payload"))
    && Get(Get(d.event, "payload"), "candidate_state") != Str("active")
    && Get(Get(d.event, "payload"), "candidate_id") == Str(candidateId)
    && Get(Get(d.event, "payload"), "business_id") == Str(businessId)
    && Get(Get(d.event, "payload"), "candidate_checksum") == Str(checksum)
    && ComputePublishingSha256(host, d.event).Some?
  }

  ghost predicate Changes(host: Host, r: Record, d: Delivery) {
    ChangesCandidate(host, r.candidateId, r.businessId, r.candidateChecksum, d)
  }

  function ChangeVersion(d: Delivery): int {
    IntOf(Get(Get(d.event, "payload"), "state_version"))
  }

  ghost function Changed(host: Host, r: Record, d: Delivery): Record
    requires Changes(host, r, d)
  {
    ChangedRecord(r, d.event, ComputePublishingSha256(host, d.event).value, d.receivedAt)
  }

  /** What the store holds after a result. */
  function Kept(stored: Option<Record>, result: IntakeResult): Option<Record> {
    if result.Result? then result.record else stored
  }

  lemma {:induction false} CreatedEventKeepsRecord(host: Host, r: Record, event: Value, receivedAt: string)
    ensures Kept(Some(r), ReduceCreatedEvent(host, Some(r), event, receivedAt)) == Some(r)
  {
  }

  lemma {:induction false} ChangedEventOutcome(host: Host, r: Record, d: Delivery)
    requires ValidEnvelope(host, d)
    requires Get(d.event, "event_type") == Str("content.publication_candidate.state_changed.v1")
    ensures Kept(Some(r), ReduceStateChangedEvent(host, Some(r), d.event, d.receivedAt)) ==
            Some(if Changes(host, r, d) && ChangeVersion(d) > r.sourceStateVersion then Changed(host, r, d) else r)
  {
  }

  /** One delivery to a valid record: a newer change replaces the state, anything else leaves the
      record alone. */
  lemma {:induction false} StepFromRecord(host: Host, r: Record, d: Delivery)
    requires ValidRecord(host, r)
    ensures Step(host, Some(r), d) ==
            Some(if Changes(host, r, d) && ChangeVersion(d) > r.sourceStateVersion then Changed(host, r, d) else r)
  {
    hide CandidateIssue, StatusOk, ReduceCreatedEvent, ReduceStateChangedEvent;
    assert |"content.publication_candidate.created.v1"| != |"content.publication_candidate.state_changed.v1"|;
    CreatedEventKeepsRecord(host, r, d.event, d.receivedAt);
    if ValidEnvelope(host, d) && Get(d.event, "event_type") == Str("content.publication_candidate.state_changed.v1") {
      ChangedEventOutcome(host, r, d);
    }
  }

  lemma {:induction false} ChangedIsValid(host: Host, r: Record, d: Delivery)
    requires ValidRecord(host, r) && HexDigests(host) && Changes(host, r, d)
    ensures ValidRecord(host, Changed(host, r, d))
  {
  }

  lemma {:induction false} StepFromNothing(host: Host, d: Delivery)
    ensures Step(host, None, d) == if CreatesCandidate(host, d) then Some(Created(host, d)) else None
  {
    hide CandidateIssue, StatusOk;
  }

  // ----- Every run -----

  /** The deliveries that can move a record past its version. */
  ghost predicate Newer(host: Host, r: Record, d: Delivery) {
    Changes(host, r, d) && ChangeVersion(d) > r.sourceStateVersion
  }

  /** Delivery w is the first of the highest version among the first n that are newer than r. */
  ghost predicate Wins(host: Host, r: Record, ds: seq<Delivery>, n: int, w: int)
    requires 0 <= n <= |ds|
  {
    && 0 <= w < n
    && Newer(host, r, ds[w])
    && (forall j :: 0 <= j < n && Newer(host, r, ds[j]) ==> ChangeVersion(ds[j]) <= ChangeVersion(ds[w]))
    && (forall j :: 0 <= j < w && Newer(host, r, ds[j]) ==> ChangeVersion(ds[j]) < ChangeVersion(ds[w]))
  }

  ghost predicate NothingNewer(host: Host, r: Record, ds: seq<Delivery>, n: int)
    requires 0 <= n <= |ds|
  {
    forall j :: 0 <= j < n ==> !Newer(host, r, ds[j])
  }

  /** Where the first n deliveries take record r: nowhere when nothing is newer, and otherwise to
      the first delivery of the highest version. */
  ghost predicate Outcome(host: Host, r: Record, ds: seq<Delivery>, n: int, result: Record)
    requires 0 <= n <= |ds|
  {
    || (NothingNewer(host, r, ds, n) && result == r)
    || exists w :: Wins(host, r, ds, n, w) && result == Changed(host, r, ds[w])
  }

  lemma {:induction false} OutcomeBounds(host: Host, r: Record, ds: seq<Delivery>, n: nat, before: Record)
    requires n <= |ds| && Outcome(host, r, ds, n, before)
    ensures forall j :: 0 <= j < n && Newer(host, r, ds[j]) ==> ChangeVersion(ds[j]) <= before.sourceStateVersion
    ensures SameCandidate(before, r) && before.sourceStateVersion >= r.sourceStateVersion
  {
    hide CandidateIssue, StatusOk, Changes, Changed, ChangeVersion;
    if w :| Wins(host, r, ds, n, w) && before == Changed(host, r, ds[w]) {
      ChangedKeepsIdentity(host, r, ds[w]);
    }
  }

  lemma {:induction false} OutcomeStep(host: Host, r: Record, ds: seq<Delivery>, n: nat, before: Record)
    requires n < |ds| && Outcome(host, r, ds, n, before)
    ensures Changes(host, r, ds[n]) && ChangeVersion(ds[n]) > before.sourceStateVersion ==>
              Outcome(host, r, ds, n + 1, Changed(host, r, ds[n]))
    ensures !(Changes(host, r, ds[n]) && ChangeVersion(ds[n]) > before.sourceStateVersion) ==>
              Outcome(host, r, ds, n + 1, before)
  {
    hide CandidateIssue, StatusOk, Changes, Changed, ChangeVersion, CreatesCandidate, ValidEnvelope;
    OutcomeBounds(host, r, ds, n, before);
    if Changes(host, r, ds[n]) && ChangeVersion(ds[n]) > before.sourceStateVersion {
      assert Wins(host, r, ds, n + 1, n);
    } else if w :| Wins(host, r, ds, n, w) && before == Changed(host, r, ds[w]) {
      ChangedKeepsIdentity(host, r, ds[w]);
      assert Wins(host, r, ds, n + 1, w);
    }
  }

  lemma {:induction false} OutcomeAtStart(host: Host, r: Record, ds: seq<Delivery>)
    ensures Outcome(host, r, ds, 0, r)
  {
    hide Changes;
  }

  /** From a valid record, any sequence of deliveries whatever has this outcome, and every record
      on the way is valid. */
  lemma {:induction false} RunPrefixFromRecord(host: Host, r: Record, ds: seq<Delivery>, n: nat)
    requires ValidRecord(host, r) && HexDigests(host) && n <= |ds|
    ensures Run(host, Some(r), ds[..n]).Some?
    ensures ValidRecord(host, Run(host, Some(r), ds[..n]).value)
    ensures Outcome(host, r, ds, n, Run(host, Some(r), ds[..n]).value)
  {
    hide RecordIssue, Changes, Changed, Step, ChangeVersion, Outcome;
    if n == 0 {
      OutcomeAtStart(host, r, ds);
    } else {
      RunPrefixFromRecord(host, r, ds, n - 1);
      var before := Run(host, Some(r), ds[..n - 1]).value;
      assert ds[..n][..n - 1] == ds[..n - 1];
      OutcomeBounds(host, r, ds, n - 1, before);
      RunFromRecordStep(host, r, before, ds[n - 1]);
      OutcomeStep(host, r, ds, n - 1, before);
    }
  }

  lemma {:induction false} RunFromRecord(host: Host, r: Record, ds: seq<Delivery>)
    requires ValidRecord(host, r) && HexDigests(host)
    ensures Run(host, Some(r), ds).Some?
    ensures ValidRecord(host, Run(host, Some(r), ds).value)
    ensures Outcome(host, r, ds, |ds|, Run(host, Some(r), ds).value)
  {
    hide RecordIssue, Changes, Changed, Step, ChangeVersion;
    RunPrefixFromRecord(host, r, ds, |ds|);
    assert ds[..|ds|] == ds;
  }

  ghost predicate SameCandidate(a: Record, b: Record) {
    && a.candidateId == b.candidateId && a.businessId == b.businessId
    && a.candidateChecksum == b.candidateChecksum && a.payload == b.payload
  }

  /** One more delivery to a record of the same candidate. */
  lemma {:induction false} RunFromRecordStep(host: Host, r: Record, before: Record, d: Delivery)
    requires ValidRecord(host, before) && HexDigests(host) && SameCandidate(before, r)
    ensures Step(host, Some(before), d) ==
            Some(if Changes(host, r, d) && ChangeVersion(d) > before.sourceStateVersion then Changed(host, r, d)
              else before)
    ensures ValidRecord(host, Step(host, Some(before), d).value)
  {
    hide CandidateIssue, StatusOk, RecordIssue, EventEnvelopeIssue, Step;
    StepFromRecord(host, before, d);
    if Changes(host, before, d) && ChangeVersion(d) > before.sourceStateVersion {
      ChangedIsValid(host, before, d);
    }
  }

  lemma {:induction false} ChangedKeepsIdentity(host: Host, r: Record, d: Delivery)
    requires Changes(host, r, d)
    ensures SameCandidate(Changed(host, r, d), r) && Changed(host, r, d).sourceStateVersion == ChangeVersion(d)
  {
    hide CandidateIssue, StatusOk;
  }

  // ----- Runs from an empty store -----

  /** Delivery k is the first the reducer accepts as a created event. */
  ghost predicate FirstCreated(host: Host, ds: seq<Delivery>, k: int) {
    && 0 <= k < |ds|
    && CreatesCandidate(host, ds[k])
    && forall j :: 0 <= j < k ==> !CreatesCandidate(host, ds[j])
  }

  lemma {:induction false} RunBeforeCreated(host: Host, ds: seq<Delivery>)
    requires forall j :: 0 <= j < |ds| ==> !CreatesCandidate(host, ds[j])
    ensures Run(host, None, ds) == None
  {
    hide CreatesCandidate, Step;
    if ds != [] {
      var n := |ds| - 1;
      assert forall j :: 0 <= j < n ==> ds[..n][j] == ds[j];
      RunBeforeCreated(host, ds[..n]);
      StepFromNothing(host, ds[n]);
    }
  }

  lemma {:induction false} RunSplits(host: Host, ds: seq<Delivery>, k: nat)
    requires FirstCreated(host, ds, k)
    ensures Run(host, None, ds) == Run(host, Some(Created(host, ds[k])), ds[k + 1..])
    ensures Run(host, None, ds[..k + 1]) == Some(Created(host, ds[k]))
  {
    hide CreatesCandidate, Step, Created;
    assert forall j :: 0 <= j < k ==> ds[..k][j] == ds[j];
    RunBeforeCreated(host, ds[..k]);
    StepFromNothing(host, ds[k]);
    assert ds[..k + 1][..k] == ds[..k];
    RunAppend(host, None, ds[..k + 1], ds[k + 1..]);
    assert ds == ds[..k + 1] + ds[k + 1..];
  }

  ghost predicate UuidIdentities(d: Delivery) {
    && IsUuidValue(Get(Get(d.event, "payload"), "candidate_id"))
    && IsUuidValue(Get(Get(d.event, "payload"), "business_id"))
  }

  /** The candidate validator asks for non-empty identities, the record validator for UUIDs: the
      stored record is valid exactly when the candidate carries UUIDs. */
  lemma {:induction false} CreatedRecordValidIffUuid(host: Host, d: Delivery)
    requires CreatesCandidate(host, d) && HexDigests(host)
    ensures ValidRecord(host, Created(host, d)) <==> UuidIdentities(d)
  {
    var candidate := Get(d.event, "payload");
    CandidateFacts(host, candidate);
    ActiveStatusFields(candidate);
    ActiveStatusValid(host, candidate);
    hide CandidateIssue, StatusOk, ActiveStatusForCandidate;
  }

  /** A record that fails its own validation is stuck: every later delivery is rejected. */
  lemma {:induction false} InvalidRecordStuck(host: Host, r: Record, ds: seq<Delivery>)
    requires !ValidRecord(host, r)
    ensures Run(host, Some(r), ds) == Some(r)
  {
    hide RecordIssue, EventEnvelopeIssue, ReduceCreatedEvent, ReduceStateChangedEvent;
    if ds != [] {
      InvalidRecordStuck(host, r, ds[..|ds| - 1]);
    }
  }

  /** Along a whole run: the stored record is valid at every point after the first created event
      exactly when that event carried UUIDs. */
  lemma {:induction false} ReachableRecordValidIffUuid(host: Host, ds: seq<Delivery>, k: nat)
    requires FirstCreated(host, ds, k) && HexDigests(host)
    ensures Run(host, None, ds).Some?
    ensures ValidRecord(host, Run(host, None, ds).value) <==> UuidIdentities(ds[k])
  {
    hide CreatesCandidate, Changes, Created, Step, RecordIssue, UuidIdentities;
    RunSplits(host, ds, k);
    CreatedRecordValidIffUuid(host, ds[k]);
    var r, tail := Created(host, ds[k]), ds[k + 1..];
    if ValidRecord(host, r) {
      RunFromRecord(host, r, tail);
    } else {
      InvalidRecordStuck(host, r, tail);
    }
  }

  // ----- Convergence -----

  function Max(a: int, b: int): int {
    if a < b then b else a
  }

  /** The highest version among a record and the changes delivered to it. */
  ghost function HighestVersion(host: Host, r: Record, ds: seq<Delivery>): int {
    if ds == [] then r.sourceStateVersion
    else
      var head := HighestVersion(host, r, ds[..|ds| - 1]);
      if Changes(host, r, ds[|ds| - 1]) then Max(head, ChangeVersion(ds[|ds| - 1])) else head
  }

  lemma {:induction false} RunReachesHighestVersion(host: Host, r: Record, ds: seq<Delivery>)
    requires ValidRecord(host, r) && HexDigests(host)
    ensures Run(host, Some(r), ds).Some?
    ensures Run(host, Some(r), ds).value.sourceStateVersion == HighestVersion(host, r, ds)
  {
    hide RecordIssue, Changes, Changed, Step, ChangeVersion;
    RunFromRecord(host, r, ds);
    if ds != [] {
      var n := |ds| - 1;
      RunReachesHighestVersion(host, r, ds[..n]);
      RunFromRecord(host, r, ds[..n]);
      var before := Run(host, Some(r), ds[..n]).value;
      OutcomeBounds(host, r, ds[..n], n, before);
      RunFromRecordStep(host, r, before, ds[n]);
      if Changes(host, r, ds[n]) {
        ChangedKeepsIdentity(host, r, ds[n]);
      }
    }
  }

  /** At most one change event of the highest version. */
  ghost predicate OneHighestEvent(host: Host, r: Record, ds: seq<Delivery>, es: seq<Delivery>) {
    forall i, j ::
      && 0 <= i < |ds| && 0 <= j < |es|
      && Changes(host, r, ds[i]) && Changes(host, r, es[j])
      && ChangeVersion(ds[i]) == ChangeVersion(es[j]) == HighestVersion(host, r, ds)
      ==> ds[i].event == es[j].event
  }

  function ForgetReceipt(r: Record): Record {
    r.(receivedAt := "")
  }

  lemma {:induction false} TailsConverge(host: Host, r: Record, s: Record, ds: seq<Delivery>, es: seq<Delivery>)
    requires HexDigests(host) && ValidRecord(host, r) && ValidRecord(host, s)
    requires ForgetReceipt(r) == ForgetReceipt(s)
    requires OneHighestEvent(host, r, ds, es)
    requires HighestVersion(host, r, ds) == HighestVersion(host, s, es)
    ensures Run(host, Some(r), ds).Some? && Run(host, Some(s), es).Some?
    ensures ForgetReceipt(Run(host, Some(r), ds).value) == ForgetReceipt(Run(host, Some(s), es).value)
  {
    hide RecordIssue, ChangesCandidate, ChangedRecord, Step, ChangeVersion;
    RunFromRecord(host, r, ds);
    RunFromRecord(host, s, es);
    RunReachesHighestVersion(host, r, ds);
    RunReachesHighestVersion(host, s, es);
    var a, b := Run(host, Some(r), ds).value, Run(host, Some(s), es).value;
    if v :| Wins(host, r, ds, |ds|, v) && a == Changed(host, r, ds[v]) {
      ChangedKeepsIdentity(host, r, ds[v]);
      var w :| Wins(host, s, es, |es|, w) && b == Changed(host, s, es[w]);
      ChangedKeepsIdentity(host, s, es[w]);
      assert Changes(host, r, es[w]);
      ChangedAlike(host, r, ds[v], s, es[w]);
    } else if w :| Wins(host, s, es, |es|, w) && b == Changed(host, s, es[w]) {
      ChangedKeepsIdentity(host, s, es[w]);
    }
  }

  lemma {:induction false} ChangedAlike(host: Host, r: Record, d: Delivery, s: Record, e: Delivery)
    requires ForgetReceipt(r) == ForgetReceipt(s) && d.event == e.event
    requires Changes(host, r, d) && Changes(host, s, e)
    ensures ForgetReceipt(Changed(host, r, d)) == ForgetReceipt(Changed(host, s, e))
  {
    hide CandidateIssue, StatusOk;
  }

  /** Intake converges. Two delivery sequences with anything in them, in any order and with any
      duplicates, that store the same created event and later deliver changes of the same highest
      version end in the same record up to its receipt time, and that record is valid exactly when the
      created event carried UUIDs. */
  lemma {:induction false} IntakeConverges(host: Host, ds: seq<Delivery>, k: nat, es: seq<Delivery>, l: nat)
    requires HexDigests(host)
    requires FirstCreated(host, ds, k) && FirstCreated(host, es, l) && ds[k].event == es[l].event
    requires OneHighestEvent(host, Created(host, ds[k]), ds[k + 1..], es[l + 1..])
    requires HighestVersion(host, Created(host, ds[k]), ds[k + 1..]) == HighestVersion(host, Created(host, es[l]),
            es[l + 1..])
    ensures Run(host, None, ds).Some? && Run(host, None, es).Some?
    ensures ForgetReceipt(Run(host, None, ds).value) == ForgetReceipt(Run(host, None, es).value)
    ensures ValidRecord(host, Run(host, None, ds).value) <==> UuidIdentities(ds[k])
  {
    hide CreatesCandidate, Changes, ActiveStatusForCandidate, Step, RecordIssue, HighestVersion, OneHighestEvent;
    ReachableRecordValidIffUuid(host, ds, k);
    CreatedRecordValidIffUuid(host, ds[k]);
    CreatedRecordValidIffUuid(host, es[l]);
    RunSplits(host, ds, k);
    RunSplits(host, es, l);
    var r, s := Created(host, ds[k]), Created(host, es[l]);
    if UuidIdentities(ds[k]) {
      TailsConverge(host, r, s, ds[k + 1..], es[l + 1..]);
    } else {
      InvalidRecordStuck(host, r, ds[k + 1..]);
      InvalidRecordStuck(host, s, es[l + 1..]);
    }
  }

  // ----- What every reachable record keeps -----

  lemma {:induction false} FirstCreatedExists(host: Host, ds: seq<Delivery>, n: nat) returns (k: nat)
    requires n <= |ds| && exists j :: 0 <= j < n && CreatesCandidate(host, ds[j])
    ensures FirstCreated(host, ds, k) && k < n
  {
    hide CreatesCandidate;
    if exists j :: 0 <= j < n - 1 && CreatesCandidate(host, ds[j]) {
      k := FirstCreatedExists(host, ds, n - 1);
    } else {
      k := n - 1;
    }
  }

  lemma {:induction false} TailOfPrefix(ds: seq<Delivery>, k: nat, n: nat)
    requires k <= n <= |ds|
    ensures ds[..n][k..] == ds[k..][..n - k]
  {
  }

  /** In every record a run from the empty store reaches, active means version 1, the payload is
      the one first created, and no earlier point of the run had another candidate or a higher
      version. */
  lemma {:induction false} ReachableRecord(host: Host, ds: seq<Delivery>, n: nat) returns (k: nat)
    requires HexDigests(host) && n <= |ds| && Run(host, None, ds).Some?
    ensures FirstCreated(host, ds, k)
    ensures var r := Run(host, None, ds).value;
            && SameCandidate(r, Created(host, ds[k]))
            && r.payload == Get(ds[k].event, "payload")
            && r.sourceStateVersion >= 1
            && (r.sourceState == "active" <==> r.sourceStateVersion == 1)
    ensures Run(host, None, ds[..n]).Some? <==> k < n
    ensures k < n ==> var r, p := Run(host, None, ds).value, Run(host, None, ds[..n]).value;
                      SameCandidate(p, r) && p.sourceStateVersion <= r.sourceStateVersion
  {
    hide CreatesCandidate, Changes, ActiveStatusForCandidate, Step, RecordIssue, ChangeVersion, Run;
    if forall j :: 0 <= j < |ds| ==> !CreatesCandidate(host, ds[j]) {
      RunBeforeCreated(host, ds);
      assert false;
    }
    k := FirstCreatedExists(host, ds, |ds|);
    var r0, tail := Created(host, ds[k]), ds[k + 1..];
    RunSplits(host, ds, k);
    ReachableFrom(host, r0, tail, |tail|);
    assert tail[..|tail|] == tail;
    if k < n {
      assert FirstCreated(host, ds[..n], k);
      RunSplits(host, ds[..n], k);
      TailOfPrefix(ds, k + 1, n);
      ReachableFrom(host, r0, tail, n - k - 1);
    } else {
      assert forall j :: 0 <= j < n ==> ds[..n][j] == ds[j];
      RunBeforeCreated(host, ds[..n]);
    }
  }

  /** The versions along a run from a created record only grow, and leave 1 with the active state. */
  lemma {:induction false} ReachableFrom(host: Host, r: Record, ds: seq<Delivery>, n: nat)
    requires HexDigests(host) && n <= |ds|
    requires r.sourceStateVersion == 1 && r.sourceState == "active"
    ensures Run(host, Some(r), ds).Some? && Run(host, Some(r), ds[..n]).Some?
    ensures var a, b := Run(host, Some(r), ds[..n]).value, Run(host, Some(r), ds).value;
            && SameCandidate(a, r) && SameCandidate(b, r)
            && 1 <= a.sourceStateVersion <= b.sourceStateVersion
            && (b.sourceState == "active" <==> b.sourceStateVersion == 1)
  {
    hide Changes, Changed, Step, RecordIssue, ChangeVersion;
    assert ds == ds[..n] + ds[n..];
    RunAppend(host, Some(r), ds[..n], ds[n..]);
    if ValidRecord(host, r) {
      RunFromRecord(host, r, ds[..n]);
      var a := Run(host, Some(r), ds[..n]).value;
      OutcomeBounds(host, r, ds[..n], n, a);
      RunFromRecord(host, a, ds[n..]);
      OutcomeBounds(host, a, ds[n..], |ds| - n, Run(host, Some(r), ds).value);
      RunFromRecord(host, r, ds);
      OutcomeState(host, r, ds, Run(host, Some(r), ds).value);
    } else {
      InvalidRecordStuck(host, r, ds[..n]);
      InvalidRecordStuck(host, r, ds);
    }
  }

  lemma {:induction false} OutcomeState(host: Host, r: Record, ds: seq<Delivery>, result: Record)
    requires Outcome(host, r, ds, |ds|, result) && r.sourceStateVersion == 1 && r.sourceState == "active"
    ensures result.sourceState == "active" <==> result.sourceStateVersion == 1
  {
    hide CandidateIssue;
    if w :| Wins(host, r, ds, |ds|, w) && result == Changed(host, r, ds[w]) {
      hide StatusOk;
    }
  }
}
