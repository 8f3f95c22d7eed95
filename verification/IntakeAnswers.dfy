/** What the intake reducer answers to a delivery: disposition, code and record, in terms of the documents. */
module IntakeAnswers {
  import opened Text
  import opened PublishingCanonical
  import opened Fingerprints
  import opened Documents
  import opened PublicationCandidate
  import opened CandidateIntake

  predicate IsCreatedEvent(d: Delivery) {
    Get(d.event, "event_type") == Str("content.publication_candidate.created.v1")
  }

  predicate IsChangeEvent(d: Delivery) {
    Get(d.event, "event_type") == Str("content.publication_candidate.state_changed.v1")
  }

  /** A well-formed created event, and a well-formed revocation or replacement, of whatever candidate. */
  ghost predicate CreatedForm(host: Host, d: Delivery) {
    ValidEnvelope(host, d) && IsCreatedEvent(d) && ValidCandidate(host, Get(d.event, "payload"))
  }

  ghost predicate ChangeForm(host: Host, d: Delivery) {
    && ValidEnvelope(host, d) && IsChangeEvent(d)
    && StatusOk(host, Get(d.event, "payload")) && Get(Get(d.event, "payload"), "candidate_state") != Str("active")
  }

  predicate NamesIdentity(r: Record, d: Delivery) {
    && Get(Get(d.event, "payload"), "candidate_id") == Str(r.candidateId)
    && Get(Get(d.event, "payload"), "business_id") == Str(r.businessId)
  }

  predicate NamesChecksum(r: Record, d: Delivery) {
    Get(Get(d.event, "payload"), "candidate_checksum") == Str(r.candidateChecksum)
  }

  ghost predicate HasDigest(host: Host, d: Delivery) {
    ComputePublishingSha256(host, d.event).Some?
  }

  /** Of this candidate, and of the version that is stored. */
  ghost predicate IsCurrent(host: Host, r: Record, d: Delivery) {
    || (CreatedForm(host, d) && NamesIdentity(r, d) && r.sourceStateVersion == 1)
    || (ChangeForm(host, d) && NamesIdentity(r, d) && NamesChecksum(r, d) && ChangeVersion(d) == r.sourceStateVersion)
  }

  ghost predicate IsOlder(host: Host, r: Record, d: Delivery) {
    || (CreatedForm(host, d) && HasDigest(host, d) && NamesIdentity(r, d) && r.sourceStateVersion > 1)
    || (ChangeForm(host, d) && NamesIdentity(r, d) && NamesChecksum(r, d) && ChangeVersion(d) < r.sourceStateVersion)
  }

  ghost predicate IsNewer(host: Host, r: Record, d: Delivery) {
    ChangeForm(host, d) && NamesIdentity(r, d) && NamesChecksum(r, d) && ChangeVersion(d) > r.sourceStateVersion
  }

  /** Of another candidate. */
  ghost predicate IsForeign(host: Host, r: Record, d: Delivery) {
    || (CreatedForm(host, d) && HasDigest(host, d) && !NamesIdentity(r, d))
    || (ChangeForm(host, d) && !(NamesIdentity(r, d) && NamesChecksum(r, d)))
  }

  ghost predicate SameDigest(host: Host, r: Record, d: Delivery) {
    ComputePublishingSha256(host, d.event) == Some(r.eventFingerprint)
  }

  function Answer(host: Host, stored: Option<Record>, d: Delivery): IntakeResult {
    ReducePublicationCandidateEventV1(host, stored, d.event, d.receivedAt)
  }

  /** Neither of the two forms, and with which code. */
  ghost predicate IsMalformed(host: Host, d: Delivery, code: PublishingCode) {
    if !d.event.Obj? then code == CandidateInvalid
    else if !NoExtraField(d.event, EVENT_FIELDS) then code == ContractUnsupported
    else if !ValidEnvelope(host, d) then code == CandidateInvalid
    else if IsCreatedEvent(d) then !ValidCandidate(host, Get(d.event, "payload")) && code == PayloadCode(host, d)
    else if IsChangeEvent(d) then !ChangeForm(host, d) && code == CandidateInvalid
    else code == ContractUnsupported
  }

  /** The code of a candidate that fails its own checks. */
  ghost function PayloadCode(host: Host, d: Delivery): PublishingCode {
    var issue := CandidateIssue(host, Get(d.event, "payload"));
    if issue == Some(CandidateTampered) then CandidateTamperedCode
    else if issue == Some(CandidateRevoked) then CandidateRevokedCode
    else CandidateInvalid
  }

  lemma {:induction false} TypesDiffer(d: Delivery)
    ensures !(IsCreatedEvent(d) && IsChangeEvent(d))
  {
    hide Get;
    assert |"content.publication_candidate.created.v1"| != |"content.publication_candidate.state_changed.v1"|;
  }

  lemma {:induction false} CreatedAnswered(host: Host, r: Record, d: Delivery)
    requires CreatedForm(host, d) && r.sourceStateVersion >= 1
    ensures ReduceCreatedEvent(host, Some(r), d.event, d.receivedAt) ==
            if !HasDigest(host, d) then TypeError
            else if !NamesIdentity(r, d) then Result(RejectedConflict, Some(r), Some(CandidateTamperedCode))
            else if r.sourceStateVersion != 1 then Result(RejectedStale, Some(r), Some(StateConflict))
            else if SameDigest(host, r, d) then Result(IdenticalReplay, Some(r), None)
            else Result(RejectedConflict, Some(r), Some(CandidateTamperedCode))
  {
    hide Get, CandidateIssue, ComputePublishingSha256, NoExtraField, IsUuidValue, IsIsoText;
  }

  lemma {:induction false} ChangeAnswered(host: Host, r: Record, d: Delivery)
    requires ChangeForm(host, d)
    ensures ReduceStateChangedEvent(host, Some(r), d.event, d.receivedAt) ==
            if !(NamesIdentity(r, d) && NamesChecksum(r, d)) then
              Result(RejectedConflict, Some(r), Some(CandidateTamperedCode))
            else if ChangeVersion(d) < r.sourceStateVersion then Result(RejectedStale, Some(r), Some(StateConflict))
            else if !HasDigest(host, d) then TypeError
            else if ChangeVersion(d) > r.sourceStateVersion then Result(Applied, Some(Changed(host, r, d)), None)
            else if SameDigest(host, r, d) then Result(IdenticalReplay, Some(r), None)
            else Result(RejectedConflict, Some(r), Some(StateConflict))
  {
    hide Get, StatusOk, ComputePublishingSha256, NoExtraField, IsUuidValue, IsIsoText;
  }

  lemma {:induction false} MalformedAnswered(host: Host, r: Record, d: Delivery)
    requires ValidRecord(host, r) && !CreatedForm(host, d) && !ChangeForm(host, d)
    ensures exists code :: IsMalformed(host, d, code) && Answer(host, Some(r), d) == Result(RejectedInvalid, Some(r),
            Some(code))
  {
    hide Get, StatusOk, CandidateIssue, RecordIssue, NoExtraField, IsUuidValue, IsIsoText, ComputePublishingSha256;
    TypesDiffer(d);
    var code :=
      if !d.event.Obj? then CandidateInvalid
      else if !NoExtraField(d.event, EVENT_FIELDS) then ContractUnsupported
      else if !ValidEnvelope(host, d) then CandidateInvalid
      else if IsCreatedEvent(d) then PayloadCode(host, d)
      else if IsChangeEvent(d) then CandidateInvalid
      else ContractUnsupported;
    assert IsMalformed(host, d, code);
    assert Answer(host, Some(r), d) == Result(RejectedInvalid, Some(r), Some(code));
  }

  lemma {:induction false} FormedGoesOn(host: Host, r: Record, d: Delivery)
    requires ValidRecord(host, r)
    ensures CreatedForm(host, d) ==> Answer(host, Some(r), d) == ReduceCreatedEvent(host, Some(r), d.event,
            d.receivedAt)
    ensures ChangeForm(host, d) ==> Answer(host, Some(r), d) == ReduceStateChangedEvent(host, Some(r), d.event,
            d.receivedAt)
  {
    hide Get, StatusOk, CandidateIssue, RecordIssue, NoExtraField, IsUuidValue, IsIsoText, ComputePublishingSha256,
         ReduceCreatedEvent, ReduceStateChangedEvent;
    TypesDiffer(d);
  }

  /** Every answer to a valid record. A delivery is applied exactly when it is newer, a replay exactly when it
      is of the stored version with the stored event's digest, stale exactly when it is older, in conflict
      exactly when it is of another candidate or of the stored version with another digest, and invalid
      exactly when it has neither form; it throws exactly when it must be digested and cannot be. */
  lemma {:induction false} DeliveryAnswered(host: Host, r: Record, d: Delivery)
    requires ValidRecord(host, r)
    ensures var a := Answer(host, Some(r), d);
            && (a == TypeError <==>
                  !HasDigest(host, d) && ((CreatedForm(host, d)) || IsNewer(host, r, d) || IsCurrent(host, r, d)))
            && (a.Result? && a.disposition == Applied <==> IsNewer(host, r, d) && HasDigest(host, d))
            && (a.Result? && a.disposition == IdenticalReplay <==> IsCurrent(host, r, d) && SameDigest(host, r, d))
            && (a.Result? && a.disposition == RejectedStale <==> IsOlder(host, r, d))
            && (a.Result? && a.disposition == RejectedConflict <==>
                  || IsForeign(host, r, d)
                  || (IsCurrent(host, r, d) && HasDigest(host, d) && !SameDigest(host, r, d)))
            && (a.Result? && a.disposition == RejectedInvalid <==> !CreatedForm(host, d) && !ChangeForm(host, d))
    ensures var a := Answer(host, Some(r), d);
            a.Result? ==>
              && a.record == Some(if a.disposition == Applied then Changed(host, r, d) else r)
              && (a.issue.None? <==> a.disposition == Applied || a.disposition == IdenticalReplay)
              && (a.disposition == RejectedStale ==> a.issue == Some(StateConflict))
              && (a.disposition == RejectedConflict ==>
                    a.issue == Some(if IsCurrent(host, r, d) && IsChangeEvent(d) then StateConflict
                      else CandidateTamperedCode))
              && (a.disposition == RejectedInvalid ==> IsMalformed(host, d, a.issue.value))
  {
    hide Get, ReducePublicationCandidateEventV1, ReduceCreatedEvent, ReduceStateChangedEvent, ValidEnvelope, StatusOk,
         CandidateIssue, ComputePublishingSha256, ChangedRecord, NamesIdentity, NamesChecksum, IsMalformed,
         ChangeVersion, Answer;
    TypesDiffer(d);
    ValidVersion(host, r);
    hide RecordIssue;
    FormedGoesOn(host, r, d);
    if CreatedForm(host, d) {
      CreatedAnswered(host, r, d);
    } else if ChangeForm(host, d) {
      ChangeAnswered(host, r, d);
    } else {
      MalformedAnswered(host, r, d);
    }
  }

  lemma {:induction false} ValidVersion(host: Host, r: Record)
    requires ValidRecord(host, r)
    ensures r.sourceStateVersion >= 1
  {
  }

  // ----- Nothing stored, or something invalid -----

  /** To an empty store: applied exactly on a created event that can be digested; a change has nothing to change. */
  lemma {:induction false} EmptyStoreAnswered(host: Host, d: Delivery)
    ensures var a := Answer(host, None, d);
            && (a == TypeError <==> CreatedForm(host, d) && !HasDigest(host, d))
            && (CreatedForm(host, d) && HasDigest(host, d) ==>
                  CreatesCandidate(host, d) && a == Result(Applied, Some(Created(host, d)), None))
            && (ValidEnvelope(host, d) && IsChangeEvent(d) ==> a == Result(RejectedConflict, None, Some(StateConflict)))
            && (!CreatedForm(host, d) && !(ValidEnvelope(host, d) && IsChangeEvent(d)) ==>
                  a.Result? && a.disposition == RejectedInvalid && a.record == None
                  && a.issue.Some? && IsMalformed(host, d, a.issue.value))
  {
    hide Get, CandidateIssue, StatusOk, NoExtraField, IsUuidValue, IsIsoText, ComputePublishingSha256, CreatedRecord;
    TypesDiffer(d);
  }

  /** A record that fails its own checks is reported as such to every delivery with a valid envelope. */
  lemma {:induction false} InvalidRecordAnswered(host: Host, r: Record, d: Delivery)
    requires !ValidRecord(host, r)
    ensures var a := Answer(host, Some(r), d);
            && a.Result? && a.disposition == RejectedInvalid && a.record == Some(r) && a.issue.Some?
            && (if ValidEnvelope(host, d) then a.issue == RecordIssue(host, r) else IsMalformed(host, d, a.issue.value))
  {
    hide Get, RecordIssue, NoExtraField, IsUuidValue, IsIsoText, ReduceCreatedEvent, ReduceStateChangedEvent,
         CandidateIssue;
  }

  // ----- What the stored record tells -----

  /** The record tells this created event: its id, digest and time, version 1, the active status. */
  ghost predicate TellsCreated(host: Host, r: Record, d: Delivery) {
    && CreatesCandidate(host, d)
    && Str(r.eventId) == Get(d.event, "event_id") && SameDigest(host, r, d) && r.receivedAt == d.receivedAt
    && r.sourceState == "active" && r.sourceStateVersion == 1
    && r.sourceStatus == ActiveStatusForCandidate(Get(d.event, "payload"))
  }

  /** The record tells this change: its id, digest and time, and the state, version and status it carries. */
  ghost predicate TellsChange(host: Host, r: Record, d: Delivery) {
    && ChangeForm(host, d) && NamesIdentity(r, d) && NamesChecksum(r, d)
    && Str(r.eventId) == Get(d.event, "event_id") && SameDigest(host, r, d) && r.receivedAt == d.receivedAt
    && Str(r.sourceState) == Get(Get(d.event, "payload"), "candidate_state")
    && Num(r.sourceStateVersion) == Get(Get(d.event, "payload"), "state_version")
    && r.sourceStatus == Get(d.event, "payload")
  }

  /** The record holds this candidate. */
  predicate HoldsCandidate(r: Record, d: Delivery) {
    && r.payload == Get(d.event, "payload") && NamesIdentity(r, d) && NamesChecksum(r, d)
  }

  lemma {:induction false} CreatedTells(host: Host, d: Delivery)
    requires CreatesCandidate(host, d)
    ensures TellsCreated(host, Created(host, d), d) && HoldsCandidate(Created(host, d), d)
  {
    hide Get, CandidateIssue, ComputePublishingSha256, ActiveStatusForCandidate, NoExtraField, IsUuid;
    CandidateFacts(host, Get(d.event, "payload"));
  }

  lemma {:induction false} ChangedTells(host: Host, r: Record, d: Delivery)
    requires Changes(host, r, d)
    ensures TellsChange(host, Changed(host, r, d), d)
  {
    hide Get, ComputePublishingSha256, OnlyFields, NoExtraField, IsUuid, IsDigest, IsRequiredText, ReplacementOk;
  }

  /** In every valid record that a run reaches, candidate and identities are those of the created event first
      applied, and everything else is told by one delivery: that event or a later change. */
  lemma {:induction false} RecordTells(host: Host, ds: seq<Delivery>) returns (k: nat, w: nat)
    requires HexDigests(host) && Run(host, None, ds).Some? && ValidRecord(host, Run(host, None, ds).value)
    ensures FirstCreated(host, ds, k) && k <= w < |ds|
    ensures HoldsCandidate(Run(host, None, ds).value, ds[k])
    ensures if w == k then TellsCreated(host, Run(host, None, ds).value, ds[w])
            else TellsChange(host, Run(host, None, ds).value, ds[w])
  {
    hide CreatesCandidate, Changes, Created, Changed, Step, RecordIssue, UuidIdentities, ChangeVersion, TellsCreated,
         TellsChange, Get;
    k := ReachableRecord(host, ds, |ds|);
    w := k;
    RunSplits(host, ds, k);
    ReachableRecordValidIffUuid(host, ds, k);
    CreatedRecordValidIffUuid(host, ds[k]);
    var first, tail := Created(host, ds[k]), ds[k + 1..];
    CreatedTells(host, ds[k]);
    RunFromRecord(host, first, tail);
    var r := Run(host, None, ds).value;
    if i :| Wins(host, first, tail, |tail|, i) && r == Changed(host, first, tail[i]) {
      w := k + 1 + i;
      assert ds[w] == tail[i];
      ChangedTells(host, first, tail[i]);
      ChangedKeepsIdentity(host, first, tail[i]);
    }
  }

  // ----- Replays are the stored document again -----

  lemma {:induction false} EquivEvents(a: Value, b: Value)
    requires WellFormed(a) && WellFormed(b) && Equiv(a, b)
    ensures Get(a, "event_type").Str? ==> Get(b, "event_type") == Get(a, "event_type")
    ensures WellFormed(Get(a, "payload")) && WellFormed(Get(b, "payload"))
            && Equiv(Get(a, "payload"), Get(b, "payload"))
  {
    hide Get, WellFormed, Equiv;
    EquivReads(a, b, "event_type");
    EquivReads(a, b, "payload");
    GetWellFormed(a, "payload");
    GetWellFormed(b, "payload");
    if Get(a, "event_type").Str? {
      PlainIsEqual(Get(a, "event_type"), Get(b, "event_type"));
    }
  }

  lemma {:induction false} SameNames(r: Record, d: Delivery, d': Delivery)
    requires WellFormed(Get(d.event, "payload")) && WellFormed(Get(d'.event, "payload"))
    requires Equiv(Get(d.event, "payload"), Get(d'.event, "payload"))
    ensures NamesIdentity(r, d) ==> NamesIdentity(r, d')
    ensures NamesChecksum(r, d) ==> NamesChecksum(r, d')
    ensures Get(Get(d.event, "payload"), "state_version").Num? ==> ChangeVersion(d') == ChangeVersion(d)
  {
    hide Get, WellFormed, Equiv;
    var a, b := Get(d.event, "payload"), Get(d'.event, "payload");
    if NamesIdentity(r, d) {
      SamePrimitive(a, b, "candidate_id");
      SamePrimitive(a, b, "business_id");
    }
    if NamesChecksum(r, d) {
      SamePrimitive(a, b, "candidate_checksum");
    }
    if Get(a, "state_version").Num? {
      SamePrimitive(a, b, "state_version");
    }
  }

  /** The stored event again, in any key order, is of the stored version. */
  lemma {:induction false} SameEventIsCurrent(host: Host, r: Record, k: Delivery, w: Delivery, d: Delivery)
    requires WellFormed(w.event) && WellFormed(d.event) && Equiv(w.event, d.event)
    requires CreatedForm(host, d) || ChangeForm(host, d)
    requires HoldsCandidate(r, k)
    requires (w == k && TellsCreated(host, r, w)) || TellsChange(host, r, w)
    ensures IsCurrent(host, r, d)
  {
    hide Get, WellFormed, Equiv, CandidateIssue, StatusOk, EventEnvelopeIssue, ComputePublishingSha256, SameDigest,
         NamesIdentity, NamesChecksum, ChangeVersion, ActiveStatusForCandidate;
    TypesDiffer(w);
    TypesDiffer(d);
    EquivEvents(w.event, d.event);
    SameNames(r, w, d);
    if TellsChange(host, r, w) {
      VersionOf(w);
    }
  }

  lemma {:induction false} VersionOf(d: Delivery)
    ensures Get(Get(d.event, "payload"), "state_version").Num? ==>
              Num(ChangeVersion(d)) == Get(Get(d.event, "payload"), "state_version")
  {
    hide Get;
  }

  /** At every point of every run: a well-formed delivery is answered as an identical replay exactly when its
      event is the event the record was last stored from, up to key order, or collides with it while it is
      of the stored candidate and version. */
  lemma {:induction false} ReplayIsLastStored(host: Host, ds: seq<Delivery>, d: Delivery) returns (w: nat)
    requires HexDigests(host) && Run(host, None, ds).Some? && ValidRecord(host, Run(host, None, ds).value)
    requires WellFormed(d.event) && forall i :: 0 <= i < |ds| ==> WellFormed(ds[i].event)
    requires CreatedForm(host, d) || ChangeForm(host, d)
    ensures w < |ds| && Str(Run(host, None, ds).value.eventId) == Get(ds[w].event, "event_id")
    ensures var r := Run(host, None, ds).value;
            var a := Answer(host, Some(r), d);
            a.Result? && a.disposition == IdenticalReplay <==>
            || Equiv(ds[w].event, d.event)
            || (IsCurrent(host, r, d) && FingerprintCollision(host, ds[w].event, d.event))
  {
    hide Get, Run, WellFormed, Equiv, Answer, RecordIssue, IsCurrent, CandidateIssue, StatusOk, EventEnvelopeIssue,
         ComputePublishingSha256, FingerprintCollision, FirstCreated, HoldsCandidate, NamesIdentity, NamesChecksum,
         Canonicalize, ActiveStatusForCandidate, IsCreatedEvent, IsChangeEvent;
    var k;
    k, w := RecordTells(host, ds);
    var r := Run(host, None, ds).value;
    DeliveryAnswered(host, r, d);
    var stored := ds[w].event;
    assert ComputePublishingSha256(host, stored) == Some(r.eventFingerprint);
    if HasDigest(host, d) {
      FingerprintBinds(host, stored, d.event);
    }
    if Equiv(stored, d.event) {
      EquivHasDigest(host, stored, d.event);
      FingerprintBinds(host, stored, d.event);
      SameEventIsCurrent(host, r, ds[k], ds[w], d);
    }
    CollisionHasDigest(host, stored, d.event);
  }

  lemma {:induction false} EquivHasDigest(host: Host, a: Value, b: Value)
    requires WellFormed(a) && WellFormed(b) && Equiv(a, b) && ComputePublishingSha256(host, a).Some?
    ensures ComputePublishingSha256(host, b).Some?
  {
    CanonicalizeThrows(a);
    EquivKeepsSerializable(a, b);
    CanonicalizeThrows(b);
  }

  lemma {:induction false} CollisionHasDigest(host: Host, a: Value, b: Value)
    ensures FingerprintCollision(host, a, b) ==> ComputePublishingSha256(host, b).Some?
  {
    hide Canonicalize;
  }
}
