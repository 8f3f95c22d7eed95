/** Signed publishing envelopes: signing (publishing-envelope.ts) and the common checks on
    receipt (validateEnvelopeCommon of publishing-policy.ts). */
module PublishingEnvelope {
  import opened Text
  import opened PublishingCanonical
  import opened Fingerprints
  import opened Documents
  import opened PublicationCandidate
  import opened CandidateIntake

  const SIGNATURE_ALGORITHM := "hmac-sha256"
  const TOLERANCE_MILLISECONDS := 300000

  datatype UnsignedEnvelope = UnsignedEnvelope(
    contractVersion: string, messageId: string, sentAt: string, nonce: string, keyId: string, body: Value)

  datatype SignedEnvelope = SignedEnvelope(
    contractVersion: string, messageId: string, sentAt: string, nonce: string, keyId: string,
    signatureAlgorithm: string, bodySha256: string, signature: string, body: Value,
    /** Whether its keys pass the extra-field test. */
    keysPass: bool)

  datatype Context = Context(secret: string, expectedKeyId: string, now: string, seenNonces: set<string>)

  datatype EnvelopeCode = ContractUnsupportedIssue | Unauthorized | TimestampInvalid | NonceReplayed

  /** canonicalPublishingSignatureInput: the fields joined by newlines. */
  function SignatureInput(contractVersion: string, sentAt: string, nonce: string, bodySha256: string): string {
    SIGNATURE_ALGORITHM + "\n" + contractVersion + "\n" + sentAt + "\n" + nonce + "\n" + bodySha256
  }

  function ComputeSignature(host: Host, input: string, secret: string): string {
    host.hmacSha256(secret, input)
  }

  /** signPublishingEnvelope; None is the TypeError of canonicalizing the body. */
  function SignPublishingEnvelope(host: Host, e: UnsignedEnvelope, secret: string): Option<SignedEnvelope> {
    match ComputePublishingSha256(host, e.body)
    case None => None
    case Some(digest) =>
      Some(SignedEnvelope(e.contractVersion, e.messageId, e.sentAt, e.nonce, e.keyId, SIGNATURE_ALGORITHM, digest,
                          ComputeSignature(host, SignatureInput(e.contractVersion, e.sentAt, e.nonce, digest), secret),
                          e.body, true))
  }

  /** Both digests are lower-case hexadecimal, so comparing their bytes is comparing their texts. */
  predicate IsPublishingSignatureValid(host: Host, input: string, signature: string, secret: string) {
    IsSha256(signature) && ComputeSignature(host, input, secret) == signature
  }

  predicate TimestampOk(host: Host, sentAt: string, now: string) {
    && IsIsoText(host, sentAt) && IsIsoText(host, now)
    && -TOLERANCE_MILLISECONDS <= host.dateParse(now).value - host.dateParse(sentAt).value <= TOLERANCE_MILLISECONDS
  }

  predicate NonceOk(nonce: string) {
    IsNonEmptyText(nonce) && Utf16Length(nonce) >= 16
  }

  predicate AuthenticationComplete(e: SignedEnvelope, context: Context) {
    && IsNonEmptyText(e.keyId) && e.keyId == context.expectedKeyId
    && e.signatureAlgorithm == SIGNATURE_ALGORITHM
    && IsSha256(e.bodySha256) && IsSha256(e.signature)
  }

  predicate SignatureOk(host: Host, e: SignedEnvelope, context: Context) {
    && AuthenticationComplete(e, context)
    && ComputePublishingSha256(host, e.body) == Some(e.bodySha256)
    && IsPublishingSignatureValid(host, SignatureInput(e.contractVersion, e.sentAt, e.nonce, e.bodySha256),
                                  e.signature, context.secret)
  }

  predicate EnvelopeValid(host: Host, e: SignedEnvelope, expectedContract: string, context: Context) {
    && e.keysPass
    && e.contractVersion == expectedContract
    && IsUuid(e.messageId)
    && TimestampOk(host, e.sentAt, context.now)
    && NonceOk(e.nonce)
    && e.nonce !in context.seenNonces
    && SignatureOk(host, e, context)
  }

  // ----- Untyped envelopes -----

  const ENVELOPE_FIELDS := {
    "contract_version", "message_id", "sent_at", "nonce", "key_id", "signature_algorithm", "body_sha256", "signature",
    "body"
  }

  /** String(value). */
  function AsText(host: Host, v: Value): string {
    if v.Str? then v.s else host.toText(v)
  }

  /** What the receiver reads in an object: what is signed is read as text whatever it is, and of the rest
      only texts can pass. */
  function EnvelopeOf(host: Host, v: Value): SignedEnvelope
    requires v.Obj?
  {
    SignedEnvelope(AsText(host, Get(v, "contract_version")), TextOf(Get(v, "message_id")),
      AsText(host, Get(v, "sent_at")),
                   AsText(host, Get(v, "nonce")), TextOf(Get(v, "key_id")), TextOf(Get(v, "signature_algorithm")),
                   TextOf(Get(v, "body_sha256")), TextOf(Get(v, "signature")), Get(v, "body"),
                     NoExtraField(v, ENVELOPE_FIELDS))
  }

  predicate SentAsText(v: Value) {
    Get(v, "contract_version").Str? && Get(v, "sent_at").Str? && Get(v, "nonce").Str?
  }

  /** validateEnvelopeCommon on any value; None is the TypeError of canonicalizing the body, which is reached
      only when the authentication fields are complete. */
  method ValidateEnvelopeCommon(host: Host, v: Value, expectedContract: string, context: Context)
    returns (result: Option<seq<EnvelopeCode>>)
    ensures result == Some([]) <==>
            v.Obj? && SentAsText(v)
            && EnvelopeValid(host, EnvelopeOf(host, v), expectedContract, context)
    ensures !v.Obj? ==> result == Some([Unauthorized])
    ensures v.Obj? ==>
              var e := EnvelopeOf(host, v);
              && (result.None? <==> AuthenticationComplete(e, context) && ComputePublishingSha256(host, e.body).None?)
              && (result.Some? ==>
                    && (ContractUnsupportedIssue in result.value <==>
                       !e.keysPass
                       || Get(v, "contract_version") != Str(expectedContract))
                    && (Unauthorized in result.value <==>
                          !IsUuid(e.messageId) || !Get(v, "nonce").Str? || !NonceOk(e.nonce)
                            || !SignatureOk(host, e, context))
                    && (TimestampInvalid in result.value <==>
                       !Get(v, "sent_at").Str?
                       || !TimestampOk(host, e.sentAt, context.now))
                    && (NonceReplayed in result.value <==>
                          Get(v, "nonce").Str? && NonceOk(e.nonce) && e.nonce in context.seenNonces))
  {
    hide Get, NoExtraField, ComputePublishingSha256, TimestampOk, NonceOk, IsUuid, SignatureOk, IsSha256,
         IsNonEmptyText;
    if !v.Obj? {
      return Some([Unauthorized]);
    }
    var e := EnvelopeOf(host, v);
    SignatureNeedsBody(host, e, context);
    var issues := CheckFields(host, v, expectedContract, context);
    if || !IsNonEmptyText(e.keyId) || e.keyId != context.expectedKeyId
       || e.signatureAlgorithm != SIGNATURE_ALGORITHM
       || !IsSha256(e.bodySha256) || !IsSha256(e.signature) {
      return Some(issues + [Unauthorized]);
    }
    var ofBody := CheckBody(host, e, context);
    if ofBody.None? {
      return None;
    }
    return Some(issues + ofBody.value);
  }

  lemma {:induction false} SignatureNeedsBody(host: Host, e: SignedEnvelope, context: Context)
    ensures SignatureOk(host, e, context) ==>
            AuthenticationComplete(e, context)
            && ComputePublishingSha256(host, e.body).Some?
  {
  }

  /** The fields before the authentication. */
  method CheckFields(
    host: Host, v: Value, expectedContract: string, context: Context) returns (issues: seq<EnvelopeCode>)
    requires v.Obj?
    ensures var e := EnvelopeOf(host, v);
            && (ContractUnsupportedIssue in issues <==>
               !e.keysPass
               || Get(v, "contract_version") != Str(expectedContract))
            && (Unauthorized in issues <==> !IsUuid(e.messageId) || !Get(v, "nonce").Str? || !NonceOk(e.nonce))
            && (TimestampInvalid in issues <==> !Get(v, "sent_at").Str? || !TimestampOk(host, e.sentAt, context.now))
            && (NonceReplayed in issues <==> Get(v, "nonce").Str? && NonceOk(e.nonce) && e.nonce in context.seenNonces)
            && (issues == [] <==>
                  && e.keysPass && Get(v, "contract_version") == Str(expectedContract) && IsUuid(e.messageId)
                  && Get(v, "sent_at").Str? && TimestampOk(host, e.sentAt, context.now)
                  && Get(v, "nonce").Str? && NonceOk(e.nonce) && e.nonce !in context.seenNonces)
  {
    hide Get, NoExtraField, TimestampOk, NonceOk, IsUuid;
    var e := EnvelopeOf(host, v);
    issues := [];
    if !e.keysPass {
      issues := issues + [ContractUnsupportedIssue];
    }
    if Get(v, "contract_version") != Str(expectedContract) {
      issues := issues + [ContractUnsupportedIssue];
    }
    if !IsUuid(e.messageId) {
      issues := issues + [Unauthorized];
    }
    if !Get(v, "sent_at").Str? || !TimestampOk(host, e.sentAt, context.now) {
      issues := issues + [TimestampInvalid];
    }
    if !Get(v, "nonce").Str? || !NonceOk(e.nonce) {
      issues := issues + [Unauthorized];
    } else if e.nonce in context.seenNonces {
      issues := issues + [NonceReplayed];
    }
  }

  /** Digest and signature, once the authentication fields are complete. */
  method CheckBody(host: Host, e: SignedEnvelope, context: Context) returns (result: Option<seq<EnvelopeCode>>)
    requires AuthenticationComplete(e, context)
    ensures result.None? <==> ComputePublishingSha256(host, e.body).None?
    ensures result.Some? ==> result.value == if SignatureOk(host, e, context) then [] else [Unauthorized]
  {
    hide ComputePublishingSha256, IsSha256, IsNonEmptyText, SignatureInput;
    var digest := ComputePublishingSha256(host, e.body);
    if digest.None? {
      return None;
    }
    if digest.value != e.bodySha256 {
      return Some([Unauthorized]);
    }
    if !IsPublishingSignatureValid(host, SignatureInput(e.contractVersion, e.sentAt, e.nonce, e.bodySha256),
      e.signature, context.secret) {
      return Some([Unauthorized]);
    }
    return Some([]);
  }

  const WIRE_KEYS := [
    "body", "nonce", "key_id", "sent_at", "signature", "message_id", "body_sha256", "contract_version",
    "signature_algorithm"
  ]

  function WireValues(e: SignedEnvelope): (values: seq<Value>)
    ensures |values| == 9
  {
    [e.body, Str(e.nonce), Str(e.keyId), Str(e.sentAt), Str(e.signature), Str(e.messageId), Str(e.bodySha256),
     Str(e.contractVersion), Str(e.signatureAlgorithm)]
  }

  /** An envelope as it is sent. */
  function OnTheWire(e: SignedEnvelope): Value {
    Object(WIRE_KEYS, WireValues(e))
  }

  lemma {:induction false} WireKeysMarked()
    ensures MarksGrow(WIRE_KEYS) && |WIRE_KEYS| == 9
  {
    var k := WIRE_KEYS;
    assert |k[0]| == 4 && |k[1]| == 5 && |k[2]| == 6 && |k[3]| == 7 && |k[4]| == 9 && |k[5]| == 10 && |k[6]| == 11;
    assert |k[7]| == 16 && |k[8]| == 19;
    NeighboursSuffice(k);
  }

  /** What is sent is read back, so every statement about envelopes is one about what is on the wire. */
  lemma {:induction false} WireRoundTrip(host: Host, e: SignedEnvelope)
    requires e.keysPass
    ensures OnTheWire(e).Obj? && SentAsText(OnTheWire(e)) && EnvelopeOf(host, OnTheWire(e)) == e
  {
    WireKeysMarked();
    hide MarksGrow, Get, NoExtraField;
    var k := WIRE_KEYS;
    forall i | 0 <= i < 9 { GetAt(k, WireValues(e), i); }
    assert k[0] == "body" && k[1] == "nonce" && k[2] == "key_id" && k[3] == "sent_at" && k[4] == "signature"
      && k[5] == "message_id";
    assert k[6] == "body_sha256" && k[7] == "contract_version" && k[8] == "signature_algorithm";
    AllowedObject(k, WireValues(e), ENVELOPE_FIELDS);
  }

  ghost predicate HexSignatures(host: Host) {
    forall secret, t :: IsSha256(host.hmacSha256(secret, t))
  }

  /** Well-formed fields around a JSON body. */
  ghost predicate SignableBy(host: Host, e: UnsignedEnvelope) {
    && IsUuid(e.messageId) && IsIsoText(host, e.sentAt) && NonceOk(e.nonce) && IsNonEmptyText(e.keyId)
    && WellFormed(e.body) && Serializable(e.body)
  }

  /** Sign then verify: the receiver accepts what the sender signed, with the body's keys in any
      order, exactly while the clock is within five minutes and the nonce is unseen. */
  lemma {:induction false} SignThenVerify(
    host: Host, e: UnsignedEnvelope, secret: string, received: Value, context: Context)
    requires HexDigests(host) && HexSignatures(host) && SignableBy(host, e)
    requires WellFormed(received) && Equiv(e.body, received)
    requires context.secret == secret && context.expectedKeyId == e.keyId
    ensures SignPublishingEnvelope(host, e, secret).Some?
    ensures var signed := SignPublishingEnvelope(host, e, secret).value;
            EnvelopeValid(host, signed.(body := received), e.contractVersion, context) <==>
            WithinFiveMinutes(host, e.sentAt, context.now) && e.nonce !in context.seenNonces
  {
    CanonicalizeThrows(e.body);
    FingerprintIgnoresKeyOrder(host, e.body, received);
  }

  /** Two dates not more than 300 seconds apart, whichever comes first. */
  predicate WithinFiveMinutes(host: Host, a: string, b: string) {
    && IsIsoText(host, a) && IsIsoText(host, b)
    && var apart := host.dateParse(a).value - host.dateParse(b).value;
    -300 * 1000 <= apart <= 300 * 1000
  }

  function Unsigned(e: SignedEnvelope): UnsignedEnvelope {
    UnsignedEnvelope(e.contractVersion, e.messageId, e.sentAt, e.nonce, e.keyId, e.body)
  }

  /** An envelope is accepted exactly when it is what signing its own fields with the shared secret gives, it is for
      this contract and this key, its message id is a UUID, it is at most five minutes old or early, and its nonce
      is new and has at least 16 UTF-16 units, not all of them spaces. */
  lemma {:induction false} AcceptedIffSigned(host: Host, e: SignedEnvelope, contract: string, context: Context)
    requires HexDigests(host) && HexSignatures(host)
    ensures EnvelopeValid(host, e, contract, context) <==>
            && SignPublishingEnvelope(host, Unsigned(e), context.secret) == Some(e)
            && e.contractVersion == contract && e.keyId == context.expectedKeyId && Trim(e.keyId) != ""
            && IsUuid(e.messageId) && WithinFiveMinutes(host, e.sentAt, context.now)
            && e.nonce !in context.seenNonces && Utf16Length(e.nonce) >= 16 && Trim(e.nonce) != ""
  {
    hide IsUuid, IsSha256, SignatureInput, IsIsoText, Strip;
    StripLeaves(IsJsSpace, e.keyId);
    StripLeaves(IsJsSpace, e.nonce);
  }

  // ----- What the signature covers -----

  lemma {:induction false} SplitAtNewline(a: string, b: string, c: string, d: string)
    requires '\n' !in a && '\n' !in c && a + "\n" + b == c + "\n" + d
    ensures a == c && b == d
  {
    var s := a + "\n" + b;
    assert s[|a|] == '\n' && s[|c|] == '\n';
    assert forall i :: 0 <= i < |a| ==> s[i] == a[i];
    assert forall i :: 0 <= i < |c| ==> s[i] == c[i];
    assert |a| == |c|;
    assert a == s[..|a|] && c == s[..|c|] && b == s[|a| + 1..] && d == s[|c| + 1..];
  }

  lemma {:induction false} JoinAssociates(a: string, b: string, c: string, d: string, e: string)
    ensures a + "\n" + b + "\n" + c + "\n" + d + "\n" + e == a + "\n" + (b + "\n" + (c + "\n" + (d + "\n" + e)))
  {
  }

  /** The text that is signed determines the contract version, the digest, and time and nonce
      together; and each of these two as long as the times hold no newline. The nonce may be any text. */
  lemma {:induction false} SignedTextParts(
    v: string, t: string, n: string, b: string, v': string, t': string, n': string, b': string)
    requires '\n' !in v && '\n' !in v'
    requires |b| == |b'| == 64
    requires SignatureInput(v, t, n, b) == SignatureInput(v', t', n', b')
    ensures v == v' && b == b' && t + "\n" + n == t' + "\n" + n'
    ensures '\n' !in t && '\n' !in t' ==> t == t' && n == n'
  {
    JoinAssociates(SIGNATURE_ALGORITHM, v, t, n, b);
    JoinAssociates(SIGNATURE_ALGORITHM, v', t', n', b');
    SplitAtNewline(SIGNATURE_ALGORITHM, v + "\n" + (t + "\n" + (n + "\n" + b)),
                   SIGNATURE_ALGORITHM, v' + "\n" + (t' + "\n" + (n' + "\n" + b')));
    SplitAtNewline(v, t + "\n" + (n + "\n" + b), v', t' + "\n" + (n' + "\n" + b'));
    var stamp, stamp' := t + "\n" + n, t' + "\n" + n';
    var tail, tail' := stamp + "\n" + b, stamp' + "\n" + b';
    assert t + "\n" + (n + "\n" + b) == tail && t' + "\n" + (n' + "\n" + b') == tail';
    assert stamp == tail[..|tail| - 65] && stamp' == tail'[..|tail'| - 65];
    assert b == tail[|tail| - 64..] && b' == tail'[|tail'| - 64..];
    if '\n' !in t && '\n' !in t' {
      SplitAtNewline(t, n, t', n');
    }
  }

  ghost predicate SignatureCollision(host: Host, secret: string, s: string, t: string) {
    s != t && ComputeSignature(host, s, secret) == ComputeSignature(host, t, secret)
  }

  function InputOf(e: SignedEnvelope): string {
    SignatureInput(e.contractVersion, e.sentAt, e.nonce, e.bodySha256)
  }

  /** A signature cannot be moved to another message. Whatever accepted envelope carries a signature
      that the sender produced has the signed contract, digest and body up to key order, and the signed
      time and nonce whenever the times are on one line; or the two exhibit a collision. */
  lemma {:induction false} AcceptedSignatureIsSigned(
    host: Host, signed: UnsignedEnvelope, e: SignedEnvelope, contract: string, context: Context)
    requires HexDigests(host) && WellFormed(signed.body) && WellFormed(e.body)
    requires '\n' !in signed.contractVersion && '\n' !in contract
    requires SignPublishingEnvelope(host, signed, context.secret).Some?
    requires EnvelopeValid(host, e, contract, context)
    requires e.signature == SignPublishingEnvelope(host, signed, context.secret).value.signature
    ensures var original := SignPublishingEnvelope(host, signed, context.secret).value;
            || SignatureCollision(host, context.secret, InputOf(original), InputOf(e))
            || (&& e.contractVersion == signed.contractVersion
                && e.bodySha256 == original.bodySha256
                && e.sentAt + "\n" + e.nonce == signed.sentAt + "\n" + signed.nonce
                && ('\n' !in e.sentAt && '\n' !in signed.sentAt ==>
                   e.sentAt == signed.sentAt
                   && e.nonce == signed.nonce)
                && (Equiv(signed.body, e.body) || FingerprintCollision(host, signed.body, e.body)))
  {
    hide TimestampOk, NonceOk, IsUuid, IsNonEmptyText, Equiv, FingerprintCollision, SignatureInput,
         ComputePublishingSha256;
    var original := SignPublishingEnvelope(host, signed, context.secret).value;
    DigestLength(host, signed.body);
    if InputOf(original) == InputOf(e) {
      SignedTextParts(e.contractVersion, e.sentAt, e.nonce, e.bodySha256,
                      original.contractVersion, original.sentAt, original.nonce, original.bodySha256);
      FingerprintBinds(host, signed.body, e.body);
    }
  }

  lemma {:induction false} DigestLength(host: Host, v: Value)
    requires HexDigests(host) && ComputePublishingSha256(host, v).Some?
    ensures |ComputePublishingSha256(host, v).value| == 64
  {
  }

  // ----- Nonces over a run -----

  datatype Arrival = Arrival(envelope: SignedEnvelope, now: string)

  /** The nonces remembered after the first n arrivals: those of the accepted envelopes. */
  ghost function SeenAfter(host: Host, contract: string, context: Context, arrivals: seq<Arrival>, n: nat): set<string>
    requires n <= |arrivals|
    decreases n, 0
  {
    if n == 0 then context.seenNonces
    else
      SeenAfter(host, contract, context, arrivals, n - 1)
      + (if AcceptedAt(host, contract, context, arrivals, n - 1) then {arrivals[n - 1].envelope.nonce} else {})
  }

  ghost predicate AcceptedAt(host: Host, contract: string, context: Context, arrivals: seq<Arrival>, i: nat)
    requires i < |arrivals|
    decreases i, 1
  {
    EnvelopeValid(host, arrivals[i].envelope, contract,
                  context.(now := arrivals[i].now, seenNonces := SeenAfter(host, contract, context, arrivals, i)))
  }

  lemma {:induction false} SeenKeepsAccepted(
    host: Host, contract: string, context: Context, arrivals: seq<Arrival>, i: nat, n: nat)
    requires i < n <= |arrivals| && AcceptedAt(host, contract, context, arrivals, i)
    ensures arrivals[i].envelope.nonce in SeenAfter(host, contract, context, arrivals, n)
    decreases n
  {
    if i < n - 1 {
      SeenKeepsAccepted(host, contract, context, arrivals, i, n - 1);
    }
  }

  /** Each nonce is accepted at most once. */
  lemma {:induction false} NonceAcceptedOnce(
    host: Host, contract: string, context: Context, arrivals: seq<Arrival>, i: nat, j: nat)
    requires i < j < |arrivals|
    requires AcceptedAt(host, contract, context, arrivals, i) && AcceptedAt(host, contract, context, arrivals, j)
    ensures arrivals[i].envelope.nonce != arrivals[j].envelope.nonce
  {
    SeenKeepsAccepted(host, contract, context, arrivals, i, j);
  }
}
