/** The idempotency keys of the publishing queue. */
module PublishingKeys {
  import opened Text

  function PublicationIntentJobKey(intentId: string, intentVersion: nat): string {
    "publishing:intent:" + intentId + ":v" + Decimal(intentVersion)
  }

  function PublicationAttemptIdempotencyKey(intentId: string, intentVersion: nat, attemptNumber: nat): string {
    "publishing:" + intentId + ":v" + Decimal(intentVersion) + ":attempt:" + Decimal(attemptNumber)
  }

  lemma {:induction false} JobKeyInjective(id: string, v: nat, id': string, v': nat)
    requires PublicationIntentJobKey(id, v) == PublicationIntentJobKey(id', v')
    ensures id == id' && v == v'
  {
    var head, head' := "publishing:intent:" + id + ":v", "publishing:intent:" + id' + ":v";
    TrailingDecimalUnique(head, v, head', v');
    assert id == head[18..|head| - 2] == head'[18..|head'| - 2] == id';
  }

  lemma {:induction false} AttemptKeyInjective(id: string, v: nat, n: nat, id': string, v': nat, n': nat)
    requires PublicationAttemptIdempotencyKey(id, v, n) == PublicationAttemptIdempotencyKey(id', v', n')
    ensures id == id' && v == v' && n == n'
  {
    var head, head' := "publishing:" + id + ":v", "publishing:" + id' + ":v";
    var stem, stem' := head + Decimal(v), head' + Decimal(v');
    TrailingDecimalUnique(stem + ":attempt:", n, stem' + ":attempt:", n');
    assert stem == (stem + ":attempt:")[..|stem|] == (stem' + ":attempt:")[..|stem'|] == stem';
    TrailingDecimalUnique(head, v, head', v');
    assert id == head[11..|head| - 2] == head'[11..|head'| - 2] == id';
  }

  /** A job key ends in `v` and a number, an attempt key in `:` and a number. */
  lemma {:induction false} JobKeyIsNoAttemptKey(id: string, v: nat, id': string, v': nat, n': nat)
    ensures PublicationIntentJobKey(id, v) != PublicationAttemptIdempotencyKey(id', v', n')
  {
    if PublicationIntentJobKey(id, v) == PublicationAttemptIdempotencyKey(id', v', n') {
      var head := "publishing:intent:" + id + ":v";
      var head' := "publishing:" + id' + ":v" + Decimal(v') + ":attempt:";
      assert head[|head| - 1] == 'v' && head'[|head'| - 1] == ':';
      TrailingDecimalUnique(head, v, head', n');
      assert false;
    }
  }
}
