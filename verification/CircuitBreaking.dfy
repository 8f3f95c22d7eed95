/** The in-memory circuit breaker of circuit_breaker.py. Clock readings are parameters. */
module CircuitBreaking {

  /** What has been recorded, oldest first; a failure carries the clock reading at that moment. */
  datatype Outcome = Succeeded | Failed(at: real)

  function FailuresSinceSuccess(history: seq<Outcome>): nat {
    if history == [] || history[|history| - 1].Succeeded? then 0
    else 1 + FailuresSinceSuccess(history[..|history| - 1])
  }

  /** The breaker refuses calls: enough failures since the last success, and the cooldown of the
      last one is not over. */
  predicate Tripped(threshold: int, cooldown: real, history: seq<Outcome>, now: real) {
    && FailuresSinceSuccess(history) >= 1
    && FailuresSinceSuccess(history) >= threshold
    && now < history[|history| - 1].at + cooldown
  }

  class CircuitBreaker {
    const failureThreshold: int
    const cooldownSeconds: real
    var failures: nat
    var openUntil: real
    ghost var history: seq<Outcome>

    ghost predicate Valid()
      reads this
    {
      && failures == FailuresSinceSuccess(history)
      && (failures == 0 ==> openUntil == 0.0)
      && (failures >= 1 && failures >= failureThreshold ==> openUntil == history[|history| - 1].at + cooldownSeconds)
    }

    constructor (failureThreshold: int, cooldownSeconds: real)
      ensures Valid() && failures == 0 && history == []
      ensures this.failureThreshold == failureThreshold && this.cooldownSeconds == cooldownSeconds
    {
      this.failureThreshold, this.cooldownSeconds := failureThreshold, cooldownSeconds;
      failures, openUntil := 0, 0.0;
      history := [];
    }

    /** The two fields answer as the whole history does, for every threshold and every clock that
        does not read below zero. */
    method Allow(now: real) returns (allowed: bool)
      requires Valid() && now >= 0.0
      ensures allowed <==> !Tripped(failureThreshold, cooldownSeconds, history, now)
    {
      if failures < failureThreshold {
        return true;
      }
      return now >= openUntil;
    }

    method RecordFailure(now: real)
      requires Valid()
      modifies this`failures, this`openUntil, this`history
      ensures Valid() && history == old(history) + [Failed(now)] && failures == old(failures) + 1
    {
      failures := failures + 1;
      if failures >= failureThreshold {
        openUntil := now + cooldownSeconds;
      }
      history := history + [Failed(now)];
      assert history[..|history| - 1] == old(history);
    }

    method RecordSuccess()
      requires Valid()
      modifies this`failures, this`openUntil, this`history
      ensures Valid() && history == old(history) + [Succeeded] && failures == 0
    {
      failures := 0;
      openUntil := 0.0;
      history := history + [Succeeded];
    }
  }

  // ----- What the history says -----

  /** The count is the length of the longest run of failures at the end of the history. */
  lemma {:induction false} CountIsTrailingRun(history: seq<Outcome>)
    ensures var n := FailuresSinceSuccess(history);
            && n <= |history|
            && (forall i :: |history| - n <= i < |history| ==> history[i].Failed?)
            && (n < |history| ==> history[|history| - n - 1].Succeeded?)
  {
    if history != [] && history[|history| - 1].Failed? {
      var init := history[..|history| - 1];
      CountIsTrailingRun(init);
      assert forall i :: 0 <= i < |init| ==> init[i] == history[i];
    }
  }

  /** A refusal always has its reason in the recent history: the last `threshold` outcomes are all
      failures, and the last one is less than the cooldown away. */
  lemma {:induction false} TrippedByRecentFailures(threshold: int, cooldown: real, history: seq<Outcome>, now: real)
    requires threshold >= 1
    ensures Tripped(threshold, cooldown, history, now) <==>
            && |history| >= threshold
            && (forall i :: |history| - threshold <= i < |history| ==> history[i].Failed?)
            && now < history[|history| - 1].at + cooldown
  {
    CountIsTrailingRun(history);
    var n := FailuresSinceSuccess(history);
    if |history| >= threshold > n {
      assert history[|history| - n - 1].Succeeded?;
    }
  }

  /** A further failure reopens a breaker that had reached its threshold, for one cooldown; a success
      closes it. */
  lemma {:induction false} OutcomeOfProbe(threshold: int, cooldown: real, history: seq<Outcome>, at: real, now: real)
    requires threshold >= 1 && FailuresSinceSuccess(history) >= threshold
    ensures Tripped(threshold, cooldown, history + [Failed(at)], now) <==> now < at + cooldown
    ensures !Tripped(threshold, cooldown, history + [Succeeded], now)
  {
    assert (history + [Failed(at)])[..|history|] == history;
  }

  /** Half-open is not limited to one probe: asked twice with no outcome recorded in between, a breaker
      at its threshold gives each call the same answer, which depends on the cooldown alone. */
  method AskTwice(breaker: CircuitBreaker, first: real, second: real) returns (a: bool, b: bool)
    requires breaker.Valid() && 1 <= breaker.failureThreshold <= breaker.failures
    requires first >= 0.0 && second >= 0.0
    ensures var reopens := breaker.history[|breaker.history| - 1].at + breaker.cooldownSeconds;
            (a <==> first >= reopens) && (b <==> second >= reopens)
  {
    a := breaker.Allow(first);
    b := breaker.Allow(second);
  }
}
