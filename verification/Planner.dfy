/** The planner's bounded repair loop (planner.py) and its validator (planner_validators.py). */
module Planner {
  import opened Text
  import opened CircuitBreaking

  const MAX_PLAN_ATTEMPTS := 3
  const MIN_POSTS := 3
  const MAX_POSTS := 5

  datatype Plan = Plan(
    channel: string, format: string, purpose: string, ctaLibraryEntryId: Option<string>, selectedMediaIds: seq<string>)

  datatype Request = Request(
    allowedChannels: seq<string>, allowedFormats: seq<string>, ctaLibrary: seq<string>, mediaLibrary: seq<string>)

  datatype ProviderError = ProviderError(code: string, message: string, retryable: bool)

  /** One call of the provider: a list of drafts, some other object, a ProviderError, or another
      exception. */
  datatype Answer = Drafts(plans: seq<Plan>) | OtherObject | Failure(error: ProviderError) | Crash

  datatype Prompt = Prompt(systemPrompt: string, userPrompt: string, repairAttempt: nat, repairErrorCode: string)

  datatype Field = PostPlans | Channel | Format | Purpose | CtaLibraryEntryId | SelectedMediaIds

  datatype Issue = Issue(code: string, field: Field)

  datatype Result = Returned(plans: seq<Plan>) | Raised(error: ProviderError) | Crashed

  // ----- validate_generated_plan -----

  /** The characters str.strip removes. */
  predicate IsPySpace(c: char) {
    var u := c as int;
    || 9 <= u <= 13 || 0x1C <= u <= 0x20 || u == 0x85 || u == 0xA0 || u == 0x1680
    || 0x2000 <= u <= 0x200A || u == 0x2028 || u == 0x2029 || u == 0x202F || u == 0x205F || u == 0x3000
  }

  predicate HasText(s: string) {
    exists i :: 0 <= i < |s| && !IsPySpace(s[i])
  }

  /** Python's notion of a space and JavaScript's differ in these six characters and in no other. */
  lemma {:induction false} SpacesDiffer(c: char)
    ensures IsPySpace(c) != IsJsSpace(c) <==> c as int in {0x1C, 0x1D, 0x1E, 0x1F, 0x85, 0xFEFF}
  {
  }

  /** A text is one exactly when str.strip leaves something. */
  lemma {:induction false} TextSurvivesStrip(s: string)
    ensures HasText(s) <==> Strip(IsPySpace, s) != ""
  {
    StripLeaves(IsPySpace, s);
  }

  /** A plan built from the request's own channels, formats, calls to action and media. */
  predicate Grounded(request: Request, plan: Plan) {
    && plan.channel in request.allowedChannels
    && plan.format in request.allowedFormats
    && HasText(plan.purpose)
    && (plan.ctaLibraryEntryId.Some? ==> plan.ctaLibraryEntryId.value in request.ctaLibrary)
    && forall i :: 0 <= i < |plan.selectedMediaIds| ==> plan.selectedMediaIds[i] in request.mediaLibrary
  }

  predicate Acceptable(request: Request, plans: seq<Plan>) {
    MIN_POSTS <= |plans| <= MAX_POSTS && forall i :: 0 <= i < |plans| ==> Grounded(request, plans[i])
  }

  predicate PlanIssueCode(code: string) {
    code in {"CONTENT_SCHEMA_FAILURE", "CONTENT_CHANNEL_MISMATCH"}
  }

  predicate PlanIssue(issue: Issue) {
    PlanIssueCode(issue.code)
  }

  lemma {:induction false} CodesDiffer()
    ensures "CONTENT_SCHEMA_FAILURE" != "CONTENT_CHANNEL_MISMATCH"
  {
    assert |"CONTENT_SCHEMA_FAILURE"| == 22 && |"CONTENT_CHANNEL_MISMATCH"| == 24;
  }

  predicate StrangeMedia(request: Request, plan: Plan, before: int)
    requires before <= |plan.selectedMediaIds|
  {
    exists i :: 0 <= i < before && plan.selectedMediaIds[i] !in request.mediaLibrary
  }

  function NoneOr(named: bool, field: Field): set<Field> {
    if named then {field} else {}
  }

  /** The fields of a plan that are not the request's. */
  function Strange(request: Request, plan: Plan): set<Field> {
    NoneOr(plan.channel !in request.allowedChannels, Channel)
    + NoneOr(plan.format !in request.allowedFormats, Format)
    + NoneOr(!HasText(plan.purpose), Purpose)
    + NoneOr(plan.ctaLibraryEntryId.Some? && plan.ctaLibraryEntryId.value !in request.ctaLibrary, CtaLibraryEntryId)
    + NoneOr(StrangeMedia(request, plan, |plan.selectedMediaIds|), SelectedMediaIds)
  }

  function IssueFor(field: Field): Issue {
    Issue(if field == Channel then "CONTENT_CHANNEL_MISMATCH" else "CONTENT_SCHEMA_FAILURE", field)
  }

  lemma {:induction false} NothingStrange(request: Request, plan: Plan)
    ensures Strange(request, plan) == {} <==> Grounded(request, plan)
    ensures Channel in Strange(request, plan) <==> plan.channel !in request.allowedChannels
  {
    hide HasText;
  }

  lemma {:induction false} FieldOfIssue()
    ensures forall field :: IssueFor(field).field == field
  {
  }

  lemma {:induction false} CodeOfIssue()
    ensures forall field :: PlanIssue(IssueFor(field))
    ensures forall field :: IssueFor(field).code == "CONTENT_CHANNEL_MISMATCH" <==> field == Channel
  {
    CodesDiffer();
  }

  /** The issues that name these fields, and no others. */
  ghost predicate IssuesFor(issues: seq<Issue>, fields: set<Field>) {
    forall issue :: issue in issues <==> issue == IssueFor(issue.field) && issue.field in fields
  }

  lemma {:induction false} OneMoreIssue(issues: seq<Issue>, fields: set<Field>, field: Field)
    requires IssuesFor(issues, fields)
    ensures IssuesFor(issues + [IssueFor(field)], fields + {field})
  {
    FieldOfIssue();
    hide IssueFor;
    forall issue
      ensures issue in issues + [IssueFor(field)] <==> issue == IssueFor(issue.field) && issue.field in fields + {field}
    {
      assert issue in issues <==> issue == IssueFor(issue.field) && issue.field in fields;
    }
  }

  /** The issues of one plan: one kind for each field that is not the request's, the channel's first; none exactly
      when the plan is grounded. */
  method ValidatePlan(request: Request, plan: Plan) returns (issues: seq<Issue>)
    ensures IssuesFor(issues, Strange(request, plan))
    ensures issues == [] <==> Grounded(request, plan)
    ensures issues != [] && plan.channel !in request.allowedChannels ==> issues[0].field == Channel
  {
    hide HasText, IssueFor, IssuesFor, Grounded, StrangeMedia;
    FieldOfIssue();
    issues := [];
    ghost var fields: set<Field> := {};
    assert IssuesFor(issues, fields) by { NoIssues(); }
    if plan.channel !in request.allowedChannels {
      OneMoreIssue(issues, fields, Channel);
      issues, fields := issues + [IssueFor(Channel)], fields + {Channel};
    }
    if plan.format !in request.allowedFormats {
      OneMoreIssue(issues, fields, Format);
      issues, fields := issues + [IssueFor(Format)], fields + {Format};
    }
    if !HasText(plan.purpose) {
      OneMoreIssue(issues, fields, Purpose);
      issues, fields := issues + [IssueFor(Purpose)], fields + {Purpose};
    }
    if plan.ctaLibraryEntryId.Some? && plan.ctaLibraryEntryId.value !in request.ctaLibrary {
      OneMoreIssue(issues, fields, CtaLibraryEntryId);
      issues, fields := issues + [IssueFor(CtaLibraryEntryId)], fields + {CtaLibraryEntryId};
    }
    ghost var before := fields;
    NoMediaYet(request, plan);
    for k := 0 to |plan.selectedMediaIds|
      invariant plan.channel !in request.allowedChannels ==> issues != [] && issues[0].field == Channel
      invariant IssuesFor(issues, fields)
      invariant fields == before + NoneOr(StrangeMedia(request, plan, k), SelectedMediaIds)
    {
      MediaStep(request, plan, k);
      if plan.selectedMediaIds[k] !in request.mediaLibrary {
        OneMoreIssue(issues, fields, SelectedMediaIds);
        issues, fields := issues + [IssueFor(SelectedMediaIds)], fields + {SelectedMediaIds};
      }
    }
    assert fields == Strange(request, plan);
    NothingStrange(request, plan);
    IssuesForNone(issues, fields);
  }

  lemma {:induction false} NoMediaYet(request: Request, plan: Plan)
    ensures !StrangeMedia(request, plan, 0)
  {
  }

  lemma {:induction false} MediaStep(request: Request, plan: Plan, k: nat)
    requires k < |plan.selectedMediaIds|
    ensures StrangeMedia(request, plan, k + 1)
            <==> StrangeMedia(request, plan, k) || plan.selectedMediaIds[k] !in request.mediaLibrary
  {
  }

  lemma {:induction false} NoIssues()
    ensures IssuesFor([], {})
  {
  }

  lemma {:induction false} IssuesForNone(issues: seq<Issue>, fields: set<Field>)
    requires IssuesFor(issues, fields)
    ensures issues == [] <==> fields == {}
  {
    FieldOfIssue();
    hide IssueFor;
    if fields != {} {
      var field :| field in fields;
      assert IssueFor(field) in issues;
    }
    if issues != [] {
      assert issues[0] in issues;
    }
  }

  /** The first draft that is not grounded. */
  ghost predicate FirstRefused(request: Request, plans: seq<Plan>, k: int) {
    0 <= k < |plans| && !Grounded(request, plans[k]) && forall j :: 0 <= j < k ==> Grounded(request, plans[j])
  }

  /** The code of the first issue: the count comes before the drafts, and a draft's channel before the rest of
      it. */
  ghost predicate IsFirstCode(request: Request, plans: seq<Plan>, code: string) {
    if MIN_POSTS <= |plans| <= MAX_POSTS then
      && PlanIssueCode(code)
      && forall k :: FirstRefused(request, plans, k) ==>
           (code == "CONTENT_CHANNEL_MISMATCH" <==> plans[k].channel !in request.allowedChannels)
    else code == "CONTENT_SCHEMA_FAILURE"
  }

  lemma {:induction false} CodeOfCount(request: Request, plans: seq<Plan>)
    requires !(MIN_POSTS <= |plans| <= MAX_POSTS)
    ensures IsFirstCode(request, plans, IssueFor(PostPlans).code)
  {
  }

  lemma {:induction false} FirstCodeOfDraft(request: Request, plans: seq<Plan>, k: nat, issue: Issue)
    requires MIN_POSTS <= |plans| <= MAX_POSTS && FirstRefused(request, plans, k)
    requires issue == IssueFor(issue.field) && issue.field in Strange(request, plans[k])
    requires plans[k].channel !in request.allowedChannels ==> issue.field == Channel
    ensures IsFirstCode(request, plans, issue.code)
  {
    hide Grounded, HasText, PlanIssueCode, IssueFor, Strange;
    CodeOfIssue();
    NothingStrange(request, plans[k]);
    assert PlanIssue(issue);
  }

  method ValidateGeneratedPlan(request: Request, plans: seq<Plan>) returns (issues: seq<Issue>)
    ensures issues == [] <==> Acceptable(request, plans)
    ensures forall i :: 0 <= i < |issues| ==> PlanIssue(issues[i])
    ensures issues != [] ==> IsFirstCode(request, plans, issues[0].code)
  {
    hide Grounded, IsFirstCode, HasText, PlanIssueCode, Strange, IssueFor;
    CodeOfIssue();
    issues := [];
    if !(MIN_POSTS <= |plans| <= MAX_POSTS) {
      issues := issues + [IssueFor(PostPlans)];
      assert IsFirstCode(request, plans, IssueFor(PostPlans).code) by { CodeOfCount(request, plans); }
    }
    for k := 0 to |plans|
      invariant issues == [] <==>
                MIN_POSTS <= |plans| <= MAX_POSTS && forall j :: 0 <= j < k ==> Grounded(request, plans[j])
      invariant forall i :: 0 <= i < |issues| ==> PlanIssue(issues[i])
      invariant issues != [] ==> IsFirstCode(request, plans, issues[0].code)
    {
      var found := ValidatePlan(request, plans[k]);
      forall i | 0 <= i < |found| ensures PlanIssue(found[i]) {
        assert found[i] in found;
      }
      if issues == [] && found != [] {
        assert found[0] in found;
        FirstCodeOfDraft(request, plans, k, found[0]);
      }
      issues := issues + found;
    }
  }

  // ----- The provider -----

  /** A provider whose answer may depend on everything it was asked so far. */
  class Provider {
    const answer: seq<Prompt> -> Answer
    var prompts: seq<Prompt>

    constructor (answer: seq<Prompt> -> Answer)
      ensures this.answer == answer && prompts == []
    {
      this.answer := answer;
      prompts := [];
    }

    method GenerateContentPlan(prompt: Prompt) returns (a: Answer)
      modifies this`prompts
      ensures prompts == old(prompts) + [prompt] && a == answer(prompts)
    {
      prompts := prompts + [prompt];
      a := answer(prompts);
    }
  }

  // ----- What a run of calls amounts to -----

  predicate Accepted(request: Request, a: Answer) {
    a.Drafts? && Acceptable(request, a.plans)
  }

  /** The provider went wrong: a retryable error of its own, or three to five drafts that the
      validator refuses. Answers of the wrong shape do not count against it. */
  predicate CountsAsFailure(request: Request, a: Answer) {
    || (a.Failure? && a.error.retryable)
    || (a.Drafts? && MIN_POSTS <= |a.plans| <= MAX_POSTS && !Acceptable(request, a.plans))
  }

  predicate Repairable(a: Answer) {
    match a
    case Drafts(_) => true
    case OtherObject => true
    case Failure(error) => IsRepairableCode(error.code)
    case Crash => false
  }

  predicate IsRepairableCode(code: string) {
    code in {"CONTENT_SCHEMA_FAILURE", "CONTENT_CHANNEL_MISMATCH", "AI_PROVIDER_INVALID_OUTPUT"}
  }

  function Answers(answer: seq<Prompt> -> Answer, prompts: seq<Prompt>, from: nat): (a: seq<Answer>)
    requires from <= |prompts|
    ensures |a| == |prompts| - from
  {
    seq(|prompts| - from, i requires 0 <= i < |prompts| - from => answer(prompts[..from + i + 1]))
  }

  function FailureCount(request: Request, answers: seq<Answer>): nat {
    if answers == [] then 0
    else
      FailureCount(request, answers[..|answers| - 1])
      + (if CountsAsFailure(request, answers[|answers| - 1]) then 1 else 0)
  }

  /** What _validate_plan_shape refuses. */
  predicate WrongShape(a: Answer) {
    a.OtherObject? || (a.Drafts? && !(MIN_POSTS <= |a.plans| <= MAX_POSTS))
  }

  /** Answers of the wrong shape never bring the breaker nearer to opening. */
  lemma {:induction false} WrongShapesDoNotCount(request: Request, answers: seq<Answer>)
    requires forall i :: 0 <= i < |answers| ==> WrongShape(answers[i])
    ensures FailureCount(request, answers) == 0
  {
    if answers != [] {
      WrongShapesDoNotCount(request, answers[..|answers| - 1]);
    }
  }

  function FieldName(field: Field): string {
    match field
    case PostPlans => "post_plans"
    case Channel => "post_plans.channel"
    case Format => "post_plans.format"
    case Purpose => "post_plans.purpose"
    case CtaLibraryEntryId => "post_plans.cta_library_entry_id"
    case SelectedMediaIds => "post_plans.selected_media_ids"
  }

  /** The code of the error that an answer leads to. */
  ghost predicate IsCodeOf(request: Request, a: Answer, code: string) {
    match a
    case Drafts(plans) => !Acceptable(request, plans) && IsFirstCode(request, plans, code)
    case OtherObject => code == "CONTENT_SCHEMA_FAILURE"
    case Failure(error) => code == error.code
    case Crash => false
  }

  /** The error that the answer of one call leads to. */
  method CheckAnswer(request: Request, a: Answer) returns (error: Option<ProviderError>)
    requires !a.Crash?
    ensures error.None? <==> Accepted(request, a)
    ensures error.Some? ==> error.value.retryable == CountsAsFailure(request, a)
    ensures error.Some? ==> IsCodeOf(request, a, error.value.code)
    ensures error.Some? ==> IsRepairableCode(error.value.code) == Repairable(a)
    ensures a.Failure? ==> error == Some(a.error)
  {
    match a {
      case Failure(raised) => return Some(raised);
      case OtherObject =>
        return Some(ProviderError("CONTENT_SCHEMA_FAILURE", "must return a list", false));
      case Drafts(plans) =>
        if !(MIN_POSTS <= |plans| <= MAX_POSTS) {
          return Some(ProviderError("CONTENT_SCHEMA_FAILURE", "between 3 and 5", false));
        }
        var issues := ValidateGeneratedPlan(request, plans);
        if issues != [] {
          assert PlanIssue(issues[0]);
          return Some(ProviderError(issues[0].code, FieldName(issues[0].field), true));
        }
        return None;
    }
  }

  function RepairPlanPrompt(prompt: Prompt, error: ProviderError, attempt: nat): Prompt {
    Prompt(prompt.systemPrompt + "\n\nSTRUCTURED OUTPUT REPAIR",
           prompt.userPrompt + "\n\ncode=" + error.code + "\nmessage=" + error.message,
           attempt, error.code)
  }

  /** A later prompt repeats the earlier one, adds to it, and names the attempt it repairs and the code of what
      was wrong with the answer. */
  ghost predicate Repairs(request: Request, earlier: Prompt, a: Answer, later: Prompt, attempt: nat) {
    && earlier.systemPrompt < later.systemPrompt && earlier.userPrompt < later.userPrompt
    && later.repairAttempt == attempt && IsCodeOf(request, a, later.repairErrorCode)
  }

  const CIRCUIT_OPEN := ProviderError("CONTENT_PROVIDER_FAILURE", "circuit breaker is open", true)
  const ATTEMPTS_EXHAUSTED := ProviderError("CONTENT_PROVIDER_FAILURE", "exceeded the maximum number of attempts", true)

  /** The prompts asked: the caller's, then one repair after the other. */
  ghost predicate PromptChain(request: Request, prompt: Prompt, answers: seq<Answer>, asked: seq<Prompt>)
    requires |asked| <= |answers| + 1
  {
    && (asked != [] ==> asked[0] == prompt)
    && forall i :: 0 < i < |asked| ==> Repairs(request, asked[i - 1], answers[i - 1], asked[i], i)
  }

  /** These calls all went wrong in a repairable way. */
  ghost predicate AllRepairable(request: Request, answers: seq<Answer>) {
    forall i :: 0 <= i < |answers| ==> !Accepted(request, answers[i]) && Repairable(answers[i])
  }

  lemma {:induction false} AnswersStep(answer: seq<Prompt> -> Answer, prompts: seq<Prompt>, prompt: Prompt, from: nat)
    requires from <= |prompts|
    ensures Answers(answer, prompts + [prompt], from)
            == Answers(answer, prompts, from) + [answer(prompts + [prompt])]
  {
    var more := prompts + [prompt];
    assert more[..|more|] == more;
    forall i | 0 <= i < |prompts| - from
      ensures Answers(answer, more, from)[i] == Answers(answer, prompts, from)[i]
    {
      assert more[..from + i + 1] == prompts[..from + i + 1];
    }
  }

  lemma {:induction false} RepairExtends(
      request: Request, prompt: Prompt, a: Answer, error: ProviderError, attempt: nat)
    requires IsCodeOf(request, a, error.code)
    ensures Repairs(request, prompt, a, RepairPlanPrompt(prompt, error, attempt), attempt)
  {
    hide IsCodeOf;
  }

  /** The error of the last call reaches the caller when it cannot be repaired, or no attempt is left. */
  ghost predicate LastCallFailed(request: Request, answers: seq<Answer>, error: ProviderError) {
    && answers != []
    && var last := answers[|answers| - 1];
    && !last.Crash? && !Accepted(request, last)
    && (Repairable(last) ==> |answers| == MAX_PLAN_ATTEMPTS)
    && error.retryable == CountsAsFailure(request, last)
    && IsCodeOf(request, last, error.code)
    && IsRepairableCode(error.code) == Repairable(last)
    && (last.Failure? ==> error == last.error)
    && AllRepairable(request, answers[..|answers| - 1])
  }

  /** What one run may do: where it stops, what it returns, and what it leaves in the breaker. */
  ghost predicate RunOutcome(request: Request, answers: seq<Answer>, result: Result, refused: bool) {
    && |answers| <= MAX_PLAN_ATTEMPTS
    && match result
       case Returned(plans) =>
         && answers != [] && answers[|answers| - 1] == Drafts(plans)
         && Acceptable(request, plans)
         && AllRepairable(request, answers[..|answers| - 1])
       case Raised(error) =>
         || (refused && error == CIRCUIT_OPEN && AllRepairable(request, answers) && |answers| < MAX_PLAN_ATTEMPTS)
         || LastCallFailed(request, answers, error)
       case Crashed =>
         && answers != [] && answers[|answers| - 1].Crash?
         && AllRepairable(request, answers[..|answers| - 1])
  }

  /** What one answer leaves in the breaker's history. */
  function Recorded(request: Request, a: Answer, at: real): seq<Outcome> {
    if Accepted(request, a) then [Succeeded] else if CountsAsFailure(request, a) then [Failed(at)] else []
  }

  /** What the answers of one run leave there; the outcome of the k-th call is recorded at `clock(2k - 1)`. */
  function Recordings(request: Request, answers: seq<Answer>, clock: nat -> real): seq<Outcome> {
    if answers == [] then []
    else
      Recordings(request, answers[..|answers| - 1], clock)
      + Recorded(request, answers[|answers| - 1], clock(2 * |answers| - 1))
  }

  /** No call was made that the breaker, with all that was recorded until then, would have refused. */
  ghost predicate EachCallAllowed(
    threshold: int, cooldown: real, history: seq<Outcome>, request: Request, answers: seq<Answer>, clock: nat -> real) {
    forall k: nat :: k < |answers| ==>
      !Tripped(threshold, cooldown, history + Recordings(request, answers[..k], clock), clock(2 * k))
  }

  lemma {:induction false} RecordingsStep(request: Request, answers: seq<Answer>, a: Answer, clock: nat -> real)
    ensures Recordings(request, answers + [a], clock)
            == Recordings(request, answers, clock) + Recorded(request, a, clock(2 * |answers| + 1))
  {
    hide Recorded;
    assert (answers + [a])[..|answers|] == answers;
  }

  lemma {:induction false} OneMoreAllowed(
      threshold: int, cooldown: real, history: seq<Outcome>, request: Request, answers: seq<Answer>, a: Answer,
      clock: nat -> real)
    requires EachCallAllowed(threshold, cooldown, history, request, answers, clock)
    requires !Tripped(threshold, cooldown, history + Recordings(request, answers, clock), clock(2 * |answers|))
    ensures EachCallAllowed(threshold, cooldown, history, request, answers + [a], clock)
  {
    hide Tripped, Recordings;
    var more := answers + [a];
    forall k: nat | k < |more|
      ensures !Tripped(threshold, cooldown, history + Recordings(request, more[..k], clock), clock(2 * k))
    {
      assert more[..k] == if k < |answers| then answers[..k] else answers;
    }
  }

  /** A run that ends in a counted failure and leaves the breaker at its threshold keeps it closed to everyone
      until one cooldown after that failure, and no longer. */
  lemma {:induction false} RunOpensBreaker(
      threshold: int, cooldown: real, history: seq<Outcome>, request: Request, answers: seq<Answer>, clock: nat -> real,
      now: real)
    requires answers != [] && CountsAsFailure(request, answers[|answers| - 1])
    requires 1 <= threshold <= FailuresSinceSuccess(history + Recordings(request, answers, clock))
    ensures Tripped(threshold, cooldown, history + Recordings(request, answers, clock), now)
            <==> now < clock(2 * |answers| - 1) + cooldown
  {
    hide FailuresSinceSuccess, CountsAsFailure;
    assert !Accepted(request, answers[|answers| - 1]) by { CountedIsNotAccepted(request, answers[|answers| - 1]); }
  }

  lemma {:induction false} CountedIsNotAccepted(request: Request, a: Answer)
    requires CountsAsFailure(request, a)
    ensures !Accepted(request, a)
  {
  }

  /** The try block of one attempt: call, check, and record the outcome in the breaker. */
  method CallProvider(provider: Provider, prompt: Prompt, request: Request, breaker: CircuitBreaker?, now: real)
    returns (a: Answer, error: Option<ProviderError>)
    requires breaker != null ==> breaker.Valid()
    modifies provider`prompts, if breaker != null then {breaker} else {}
    ensures provider.prompts == old(provider.prompts) + [prompt] && a == provider.answer(provider.prompts)
    ensures breaker != null ==>
              && breaker.Valid()
              && breaker.history == old(breaker.history) + Recorded(request, a, now)
              && breaker.failures ==
                 if Accepted(request, a) then 0 else old(breaker.failures) + (if CountsAsFailure(request, a) then 1
                   else 0)
    ensures Accepted(request, a) ==> a.Drafts? && Acceptable(request, a.plans)
    ensures !a.Crash? ==> (error.None? <==> Accepted(request, a))
    ensures error.Some? ==>
              && !a.Crash?
              && error.value.retryable == CountsAsFailure(request, a)
              && IsCodeOf(request, a, error.value.code)
              && IsRepairableCode(error.value.code) == Repairable(a)
              && (a.Failure? ==> error.value == a.error)
  {
    hide IsCodeOf;
    a := provider.GenerateContentPlan(prompt);
    if a.Crash? {
      return a, None;
    }
    error := CheckAnswer(request, a);
    if breaker != null {
      if error.None? {
        breaker.RecordSuccess();
      } else if error.value.retryable {
        breaker.RecordFailure(now);
      }
    }
  }

  /** The error after the loop is never the loop's own: it can only reach the caller as an error that the
      provider itself raised. */
  lemma {:induction false} TrailingRaiseUnreached(request: Request, answers: seq<Answer>, result: Result, refused: bool)
    requires RunOutcome(request, answers, result, refused) && result == Raised(ATTEMPTS_EXHAUSTED)
    ensures answers != [] && answers[|answers| - 1] == Failure(ATTEMPTS_EXHAUSTED)
  {
    hide Acceptable, CountsAsFailure;
    assert |"circuit breaker is open"| != |"exceeded the maximum number of attempts"|;
    assert !IsRepairableCode("CONTENT_PROVIDER_FAILURE") by { NotRepairable(); }
  }

  lemma {:induction false} NotRepairable()
    ensures !IsRepairableCode("CONTENT_PROVIDER_FAILURE")
  {
    assert "CONTENT_PROVIDER_FAILURE"[8] == 'P' && "CONTENT_CHANNEL_MISMATCH"[8] == 'C';
    assert |"CONTENT_SCHEMA_FAILURE"| == 22 && |"AI_PROVIDER_INVALID_OUTPUT"| == 26
      && |"CONTENT_PROVIDER_FAILURE"| == 24;
  }

  /** The codes that are worth another attempt. */
  predicate IsOutputCode(code: string) {
    || code == "CONTENT_SCHEMA_FAILURE"
    || code == "CONTENT_CHANNEL_MISMATCH"
    || code == "AI_PROVIDER_INVALID_OUTPUT"
  }

  /** When the provider is asked again. Accepted drafts, a crash and an error with another code end the run, as
      that answer's own result. After every other answer the next call follows, unless it was the third or the
      breaker refuses. */
  lemma {:induction false} NextCall(
      request: Request, answers: seq<Answer>, result: Result, refused: bool, i: nat)
    requires RunOutcome(request, answers, result, refused) && i < |answers|
    ensures var a := answers[i];
            if Accepted(request, a) then i == |answers| - 1 && result == Returned(a.plans)
            else if a.Crash? then i == |answers| - 1 && result == Crashed
            else if a.Failure? && !IsOutputCode(a.error.code) then i == |answers| - 1 && result == Raised(a.error)
            else i < |answers| - 1 || i == 2 || (refused && result == Raised(CIRCUIT_OPEN))
  {
    hide Acceptable, CountsAsFailure, IsCodeOf;
    var a := answers[i];
    assert a.Failure? ==> (Repairable(a) <==> IsOutputCode(a.error.code));
    assert i < |answers| - 1 ==> answers[..|answers| - 1][i] == a;
  }

  /** Three to five drafts, one of them not built from the request. */
  ghost predicate RefusedDrafts(request: Request, a: Answer) {
    && a.Drafts? && 3 <= |a.plans| <= 5
    && exists j :: 0 <= j < |a.plans| && !Grounded(request, a.plans[j])
  }

  /** Drafts of the right number that are refused bring the breaker nearer to opening, each by one. */
  lemma {:induction false} RefusedDraftsCount(request: Request, answers: seq<Answer>)
    requires forall i :: 0 <= i < |answers| ==> RefusedDrafts(request, answers[i])
    ensures FailureCount(request, answers) == |answers|
  {
    hide Grounded;
    if answers != [] {
      RefusedDraftsCount(request, answers[..|answers| - 1]);
      assert RefusedDrafts(request, answers[|answers| - 1]);
    }
  }

  /** A provider's own error does so when it is retryable. */
  lemma {:induction false} ErrorsCountWhenRetryable(request: Request, answers: seq<Answer>, error: ProviderError)
    ensures FailureCount(request, answers + [Failure(error)])
            == FailureCount(request, answers) + (if error.retryable then 1 else 0)
  {
    assert (answers + [Failure(error)])[..|answers|] == answers;
  }

  /** A run before its first call. */
  lemma {:induction false} NothingYet(
      threshold: int, cooldown: real, history: seq<Outcome>, request: Request, prompt: Prompt, clock: nat -> real)
    ensures AllRepairable(request, []) && FailureCount(request, []) == 0
    ensures Recordings(request, [], clock) == []
    ensures EachCallAllowed(threshold, cooldown, history, request, [], clock)
    ensures PromptChain(request, prompt, [], []) && PromptChain(request, prompt, [], [prompt])
  {
  }

  lemma {:induction false} ChainKeeps(
      request: Request, prompt: Prompt, answers: seq<Answer>, asked: seq<Prompt>, a: Answer)
    requires |asked| <= |answers| + 1 && PromptChain(request, prompt, answers, asked)
    ensures PromptChain(request, prompt, answers + [a], asked)
  {
    hide Repairs;
  }

  lemma {:induction false} ChainGrows(
      request: Request, prompt: Prompt, answers: seq<Answer>, asked: seq<Prompt>, next: Prompt)
    requires |asked| == |answers| > 0 && PromptChain(request, prompt, answers, asked)
    requires Repairs(request, asked[|asked| - 1], answers[|answers| - 1], next, |answers|)
    ensures PromptChain(request, prompt, answers, asked + [next])
  {
    hide Repairs;
  }

  datatype Turn = Stop(result: Result) | TryAgain(prompt: Prompt)

  ghost predicate Refuses(breaker: CircuitBreaker?, now: real)
    reads breaker
  {
    breaker != null && Tripped(breaker.failureThreshold, breaker.cooldownSeconds, breaker.history, now)
  }

  /** One turn of the loop: ask the breaker, call, and stop or repair. */
  method TakeTurn(provider: Provider, prompt: Prompt, request: Request, breaker: CircuitBreaker?, clock: nat -> real,
                  attempt: nat, ghost before: seq<Answer>)
    returns (turn: Turn, ghost answers: seq<Answer>)
    requires breaker != null ==> breaker.Valid()
    requires 1 <= attempt <= MAX_PLAN_ATTEMPTS && |before| == attempt - 1 && AllRepairable(request, before)
    requires clock(2 * (attempt - 1)) >= 0.0
    modifies provider`prompts, if breaker != null then {breaker} else {}
    ensures || (answers == before && provider.prompts == old(provider.prompts) && turn.Stop?)
            || (provider.prompts == old(provider.prompts) + [prompt]
               && answers == before + [provider.answer(provider.prompts)])
    ensures turn.Stop? ==> RunOutcome(request, answers, turn.result, Refuses(breaker, clock(2 * |answers|)))
    ensures turn.TryAgain? ==>
              && attempt < MAX_PLAN_ATTEMPTS && |answers| == attempt
              && AllRepairable(request, answers)
              && Repairs(request, prompt, answers[|answers| - 1], turn.prompt, attempt)
    ensures breaker != null && answers != before ==>
              !Tripped(breaker.failureThreshold, breaker.cooldownSeconds, old(breaker.history), clock(2 * |before|))
    ensures breaker != null ==>
              && breaker.Valid()
              && breaker.history
                 == old(breaker.history)
                    + (if answers == before then []
                       else Recorded(request, answers[|answers| - 1], clock(2 * |before| + 1)))
              && breaker.failures ==
                 if turn.Stop? && turn.result.Returned? then 0
                 else old(breaker.failures) + FailureCount(request, answers) - FailureCount(request, before)
  {
    hide Acceptable, Accepted, CountsAsFailure, Repairable, IsRepairableCode, Repairs, IsCodeOf, Recorded, Tripped;
    answers := before;
    if breaker != null {
      var allowed := breaker.Allow(clock(2 * (attempt - 1)));
      if !allowed {
        return Stop(Raised(CIRCUIT_OPEN)), answers;
      }
    }
    var a, error := CallProvider(provider, prompt, request, breaker, clock(2 * attempt - 1));
    answers := before + [a];
    assert answers[..|answers| - 1] == before;
    if a.Crash? {
      turn := Stop(Crashed);
    } else if error.None? {
      turn := Stop(Returned(a.plans));
    } else if attempt < MAX_PLAN_ATTEMPTS && IsRepairableCode(error.value.code) {
      RepairExtends(request, prompt, a, error.value, attempt);
      turn := TryAgain(RepairPlanPrompt(prompt, error.value, attempt));
    } else {
      turn := Stop(Raised(error.value));
    }
  }

  /** plan_content_week_with_repair. `clock(2k)` and `clock(2k + 1)` are the readings around the
      k-th call. */
  method PlanContentWeekWithRepair(
      provider: Provider, prompt: Prompt, request: Request, breaker: CircuitBreaker?, clock: nat -> real)
    returns (result: Result, ghost answers: seq<Answer>)
    requires breaker != null ==> breaker.Valid()
    requires forall k :: clock(k) >= 0.0
    modifies provider`prompts, if breaker != null then {breaker} else {}
    ensures old(provider.prompts) <= provider.prompts
    ensures answers == Answers(provider.answer, provider.prompts, old(|provider.prompts|))
    ensures PromptChain(request, prompt, answers, provider.prompts[old(|provider.prompts|)..])
    ensures RunOutcome(request, answers, result, Refuses(breaker, clock(2 * |answers|)))
    ensures result == Raised(ATTEMPTS_EXHAUSTED) ==>
            answers != []
            && answers[|answers| - 1] == Failure(ATTEMPTS_EXHAUSTED)
    ensures breaker != null ==>
              && breaker.Valid()
              && breaker.history == old(breaker.history) + Recordings(request, answers, clock)
              && EachCallAllowed(
                   breaker.failureThreshold, breaker.cooldownSeconds, old(breaker.history), request, answers, clock)
              && breaker.failures == if result.Returned? then 0
                 else old(breaker.failures) + FailureCount(request, answers)
    ensures breaker != null && !result.Returned? && (forall i :: 0 <= i < |answers| ==> WrongShape(answers[i])) ==>
              breaker.failures == old(breaker.failures)
  {
    hide AllRepairable, RunOutcome, Repairs, WrongShape, FailureCount, Recorded, Refuses, Tripped, Recordings;
    hide EachCallAllowed, PromptChain, Answers;
    var current := prompt;
    var outcome: Option<Result> := None;
    answers := [];
    ghost var asked: seq<Prompt> := [];
    NothingYet(0, 0.0, [], request, prompt, clock);
    assert asked + [current] == [prompt];
    if breaker != null {
      NothingYet(breaker.failureThreshold, breaker.cooldownSeconds, breaker.history, request, prompt, clock);
    }
    var attempt := 1;
    while attempt <= MAX_PLAN_ATTEMPTS && outcome.None?
      invariant breaker != null ==> breaker.Valid()
      invariant provider.prompts == old(provider.prompts) + asked && |asked| == |answers|
      invariant answers == Answers(provider.answer, provider.prompts, old(|provider.prompts|))
      invariant PromptChain(request, prompt, answers, asked)
      invariant outcome.None? ==>
                  && 1 <= attempt <= MAX_PLAN_ATTEMPTS && |answers| == attempt - 1
                  && AllRepairable(request, answers)
                  && PromptChain(request, prompt, answers, asked + [current])
      invariant outcome.Some? ==> RunOutcome(request, answers, outcome.value, Refuses(breaker, clock(2 * |answers|)))
      invariant breaker != null ==> breaker.history == old(breaker.history) + Recordings(request, answers, clock)
      invariant breaker != null ==>
                  EachCallAllowed(
                    breaker.failureThreshold, breaker.cooldownSeconds, old(breaker.history), request, answers, clock)
      invariant breaker != null ==>
                  breaker.failures == if outcome.Some? && outcome.value.Returned? then 0
                                      else old(breaker.failures) + FailureCount(request, answers)
      decreases if outcome.None? then MAX_PLAN_ATTEMPTS + 1 - attempt else 0
    {
      AnswersStep(provider.answer, provider.prompts, current, old(|provider.prompts|));
      ghost var before, earlier := provider.prompts, answers;
      var turn: Turn;
      turn, answers := TakeTurn(provider, current, request, breaker, clock, attempt, answers);
      if answers != earlier {
        ChainKeeps(request, prompt, earlier, asked + [current], answers[|earlier|]);
      }
      if breaker != null && answers != earlier {
        RecordingsStep(request, earlier, answers[|earlier|], clock);
        OneMoreAllowed(
          breaker.failureThreshold, breaker.cooldownSeconds, old(breaker.history), request, earlier,
          answers[|earlier|], clock);
      }
      asked := if provider.prompts == before then asked else asked + [current];
      match turn {
        case Stop(r) =>
          outcome := Some(r);
        case TryAgain(next) =>
          ChainGrows(request, prompt, answers, asked, next);
          current := next;
          attempt := attempt + 1;
      }
    }
    assert provider.prompts[old(|provider.prompts|)..] == asked;
    result := if outcome.Some? then outcome.value else Raised(ATTEMPTS_EXHAUSTED);
    if result == Raised(ATTEMPTS_EXHAUSTED) {
      TrailingRaiseUnreached(request, answers, result, Refuses(breaker, clock(2 * |answers|)));
    }
    if forall i :: 0 <= i < |answers| ==> WrongShape(answers[i]) {
      WrongShapesDoNotCount(request, answers);
    }
  }
}
