/** The owner-first chain of strategy-v2: what the owner chose in the brief, what the plan commits to,
    what the content handoff offers, and what a generation request may ask for
    (strategy-policy.ts, content-policy.ts). */
module OwnerChoice {
  import opened Text
  import opened Collections
  import opened StrategyPolicy

  const V2_CHANNELS := ["facebook", "instagram", "tiktok", "google_business_profile", "delivery_platforms", "website"]
  const CONTENT_CHANNELS := ["facebook", "instagram", "tiktok", "google_business_profile"]
  const CONTENT_FORMATS := ["static_image_post", "short_video_script", "carousel_brief", "text_post"]
  const SETUP_STATES := ["connected", "existing_link", "setup_later"]
  const CAPABILITY_STATES := ["publishing_ready", "publishing_pending", "owner_managed"]
  const CAPACITY_PRESETS := ["one_to_two_hours", "three_to_five_hours", "half_day", "full_day_plus"]
  const UNAVAILABLE_REASONS := ["no_content_supported_channels", "incomplete_weekly_formats"]
  const LANGUAGE_MODES := ["ar-EG", "en", "mixed"]

  /** An absent URL or target is the empty text. */
  datatype Choice = Choice(channel: string, role: Role, setupState: string, publicUrl: string,
    publishingTargetId: string)

  datatype BriefV2 = BriefV2(choices: seq<Choice>, weeklyCapacity: string)

  datatype Commitment = Commitment(channel: string, role: Role, setupState: string, capabilityState: string,
    rationale: string)

  datatype HandoffWeek = HandoffWeek(weekNumber: real, formats: seq<string>)

  datatype Handoff =
    | Missing
    | NotAvailable(reason: string, message: string)
    | Offered(channels: seq<string>, language: string, weeks: seq<HandoffWeek>)

  /** What a generation request compares with its own fields. */
  datatype Identity = Identity(
    strategyId: string, version: int, language: string, profileVersionId: string, profileVersion: int)

  datatype PlanV2 = PlanV2(
    identity: Identity, commitments: seq<Commitment>, calendarWeeks: seq<real>, adviceWeeks: seq<real>,
    handoff: Handoff,
    hasBlockingGap: bool, hasBlockingBlocker: bool)

  datatype AnyPlan =
    | V1(identity: Identity, selectedChannels: seq<string>, weekNumbers: seq<real>)
    | V2(plan: PlanV2)

  datatype GenerateRequest = GenerateRequest(
    strategyId: string, strategyVersion: int, businessId: string, languageMode: string,
    profileId: string, profileVersion: int, profileBusinessId: string,
    selectedChannels: seq<string>, weekNumber: real, allowedFormats: seq<string>)

  datatype PolicyIssue =
    | Reported | ChannelChoiceMismatch | PolicyViolation | HandoffInvalid | BlockingGap | Blocked
    | VersionConflict | ProfileStale | LanguageMismatch | ContentChannelMismatch | WeekOutOfRange | FormatsDiffer

  // ----- The brief -----

  predicate ChoiceOk(choice: Choice) {
    && choice.channel in V2_CHANNELS
    && choice.setupState in SETUP_STATES
    && (if choice.setupState == "existing_link" then IsNonEmptyText(choice.publicUrl) else choice.publicUrl == "")
    && (choice.setupState == "connected" <==> choice.publishingTargetId != "")
  }

  function ChosenChannels(choices: seq<Choice>): seq<string> {
    seq(|choices|, i requires 0 <= i < |choices| => choices[i].channel)
  }

  function ChosenRoles(choices: seq<Choice>): seq<Role> {
    seq(|choices|, i requires 0 <= i < |choices| => choices[i].role)
  }

  ghost predicate BriefOk(brief: BriefV2) {
    && 1 <= |brief.choices| <= 3
    && Distinct(ChosenChannels(brief.choices))
    && RoleCount(ChosenRoles(brief.choices), Primary) == 1
    && (forall i :: 0 <= i < |brief.choices| ==> ChoiceOk(brief.choices[i]))
    && brief.weeklyCapacity in CAPACITY_PRESETS
  }

  /** The checks of one choice. */
  method CheckChoice(choice: Choice) returns (issues: seq<PolicyIssue>)
    ensures issues == [] <==> ChoiceOk(choice)
  {
    hide IsNonEmptyText;
    issues := [];
    if choice.channel !in V2_CHANNELS {
      issues := issues + [ChannelChoiceMismatch];
    }
    if choice.setupState !in SETUP_STATES {
      issues := issues + [ChannelChoiceMismatch];
    }
    if choice.setupState != "existing_link" && choice.publicUrl != "" {
      issues := issues + [ChannelChoiceMismatch];
    }
    if choice.setupState == "existing_link" && !IsNonEmptyText(choice.publicUrl) {
      issues := issues + [ChannelChoiceMismatch];
    }
    if choice.setupState != "connected" && choice.publishingTargetId != "" {
      issues := issues + [ChannelChoiceMismatch];
    }
    if choice.setupState == "connected" && choice.publishingTargetId == "" {
      issues := issues + [ChannelChoiceMismatch];
    }
  }

  method ValidateStrategyBriefV2Choices(brief: BriefV2) returns (issues: seq<PolicyIssue>)
    ensures issues == [] <==> BriefOk(brief)
  {
    hide ChoiceOk, RoleCount;
    if |brief.choices| < 1 || |brief.choices| > 3 {
      return [ChannelChoiceMismatch];
    }
    issues := [];
    var names := ChosenChannels(brief.choices);
    SetSize(names);
    if |set n | n in names| != |names| {
      issues := issues + [ChannelChoiceMismatch];
    }
    var roles := ChosenRoles(brief.choices);
    if RoleCount(roles, Primary) != 1 {
      issues := issues + [ChannelChoiceMismatch];
    }
    TwoRoles(roles);
    if RoleCount(roles, Supporting) > 2 {
      issues := issues + [ChannelChoiceMismatch];
    }
    ghost var before := issues;
    for i := 0 to |brief.choices|
      invariant issues == [] <==> before == [] && forall k :: 0 <= k < i ==> ChoiceOk(brief.choices[k])
    {
      var found := CheckChoice(brief.choices[i]);
      issues := issues + found;
    }
    if brief.weeklyCapacity !in CAPACITY_PRESETS {
      issues := issues + [PolicyViolation];
    }
  }

  // ----- The commitments -----

  predicate CommitmentOk(choice: Choice, commitment: Commitment) {
    && commitment.channel == choice.channel
    && commitment.role == choice.role
    && commitment.setupState == choice.setupState
    && IsNonEmptyText(commitment.rationale)
    && match commitment.capabilityState
       case "publishing_ready" => choice.setupState == "connected" && choice.publishingTargetId != ""
       case "publishing_pending" => choice.setupState == "connected"
       case "owner_managed" => choice.setupState != "connected"
       case _ => false
  }

  ghost predicate CommitmentsOk(choices: seq<Choice>, commitments: seq<Commitment>) {
    && |commitments| == |choices|
    && forall i :: 0 <= i < |commitments| ==> CommitmentOk(choices[i], commitments[i])
  }

  /** The checks of one commitment; the first two stop it. */
  method CheckCommitment(choice: Choice, commitment: Commitment) returns (issues: seq<PolicyIssue>)
    ensures issues == [] <==> CommitmentOk(choice, commitment)
  {
    hide IsNonEmptyText;
    if || commitment.channel != choice.channel
       || commitment.role != choice.role
       || commitment.setupState != choice.setupState {
      return [ChannelChoiceMismatch];
    }
    if commitment.capabilityState !in CAPABILITY_STATES {
      return [ChannelChoiceMismatch];
    }
    issues := [];
    if !IsNonEmptyText(commitment.rationale) {
      issues := issues + [PolicyViolation];
    }
    if && commitment.capabilityState == "publishing_ready"
       && (choice.setupState != "connected" || choice.publishingTargetId == "") {
      issues := issues + [ChannelChoiceMismatch];
    }
    if commitment.capabilityState == "publishing_pending" && choice.setupState != "connected" {
      issues := issues + [ChannelChoiceMismatch];
    }
    if commitment.capabilityState == "owner_managed" && choice.setupState == "connected" {
      issues := issues + [ChannelChoiceMismatch];
    }
  }

  method ValidateCommitmentsMatchChoices(choices: seq<Choice>, commitments: seq<Commitment>)
    returns (issues: seq<PolicyIssue>)
    ensures issues == [] <==> CommitmentsOk(choices, commitments)
  {
    hide CommitmentOk;
    if |commitments| != |choices| {
      return [ChannelChoiceMismatch];
    }
    issues := [];
    for i := 0 to |commitments|
      invariant issues == [] <==> forall k :: 0 <= k < i ==> CommitmentOk(choices[k], commitments[k])
    {
      var found := CheckCommitment(choices[i], commitments[i]);
      issues := issues + found;
    }
  }

  // ----- The content handoff -----

  ghost predicate FormatsOk(formats: seq<string>) {
    && formats != []
    && (forall i :: 0 <= i < |formats| ==> formats[i] in CONTENT_FORMATS)
    && Distinct(formats)
  }

  function CommittedChannels(commitments: seq<Commitment>): seq<string> {
    seq(|commitments|, i requires 0 <= i < |commitments| => commitments[i].channel)
  }

  function WeekNumbers(weeks: seq<HandoffWeek>): seq<real> {
    seq(|weeks|, i requires 0 <= i < |weeks| => weeks[i].weekNumber)
  }

  ghost predicate OfferOk(channels: seq<string>, language: string, weeks: seq<HandoffWeek>, committed: seq<string>) {
    && channels != []
    && (forall i :: 0 <= i < |channels| ==> channels[i] in CONTENT_CHANNELS && channels[i] in committed)
    && language in LANGUAGE_MODES
    && TwelveWeeks(WeekNumbers(weeks))
    && forall i :: 0 <= i < |weeks| ==> FormatsOk(weeks[i].formats)
  }

  ghost predicate HandoffOk(plan: PlanV2) {
    match plan.handoff
    case Missing => false
    case NotAvailable(reason, message) => reason in UNAVAILABLE_REASONS && IsNonEmptyText(message)
    case Offered(channels, language, weeks) => OfferOk(channels, language, weeks, CommittedChannels(plan.commitments))
  }

  method CheckFormats(formats: seq<string>) returns (issues: seq<PolicyIssue>)
    ensures issues == [] <==> FormatsOk(formats)
  {
    issues := [];
    if |formats| == 0 || exists i :: 0 <= i < |formats| && formats[i] !in CONTENT_FORMATS {
      issues := issues + [HandoffInvalid];
    }
    SetSize(formats);
    if |set f | f in formats| != |formats| {
      issues := issues + [HandoffInvalid];
    }
  }

  method CheckOffer(channels: seq<string>, language: string, weeks: seq<HandoffWeek>, committed: seq<string>)
    returns (issues: seq<PolicyIssue>)
    ensures issues == [] <==> OfferOk(channels, language, weeks, committed)
  {
    hide FormatsOk, TwelveWeeks;
    issues := [];
    if |channels| == 0 || exists i :: 0 <= i < |channels| && channels[i] !in CONTENT_CHANNELS {
      issues := issues + [HandoffInvalid];
    }
    ghost var before := issues;
    for i := 0 to |channels|
      invariant issues == [] <==> before == [] && forall k :: 0 <= k < i ==> channels[k] in committed
    {
      if channels[i] !in committed {
        issues := issues + [HandoffInvalid];
      }
    }
    if language !in LANGUAGE_MODES {
      issues := issues + [HandoffInvalid];
    }
    if |weeks| != 12 {
      TwelveIsTwelve(WeekNumbers(weeks));
      return issues + [HandoffInvalid];
    }
    var numbersOk := CheckWeekNumbers(WeekNumbers(weeks));
    if !numbersOk {
      issues := issues + [HandoffInvalid];
    }
    before := issues;
    for i := 0 to |weeks|
      invariant issues == [] <==> before == [] && forall k :: 0 <= k < i ==> FormatsOk(weeks[k].formats)
    {
      var found := CheckFormats(weeks[i].formats);
      issues := issues + found;
    }
  }

  lemma {:induction false} TwelveIsTwelve(numbers: seq<real>)
    ensures TwelveWeeks(numbers) ==> |numbers| == 12
  {
  }

  method ValidateContentHandoff(plan: PlanV2) returns (issues: seq<PolicyIssue>)
    ensures issues == [] <==> HandoffOk(plan)
  {
    hide OfferOk, IsNonEmptyText;
    match plan.handoff {
      case Missing => return [HandoffInvalid];
      case NotAvailable(reason, message) =>
        issues := if reason !in UNAVAILABLE_REASONS || !IsNonEmptyText(message) then [HandoffInvalid] else [];
      case Offered(channels, language, weeks) =>
        issues := CheckOffer(channels, language, weeks, CommittedChannels(plan.commitments));
    }
  }

  // ----- validateStrategyV2Bundle -----

  /** `raised` holds the issues of the profile, reference, citation, evidence, language and text
      checks. */
  ghost predicate BundleV2Valid(raised: seq<PolicyIssue>, brief: BriefV2, plan: PlanV2, approved: bool) {
    && raised == []
    && BriefOk(brief)
    && CommitmentsOk(brief.choices, plan.commitments)
    && TwelveWeeks(plan.calendarWeeks) && TwelveWeeks(plan.adviceWeeks)
    && HandoffOk(plan)
    && !plan.hasBlockingGap
    && (approved ==> !plan.hasBlockingBlocker)
  }

  method ValidateStrategyV2Bundle(raised: seq<PolicyIssue>, brief: BriefV2, plan: PlanV2, approved: bool)
    returns (issues: seq<PolicyIssue>)
    ensures issues == [] <==> BundleV2Valid(raised, brief, plan, approved)
    ensures raised <= issues
    ensures approved && issues != [] ==> Blocked in issues
  {
    hide BriefOk, CommitmentsOk, TwelveWeeks, HandoffOk;
    var ofBrief := ValidateStrategyBriefV2Choices(brief);
    var ofCommitments := ValidateCommitmentsMatchChoices(brief.choices, plan.commitments);
    var calendarOk := CheckWeekNumbers(plan.calendarWeeks);
    var adviceOk := CheckWeekNumbers(plan.adviceWeeks);
    var ofHandoff := ValidateContentHandoff(plan);
    issues := raised + ofBrief + ofCommitments;
    if !calendarOk {
      issues := issues + [PolicyViolation];
    }
    if !adviceOk {
      issues := issues + [PolicyViolation];
    }
    issues := issues + ofHandoff;
    if plan.hasBlockingGap {
      issues := issues + [BlockingGap];
    }
    if approved && (|issues| > 0 || plan.hasBlockingBlocker) {
      issues := issues + [Blocked];
    }
  }

  // ----- validateInternalContentGenerateRequest -----

  function IdentityOf(plan: AnyPlan): Identity {
    match plan
    case V1(identity, _, _) => identity
    case V2(p) => p.identity
  }

  function ApprovedChannels(plan: AnyPlan): seq<string> {
    match plan
    case V1(_, selected, _) => selected
    case V2(p) => if p.handoff.Offered? then p.handoff.channels else []
  }

  /** weeks.find(week => week.week_number === number). */
  function FindWeek(weeks: seq<HandoffWeek>, number: real): Option<HandoffWeek> {
    if weeks == [] then None
    else if weeks[0].weekNumber == number then Some(weeks[0])
    else FindWeek(weeks[1..], number)
  }

  predicate WeekAndFormatsOk(plan: AnyPlan, request: GenerateRequest) {
    match plan
    case V1(_, _, numbers) => request.weekNumber in numbers
    case V2(p) =>
      && p.handoff.Offered?
      && var week := FindWeek(p.handoff.weeks, request.weekNumber);
      && week.Some? && request.allowedFormats == week.value.formats
  }

  predicate RequestOk(plan: AnyPlan, request: GenerateRequest) {
    var identity := IdentityOf(plan);
    && identity.strategyId == request.strategyId && identity.version == request.strategyVersion
    && request.profileBusinessId == request.businessId
    && identity.profileVersionId == request.profileId && identity.profileVersion == request.profileVersion
    && identity.language == request.languageMode
    && request.selectedChannels != []
    && (forall i :: 0 <= i < |request.selectedChannels| ==> request.selectedChannels[i] in ApprovedChannels(plan))
    && WeekAndFormatsOk(plan, request)
  }

  predicate WeekExists(plan: AnyPlan, number: real) {
    match plan
    case V1(_, _, numbers) => number in numbers
    case V2(p) => p.handoff.Offered? && FindWeek(p.handoff.weeks, number).Some?
  }

  /** formatsMatchExactly. */
  predicate FormatsMatchExactly(actual: seq<string>, expected: seq<string>) {
    |actual| == |expected| && forall i :: 0 <= i < |actual| ==> actual[i] == expected[i]
  }

  /** The week and the formats of a request. */
  method CheckWeekAndFormats(plan: AnyPlan, request: GenerateRequest) returns (issues: seq<PolicyIssue>)
    ensures issues == [] <==> WeekAndFormatsOk(plan, request)
    ensures WeekOutOfRange in issues <==> !WeekExists(plan, request.weekNumber)
    ensures forall x :: x in issues ==> x == WeekOutOfRange || x == FormatsDiffer
  {
    hide FindWeek;
    issues := [];
    match plan {
      case V1(_, _, numbers) =>
        if request.weekNumber !in numbers {
          issues := [WeekOutOfRange];
        }
      case V2(p) =>
        var week := if p.handoff.Offered? then FindWeek(p.handoff.weeks, request.weekNumber) else None;
        if week.None? {
          issues := [WeekOutOfRange];
        } else if !FormatsMatchExactly(request.allowedFormats, week.value.formats) {
          issues := [FormatsDiffer];
        }
    }
  }

  method ValidateInternalContentGenerateRequest(plan: AnyPlan, request: GenerateRequest)
    returns (issues: seq<PolicyIssue>)
    ensures issues == [] <==> RequestOk(plan, request)
    ensures VersionConflict in issues <==>
            IdentityOf(plan).strategyId != request.strategyId || IdentityOf(plan).version != request.strategyVersion
    ensures LanguageMismatch in issues <==> IdentityOf(plan).language != request.languageMode
    ensures ContentChannelMismatch in issues <==>
            request.selectedChannels == [] || exists c :: c in request.selectedChannels && c !in ApprovedChannels(plan)
    ensures WeekOutOfRange in issues <==> !WeekExists(plan, request.weekNumber)
  {
    hide WeekAndFormatsOk, WeekExists, ApprovedChannels;
    issues := [];
    var identity := IdentityOf(plan);
    if identity.strategyId != request.strategyId || identity.version != request.strategyVersion {
      issues := issues + [VersionConflict];
    }
    if || request.profileBusinessId != request.businessId
       || identity.profileVersionId != request.profileId || identity.profileVersion != request.profileVersion {
      issues := issues + [ProfileStale];
    }
    if identity.language != request.languageMode {
      issues := issues + [LanguageMismatch];
    }
    var approved := ApprovedChannels(plan);
    if || |request.selectedChannels| == 0
       || exists i :: 0 <= i < |request.selectedChannels| && request.selectedChannels[i] !in approved {
      issues := issues + [ContentChannelMismatch];
    }
    var ofWeek := CheckWeekAndFormats(plan, request);
    issues := issues + ofWeek;
  }

  // ----- The chain -----

  lemma {:induction false} CommitmentFields(choice: Choice, commitment: Commitment)
    requires CommitmentOk(choice, commitment)
    ensures commitment.channel == choice.channel && commitment.role == choice.role
  {
  }

  function CommittedRoles(commitments: seq<Commitment>): seq<Role> {
    seq(|commitments|, i requires 0 <= i < |commitments| => commitments[i].role)
  }

  ghost predicate OnePrimary(roles: seq<Role>) {
    exists p :: 0 <= p < |roles| && roles[p] == Primary
      && forall i :: 0 <= i < |roles| && i != p ==> roles[i] == Supporting
  }

  /** The commitments are the owner's choices, channel by channel: none added, none dropped or
      repeated, at most three, one of them primary. */
  lemma {:induction false} CommitmentsAreTheChoices(brief: BriefV2, plan: PlanV2)
    requires BriefOk(brief) && CommitmentsOk(brief.choices, plan.commitments)
    ensures CommittedChannels(plan.commitments) == ChosenChannels(brief.choices)
    ensures Distinct(CommittedChannels(plan.commitments)) && 1 <= |plan.commitments| <= 3
    ensures OnePrimary(CommittedRoles(plan.commitments))
  {
    hide CommitmentOk, ChoiceOk, Distinct, OnePrimary, RoleCount;
    forall i | 0 <= i < |plan.commitments|
      ensures plan.commitments[i].channel == brief.choices[i].channel
              && plan.commitments[i].role == brief.choices[i].role
    {
      CommitmentFields(brief.choices[i], plan.commitments[i]);
    }
    OnlyPrimary(ChosenRoles(brief.choices));
    assert CommittedRoles(plan.commitments) == ChosenRoles(brief.choices);
  }

  /** A commitment claims publishing exactly where the owner connected the channel, which is where there is a
      publishing target; everywhere else it is the owner's own to manage. */
  lemma {:induction false} PublishingIffConnected(brief: BriefV2, plan: PlanV2, i: nat)
    requires BriefOk(brief) && CommitmentsOk(brief.choices, plan.commitments) && i < |plan.commitments|
    ensures var choice, state := brief.choices[i], plan.commitments[i].capabilityState;
            && (state == "publishing_ready" || state == "publishing_pending" <==> choice.setupState == "connected")
            && (choice.setupState == "connected" <==> choice.publishingTargetId != "")
            && (state == "owner_managed" <==> choice.publishingTargetId == "")
            && (choice.setupState == "existing_link" <==> choice.publicUrl != "")
  {
    hide Distinct, RoleCount, IsNonEmptyText;
    assert ChoiceOk(brief.choices[i]) && CommitmentOk(brief.choices[i], plan.commitments[i]);
    TextIsNotEmpty(brief.choices[i].publicUrl);
  }

  lemma {:induction false} TextIsNotEmpty(s: string)
    ensures IsNonEmptyText(s) ==> s != ""
  {
  }

  /** Both publishing states are open to a connected channel. */
  lemma {:induction false} BothPublishingStates(choice: Choice, commitment: Commitment)
    requires ChoiceOk(choice) && CommitmentOk(choice, commitment) && choice.setupState == "connected"
    ensures CommitmentOk(choice, commitment.(capabilityState := "publishing_ready"))
    ensures CommitmentOk(choice, commitment.(capabilityState := "publishing_pending"))
  {
    hide IsNonEmptyText;
  }

  lemma {:induction false} NoPrimary(roles: seq<Role>)
    requires RoleCount(roles, Primary) == 0
    ensures forall i :: 0 <= i < |roles| ==> roles[i] == Supporting
  {
    if roles != [] {
      NoPrimary(roles[..|roles| - 1]);
      assert forall i :: 0 <= i < |roles| - 1 ==> roles[..|roles| - 1][i] == roles[i];
    }
  }

  lemma {:induction false} OnlyPrimary(roles: seq<Role>)
    requires RoleCount(roles, Primary) == 1
    ensures OnePrimary(roles)
  {
    var n := |roles| - 1;
    assert forall i :: 0 <= i < n ==> roles[..n][i] == roles[i];
    if roles[n] == Primary {
      NoPrimary(roles[..n]);
    } else {
      OnlyPrimary(roles[..n]);
      var p :| 0 <= p < n && roles[..n][p] == Primary
        && forall i :: 0 <= i < n && i != p ==> roles[..n][i] == Supporting;
      assert roles[p] == Primary;
    }
  }

  /** Owner choice carries through: every channel an accepted request asks for is one that the owner
      chose in the brief. */
  lemma {:induction false} RequestedChannelsWereChosen(
      raised: seq<PolicyIssue>, brief: BriefV2, plan: PlanV2, approved: bool, request: GenerateRequest, k: nat)
    requires BundleV2Valid(raised, brief, plan, approved)
    requires RequestOk(V2(plan), request) && k < |request.selectedChannels|
    ensures request.selectedChannels[k] in ChosenChannels(brief.choices)
    ensures request.selectedChannels[k] in CONTENT_CHANNELS
  {
    hide BriefOk, Distinct, TwelveWeeks, FormatsOk;
    var channels := plan.handoff.channels;
    assert request.selectedChannels[k] in channels;
    var i :| 0 <= i < |channels| && channels[i] == request.selectedChannels[k];
    assert channels[i] in CommittedChannels(plan.commitments);
    CommitmentsAreTheChoices(brief, plan);
  }

  lemma {:induction false} FindWeekMember(weeks: seq<HandoffWeek>, number: real)
    ensures FindWeek(weeks, number).Some? <==> number in WeekNumbers(weeks)
    ensures FindWeek(weeks, number).Some? ==>
              FindWeek(weeks, number).value in weeks && FindWeek(weeks, number).value.weekNumber == number
  {
    if weeks != [] {
      FindWeekMember(weeks[1..], number);
      assert WeekNumbers(weeks) == [weeks[0].weekNumber] + WeekNumbers(weeks[1..]);
    }
  }

  lemma {:induction false} OfferedWeeks(plan: PlanV2)
    requires HandoffOk(plan) && plan.handoff.Offered?
    ensures TwelveWeeks(WeekNumbers(plan.handoff.weeks))
    ensures forall i :: 0 <= i < |plan.handoff.weeks| ==> FormatsOk(plan.handoff.weeks[i].formats)
  {
    hide FormatsOk, TwelveWeeks;
  }

  /** No week from 1 to 12 is reported missing on an accepted handoff, if and only if its week numbers
      are whole. */
  lemma {:induction false} EveryWeekFoundIffWhole(plan: PlanV2)
    requires HandoffOk(plan) && plan.handoff.Offered?
    ensures (forall week :: Whole(week) && 1.0 <= week <= 12.0 ==> FindWeek(plan.handoff.weeks, week).Some?)
            <==> AllWhole(WeekNumbers(plan.handoff.weeks))
  {
    hide HandoffOk, TwelveWeeks, FindWeek, AllWhole;
    var weeks := plan.handoff.weeks;
    OfferedWeeks(plan);
    TwelveWeeksParts(WeekNumbers(weeks));
    EveryWeekOnceIffWhole(WeekNumbers(weeks));
    forall week ensures FindWeek(weeks, week).Some? <==> week in WeekNumbers(weeks) {
      FindWeekMember(weeks, week);
    }
  }

  /** What is found on an accepted handoff lies from 1 to 12, and no two entries are for one week. */
  lemma {:induction false} FoundWeekIsOnlyOne(plan: PlanV2, number: real)
    requires HandoffOk(plan) && plan.handoff.Offered?
    requires FindWeek(plan.handoff.weeks, number).Some?
    ensures 1.0 <= number <= 12.0
    ensures forall i, j :: 0 <= i < j < 12 ==> plan.handoff.weeks[i].weekNumber != plan.handoff.weeks[j].weekNumber
  {
    hide HandoffOk, TwelveWeeks, FindWeek;
    var weeks := plan.handoff.weeks;
    OfferedWeeks(plan);
    FindWeekMember(weeks, number);
    TwelveWeeksParts(WeekNumbers(weeks));
    forall i, j | 0 <= i < j < 12 ensures weeks[i].weekNumber != weeks[j].weekNumber {
      assert WeekNumbers(weeks)[i] != WeekNumbers(weeks)[j];
    }
  }

  lemma {:induction false} TwelveWeeksParts(numbers: seq<real>)
    requires TwelveWeeks(numbers)
    ensures |numbers| == 12 && forall i, j :: 0 <= i < j < 12 ==> numbers[i] != numbers[j]
    ensures forall n :: n in numbers ==> 1.0 <= n <= 12.0
  {
  }

  /** The formats of an accepted request are those of its week: non-empty, supported, unique. */
  lemma {:induction false} RequestedFormatsAreSupported(
      raised: seq<PolicyIssue>, brief: BriefV2, plan: PlanV2, approved: bool, request: GenerateRequest)
    requires BundleV2Valid(raised, brief, plan, approved) && RequestOk(V2(plan), request)
    ensures 1.0 <= request.weekNumber <= 12.0 && FormatsOk(request.allowedFormats)
    ensures plan.handoff.Offered? && HandoffWeek(request.weekNumber, request.allowedFormats) in plan.handoff.weeks
  {
    hide BriefOk, CommitmentsOk, Distinct, TwelveWeeks, FormatsOk, FindWeek;
    FoundWeekIsOnlyOne(plan, request.weekNumber);
    FindWeekMember(plan.handoff.weeks, request.weekNumber);
  }
}
