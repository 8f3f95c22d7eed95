/** The counting and rounding checks of validateStrategyBundle (strategy-policy.ts), on exact reals,
    beside the Pydantic twin of its budget check (strategy_contracts.py). */
module StrategyPolicy {
  import opened Text
  import opened Collections

  const CHANNEL_SCORE_RULE_VERSION := "strategy-channel-score-v1"

  /** One score per dimension, in the order of CHANNEL_SCORE_DIMENSIONS. */
  type Scores = s: seq<real> | |s| == 8 witness [0.0, 0.0, 0.0, 0.0, 0.0, 0.0, 0.0, 0.0]

  datatype Role = Primary | Supporting

  datatype Scorecard = Scorecard(
    channel: string, role: Role, scores: Scores, totalScore: real, excludedReason: Option<string>)

  /** A scorecard of the plan: the deterministic card and the model's rationale. */
  datatype ChannelScorecard = ChannelScorecard(card: Scorecard, rationale: string)

  datatype BudgetMode = OrganicOnly | MonthlyAmount | ThreeMonthAmount | ScenarioOnly

  datatype Period = Monthly | TwelveWeek

  datatype ScenarioType = Conservative | Base | Growth

  datatype Allocation = Allocation(channel: string, amountEgp: real, percentage: real)

  datatype BudgetScenario = BudgetScenario(
    scenarioType: ScenarioType, period: Period, totalEgp: real, allocations: seq<Allocation>,
    requiresOwnerBudgetApproval: bool)

  datatype ExternalBudget = NoAmount | Exactly(egp: real) | Between(minEgp: real, maxEgp: real)

  datatype Brief = Brief(paidMediaAllowed: bool, budgetMode: BudgetMode, budget: ExternalBudget)

  datatype Plan = Plan(
    scoreRuleVersion: string, allChannelScores: seq<ChannelScorecard>, selectedChannels: seq<ChannelScorecard>,
    budgetMode: BudgetMode, budgetScenarios: Option<seq<BudgetScenario>>, weekNumbers: seq<real>,
    hasBlockingGap: bool, hasBlockingBlocker: bool)

  datatype Issue =
    | Elsewhere(code: string) | ScoreMismatch | ChannelLimitExceeded | BudgetMismatch | ArithmeticFailure
    | RuleViolation | KnowledgeGap | ApprovalBlocked

  // ----- Rounding -----

  function Sum(values: seq<real>): real {
    if values == [] then 0.0 else Sum(values[..|values| - 1]) + values[|values| - 1]
  }

  /** Math.round(value * 100) / 100; Math.round rounds halves up. */
  function RoundScore(value: real): real {
    (value * 100.0 + 0.5).Floor as real / 100.0
  }

  /** Rounding gives t exactly when t is a whole number of hundredths and the value lies in the half
      open interval of one hundredth around it. */
  lemma {:induction false} RoundScoreMeans(value: real, t: real)
    ensures RoundScore(value) == t <==>
            && t * 100.0 == (t * 100.0).Floor as real
            && t - 0.005 <= value < t + 0.005
  {
    var n := (value * 100.0 + 0.5).Floor;
    assert n as real <= value * 100.0 + 0.5 < n as real + 1.0;
    if RoundScore(value) == t {
      assert t * 100.0 == n as real;
    }
    if t * 100.0 == (t * 100.0).Floor as real && t - 0.005 <= value < t + 0.005 {
      var k := (t * 100.0).Floor;
      assert k as real <= value * 100.0 + 0.5 < k as real + 1.0;
      assert n == k;
    }
  }

  function CalculateChannelTotal(card: Scorecard): real {
    RoundScore(Sum(card.scores))
  }

  function Amounts(s: BudgetScenario): seq<real> {
    seq(|s.allocations|, i requires 0 <= i < |s.allocations| => s.allocations[i].amountEgp)
  }

  function Percentages(s: BudgetScenario): seq<real> {
    seq(|s.allocations|, i requires 0 <= i < |s.allocations| => s.allocations[i].percentage)
  }

  // ----- Scores and selection -----

  function Channels(cards: seq<Scorecard>): seq<string> {
    seq(|cards|, i requires 0 <= i < |cards| => cards[i].channel)
  }

  /** The deterministic parts, rationale aside. */
  function Cards(scorecards: seq<ChannelScorecard>): seq<Scorecard> {
    seq(|scorecards|, i requires 0 <= i < |scorecards| => scorecards[i].card)
  }

  /** find(scorecard => scorecard.channel === channel). */
  function FindCard(cards: seq<Scorecard>, channel: string): Option<Scorecard> {
    if cards == [] then None
    else if cards[0].channel == channel then Some(cards[0])
    else FindCard(cards[1..], channel)
  }

  lemma {:induction false} FindCardMember(cards: seq<Scorecard>, card: Scorecard)
    requires Distinct(Channels(cards))
    ensures FindCard(cards, card.channel) == Some(card) <==> card in cards
  {
    if cards != [] {
      assert Channels(cards)[1..] == Channels(cards[1..]);
      FindCardMember(cards[1..], card);
      forall k | 0 < k < |cards| ensures cards[k].channel != cards[0].channel {
        assert Channels(cards)[0] != Channels(cards)[k];
      }
    }
  }

  predicate Reproducible(card: Scorecard) {
    && (forall d :: 0 <= d < 8 ==> 0.0 <= card.scores[d] <= 1.0)
    && CalculateChannelTotal(card) == card.totalScore
  }

  function Roles(cards: seq<Scorecard>): seq<Role> {
    seq(|cards|, i requires 0 <= i < |cards| => cards[i].role)
  }

  /** filter(item => item.role === role).length. */
  function RoleCount(roles: seq<Role>, role: Role): nat {
    if roles == [] then 0
    else RoleCount(roles[..|roles| - 1], role) + (if roles[|roles| - 1] == role then 1 else 0)
  }

  ghost predicate ScoresValid(deterministic: seq<Scorecard>, plan: Plan) {
    var all, selected := Cards(plan.allChannelScores), Cards(plan.selectedChannels);
    && plan.scoreRuleVersion == CHANNEL_SCORE_RULE_VERSION
    && Distinct(Channels(deterministic)) && Distinct(Channels(all)) && Distinct(Channels(selected))
    && (forall i :: 0 <= i < |all| ==> Reproducible(all[i]))
    && |deterministic| == |all|
    && (forall i :: 0 <= i < |deterministic| ==> deterministic[i] in all)
    && (forall i :: 0 <= i < |selected| ==> selected[i] in all)
    && RoleCount(Roles(selected), Primary) <= 2 && RoleCount(Roles(selected), Supporting) <= 1
  }

  lemma {:induction false} UniqueChannels(cards: seq<Scorecard>)
    ensures |set c | c in Channels(cards)| == |cards| <==> Distinct(Channels(cards))
  {
    SetSize(Channels(cards));
  }

  /** The loop over all scorecards. */
  method CheckTotals(all: seq<Scorecard>) returns (issues: seq<Issue>)
    ensures issues == [] <==> forall i :: 0 <= i < |all| ==> Reproducible(all[i])
    ensures forall x :: x in issues ==> x == ScoreMismatch
  {
    issues := [];
    for i := 0 to |all|
      invariant issues == [] <==> forall k :: 0 <= k < i ==> Reproducible(all[k])
      invariant forall x :: x in issues ==> x == ScoreMismatch
    {
      if !Reproducible(all[i]) {
        issues := issues + [ScoreMismatch];
      }
    }
  }

  /** The loop over the selected scorecards. */
  method CheckSelected(all: seq<Scorecard>, selected: seq<Scorecard>) returns (issues: seq<Issue>)
    ensures issues == [] <==> forall i :: 0 <= i < |selected| ==>
            FindCard(all, selected[i].channel) == Some(selected[i])
    ensures forall x :: x in issues ==> x == ScoreMismatch
  {
    issues := [];
    for i := 0 to |selected|
      invariant issues == [] <==> forall k :: 0 <= k < i ==> FindCard(all, selected[k].channel) == Some(selected[k])
      invariant forall x :: x in issues ==> x == ScoreMismatch
    {
      if FindCard(all, selected[i].channel) != Some(selected[i]) {
        issues := issues + [ScoreMismatch];
      }
    }
  }

  method CheckScores(deterministic: seq<Scorecard>, plan: Plan) returns (issues: seq<Issue>)
    ensures issues == [] <==> ScoresValid(deterministic, plan)
    ensures ChannelLimitExceeded in issues <==>
            var roles := Roles(Cards(plan.selectedChannels));
            RoleCount(roles, Primary) > 2 || RoleCount(roles, Supporting) > 1
    ensures forall x :: x in issues ==> x == ScoreMismatch || x == ChannelLimitExceeded
  {
    hide Reproducible, Distinct, Channels, FindCard, RoleCount;
    var all, selected := Cards(plan.allChannelScores), Cards(plan.selectedChannels);
    issues := [];
    if plan.scoreRuleVersion != CHANNEL_SCORE_RULE_VERSION {
      issues := issues + [ScoreMismatch];
    }
    UniqueChannels(deterministic);
    UniqueChannels(all);
    UniqueChannels(selected);
    if || |set c | c in Channels(deterministic)| != |deterministic|
       || |set c | c in Channels(all)| != |all|
       || |set c | c in Channels(selected)| != |selected| {
      issues := issues + [ScoreMismatch];
    }
    ghost var unique := Distinct(Channels(deterministic)) && Distinct(Channels(all)) && Distinct(Channels(selected));
    var ofTotals := CheckTotals(all);
    issues := issues + ofTotals;
    if || |deterministic| != |all|
       || exists i :: 0 <= i < |deterministic| && FindCard(all, deterministic[i].channel) != Some(deterministic[i]) {
      issues := issues + [ScoreMismatch];
    }
    var ofSelected := CheckSelected(all, selected);
    issues := issues + ofSelected;
    if RoleCount(Roles(selected), Primary) > 2 || RoleCount(Roles(selected), Supporting) > 1 {
      issues := issues + [ChannelLimitExceeded];
    }
    if unique {
      forall card: Scorecard ensures FindCard(all, card.channel) == Some(card) <==> card in all {
        FindCardMember(all, card);
      }
    }
  }

  // ----- Budget -----

  function Scenarios(plan: Plan): seq<BudgetScenario> {
    if plan.budgetScenarios.Some? then plan.budgetScenarios.value else []
  }

  predicate AllocationsBalance(s: BudgetScenario) {
    RoundScore(Sum(Amounts(s))) == s.totalEgp && RoundScore(Sum(Percentages(s))) == 100.0
  }

  function ExpectedPeriod(brief: Brief, s: BudgetScenario): Period {
    match brief.budgetMode
    case MonthlyAmount => Monthly
    case ThreeMonthAmount => TwelveWeek
    case _ => s.period
  }

  /** The owner has confirmed no amount, or less than this total. */
  predicate NeedsApproval(brief: Brief, totalEgp: real) {
    match brief.budget
    case NoAmount => true
    case Exactly(egp) => totalEgp > egp
    case Between(_, maxEgp) => totalEgp > maxEgp
  }

  predicate ScenarioValid(brief: Brief, s: BudgetScenario) {
    && AllocationsBalance(s)
    && s.period == ExpectedPeriod(brief, s)
    && s.requiresOwnerBudgetApproval == NeedsApproval(brief, s.totalEgp)
  }

  predicate WithinBudget(brief: Brief, totalEgp: real) {
    match brief.budget
    case NoAmount => true
    case Exactly(egp) => totalEgp == egp
    case Between(minEgp, maxEgp) => minEgp <= totalEgp <= maxEgp
  }

  function Types(scenarios: seq<BudgetScenario>): seq<ScenarioType> {
    seq(|scenarios|, i requires 0 <= i < |scenarios| => scenarios[i].scenarioType)
  }

  function FindBase(scenarios: seq<BudgetScenario>): (base: Option<BudgetScenario>)
    ensures base.Some? <==> Base in Types(scenarios)
    ensures base.Some? ==> base.value in scenarios && base.value.scenarioType == Base
  {
    if scenarios == [] then None
    else if scenarios[0].scenarioType == Base then
      assert Types(scenarios)[0] == Base;
      Some(scenarios[0])
    else
      assert Types(scenarios)[1..] == Types(scenarios[1..]);
      assert Types(scenarios) == [scenarios[0].scenarioType] + Types(scenarios[1..]);
      FindBase(scenarios[1..])
  }

  ghost predicate BudgetValid(brief: Brief, plan: Plan) {
    var scenarios := Scenarios(plan);
    && plan.budgetMode == brief.budgetMode
    && (!brief.paidMediaAllowed ==> scenarios == [])
    && (forall i :: 0 <= i < |scenarios| ==> ScenarioValid(brief, scenarios[i]))
    && (plan.budgetMode != OrganicOnly ==> Base in Types(scenarios) && Distinct(Types(scenarios)))
    && (FindBase(scenarios).Some? ==> WithinBudget(brief, FindBase(scenarios).value.totalEgp))
  }

  method CheckBudget(brief: Brief, plan: Plan) returns (issues: seq<Issue>)
    ensures issues == [] <==> BudgetValid(brief, plan)
    ensures ArithmeticFailure in issues <==>
            exists i :: 0 <= i < |Scenarios(plan)| && !AllocationsBalance(Scenarios(plan)[i])
    ensures forall x :: x in issues ==> x == BudgetMismatch || x == ArithmeticFailure
  {
    hide AllocationsBalance, FindBase;
    issues := [];
    if plan.budgetMode != brief.budgetMode {
      issues := issues + [BudgetMismatch];
    }
    var scenarios := Scenarios(plan);
    if !brief.paidMediaAllowed && |scenarios| > 0 {
      issues := issues + [BudgetMismatch];
    }
    ghost var before := issues;
    for i := 0 to |scenarios|
      invariant issues == [] <==> before == [] && forall k :: 0 <= k < i ==> ScenarioValid(brief, scenarios[k])
      invariant ArithmeticFailure in issues <==> exists k :: 0 <= k < i && !AllocationsBalance(scenarios[k])
      invariant forall x :: x in issues ==> x == BudgetMismatch || x == ArithmeticFailure
    {
      var s := scenarios[i];
      if !AllocationsBalance(s) {
        issues := issues + [ArithmeticFailure];
      }
      if s.period != ExpectedPeriod(brief, s) {
        issues := issues + [BudgetMismatch];
      }
      if s.requiresOwnerBudgetApproval != NeedsApproval(brief, s.totalEgp) {
        issues := issues + [BudgetMismatch];
      }
    }
    var base := FindBase(scenarios);
    SetSize(Types(scenarios));
    if && plan.budgetMode != OrganicOnly
       && (|scenarios| == 0 || base.None? || |set t | t in Types(scenarios)| != |scenarios|) {
      issues := issues + [BudgetMismatch];
    }
    if base.Some? && !WithinBudget(brief, base.value.totalEgp) {
      issues := issues + [BudgetMismatch];
    }
  }

  // ----- Weeks -----

  /** Twelve distinct numbers from 1 to 12; nothing asks for whole numbers. */
  ghost predicate TwelveWeeks(numbers: seq<real>) {
    && |numbers| == 12
    && Distinct(numbers)
    && forall i :: 0 <= i < |numbers| ==> 1.0 <= numbers[i] <= 12.0
  }

  method CheckWeekNumbers(numbers: seq<real>) returns (ok: bool)
    ensures ok <==> TwelveWeeks(numbers)
  {
    SetSize(numbers);
    return && |numbers| == 12
           && |set n | n in numbers| == 12
           && !exists i :: 0 <= i < |numbers| && (numbers[i] < 1.0 || numbers[i] > 12.0);
  }

  predicate Whole(x: real) {
    x == x.Floor as real
  }

  ghost predicate AllWhole(numbers: seq<real>) {
    forall i :: 0 <= i < |numbers| ==> Whole(numbers[i])
  }

  ghost predicate EveryWeekListed(numbers: seq<real>) {
    forall week: real :: Whole(week) && 1.0 <= week <= 12.0 ==> week in numbers
  }

  const WEEKS := [1.0, 2.0, 3.0, 4.0, 5.0, 6.0, 7.0, 8.0, 9.0, 10.0, 11.0, 12.0]

  lemma {:induction false} WeeksHoldsAll()
    ensures Distinct(WEEKS)
    ensures forall x :: x in WEEKS <==> Whole(x) && 1.0 <= x <= 12.0
  {
    forall x | Whole(x) && 1.0 <= x <= 12.0 ensures x in WEEKS {
      assert WEEKS[x.Floor - 1] == x;
    }
  }

  lemma {:induction false} WeeksUsedUp(numbers: seq<real>, weeks: seq<real>)
    requires |numbers| == |weeks| == 12 && Distinct(weeks)
    requires forall x :: x in weeks <==> Whole(x) && 1.0 <= x <= 12.0
    ensures TwelveWeeks(numbers) && AllWhole(numbers) <==> EveryWeekListed(numbers)
  {
    hide Distinct, Whole;
    if TwelveWeeks(numbers) && AllWhole(numbers) {
      Pigeonhole(numbers, weeks);
      forall week: real | Whole(week) && 1.0 <= week <= 12.0 ensures week in numbers {
        assert week in weeks && week in multiset(weeks);
      }
    }
    if EveryWeekListed(numbers) {
      forall x | x in weeks ensures x in numbers {
        assert Whole(x);
      }
      Pigeonhole(weeks, numbers);
      forall i | 0 <= i < |numbers| ensures Whole(numbers[i]) && 1.0 <= numbers[i] <= 12.0 {
        assert numbers[i] in multiset(weeks) && numbers[i] in weeks;
      }
    }
  }

  /** When the check means what it says: an accepted list has an entry for every week if and only if all
      its numbers are whole. */
  lemma {:induction false} EveryWeekOnceIffWhole(numbers: seq<real>)
    ensures TwelveWeeks(numbers) && AllWhole(numbers) <==> |numbers| == 12 && EveryWeekListed(numbers)
  {
    hide Distinct, Whole;
    WeeksHoldsAll();
    if |numbers| == 12 {
      WeeksUsedUp(numbers, WEEKS);
    }
  }

  /** It need not: a list with a fraction for week 1 is accepted. */
  lemma {:induction false} FractionalWeekAccepted(numbers: seq<real>)
    requires numbers == WEEKS[0 := 1.5]
    ensures TwelveWeeks(numbers) && !EveryWeekListed(numbers)
  {
    assert Whole(1.0) && 1.0 !in numbers;
  }

  // ----- validateStrategyBundle -----

  /** `raised` holds the issues of the profile, reference, citation, evidence and text checks. */
  ghost predicate BundleValid(
    raised: seq<Issue>, deterministic: seq<Scorecard>, brief: Brief, plan: Plan, approved: bool) {
    && raised == []
    && ScoresValid(deterministic, plan)
    && BudgetValid(brief, plan)
    && TwelveWeeks(plan.weekNumbers)
    && !plan.hasBlockingGap
    && (approved ==> !plan.hasBlockingBlocker)
  }

  method ValidateStrategyBundle(
    raised: seq<Issue>, deterministic: seq<Scorecard>, brief: Brief, plan: Plan, approved: bool)
    returns (issues: seq<Issue>)
    ensures issues == [] <==> BundleValid(raised, deterministic, brief, plan, approved)
    ensures raised <= issues
    ensures approved && issues != [] ==> ApprovalBlocked in issues
    ensures ApprovalBlocked in issues ==> approved || ApprovalBlocked in raised
  {
    hide ScoresValid, BudgetValid, TwelveWeeks;
    var scoreIssues := CheckScores(deterministic, plan);
    var budgetIssues := CheckBudget(brief, plan);
    issues := raised + scoreIssues + budgetIssues;
    var weeksOk := CheckWeekNumbers(plan.weekNumbers);
    if !weeksOk {
      issues := issues + [RuleViolation];
    }
    if plan.hasBlockingGap {
      issues := issues + [KnowledgeGap];
    }
    if approved && (|issues| > 0 || plan.hasBlockingBlocker) {
      issues := issues + [ApprovalBlocked];
    }
  }

  // ----- What acceptance means -----

  /** The plan's full score list is the deterministic list in some order, rationale aside: nothing is
      added, dropped, repeated or altered. */
  lemma {:induction false} ScoresArePermutation(deterministic: seq<Scorecard>, plan: Plan)
    requires ScoresValid(deterministic, plan)
    ensures multiset(Cards(plan.allChannelScores)) == multiset(deterministic)
  {
    hide Reproducible, RoleCount;
    forall i, j | 0 <= i < j < |deterministic| ensures deterministic[i] != deterministic[j] {
      assert Channels(deterministic)[i] != Channels(deterministic)[j];
    }
    Pigeonhole(deterministic, Cards(plan.allChannelScores));
  }

  lemma {:induction false} TwoRoles(roles: seq<Role>)
    ensures RoleCount(roles, Primary) + RoleCount(roles, Supporting) == |roles|
  {
    if roles != [] {
      TwoRoles(roles[..|roles| - 1]);
    }
  }

  /** The selection repeats no channel, holds at most three, and takes each card from the
      deterministic list unchanged. */
  lemma {:induction false} SelectionIsSmallSubset(deterministic: seq<Scorecard>, plan: Plan)
    requires ScoresValid(deterministic, plan)
    ensures var selected := Cards(plan.selectedChannels);
            && |selected| <= 3
            && Distinct(Channels(selected))
            && multiset(selected) <= multiset(deterministic)
  {
    hide Reproducible, RoleCount;
    var all, selected := Cards(plan.allChannelScores), Cards(plan.selectedChannels);
    TwoRoles(Roles(selected));
    ScoresArePermutation(deterministic, plan);
    forall i, j | 0 <= i < j < |selected| ensures selected[i] != selected[j] {
      assert Channels(selected)[i] != Channels(selected)[j];
    }
    forall card: Scorecard ensures multiset(selected)[card] <= multiset(deterministic)[card] {
      DistinctCounts(selected, card);
      if card in selected {
        assert card in all;
        assert card in multiset(all);
      }
    }
  }

  lemma {:induction false} SumOfPrefix(s: seq<real>, n: nat)
    requires n < |s|
    ensures Sum(s[..n + 1]) == Sum(s[..n]) + s[n]
  {
    assert s[..n + 1][..n] == s[..n];
  }

  lemma {:induction false} SumOfEight(s: Scores)
    ensures Sum(s) == s[0] + s[1] + s[2] + s[3] + s[4] + s[5] + s[6] + s[7]
  {
    assert s[..8] == s && s[..0] == [];
    SumOfPrefix(s, 7);
    SumOfPrefix(s, 6);
    SumOfPrefix(s, 5);
    SumOfPrefix(s, 4);
    SumOfPrefix(s, 3);
    SumOfPrefix(s, 2);
    SumOfPrefix(s, 1);
    SumOfPrefix(s, 0);
  }

  /** A card is reproducible exactly when its eight scores are from 0 to 1 and its total is a whole number of
      hundredths, the one nearest to their sum. */
  lemma {:induction false} TotalsAddUp(card: Scorecard)
    ensures var s, t := card.scores, card.totalScore;
            Reproducible(card) <==>
            && (forall x :: x in s ==> 0.0 <= x <= 1.0)
            && Whole(t * 100.0) && t - 0.005 <= s[0] + s[1] + s[2] + s[3] + s[4] + s[5] + s[6] + s[7] < t + 0.005
  {
    hide Sum, RoundScore;
    SumOfEight(card.scores);
    RoundScoreMeans(Sum(card.scores), card.totalScore);
    assert forall d :: 0 <= d < 8 ==> card.scores[d] in card.scores;
  }

  /** The most the owner has confirmed. */
  function Ceiling(budget: ExternalBudget): Option<real> {
    match budget
    case NoAmount => None
    case Exactly(egp) => Some(egp)
    case Between(_, maxEgp) => Some(maxEgp)
  }

  /** The least. */
  function Floor(budget: ExternalBudget): Option<real> {
    match budget
    case NoAmount => None
    case Exactly(egp) => Some(egp)
    case Between(minEgp, _) => Some(minEgp)
  }

  lemma {:induction false} ConfirmedRange(brief: Brief, totalEgp: real)
    ensures var bottom, top := Floor(brief.budget), Ceiling(brief.budget);
            && (WithinBudget(brief, totalEgp) <==>
                (bottom.Some? ==> bottom.value <= totalEgp) && (top.Some? ==> totalEgp <= top.value))
            && (NeedsApproval(brief, totalEgp) <==> (top.Some? ==> top.value < totalEgp))
  {
  }

  /** In an accepted plan the scenarios that ask for the owner's approval are exactly those that cost more than
      the owner confirmed, or all of them when nothing was confirmed. The base scenario never does: it stays
      inside, and with an exact amount the scenarios that ask are those dearer than the base. */
  lemma {:induction false} ApprovalIsForExcess(brief: Brief, plan: Plan, i: nat)
    requires BudgetValid(brief, plan) && i < |Scenarios(plan)|
    ensures var s, top := Scenarios(plan)[i], Ceiling(brief.budget);
            && (s.requiresOwnerBudgetApproval <==> top.None? || s.totalEgp > top.value)
            && (FindBase(Scenarios(plan)).Some? && top.Some? ==>
                  var base := FindBase(Scenarios(plan)).value;
                  && base.totalEgp <= top.value && !base.requiresOwnerBudgetApproval
                  && (brief.budget.Between? ==> base.totalEgp >= brief.budget.minEgp)
                  && (brief.budget.Exactly? ==> (s.requiresOwnerBudgetApproval <==> s.totalEgp > base.totalEgp)))
  {
    hide FindBase, AllocationsBalance, Distinct;
    var scenarios := Scenarios(plan);
    assert ScenarioValid(brief, scenarios[i]);
    if FindBase(scenarios).Some? {
      var k :| 0 <= k < |scenarios| && scenarios[k] == FindBase(scenarios).value;
      assert ScenarioValid(brief, scenarios[k]);
    }
  }

  /** A monthly budget has monthly scenarios only, and a three-month budget twelve-week ones only. */
  lemma {:induction false} PeriodsFollowBudget(brief: Brief, plan: Plan, i: nat)
    requires BudgetValid(brief, plan) && i < |Scenarios(plan)|
    ensures plan.budgetMode == MonthlyAmount ==> Scenarios(plan)[i].period == Monthly
    ensures plan.budgetMode == ThreeMonthAmount ==> Scenarios(plan)[i].period == TwelveWeek
  {
    hide FindBase, AllocationsBalance, Distinct;
    assert ScenarioValid(brief, Scenarios(plan)[i]);
  }

  /** And any period will do otherwise: the check of a scenario does not ask for one. */
  lemma {:induction false} OtherPeriodsAreFree(brief: Brief, s: BudgetScenario, period: Period)
    requires brief.budgetMode == OrganicOnly || brief.budgetMode == ScenarioOnly
    ensures ScenarioValid(brief, s.(period := period)) <==> ScenarioValid(brief, s)
  {
    hide Sum, RoundScore;
    assert Amounts(s.(period := period)) == Amounts(s) && Percentages(s.(period := period)) == Percentages(s);
  }

  /** With paid media off, an accepted plan is organic: it has no scenario and needs none. */
  lemma {:induction false} NoPaidMediaIsOrganic(brief: Brief, plan: Plan)
    requires BudgetValid(brief, plan) && !brief.paidMediaAllowed
    ensures plan.budgetMode == brief.budgetMode == OrganicOnly && Scenarios(plan) == []
  {
  }

  predicate PydanticAccepts(s: BudgetScenario) {
    && -0.01 < Sum(Amounts(s)) - s.totalEgp < 0.01
    && -0.01 < Sum(Percentages(s)) - 100.0 < 0.01
  }

  function Distance(x: real, y: real): real {
    if x < y then y - x else x - y
  }

  /** BudgetScenario.validate_budget_scenarios_sum. */
  method ValidateBudgetScenariosSum(s: BudgetScenario) returns (raised: bool)
    ensures raised <==> !PydanticAccepts(s)
  {
    var totalAllocated, percentageTotal := 0.0, 0.0;
    for i := 0 to |s.allocations|
      invariant totalAllocated == Sum(Amounts(s)[..i]) && percentageTotal == Sum(Percentages(s)[..i])
    {
      SumOfPrefix(Amounts(s), i);
      SumOfPrefix(Percentages(s), i);
      totalAllocated := totalAllocated + s.allocations[i].amountEgp;
      percentageTotal := percentageTotal + s.allocations[i].percentage;
    }
    assert Amounts(s)[..|s.allocations|] == Amounts(s) && Percentages(s)[..|s.allocations|] == Percentages(s);
    return Distance(totalAllocated, s.totalEgp) >= 0.01 || Distance(percentageTotal, 100.0) >= 0.01;
  }

  /** The allocations of an accepted scenario are within half a hundredth of what they should add up
      to, so the Python side accepts the scenario as well. */
  lemma {:induction false} AllocationsAreClose(brief: Brief, plan: Plan, i: nat)
    requires BudgetValid(brief, plan) && i < |Scenarios(plan)|
    ensures var s := Scenarios(plan)[i];
            && s.totalEgp - 0.005 <= Sum(Amounts(s)) < s.totalEgp + 0.005
            && 99.995 <= Sum(Percentages(s)) < 100.005
            && PydanticAccepts(s)
  {
    hide Sum, RoundScore, Amounts, Percentages, FindBase;
    var s := Scenarios(plan)[i];
    assert ScenarioValid(brief, s);
    RoundScoreMeans(Sum(Amounts(s)), s.totalEgp);
    RoundScoreMeans(Sum(Percentages(s)), 100.0);
  }

  /** The two checks differ by exactly this much: TypeScript accepts what Python accepts when the
      total is in whole piasters and both sums are in the inner half of the tolerance. */
  lemma {:induction false} BalanceIffInnerTolerance(s: BudgetScenario)
    ensures AllocationsBalance(s) <==>
            && PydanticAccepts(s)
            && s.totalEgp * 100.0 == (s.totalEgp * 100.0).Floor as real
            && -0.005 <= Sum(Amounts(s)) - s.totalEgp < 0.005
            && -0.005 <= Sum(Percentages(s)) - 100.0 < 0.005
  {
    hide Sum, RoundScore, Amounts, Percentages;
    RoundScoreMeans(Sum(Amounts(s)), s.totalEgp);
    RoundScoreMeans(Sum(Percentages(s)), 100.0);
  }
}
