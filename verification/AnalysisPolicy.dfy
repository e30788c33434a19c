/** src/domain/projectManager/analysisPolicy.ts: validators that collect violations, and the policy they
    decide. A validator is handed the violations found so far and returns them with its own appended. */
module AnalysisPolicy {
  import opened Common
  import opened ProjectTypes
  import opened GoalPolicy

  const MAX_HEALTH_SIGNALS := 20
  const MAX_STALE_GOAL_IDS := 50
  const MAX_EVIDENCE_REFS := 10
  const MAX_SUCCESS_METRICS := 10
  const MAX_ACCEPTANCE_CRITERIA := 10
  const MAX_SUMMARY_CHARS := 4000
  const MAX_TEXT_CHARS := 2000
  const MAX_SHORT_TEXT_CHARS := 500
  const MAX_TITLE_CHARS := 200
  const MAX_EVIDENCE_REF_CHARS := 500
  const MAX_EVIDENCE_SUMMARY_CHARS := 1000
  const MAX_ID_CHARS := 200
  const MAX_GOAL_REPLANS := 20

  const MAX_OPPORTUNITIES := 10
  const MAX_QUESTIONS := 5
  const MAX_LENSES := 7
  const MAX_RED_TEAM_NOTES := 5
  const MIN_CREATE_GOAL_CONFIDENCE := 60.0

  datatype Violation =
    | TooMany | TooLong | TaskTypeNotAllowed | UnknownGoal | MissingQuestion | NoEvidence | LowConfidence
    | NotPursued | NotCreateGoal | DuplicateId | UnknownOpportunity | NoOverlap | LowerRisk | LowerPriority
    | HighRiskTasks | HighRiskTaskType

  // ---------------------------------------------------------------------------------------------
  // The policy
  // ---------------------------------------------------------------------------------------------

  predicate Within(text: Option<string>, max: int) {
    text.Some? ==> |text.value| <= max
  }

  predicate ListWithin(values: seq<string>, maxCount: int, maxChars: int) {
    |values| <= maxCount && forall v :: v in values ==> |v| <= maxChars
  }

  predicate EvidenceRefOk(e: EvidenceRef) {
    |e.ref| <= MAX_EVIDENCE_REF_CHARS && Within(e.summary, MAX_EVIDENCE_SUMMARY_CHARS)
  }

  predicate EvidenceOk(refs: seq<EvidenceRef>) {
    |refs| <= MAX_EVIDENCE_REFS && forall e :: e in refs ==> EvidenceRefOk(e)
  }

  predicate ProposalOk(p: TaskProposal, config: ManagerConfig) {
    && |p.title| <= MAX_TITLE_CHARS
    && |p.description| <= MAX_TEXT_CHARS
    && p.taskType in config.allowedTaskTypes
    && ListWithin(p.acceptanceCriteria, MAX_ACCEPTANCE_CRITERIA, MAX_SHORT_TEXT_CHARS)
    && Within(p.expectedBlastRadius, MAX_EVIDENCE_SUMMARY_CHARS)
    && EvidenceOk(p.evidenceRefs)
  }

  predicate GoalOk(g: GoalDraft, config: ManagerConfig) {
    && |g.title| <= MAX_TITLE_CHARS
    && |g.problemStatement| <= MAX_TEXT_CHARS
    && |g.desiredOutcome| <= MAX_TEXT_CHARS
    && ListWithin(g.successMetrics, MAX_SUCCESS_METRICS, MAX_SHORT_TEXT_CHARS)
    && EvidenceOk(g.evidenceRefs)
    && |g.suggestedTaskProposals| <= config.maxTaskProposalsPerGoal
    && forall p :: p in g.suggestedTaskProposals ==> ProposalOk(p, config)
  }

  predicate SignalOk(s: HealthSignal) {
    && |s.kind| <= MAX_SHORT_TEXT_CHARS
    && |s.title| <= MAX_TITLE_CHARS
    && |s.description| <= MAX_TEXT_CHARS
    && EvidenceOk(s.evidenceRefs)
    && Within(s.recommendation, MAX_TEXT_CHARS)
  }

  predicate AnalysisOk(a: ParsedAnalysis, config: ManagerConfig) {
    && |a.summary| <= MAX_SUMMARY_CHARS
    && Within(a.replanReason, MAX_TEXT_CHARS)
    && |a.proposedGoals| <= config.maxGoalsPerRun
    && |a.healthSignals| <= MAX_HEALTH_SIGNALS
    && ListWithin(a.staleGoalIds, MAX_STALE_GOAL_IDS, MAX_ID_CHARS)
    && (forall s :: s in a.healthSignals ==> SignalOk(s))
    && (forall g :: g in a.proposedGoals ==> GoalOk(g, config))
  }

  /** Every goal a replan would create: the proposed ones, then each classification's follow-ups. */
  function FollowUps(replans: seq<GoalReplan>): seq<GoalDraft> {
    if replans == [] then [] else FollowUps(replans[..|replans| - 1]) + replans[|replans| - 1].followUpGoals
  }

  function MaterializableGoals(a: ParsedAnalysis): seq<GoalDraft> {
    a.proposedGoals + FollowUps(a.goalReplans)
  }

  predicate GoalReplanOk(r: GoalReplan, config: ManagerConfig, activeGoalIds: set<string>) {
    && |r.goalId| <= MAX_ID_CHARS
    && r.goalId in activeGoalIds
    && |r.rationale| <= MAX_TEXT_CHARS
    && EvidenceOk(r.evidenceRefs)
    && |r.followUpGoals| <= config.maxGoalsPerRun
    && (forall g :: g in r.followUpGoals ==> GoalOk(g, config))
    && Within(r.humanQuestion, MAX_TEXT_CHARS)
    && (r.decision == AskHuman ==> r.humanQuestion.Some? && r.humanQuestion.value != "")
  }

  predicate ReplanOk(a: ParsedAnalysis, config: ManagerConfig, activeGoalIds: set<string>) {
    && AnalysisOk(a, config)
    && |a.goalReplans| <= MAX_GOAL_REPLANS
    && |MaterializableGoals(a)| <= config.maxGoalsPerRun
    && forall r :: r in a.goalReplans ==> GoalReplanOk(r, config, activeGoalIds)
  }

  predicate OpportunityTextsOk(o: Opportunity) {
    && |o.opportunityId| <= MAX_ID_CHARS
    && |o.title| <= MAX_TITLE_CHARS
    && |o.problemStatement| <= MAX_TEXT_CHARS
    && |o.userOrBusinessImpact| <= MAX_TEXT_CHARS
    && |o.technicalImpact| <= MAX_TEXT_CHARS
    && |o.rationale| <= MAX_TEXT_CHARS
  }

  predicate OpportunityOk(o: Opportunity) {
    && OpportunityTextsOk(o)
    && EvidenceOk(o.evidenceRefs) && o.evidenceRefs != []
    && ListWithin(o.redTeamNotes, MAX_RED_TEAM_NOTES, MAX_SHORT_TEXT_CHARS)
    && (o.recommendedNextStep == CreateGoalStep ==>
          o.confidence >= MIN_CREATE_GOAL_CONFIDENCE && o.architectVerdict == Pursue)
  }

  predicate QuestionOk(q: Question) {
    && |q.question| <= MAX_TEXT_CHARS
    && |q.whyItMatters| <= MAX_TEXT_CHARS
    && Within(q.relatedOpportunityId, MAX_ID_CHARS)
    && Within(q.relatedOpportunityTitle, MAX_TITLE_CHARS)
  }

  predicate IsCriticalEvidence(e: EvidenceRef) {
    e.kind == Task || e.kind == ValidationFailure || e.kind == ReviewNote
  }

  predicate IsLowRiskWork(p: TaskProposal) {
    p.taskType == Documentation || p.taskType == TestsOnly
  }

  /** What high risk asks of a goal: one task at most, and only documentation or tests unless the goal is
      critical and cites a task, a failed validation or a review. */
  predicate HighRiskOk(g: GoalDraft) {
    && |g.suggestedTaskProposals| <= 1
    && ((g.priority == CriticalPriority && exists e :: e in g.evidenceRefs && IsCriticalEvidence(e))
        || forall p :: p in g.suggestedTaskProposals ==> IsLowRiskWork(p))
  }

  /** Some evidence of `right` is cited by `left` too. */
  ghost predicate Overlap(left: seq<EvidenceRef>, right: seq<EvidenceRef>) {
    exists e :: e in right && Cites(left, e)
  }

  /** The goal follows from the opportunity it names. */
  ghost predicate Traces(g: GoalDraft, o: Opportunity) {
    && o.architectVerdict == Pursue
    && o.recommendedNextStep == CreateGoalStep
    && Overlap(g.evidenceRefs, o.evidenceRefs)
    && !IsLowerRisk(g.riskLevel, o.riskLevel)
    && !IsLowerPriority(g.priority, o.priority)
    && (g.riskLevel == HighRisk ==> HighRiskOk(g))
  }

  ghost predicate UniqueIds(os: seq<Opportunity>) {
    forall i, j :: 0 <= i < j < |os| ==> os[i].opportunityId != os[j].opportunityId
  }

  ghost predicate OpportunitiesOk(os: seq<Opportunity>) {
    UniqueIds(os) && forall o :: o in os ==> OpportunityOk(o)
  }

  ghost predicate StrategyGoalOk(g: StrategyGoal, os: seq<Opportunity>, config: ManagerConfig) {
    GoalOk(g.draft, config) && exists o :: o in os && o.opportunityId == g.sourceOpportunityId && Traces(g.draft, o)
  }

  ghost predicate StrategyOk(s: ParsedStrategy, config: ManagerConfig) {
    && |s.summary| <= MAX_SUMMARY_CHARS
    && |s.lensSummaries| <= MAX_LENSES
    && |s.opportunities| <= MAX_OPPORTUNITIES
    && |s.questionsForHuman| <= MAX_QUESTIONS
    && |s.proposedGoals| <= config.maxGoalsPerRun
    && (forall l :: l in s.lensSummaries ==> |l| <= MAX_SHORT_TEXT_CHARS)
    && OpportunitiesOk(s.opportunities)
    && (forall q :: q in s.questionsForHuman ==> QuestionOk(q))
    && (forall g :: g in s.proposedGoals ==> StrategyGoalOk(g, s.opportunities, config))
  }

  // ---------------------------------------------------------------------------------------------
  // The validators
  // ---------------------------------------------------------------------------------------------

  /** `after` is `before` with violations appended, none exactly when `ok`. */
  ghost predicate Reports(before: seq<Violation>, after: seq<Violation>, ok: bool) {
    before <= after && (|after| == |before| <==> ok)
  }

  function PushMaxCount(violations: seq<Violation>, length: int, max: int): seq<Violation> {
    if length > max then violations + [TooMany] else violations
  }

  function PushMaxString(violations: seq<Violation>, value: Option<string>, max: int): seq<Violation> {
    if value.Some? && |value.value| > max then violations + [TooLong] else violations
  }

  function PushUnless(violations: seq<Violation>, ok: bool, violation: Violation): seq<Violation> {
    if ok then violations else violations + [violation]
  }

  method ValidateStringArray(values: seq<string>, maxCount: int, maxChars: int, violations: seq<Violation>)
    returns (r: seq<Violation>)
    ensures Reports(violations, r, ListWithin(values, maxCount, maxChars))
  {
    r := PushMaxCount(violations, |values|, maxCount);
    for i := 0 to |values|
      invariant Reports(violations, r, |values| <= maxCount && forall j :: 0 <= j < i ==> |values[j]| <= maxChars)
    {
      r := PushMaxString(r, Some(values[i]), maxChars);
    }
  }

  /** The names of the evidence kinds are all shorter than the limit on them. */
  method ValidateEvidenceRefs(refs: seq<EvidenceRef>, violations: seq<Violation>) returns (r: seq<Violation>)
    ensures Reports(violations, r, EvidenceOk(refs))
  {
    r := PushMaxCount(violations, |refs|, MAX_EVIDENCE_REFS);
    for i := 0 to |refs|
      invariant Reports(violations, r, |refs| <= MAX_EVIDENCE_REFS && forall j :: 0 <= j < i ==> EvidenceRefOk(refs[j]))
    {
      ghost var before := r;
      r := PushMaxString(r, Some(KindName(refs[i].kind)), MAX_SHORT_TEXT_CHARS);
      r := PushMaxString(r, Some(refs[i].ref), MAX_EVIDENCE_REF_CHARS);
      r := PushMaxString(r, refs[i].summary, MAX_EVIDENCE_SUMMARY_CHARS);
      assert Reports(before, r, EvidenceRefOk(refs[i]));
    }
  }

  method ValidateTaskProposal(p: TaskProposal, config: ManagerConfig, violations: seq<Violation>)
    returns (r: seq<Violation>)
    ensures Reports(violations, r, ProposalOk(p, config))
  {
    r := PushMaxString(violations, Some(p.title), MAX_TITLE_CHARS);
    r := PushMaxString(r, Some(p.description), MAX_TEXT_CHARS);
    r := PushUnless(r, p.taskType in config.allowedTaskTypes, TaskTypeNotAllowed);
    r := ValidateStringArray(p.acceptanceCriteria, MAX_ACCEPTANCE_CRITERIA, MAX_SHORT_TEXT_CHARS, r);
    r := PushMaxString(r, p.expectedBlastRadius, MAX_EVIDENCE_SUMMARY_CHARS);
    r := ValidateEvidenceRefs(p.evidenceRefs, r);
  }

  method ValidateTaskProposals(ps: seq<TaskProposal>, config: ManagerConfig, violations: seq<Violation>)
    returns (r: seq<Violation>)
    ensures Reports(violations, r, forall p :: p in ps ==> ProposalOk(p, config))
  {
    r := violations;
    for i := 0 to |ps|
      invariant Reports(violations, r, forall j :: 0 <= j < i ==> ProposalOk(ps[j], config))
    {
      r := ValidateTaskProposal(ps[i], config, r);
    }
  }

  method ValidateGoal(g: GoalDraft, config: ManagerConfig, violations: seq<Violation>) returns (r: seq<Violation>)
    ensures Reports(violations, r, GoalOk(g, config))
  {
    r := PushMaxString(violations, Some(g.title), MAX_TITLE_CHARS);
    r := PushMaxString(r, Some(g.problemStatement), MAX_TEXT_CHARS);
    r := PushMaxString(r, Some(g.desiredOutcome), MAX_TEXT_CHARS);
    r := ValidateStringArray(g.successMetrics, MAX_SUCCESS_METRICS, MAX_SHORT_TEXT_CHARS, r);
    r := ValidateEvidenceRefs(g.evidenceRefs, r);
    r := PushMaxCount(r, |g.suggestedTaskProposals|, config.maxTaskProposalsPerGoal);
    r := ValidateTaskProposals(g.suggestedTaskProposals, config, r);
  }

  method ValidateGoals(gs: seq<GoalDraft>, config: ManagerConfig, violations: seq<Violation>)
    returns (r: seq<Violation>)
    ensures Reports(violations, r, forall g :: g in gs ==> GoalOk(g, config))
  {
    r := violations;
    for i := 0 to |gs|
      invariant Reports(violations, r, forall j :: 0 <= j < i ==> GoalOk(gs[j], config))
    {
      r := ValidateGoal(gs[i], config, r);
    }
  }

  method ValidateHealthSignal(s: HealthSignal, violations: seq<Violation>) returns (r: seq<Violation>)
    ensures Reports(violations, r, SignalOk(s))
  {
    r := PushMaxString(violations, Some(s.kind), MAX_SHORT_TEXT_CHARS);
    r := PushMaxString(r, Some(s.title), MAX_TITLE_CHARS);
    r := PushMaxString(r, Some(s.description), MAX_TEXT_CHARS);
    r := ValidateEvidenceRefs(s.evidenceRefs, r);
    r := PushMaxString(r, s.recommendation, MAX_TEXT_CHARS);
  }

  method ValidateHealthSignals(ss: seq<HealthSignal>, violations: seq<Violation>) returns (r: seq<Violation>)
    ensures Reports(violations, r, forall s :: s in ss ==> SignalOk(s))
  {
    r := violations;
    for i := 0 to |ss|
      invariant Reports(violations, r, forall j :: 0 <= j < i ==> SignalOk(ss[j]))
    {
      r := ValidateHealthSignal(ss[i], r);
    }
  }

  /** Throws, here returns false, exactly when the analysis breaks the policy. */
  method AssertProjectAnalysisWithinPolicy(a: ParsedAnalysis, config: ManagerConfig) returns (accepted: bool)
    ensures accepted <==> AnalysisOk(a, config)
  {
    var r := PushMaxString([], Some(a.summary), MAX_SUMMARY_CHARS);
    r := PushMaxString(r, a.replanReason, MAX_TEXT_CHARS);
    r := PushMaxCount(r, |a.proposedGoals|, config.maxGoalsPerRun);
    r := PushMaxCount(r, |a.healthSignals|, MAX_HEALTH_SIGNALS);
    r := ValidateStringArray(a.staleGoalIds, MAX_STALE_GOAL_IDS, MAX_ID_CHARS, r);
    r := ValidateHealthSignals(a.healthSignals, r);
    r := ValidateGoals(a.proposedGoals, config, r);
    accepted := |r| == 0;
  }

  method ValidateGoalReplan(
    p: GoalReplan, config: ManagerConfig, activeGoalIds: set<string>, violations: seq<Violation>)
    returns (r: seq<Violation>)
    ensures Reports(violations, r, GoalReplanOk(p, config, activeGoalIds))
  {
    r := PushMaxString(violations, Some(p.goalId), MAX_ID_CHARS);
    r := PushUnless(r, p.goalId in activeGoalIds, UnknownGoal);
    r := PushMaxString(r, Some(p.rationale), MAX_TEXT_CHARS);
    r := ValidateEvidenceRefs(p.evidenceRefs, r);
    r := PushMaxCount(r, |p.followUpGoals|, config.maxGoalsPerRun);
    r := ValidateGoals(p.followUpGoals, config, r);
    r := PushMaxString(r, p.humanQuestion, MAX_TEXT_CHARS);
    var missing := p.humanQuestion.None? || p.humanQuestion.value == "";
    r := PushUnless(r, !(p.decision == AskHuman && missing), MissingQuestion);
  }

  method ValidateGoalReplans(
    rs: seq<GoalReplan>, config: ManagerConfig, activeGoalIds: set<string>, violations: seq<Violation>)
    returns (r: seq<Violation>)
    ensures Reports(violations, r, forall p :: p in rs ==> GoalReplanOk(p, config, activeGoalIds))
  {
    r := violations;
    for i := 0 to |rs|
      invariant Reports(violations, r, forall j :: 0 <= j < i ==> GoalReplanOk(rs[j], config, activeGoalIds))
    {
      r := ValidateGoalReplan(rs[i], config, activeGoalIds, r);
    }
    assert rs[..|rs|] == rs;
  }

  /** `goalReplans.reduce(...)`. */
  method CountMaterializableGoals(a: ParsedAnalysis) returns (count: nat)
    ensures count == |MaterializableGoals(a)|
  {
    var rs := a.goalReplans;
    count := |a.proposedGoals|;
    for i := 0 to |rs|
      invariant count == |a.proposedGoals| + |FollowUps(rs[..i])|
    {
      assert rs[..i + 1][..i] == rs[..i];
      count := count + |rs[i].followUpGoals|;
    }
    assert rs[..|rs|] == rs;
  }

  method AssertProjectReplanWithinPolicy(a: ParsedAnalysis, config: ManagerConfig, activeGoalIds: set<string>)
    returns (accepted: bool)
    ensures accepted <==> ReplanOk(a, config, activeGoalIds)
  {
    accepted := AssertProjectAnalysisWithinPolicy(a, config);
    if accepted {
      var count := CountMaterializableGoals(a);
      var r := PushMaxCount([], |a.goalReplans|, MAX_GOAL_REPLANS);
      r := PushMaxCount(r, count, config.maxGoalsPerRun);
      r := ValidateGoalReplans(a.goalReplans, config, activeGoalIds, r);
      accepted := |r| == 0;
    }
  }

  method ValidateOpportunityTexts(o: Opportunity, violations: seq<Violation>) returns (r: seq<Violation>)
    ensures Reports(violations, r, OpportunityTextsOk(o))
  {
    r := PushMaxString(violations, Some(o.opportunityId), MAX_ID_CHARS);
    r := PushMaxString(r, Some(o.title), MAX_TITLE_CHARS);
    r := PushMaxString(r, Some(o.problemStatement), MAX_TEXT_CHARS);
    r := PushMaxString(r, Some(o.userOrBusinessImpact), MAX_TEXT_CHARS);
    r := PushMaxString(r, Some(o.technicalImpact), MAX_TEXT_CHARS);
    r := PushMaxString(r, Some(o.rationale), MAX_TEXT_CHARS);
  }

  method ValidateStrategyOpportunity(o: Opportunity, violations: seq<Violation>) returns (r: seq<Violation>)
    ensures Reports(violations, r, OpportunityOk(o))
  {
    r := ValidateOpportunityTexts(o, violations);
    r := ValidateEvidenceRefs(o.evidenceRefs, r);
    r := PushUnless(r, |o.evidenceRefs| > 0, NoEvidence);
    r := ValidateStringArray(o.redTeamNotes, MAX_RED_TEAM_NOTES, MAX_SHORT_TEXT_CHARS, r);
    r := PushUnless(r, !(o.recommendedNextStep == CreateGoalStep && o.confidence < MIN_CREATE_GOAL_CONFIDENCE), LowConfidence);
    r := PushUnless(r, !(o.recommendedNextStep == CreateGoalStep && o.architectVerdict != Pursue), NotPursued);
  }

  /** `byId` finds an opportunity of the list for every id in it. */
  ghost predicate IsIndex(byId: map<string, Opportunity>, os: seq<Opportunity>) {
    && (forall id :: id in byId ==> byId[id] in os && byId[id].opportunityId == id)
    && (forall o :: o in os ==> o.opportunityId in byId)
  }

  lemma IndexAppend(byId: map<string, Opportunity>, os: seq<Opportunity>, o: Opportunity)
    requires IsIndex(byId, os)
    ensures IsIndex(byId[o.opportunityId := o], os + [o])
    ensures OpportunitiesOk(os + [o]) <==> OpportunitiesOk(os) && OpportunityOk(o) && o.opportunityId !in byId
  {
    var all := os + [o];
    if UniqueIds(all) {
      forall i, j | 0 <= i < j < |os| ensures os[i].opportunityId != os[j].opportunityId {
        assert all[i].opportunityId != all[j].opportunityId;
      }
      forall p | p in os ensures p.opportunityId != o.opportunityId {
        var i :| 0 <= i < |os| && os[i] == p;
        assert all[i].opportunityId != all[|os|].opportunityId;
      }
    }
    if UniqueIds(os) && o.opportunityId !in byId {
      forall i, j | 0 <= i < j < |all| ensures all[i].opportunityId != all[j].opportunityId {
        assert all[i] in os;
      }
    }
  }

  /** Fills the map by id, the last opportunity of an id winning. */
  method ValidateOpportunities(os: seq<Opportunity>, violations: seq<Violation>)
    returns (r: seq<Violation>, byId: map<string, Opportunity>)
    ensures Reports(violations, r, OpportunitiesOk(os)) && IsIndex(byId, os)
  {
    r, byId := violations, map[];
    for i := 0 to |os|
      invariant Reports(violations, r, OpportunitiesOk(os[..i])) && IsIndex(byId, os[..i])
    {
      assert os[..i + 1] == os[..i] + [os[i]];
      IndexAppend(byId, os[..i], os[i]);
      r := ValidateStrategyOpportunity(os[i], r);
      r := PushUnless(r, os[i].opportunityId !in byId, DuplicateId);
      byId := byId[os[i].opportunityId := os[i]];
    }
    assert os[..|os|] == os;
  }

  method ValidateQuestion(q: Question, violations: seq<Violation>) returns (r: seq<Violation>)
    ensures Reports(violations, r, QuestionOk(q))
  {
    r := PushMaxString(violations, Some(q.question), MAX_TEXT_CHARS);
    r := PushMaxString(r, Some(q.whyItMatters), MAX_TEXT_CHARS);
    r := PushMaxString(r, q.relatedOpportunityId, MAX_ID_CHARS);
    r := PushMaxString(r, q.relatedOpportunityTitle, MAX_TITLE_CHARS);
  }

  method ValidateQuestions(qs: seq<Question>, violations: seq<Violation>) returns (r: seq<Violation>)
    ensures Reports(violations, r, forall q :: q in qs ==> QuestionOk(q))
  {
    r := violations;
    for i := 0 to |qs|
      invariant Reports(violations, r, forall j :: 0 <= j < i ==> QuestionOk(qs[j]))
    {
      r := ValidateQuestion(qs[i], r);
    }
  }

  /** `right.some(...)` over the set of the left identities. */
  function HasEvidenceOverlap(left: seq<EvidenceRef>, right: seq<EvidenceRef>): (r: bool)
    ensures r <==> Overlap(left, right)
  {
    if right == [] then false
    else
      CitesIff(left, right[0]);
      assert forall e :: e in right <==> e == right[0] || e in right[1..];
      EvidenceIdentity(right[0]) in Identities(left) || HasEvidenceOverlap(left, right[1..])
  }

  function MaxPriority(left: Priority, right: Priority): Priority {
    if PriorityRank(left) >= PriorityRank(right) then left else right
  }

  function MaxRiskLevel(left: RiskLevel, right: RiskLevel): RiskLevel {
    if RiskLevelRank(left) >= RiskLevelRank(right) then left else right
  }

  method ValidateHighRiskTaskTypes(ps: seq<TaskProposal>, violations: seq<Violation>) returns (r: seq<Violation>)
    ensures Reports(violations, r, forall p :: p in ps ==> IsLowRiskWork(p))
  {
    r := violations;
    for i := 0 to |ps|
      invariant Reports(violations, r, forall j :: 0 <= j < i ==> IsLowRiskWork(ps[j]))
    {
      r := PushUnless(r, ps[i].taskType in {Documentation, TestsOnly}, HighRiskTaskType);
    }
  }

  /** What high risk asks, with the risk and priority the checks go by. */
  method ValidateHighRisk(g: GoalDraft, risk: RiskLevel, priority: Priority, violations: seq<Violation>)
    returns (r: seq<Violation>)
    ensures Reports(violations, r, risk == HighRisk ==> HighRiskOk(g.(priority := priority)))
  {
    r := PushUnless(violations, !(risk == HighRisk && |g.suggestedTaskProposals| > 1), HighRiskTasks);
    var critical := exists e :: e in g.evidenceRefs && IsCriticalEvidence(e);
    if risk == HighRisk && !(priority == CriticalPriority && critical) {
      r := ValidateHighRiskTaskTypes(g.suggestedTaskProposals, r);
    }
  }

  /** The checks of a goal against its opportunity. The source compares with the higher of the two risks
      and priorities; where nothing else is wrong, those are the goal's own. */
  method ValidateTrace(g: GoalDraft, o: Opportunity, violations: seq<Violation>) returns (r: seq<Violation>)
    ensures Reports(violations, r, Traces(g, o))
  {
    var overlap := HasEvidenceOverlap(g.evidenceRefs, o.evidenceRefs);
    r := PushUnless(violations, o.architectVerdict == Pursue, NotPursued);
    r := PushUnless(r, o.recommendedNextStep == CreateGoalStep, NotCreateGoal);
    r := PushUnless(r, overlap, NoOverlap);
    r := PushUnless(r, !(RiskLevelRank(g.riskLevel) < RiskLevelRank(o.riskLevel)), LowerRisk);
    r := PushUnless(r, !(PriorityRank(g.priority) < PriorityRank(o.priority)), LowerPriority);
    ghost var ranked := r;
    r := ValidateHighRisk(g, MaxRiskLevel(g.riskLevel, o.riskLevel), MaxPriority(g.priority, o.priority), r);
    assert |ranked| == |violations| ==>
             MaxRiskLevel(g.riskLevel, o.riskLevel) == g.riskLevel && g.(priority := MaxPriority(g.priority, o.priority)) == g;
  }

  /** What the checks of one goal decide, going by the index. */
  ghost predicate IndexedGoalOk(g: StrategyGoal, byId: map<string, Opportunity>, config: ManagerConfig) {
    && GoalOk(g.draft, config)
    && g.sourceOpportunityId in byId
    && Traces(g.draft, byId[g.sourceOpportunityId])
  }

  /** The opportunity the index finds is the only one of its id. */
  lemma IndexDecidesGoal(byId: map<string, Opportunity>, os: seq<Opportunity>, g: StrategyGoal, config: ManagerConfig)
    requires IsIndex(byId, os) && UniqueIds(os)
    ensures StrategyGoalOk(g, os, config) <==> IndexedGoalOk(g, byId, config)
  {
    if g.sourceOpportunityId in byId {
      var o := byId[g.sourceOpportunityId];
      forall p | p in os && p.opportunityId == o.opportunityId ensures p == o {
        var i :| 0 <= i < |os| && os[i] == p;
        var j :| 0 <= j < |os| && os[j] == o;
      }
    }
  }

  ghost predicate AllIndexedOk(gs: seq<StrategyGoal>, byId: map<string, Opportunity>, config: ManagerConfig) {
    gs == [] || (AllIndexedOk(gs[..|gs| - 1], byId, config) && IndexedGoalOk(gs[|gs| - 1], byId, config))
  }

  lemma {:induction false} IndexDecidesGoals(
    byId: map<string, Opportunity>, os: seq<Opportunity>, gs: seq<StrategyGoal>, config: ManagerConfig)
    requires IsIndex(byId, os) && UniqueIds(os)
    ensures AllIndexedOk(gs, byId, config) <==> forall g :: g in gs ==> StrategyGoalOk(g, os, config)
  {
    if gs != [] {
      var init, last := gs[..|gs| - 1], gs[|gs| - 1];
      IndexDecidesGoals(byId, os, init, config);
      IndexDecidesGoal(byId, os, last, config);
      assert gs == init + [last];
    }
  }

  method ValidateStrategyGoal(
    g: StrategyGoal, byId: map<string, Opportunity>, config: ManagerConfig, violations: seq<Violation>)
    returns (r: seq<Violation>)
    ensures Reports(violations, r, IndexedGoalOk(g, byId, config))
  {
    r := ValidateGoal(g.draft, config, violations);
    if g.sourceOpportunityId !in byId {
      return r + [UnknownOpportunity];
    }
    r := ValidateTrace(g.draft, byId[g.sourceOpportunityId], r);
  }

  method ValidateStrategyGoals(
    gs: seq<StrategyGoal>, byId: map<string, Opportunity>, config: ManagerConfig, violations: seq<Violation>)
    returns (r: seq<Violation>)
    ensures Reports(violations, r, AllIndexedOk(gs, byId, config))
  {
    r := violations;
    for i := 0 to |gs|
      invariant Reports(violations, r, AllIndexedOk(gs[..i], byId, config))
    {
      assert gs[..i + 1][..i] == gs[..i];
      r := ValidateStrategyGoal(gs[i], byId, config, r);
    }
    assert gs[..|gs|] == gs;
  }

  method ValidateLenses(ls: seq<string>, violations: seq<Violation>) returns (r: seq<Violation>)
    ensures Reports(violations, r, forall l :: l in ls ==> |l| <= MAX_SHORT_TEXT_CHARS)
  {
    r := violations;
    for i := 0 to |ls|
      invariant Reports(violations, r, forall j :: 0 <= j < i ==> |ls[j]| <= MAX_SHORT_TEXT_CHARS)
    {
      r := PushMaxString(r, Some(ls[i]), MAX_SHORT_TEXT_CHARS);
    }
  }

  method AssertProjectStrategyWithinPolicy(s: ParsedStrategy, config: ManagerConfig) returns (accepted: bool)
    ensures accepted <==> StrategyOk(s, config)
  {
    var r := PushMaxString([], Some(s.summary), MAX_SUMMARY_CHARS);
    r := PushMaxCount(r, |s.lensSummaries|, MAX_LENSES);
    r := PushMaxCount(r, |s.opportunities|, MAX_OPPORTUNITIES);
    r := PushMaxCount(r, |s.questionsForHuman|, MAX_QUESTIONS);
    r := PushMaxCount(r, |s.proposedGoals|, config.maxGoalsPerRun);
    r := ValidateLenses(s.lensSummaries, r);
    var byId;
    r, byId := ValidateOpportunities(s.opportunities, r);
    r := ValidateQuestions(s.questionsForHuman, r);
    r := ValidateStrategyGoals(s.proposedGoals, byId, config, r);
    if UniqueIds(s.opportunities) {
      IndexDecidesGoals(byId, s.opportunities, s.proposedGoals, config);
    }
    accepted := |r| == 0;
  }
}
