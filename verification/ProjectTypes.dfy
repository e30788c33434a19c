/** src/domain/projectManager/types.ts: what the project manager reads from Codex and keeps. */
module ProjectTypes {
  import opened Common
  import opened Text

  datatype EvidenceKind =
    | Task | Snapshot | ValidationFailure | ReviewNote | CiRun
    | SecurityFinding | MemoryEntry | File | Metric | ExternalUrl

  function KindName(kind: EvidenceKind): string {
    match kind
    case Task => "task"
    case Snapshot => "snapshot"
    case ValidationFailure => "validation_failure"
    case ReviewNote => "review_comment"
    case CiRun => "ci_run"
    case SecurityFinding => "security_finding"
    case MemoryEntry => "memory_entry"
    case File => "file"
    case Metric => "metric"
    case ExternalUrl => "external_url"
  }

  datatype EvidenceRef = EvidenceRef(kind: EvidenceKind, ref: string, summary: Option<string>)

  datatype TaskType =
    | FrontendUiFix | BackendEndpoint | TestsOnly | Refactor | DependencyUpdate | Documentation | Unknown

  datatype Priority = LowPriority | NormalPriority | HighPriority | CriticalPriority

  datatype RiskLevel = LowRisk | MediumRisk | HighRisk

  datatype TaskProposal = TaskProposal(
    title: string,
    description: string,
    taskType: TaskType,
    acceptanceCriteria: seq<string>,
    expectedBlastRadius: Option<string>,
    evidenceRefs: seq<EvidenceRef>)

  datatype GoalDraft = GoalDraft(
    title: string,
    problemStatement: string,
    desiredOutcome: string,
    successMetrics: seq<string>,
    evidenceRefs: seq<EvidenceRef>,
    priority: Priority,
    riskLevel: RiskLevel,
    suggestedTaskProposals: seq<TaskProposal>)

  datatype HealthSignal = HealthSignal(
    kind: string,
    title: string,
    description: string,
    evidenceRefs: seq<EvidenceRef>,
    recommendation: Option<string>)

  datatype ReplanDecision = ContinueGoal | Split | Pause | MarkCompleted | CreateFollowUp | AskHuman

  datatype GoalReplan = GoalReplan(
    goalId: string,
    decision: ReplanDecision,
    rationale: string,
    evidenceRefs: seq<EvidenceRef>,
    followUpGoals: seq<GoalDraft>,
    humanQuestion: Option<string>)

  datatype ParsedAnalysis = ParsedAnalysis(
    summary: string,
    healthSignals: seq<HealthSignal>,
    proposedGoals: seq<GoalDraft>,
    staleGoalIds: seq<string>,
    replanReason: Option<string>,
    goalReplans: seq<GoalReplan>)

  datatype NextStep = CreateGoalStep | Research | AskPerson | DeferStep

  datatype Verdict = Pursue | ResearchFirst | Defer | Reject

  datatype Opportunity = Opportunity(
    opportunityId: string,
    title: string,
    problemStatement: string,
    userOrBusinessImpact: string,
    technicalImpact: string,
    evidenceRefs: seq<EvidenceRef>,
    confidence: real,
    priority: Priority,
    riskLevel: RiskLevel,
    recommendedNextStep: NextStep,
    rationale: string,
    redTeamNotes: seq<string>,
    architectVerdict: Verdict)

  datatype StrategyGoal = StrategyGoal(draft: GoalDraft, sourceOpportunityId: string)

  datatype Question = Question(
    question: string,
    whyItMatters: string,
    relatedOpportunityId: Option<string>,
    relatedOpportunityTitle: Option<string>)

  datatype ParsedStrategy = ParsedStrategy(
    summary: string,
    lensSummaries: seq<string>,
    opportunities: seq<Opportunity>,
    proposedGoals: seq<StrategyGoal>,
    questionsForHuman: seq<Question>)

  datatype ManagerConfig = ManagerConfig(
    maxGoalsPerRun: int,
    maxTaskProposalsPerGoal: int,
    allowedTaskTypes: seq<TaskType>)

  function PriorityRank(p: Priority): nat {
    match p
    case LowPriority => 0
    case NormalPriority => 1
    case HighPriority => 2
    case CriticalPriority => 3
  }

  function RiskLevelRank(r: RiskLevel): nat {
    match r
    case LowRisk => 0
    case MediumRisk => 1
    case HighRisk => 2
  }

  predicate IsLowerPriority(a: Priority, b: Priority) {
    a != b && (a == LowPriority || b == CriticalPriority || (a == NormalPriority && b == HighPriority))
  }

  predicate IsLowerRisk(a: RiskLevel, b: RiskLevel) {
    a != b && (a == LowRisk || b == HighRisk)
  }

  // ---------------------------------------------------------------------------------------------
  // When two pieces of evidence are the same
  // ---------------------------------------------------------------------------------------------

  /** The text both the policy and the duplicate signature compare evidence by. */
  function EvidenceIdentity(e: EvidenceRef): string {
    KindName(e.kind) + ":" + Lower(Trim(e.ref))
  }

  predicate SameEvidence(a: EvidenceRef, b: EvidenceRef) {
    a.kind == b.kind && Lower(Trim(a.ref)) == Lower(Trim(b.ref))
  }

  lemma KindNamesAreDistinct(a: EvidenceKind, b: EvidenceKind)
    ensures ':' !in KindName(a)
    ensures KindName(a) == KindName(b) <==> a == b
  {
    var s, t := KindName(a), KindName(b);
    assert |s| == |t| && a != b ==> s[0] != t[0];
  }

  lemma SameIdentityIff(a: EvidenceRef, b: EvidenceRef)
    ensures EvidenceIdentity(a) == EvidenceIdentity(b) <==> SameEvidence(a, b)
  {
    KindNamesAreDistinct(a.kind, b.kind);
    KindNamesAreDistinct(b.kind, a.kind);
    if EvidenceIdentity(a) == EvidenceIdentity(b) {
      SplitAtFirst(KindName(a.kind), Lower(Trim(a.ref)), KindName(b.kind), Lower(Trim(b.ref)), ':');
    }
  }
}
