/** src/domain/orchestrator.ts: how a worker is configured, what it reads from the outside world, and what a run
    over an issue comes to. */
module TaskRules {
  import opened Common
  import opened CommentLog
  import opened ReviewFeedback
  import opened Decomposition
  import opened QualityGates
  import opened TaskTrace
  import TaskIntake

  datatype CycleOutcome = Processed | Idle | Waiting

  datatype TaskMode = Auto | AnalyzeOnly | AlwaysImplement | AlwaysDecompose | AlwaysHuman

  datatype Config = Config(
    workerId: string,
    taskMode: TaskMode,
    implementThreshold: int,
    humanThreshold: int,
    maxFixAttempts: nat,
    maxReviewFixAttempts: nat,
    selfReviewEnabled: bool,
    selfReviewMaxFixAttempts: nat,
    intakeReviewEnabled: bool,
    rules: Rules,
    maxSubtasks: nat,
    createIssues: bool,
    dryRun: bool,
    canCreateIssue: bool,
    canLinkIssue: bool,
    subtaskTitlePrefix: string)

  datatype MergeRequestState = Opened | Merged | ClosedUnmerged

  datatype MergeRequest = MergeRequest(iid: int, url: string, state: MergeRequestState, hasMergedAt: bool, sourceBranch: string)

  datatype Resolution =
    | OpenRequest(branch: string, request: MergeRequest)
    | MergedRequest(request: MergeRequest)
    | NoRequest  // closed without merge, or missing

  /** What GitLab answers in a review-fix cycle: the merge request of a number and of a branch, and the
      discussions of one with the account that reads them. */
  datatype GitLab = GitLab(
    byNumber: int -> Result<Option<MergeRequest>>,
    byBranch: string -> Result<Option<MergeRequest>>,
    discussions: int -> Result<(string, seq<Discussion>)>)

  /** A reply to a discussion that names the commit with the fix. */
  datatype Reply = Reply(iid: int, discussion: string, commit: int)

  function RepliesTo(iid: int, discussions: seq<Discussion>, commit: int): (r: seq<Reply>)
    ensures |r| == |discussions|
    ensures forall i :: 0 <= i < |r| ==> r[i] == Reply(iid, discussions[i].id, commit)
  {
    seq(|discussions|, i requires 0 <= i < |discussions| => Reply(iid, discussions[i].id, commit))
  }

  /** How the command of each gate would end. */
  datatype Verdicts = Verdicts(of: nat -> Verdict)

  datatype Validation = Validation(changed: bool, gates: seq<GateResult>)

  datatype LinkKind = ParentLink | BlockedByLink

  datatype Link = Link(source: string, target: string, kind: LinkKind)

  datatype AnalysisResult = AnalysisResult(clarification: bool, thread: Option<string>, decision: Decision)

  /** What is left to do after the issue's status and analysis have been looked at. */
  datatype Route = Finish(outcome: CycleOutcome) | Continue(thread: Option<string>)

  /** How the fingerprint of a task is computed. */
  type Fingerprint = (Source, seq<Comment>) -> string

  predicate IsValidationSuccessful(v: Validation) {
    v.changed && QualityGatesPassed(v.gates)
  }

  /** src/domain/orchestrator.ts:1813-1843. */
  function ResolveTaskMode(config: Config, decision: Decision): Option<RecommendedMode> {
    match config.taskMode
    case AnalyzeOnly => None
    case AlwaysImplement => Some(Implement)
    case AlwaysDecompose => Some(Decompose)
    case AlwaysHuman => Some(Human)
    case Auto =>
      if decision.mode == Implement && decision.confidence < config.humanThreshold then Some(Human)
      else if decision.mode == Implement && decision.confidence < config.implementThreshold then
        Some(if decision.missingContext != [] then AskClarification else Human)
      else Some(decision.mode)
  }

  function DecisionOf(execution: Execution): Decision {
    match execution.message
    case ReadyMarker => Decision(100, Implement, [])
    case AnalysisMessage(d) => d
    case _ => Decision(0, Human, ["analysis failed"])
  }

  function ClampedConfidence(humanThreshold: int): int {
    var low := if humanThreshold < 30 then humanThreshold else 30;
    if low < 0 then 0 else low
  }

  function PlanOf(config: Config, key: string, execution: Execution): Option<Plan> {
    match execution.message
    case PlanMessage(raw) => NormalizeDecompositionPlan(raw, key, config.maxSubtasks)
    case _ => None
  }

  function BranchNameForIssue(key: string): string {
    "feature/ai-task-" + key
  }

  function Classify(fallbackBranch: string, mr: MergeRequest): Resolution {
    if mr.state == Merged || mr.hasMergedAt then MergedRequest(mr)
    else if mr.state == ClosedUnmerged then NoRequest
    else OpenRequest(if mr.sourceBranch != "" then mr.sourceBranch else fallbackBranch, mr)
  }

  function OwnMergeRequestComment(worker: string): Comment -> bool {
    (c: Comment) => c.MergeRequestComment? && c.worker == worker && c.branch != ""
  }

  predicate IsAwaitingTestingComment(c: Comment, worker: string, url: string) {
    c.StatusComment? && c.worker == worker && c.state == Review && c.awaitingTestingOf == Some(url)
  }

  function TitleOf(config: Config, subtask: Subtask): string {
    config.subtaskTitlePrefix + " " + subtask.title
  }

  /** The issues carry the titles of the subtasks, in order, behind the configured prefix. */
  ghost predicate AreTitled(issues: map<string, Issue>, keys: seq<string>, subtasks: seq<Subtask>, config: Config)
    requires |keys| <= |subtasks|
  {
    forall i :: 0 <= i < |keys| ==>
      keys[i] in issues && issues[keys[i]].source.title == TitleOf(config, subtasks[i])
  }

  ghost predicate KeepsAll(before: map<string, Issue>, after: map<string, Issue>) {
    before.Keys <= after.Keys && forall k :: k in before ==> after[k] == before[k]
  }

  lemma KeptTwice(first: map<string, Issue>, second: map<string, Issue>, third: map<string, Issue>)
    requires KeepsAll(first, second) && KeepsAll(second, third)
    ensures KeepsAll(first, third)
  {
  }

  /** The issues that are new, each once, and nothing else changed. */
  ghost predicate AreCreated(before: map<string, Issue>, after: map<string, Issue>, keys: seq<string>) {
    && NoDuplicates(keys)
    && (forall k :: k in keys ==> k !in before)
    && after.Keys == before.Keys + SetOf(keys) && KeepsAll(before, after)
  }

  lemma CreatedMore(
    before: map<string, Issue>, mid: map<string, Issue>, after: map<string, Issue>, keys: seq<string>, key: string)
    requires AreCreated(before, mid, keys) && key !in mid && after.Keys == mid.Keys + {key} && KeepsAll(mid, after)
    ensures AreCreated(before, after, keys + [key])
  {
    assert SetOf(keys + [key]) == SetOf(keys) + {key};
    assert forall k :: k in keys ==> k in SetOf(keys);
  }

  /** From the first `n` on, the links are links of the parent to the issues. */
  ghost predicate AreParentLinks(links: seq<Link>, n: nat, parent: string, keys: seq<string>) {
    forall i :: n <= i < |links| ==>
      links[i].kind == ParentLink && links[i].source == parent && links[i].target in keys
  }

  /** The issues are linked to their parent. */
  ghost predicate AreLinkedTo(links: seq<Link>, parent: string, keys: seq<string>) {
    forall k :: k in keys ==> Link(parent, k, ParentLink) in links
  }

  lemma LinkedToMore(links: seq<Link>, parent: string, keys: seq<string>, key: string)
    requires AreLinkedTo(links, parent, keys)
    ensures AreLinkedTo(links + [Link(parent, key, ParentLink)], parent, keys + [key])
  {
  }

  lemma ParentLinksMore(links: seq<Link>, more: seq<Link>, n: nat, parent: string, keys: seq<string>, key: string)
    requires n <= |links| && AreParentLinks(links, n, parent, keys)
    requires more == links || more == links + [Link(parent, key, ParentLink)]
    ensures AreParentLinks(more, n, parent, keys + [key])
  {
  }

  /** From the first `n` on, the links are links the plan asks for. */
  ghost predicate ArePlanLinks(links: seq<Link>, n: nat, parent: string, keys: seq<string>, plan: Plan)
    requires |keys| == |plan.subtasks|
  {
    forall i :: n <= i < |links| ==> IsPlanLink(links[i], parent, keys, plan)
  }

  lemma ParentLinksArePlanLinks(links: seq<Link>, n: nat, parent: string, keys: seq<string>, plan: Plan)
    requires |keys| == |plan.subtasks| && AreParentLinks(links, n, parent, keys)
    ensures ArePlanLinks(links, n, parent, keys, plan)
  {
  }

  /** The dependency is linked: the issue of the blocked subtask to that of the blocking one. */
  ghost predicate IsDependencyLinked(links: seq<Link>, plan: Plan, keys: seq<string>, d: Dependency)
    requires |keys| == |plan.subtasks|
  {
    exists i, j :: 0 <= i < |keys| && 0 <= j < |keys|
      && plan.subtasks[i].temporaryId == d.blocked && plan.subtasks[j].temporaryId == d.blocking
      && Link(keys[i], keys[j], BlockedByLink) in links
  }

  /** The first `n` dependencies are linked. */
  ghost predicate AreDependenciesLinked(links: seq<Link>, plan: Plan, keys: seq<string>, n: nat)
    requires |keys| == |plan.subtasks| && n <= |plan.dependencies|
  {
    forall m :: 0 <= m < n ==> IsDependencyLinked(links, plan, keys, plan.dependencies[m])
  }

  lemma LinkedMore(links: seq<Link>, link: Link, plan: Plan, keys: seq<string>, n: nat)
    requires |keys| == |plan.subtasks| && n <= |plan.dependencies| && AreDependenciesLinked(links, plan, keys, n)
    ensures AreDependenciesLinked(links + [link], plan, keys, n)
  {
    forall m | 0 <= m < n ensures IsDependencyLinked(links + [link], plan, keys, plan.dependencies[m]) {
      assert IsDependencyLinked(links, plan, keys, plan.dependencies[m]);
    }
  }

  lemma LinkedOneMore(links: seq<Link>, plan: Plan, keys: seq<string>, n: nat, i: nat, j: nat)
    requires |keys| == |plan.subtasks| && n < |plan.dependencies| && i < |keys| && j < |keys|
    requires plan.subtasks[i].temporaryId == plan.dependencies[n].blocked
    requires plan.subtasks[j].temporaryId == plan.dependencies[n].blocking
    requires AreDependenciesLinked(links, plan, keys, n)
    ensures AreDependenciesLinked(links + [Link(keys[i], keys[j], BlockedByLink)], plan, keys, n + 1)
  {
    var link := Link(keys[i], keys[j], BlockedByLink);
    LinkedMore(links, link, plan, keys, n);
    assert link in links + [link];
    assert IsDependencyLinked(links + [link], plan, keys, plan.dependencies[n]);
  }

  lemma PlanLinksMore(
    links: seq<Link>, more: seq<Link>, n0: nat, parent: string, keys: seq<string>, plan: Plan, n: nat, i: nat, j: nat)
    requires |keys| == |plan.subtasks| && n < |plan.dependencies| && i < |keys| && j < |keys| && i != j
    requires plan.subtasks[i].temporaryId == plan.dependencies[n].blocked
    requires plan.subtasks[j].temporaryId == plan.dependencies[n].blocking
    requires ArePlanLinks(links, n0, parent, keys, plan)
    requires more == links || more == links + [Link(keys[i], keys[j], BlockedByLink)]
    ensures ArePlanLinks(more, n0, parent, keys, plan)
  {
    assert plan.dependencies[n] in plan.dependencies;
    assert IsPlanLink(Link(keys[i], keys[j], BlockedByLink), parent, keys, plan);
  }

  /** Asked for since `had`: to link every issue to its parent, in order. */
  ghost predicate AreParentsAsked(had: seq<Link>, asked: seq<Link>, parent: string, keys: seq<string>) {
    && |asked| == |had| + |keys| && had <= asked
    && forall i :: 0 <= i < |keys| ==> asked[|had| + i] == Link(parent, keys[i], ParentLink)
  }

  /** Since `had` and `hadAsked`: every issue was to be linked to its parent, and what did not come of it was counted. */
  ghost predicate AreParentsSeenTo(
    had: seq<Link>, links: seq<Link>, hadAsked: seq<Link>, asked: seq<Link>, parent: string, keys: seq<string>,
    config: Config, warnings: nat, confirmed: nat)
  {
    && had <= links && AreParentLinks(links, |had|, parent, keys)
    && (warnings == 0 ==> AreLinkedTo(links, parent, keys))
    && (config.canLinkIssue ==> AreParentsAsked(hadAsked, asked, parent, keys))
    && (!config.canLinkIssue ==> asked == hadAsked)
    && confirmed + warnings == |keys| && confirmed <= |links| - |had| <= |keys|
  }

  lemma ParentSeenTo(
    had: seq<Link>, links: seq<Link>, hadAsked: seq<Link>, asked: seq<Link>, parent: string, keys: seq<string>,
    config: Config, warnings: nat, confirmed: nat, key: string, linked: bool, more: seq<Link>, moreAsked: seq<Link>)
    requires AreParentsSeenTo(had, links, hadAsked, asked, parent, keys, config, warnings, confirmed)
    requires more == links || more == links + [Link(parent, key, ParentLink)]
    requires linked ==> more == links + [Link(parent, key, ParentLink)]
    requires moreAsked == asked + if config.canLinkIssue then [Link(parent, key, ParentLink)] else []
    ensures AreParentsSeenTo(had, more, hadAsked, moreAsked, parent, keys + [key], config,
                             if linked then warnings else warnings + 1, if linked then confirmed + 1 else confirmed)
  {
    ParentLinksMore(links, more, |had|, parent, keys, key);
    if warnings == 0 && linked {
      LinkedToMore(links, parent, keys, key);
    }
  }

  ghost predicate IsDependencyLink(link: Link, plan: Plan, keys: seq<string>, d: Dependency)
    requires |keys| == |plan.subtasks|
  {
    exists i, j :: 0 <= i < |keys| && 0 <= j < |keys|
      && plan.subtasks[i].temporaryId == d.blocked && plan.subtasks[j].temporaryId == d.blocking
      && link == Link(keys[i], keys[j], BlockedByLink)
  }

  /** Asked for since `had`: to link every issue to its parent, and then the first `n` dependencies, in order. */
  ghost predicate AreAsked(had: seq<Link>, asked: seq<Link>, parent: string, keys: seq<string>, plan: Plan, n: nat)
    requires |keys| == |plan.subtasks| && n <= |plan.dependencies|
  {
    && |asked| == |had| + |keys| + n
    && AreParentsAsked(had, asked[..|had| + |keys|], parent, keys)
    && forall m :: 0 <= m < n ==> IsDependencyLink(asked[|had| + |keys| + m], plan, keys, plan.dependencies[m])
  }

  lemma AskedMore(
    had: seq<Link>, asked: seq<Link>, parent: string, keys: seq<string>, plan: Plan, n: nat, i: nat, j: nat)
    requires |keys| == |plan.subtasks| && n < |plan.dependencies| && i < |keys| && j < |keys|
    requires plan.subtasks[i].temporaryId == plan.dependencies[n].blocked
    requires plan.subtasks[j].temporaryId == plan.dependencies[n].blocking
    requires AreAsked(had, asked, parent, keys, plan, n)
    ensures AreAsked(had, asked + [Link(keys[i], keys[j], BlockedByLink)], parent, keys, plan, n + 1)
  {
    var more := asked + [Link(keys[i], keys[j], BlockedByLink)];
    assert more[..|had| + |keys|] == asked[..|had| + |keys|];
    assert IsDependencyLink(more[|asked|], plan, keys, plan.dependencies[n]);
    forall m | 0 <= m < n ensures IsDependencyLink(more[|had| + |keys| + m], plan, keys, plan.dependencies[m]) {
      assert more[|had| + |keys| + m] == asked[|had| + |keys| + m];
    }
  }

  lemma OnlyParentsAsked(had: seq<Link>, asked: seq<Link>, parent: string, keys: seq<string>, plan: Plan)
    requires |keys| == |plan.subtasks| && AreParentsAsked(had, asked, parent, keys)
    ensures AreAsked(had, asked, parent, keys, plan, 0)
  {
    assert asked[..|had| + |keys|] == asked;
  }

  /** The issue of every subtask can be found by the subtask's id. */
  ghost predicate AreFoundBy(keyOf: map<string, string>, ids: seq<string>, keys: seq<string>)
    requires |keys| <= |ids|
  {
    forall i :: 0 <= i < |keys| ==> ids[i] in keyOf && keyOf[ids[i]] == keys[i]
  }

  /** The subtasks a dependency joins, and their issues. */
  lemma EndsOf(plan: Plan, n: nat, keyOf: map<string, string>, keys: seq<string>) returns (i: nat, j: nat)
    requires WellFormed(plan) && n < |plan.dependencies| && |keys| == |plan.subtasks|
    requires AreFoundBy(keyOf, TemporaryIds(plan.subtasks), keys)
    ensures i < |keys| && j < |keys| && i != j
    ensures plan.subtasks[i].temporaryId == plan.dependencies[n].blocked
    ensures plan.subtasks[j].temporaryId == plan.dependencies[n].blocking
    ensures plan.dependencies[n].blocked in keyOf && keyOf[plan.dependencies[n].blocked] == keys[i]
    ensures plan.dependencies[n].blocking in keyOf && keyOf[plan.dependencies[n].blocking] == keys[j]
  {
    var ids, d := TemporaryIds(plan.subtasks), plan.dependencies[n];
    assert IsSoundDependency(d, ids);
    i :| 0 <= i < |ids| && ids[i] == d.blocked;
    j :| 0 <= j < |ids| && ids[j] == d.blocking;
  }

  lemma FoundMore(keyOf: map<string, string>, ids: seq<string>, keys: seq<string>, key: string)
    requires |keys| < |ids| && NoDuplicates(ids) && AreFoundBy(keyOf, ids, keys)
    ensures AreFoundBy(keyOf[ids[|keys|] := key], ids, keys + [key])
  {
  }

  /** One more issue, the others as they were. */
  lemma TitledMore(
    before: map<string, Issue>, after: map<string, Issue>, keys: seq<string>, key: string, subtasks: seq<Subtask>,
    config: Config)
    requires |keys| < |subtasks| && AreTitled(before, keys, subtasks, config) && key !in before && KeepsAll(before, after)
    requires key in after && after[key].source.title == TitleOf(config, subtasks[|keys|])
    ensures AreTitled(after, keys + [key], subtasks, config)
  {
  }

  /** The issues of the first subtasks are new, in order, carry their titles, and can be found by their ids. */
  ghost predicate AreIssuesOf(
    before: map<string, Issue>, after: map<string, Issue>, keys: seq<string>, keyOf: map<string, string>,
    subtasks: seq<Subtask>, config: Config)
  {
    && |keys| <= |subtasks|
    && AreCreated(before, after, keys) && AreTitled(after, keys, subtasks, config)
    && AreFoundBy(keyOf, TemporaryIds(subtasks), keys)
  }

  lemma IssuesOfMore(
    before: map<string, Issue>, mid: map<string, Issue>, after: map<string, Issue>, keys: seq<string>,
    keyOf: map<string, string>, key: string, subtasks: seq<Subtask>, config: Config)
    requires |keys| < |subtasks| && NoDuplicates(TemporaryIds(subtasks))
    requires AreIssuesOf(before, mid, keys, keyOf, subtasks, config)
    requires key !in mid && after.Keys == mid.Keys + {key} && KeepsAll(mid, after)
    requires after[key].source.title == TitleOf(config, subtasks[|keys|])
    ensures AreIssuesOf(before, after, keys + [key], keyOf[subtasks[|keys|].temporaryId := key], subtasks, config)
  {
    CreatedMore(before, mid, after, keys, key);
    TitledMore(mid, after, keys, key, subtasks, config);
    FoundMore(keyOf, TemporaryIds(subtasks), keys, key);
  }

  lemma TitledElsewhere(
    before: map<string, Issue>, after: map<string, Issue>, key: string, keys: seq<string>, subtasks: seq<Subtask>,
    config: Config)
    requires |keys| <= |subtasks| && AreTitled(before, keys, subtasks, config) && OnlyTouches(before, after, key)
    ensures AreTitled(after, keys, subtasks, config)
  {
    forall i | 0 <= i < |keys|
      ensures keys[i] in after && after[keys[i]].source.title == TitleOf(config, subtasks[i])
    {
      assert after[keys[i]].source == before[keys[i]].source;
    }
  }

  /** An issue a cycle of `worker` without a target may select: open, or owned by that worker. */
  predicate IsSelectable(issue: Issue, worker: string) {
    issue.status == Open || IsOwnable(issue, worker)
  }

  predicate IsOwnable(issue: Issue, worker: string) {
    && IsOwnedStatus(issue.status)
    && (IsResumableBy(issue.comments, worker)
        || (issue.status == Review && IsReviewOwnedBy(issue.comments, worker)))
  }

  /** Open, its dependencies done, and no other worker busy with it. */
  predicate CanPick(issue: Issue, dependenciesDone: bool, worker: string) {
    issue.status == Open && dependenciesDone && !IsBusyByAnotherWorker(issue.comments, worker)
  }

  // ---------------------------------------------------------------------------------------------
  // Exceptions
  // ---------------------------------------------------------------------------------------------

  /** Whatever is thrown was thrown by an outside call. */
  ghost predicate PassesOn<T>(before: seq<Error>, after: seq<Error>, r: Result<T>) {
    after == before + if r.Err? then [r.error] else []
  }

  /** Whatever is thrown was thrown by an outside call, or is a failure of the worker's own, which is permanent. */
  ghost predicate Explains<T>(before: seq<Error>, after: seq<Error>, r: Result<T>) {
    PassesOn(before, after, r) || (r.Err? && r.error == Permanent && after == before)
  }

  ghost predicate IsOwnFailure<T>(before: seq<Error>, after: seq<Error>, r: Result<T>) {
    r.Err? && after == before
  }

  // ---------------------------------------------------------------------------------------------
  // What a decision leads to
  // ---------------------------------------------------------------------------------------------

  /** Told to always implement, or the decision is to implement with enough confidence for both thresholds. */
  predicate MayImplement(config: Config, d: Decision) {
    || config.taskMode == AlwaysImplement
    || (config.taskMode == Auto && d.mode == Implement
        && d.confidence >= config.humanThreshold && d.confidence >= config.implementThreshold)
  }

  /** The decision asks, or lacks confidence and says what it misses. */
  predicate AsksClarification(config: Config, d: Decision) {
    && config.taskMode == Auto
    && (|| d.mode == AskClarification
        || (d.mode == Implement && config.humanThreshold <= d.confidence < config.implementThreshold
            && d.missingContext != []))
  }

  /** Told to, or the decision says so, or it lacks confidence without saying what it misses. */
  predicate GoesToHuman(config: Config, d: Decision) {
    || config.taskMode == AlwaysHuman
    || (config.taskMode == Auto && d.mode == Human)
    || (config.taskMode == Auto && d.mode == Implement && d.confidence < config.humanThreshold)
    || (config.taskMode == Auto && d.mode == Implement && d.confidence < config.implementThreshold
        && d.missingContext == [])
  }

  predicate MayDecompose(config: Config, d: Decision) {
    config.taskMode == AlwaysDecompose || (config.taskMode == Auto && d.mode == Decompose)
  }

  lemma ModeMeans(config: Config, d: Decision)
    ensures ResolveTaskMode(config, d) == None <==> config.taskMode == AnalyzeOnly
    ensures ResolveTaskMode(config, d) == Some(Implement) <==> MayImplement(config, d)
    ensures ResolveTaskMode(config, d) == Some(AskClarification) <==> AsksClarification(config, d)
    ensures ResolveTaskMode(config, d) == Some(Human) <==> GoesToHuman(config, d)
    ensures ResolveTaskMode(config, d) == Some(Decompose) <==> MayDecompose(config, d)
  {
  }

  /** What an analysis makes of Codex's answer: a question leaves little confidence, the marker full confidence,
      a decision is taken as it is, and anything else goes to a person. */
  ghost predicate IsAnalysisOf(config: Config, a: AnalysisResult, e: Execution) {
    && a.clarification == e.clarification && a.thread == e.thread
    && (e.clarification ==>
          && a.decision.mode == AskClarification && 0 <= a.decision.confidence <= 30
          && (0 < a.decision.confidence ==> a.decision.confidence <= config.humanThreshold)
          && (a.decision.confidence < 30 ==> a.decision.confidence >= config.humanThreshold))
    && (!e.clarification ==>
          && (e.message.ReadyMarker? ==> a.decision.mode == Implement && a.decision.confidence == 100)
          && (e.message.AnalysisMessage? ==> a.decision == e.message.decision)
          && (!e.message.ReadyMarker? && !e.message.AnalysisMessage? ==>
                a.decision.mode == Human && a.decision.confidence == 0))
  }

  lemma QuestionIsAnalysis(config: Config, e: Execution)
    requires e.clarification
    ensures IsAnalysisOf(
              config,
              AnalysisResult(true, e.thread, Decision(ClampedConfidence(config.humanThreshold), AskClarification, ["question"])),
              e)
  {
  }

  lemma AnswerIsAnalysis(config: Config, e: Execution)
    requires !e.clarification
    ensures IsAnalysisOf(config, AnalysisResult(false, e.thread, DecisionOf(e)), e)
  {
  }

  /** Nothing was validated or reviewed. */
  ghost predicate NoChecks(l0: Log, l1: Log) {
    l1.sum.rejections == l0.sum.rejections && l1.sum.reviews == l0.sum.reviews
  }

  /** The one event by which a trace grew. */
  ghost predicate GrowsBy(l0: Log, l1: Log, e: Event) {
    l1.events == l0.events + [e]
  }

  /** The analysis a run goes by: stored, or one Codex run. */
  ghost predicate IsAnalysis(
    config: Config, key: string, comments: seq<Comment>, l0: Log, l1: Log, a: AnalysisResult)
  {
    match FindLatestAnalysisDecision(comments, key)
    case Some(d) => a == AnalysisResult(false, None, d) && l1 == l0
    case None =>
      exists tree, e :: GrowsBy(l0, l1, CodexRan(tree, Some(e))) && IsAnalysisOf(config, a, e)
  }

  // ---------------------------------------------------------------------------------------------
  // How the parts of a run end
  // ---------------------------------------------------------------------------------------------

  /** Waiting on a question of `worker` that goes on in this session. */
  predicate IsQuestionedOn(issue: Issue, worker: string, thread: Option<string>) {
    IsQuestioned(issue, worker) && FromLatestQuestion(issue.comments)[0] == QuestionComment(worker, thread)
  }

  /** In review, with a merge request of the branch on record. */
  function Published(issue: Issue, worker: string, branch: string, iid: int): Issue {
    Moved(Commented(issue, MergeRequestComment(worker, branch, Some(iid))), Review, worker, None)
  }

  ghost predicate IsPublished(issue: Issue, worker: string, branch: string) {
    exists before, iid :: issue == Published(before, worker, branch, iid)
  }

  lemma PublishedIsReviewed(issue: Issue, worker: string, branch: string, iid: int)
    ensures var after := Published(issue, worker, branch, iid);
            IsPublished(after, worker, branch) && Synced(after) && IsReviewOwnedBy(after.comments, worker)
  {
    var after := Published(issue, worker, branch, iid);
    var status := StatusComment(worker, Review, None, None);
    FindLatestAppend(issue.comments + [MergeRequestComment(worker, branch, Some(iid))], status, IsStatusComment);
    assert status in after.comments && IsReviewMark(status, worker);
  }

  predicate CreatesIssues(config: Config) {
    config.createIssues && !config.dryRun && config.canCreateIssue
  }

  /** What a decomposition comes to, given Codex's answer: issues are created exactly when a plan is accepted,
      creating is on, and the tracker can; `had` are the issues there were. */
  ghost predicate IsPlanned(
    config: Config, key: string, had: set<string>, after: map<string, Issue>, e: Execution, outcome: CycleOutcome)
  {
    && key in after && IsHeld(after[key])
    && match PlanOf(config, key, e)
       case None => outcome == Waiting && after.Keys == had
       case Some(plan) =>
         if CreatesIssues(config) then
           && outcome == Processed
           && SetOf(SubtasksOf(after[key].comments, key)) == after.Keys - had
           && |SubtasksOf(after[key].comments, key)| == |plan.subtasks|
           && AreTitled(after, SubtasksOf(after[key].comments, key), plan.subtasks, config)
         else
           && after.Keys == had
           && outcome == if config.createIssues && !config.dryRun then Waiting else Processed
  }

  /** Without subtasks on record, one Codex run; the parent is held either way. */
  ghost predicate IsDecomposed(
    config: Config, key: string, comments: seq<Comment>, had: set<string>, after: map<string, Issue>, l0: Log, l1: Log,
    outcome: CycleOutcome)
  {
    if HasSubtasks(comments, key) then
      && key in after && IsHeld(after[key])
      && outcome == Processed && after.Keys == had && l1 == l0
    else
      exists tree, e :: GrowsBy(l0, l1, CodexRan(tree, Some(e))) && IsPlanned(config, key, had, after, e, outcome)
  }

  /** What the analysis of an issue leads to. */
  ghost predicate IsRouted(
    config: Config, key: string, comments: seq<Comment>, had: set<string>, after: map<string, Issue>,
    l0: Log, l1: Log, a: AnalysisResult, route: Route)
  {
    && key in after
    && (config.taskMode == AnalyzeOnly ==> route == Finish(Processed) && IsHeld(after[key]) && l1 == l0)
    && (AsksClarification(config, a.decision) || (MayImplement(config, a.decision) && a.clarification) ==>
          route == Finish(Waiting) && IsQuestionedOn(after[key], config.workerId, a.thread) && l1 == l0)
    && (GoesToHuman(config, a.decision) ==> route == Finish(Waiting) && IsHeld(after[key]) && l1 == l0)
    && (MayDecompose(config, a.decision) ==>
          route.Finish? && IsDecomposed(config, key, comments, had, after, l0, l1, route.outcome))
    && (MayImplement(config, a.decision) && !a.clarification ==>
          && route == Continue(a.thread) && l1 == l0 && after[key].status == InProgress
          && (FindLatestAnalysisDecision(comments, key).None? ==>
                FindLatestAnalysisDecision(after[key].comments, key) == Some(a.decision)))
  }

  /** Up to the checkout: a waiting issue goes on exactly with a `/resume` for this worker, on the session of the
      question; any other goes by its analysis. */
  ghost predicate IsPrepared(
    config: Config, key: string, comments: seq<Comment>, before: map<string, Issue>, after: map<string, Issue>,
    l0: Log, l1: Log, route: Route)
  {
    && key in before && key in after
    && if before[key].status == WaitingForAnswer then
         && l1 == l0
         && match ResolveResumeContext(comments, config.workerId)
            case None => route == Finish(Waiting) && after == before
            case Some(context) => route == Continue(context.thread) && after[key].status == InProgress
       else
         exists lm, a :: IsAnalysis(config, key, comments, l0, lm, a)
                         && IsRouted(config, key, comments, before.Keys, after, lm, l1, a, route)
  }

  /** Paused on the question the last Codex run asked, the first of the path. */
  ghost predicate IsPaused(issue: Issue, worker: string, l0: Log, l1: Log, thread: Option<string>) {
    && l1.events != [] && Asks(l1.Last()) && l1.sum.questions == l0.sum.questions + 1
    && IsQuestionedOn(issue, worker, thread)
  }

  ghost predicate IsPausedTask(issue: Issue, worker: string, l0: Log, l1: Log, thread: Option<string>) {
    IsPaused(issue, worker, l0, l1, KnownThread(l1.events, |l0.events|, thread))
  }

  /** From the checkout of its branch on: paused on a question, or published without one: pushed last, or
      committed before, with a merge request that was there already. */
  ghost predicate IsImplemented(
    config: Config, key: string, thread: Option<string>, after: Issue, l0: Log, l1: Log,
    outcome: CycleOutcome)
  {
    var branch := BranchNameForIssue(key);
    && IsBegun(l0, l1, branch)
    && (|| (outcome == Waiting && IsPausedTask(after, config.workerId, l0, l1, thread))
        || (&& outcome == Processed && l1.sum.questions == l0.sum.questions
            && IsPublished(after, config.workerId, branch)
            && ((exists tree :: EndsWith(l1, Pushed(branch, tree, config.selfReviewEnabled)))
                || exists tree, commit :: GrowsBy(l0, l1, CheckedOut(tree, Checkout(branch, commit, Ahead))))))
  }

  ghost predicate EndsWith(l: Log, e: Event) {
    l.events != [] && l.Last() == e
  }

  // ---------------------------------------------------------------------------------------------
  // How a review-fix cycle ends
  // ---------------------------------------------------------------------------------------------

  /** Comment `i` is the latest in which this worker names a branch with its merge request. */
  ghost predicate IsRecordAt(comments: seq<Comment>, worker: string, i: int) {
    && 0 <= i < |comments| && IsRecord(comments[i], worker)
    && forall j :: i < j < |comments| ==> !IsRecord(comments[j], worker)
  }

  ghost predicate IsRecord(c: Comment, worker: string) {
    exists branch, iid :: branch != "" && c == MergeRequestComment(worker, branch, iid)
  }

  /** The merge request on record is that of the latest such comment, if there is one. */
  lemma RecordMeans(comments: seq<Comment>, worker: string)
    ensures var found := FindLatest(comments, OwnMergeRequestComment(worker));
            if found.Some? then exists i :: IsRecordAt(comments, worker, i) && comments[i] == found.value
            else forall c :: c in comments ==> !IsRecord(c, worker)
  {
    forall c ensures OwnMergeRequestComment(worker)(c) <==> IsRecord(c, worker) {
      assert c.MergeRequestComment? ==> c == MergeRequestComment(c.worker, c.branch, c.iid);
    }
    var p := OwnMergeRequestComment(worker);
    FindLatestIsLast(comments, p);
    if FindLatest(comments, p).Some? {
      var i :| IsLast(comments, p, i) && comments[i] == FindLatest(comments, p).value;
      assert IsRecordAt(comments, worker, i);
    }
  }

  /** The branch on record, or the one the issue would have. */
  function RecordedBranch(worker: string, key: string, comments: seq<Comment>): string {
    match FindLatest(comments, OwnMergeRequestComment(worker))
    case Some(MergeRequestComment(_, branch, _)) => branch
    case _ => BranchNameForIssue(key)
  }

  /** The merge request a review issue belongs to: that of the recorded number if GitLab knows it, else that of
      the branch. */
  function RequestOf(worker: string, key: string, comments: seq<Comment>, gitlab: GitLab): Result<Option<MergeRequest>> {
    var byBranch := gitlab.byBranch(RecordedBranch(worker, key, comments));
    match FindLatest(comments, OwnMergeRequestComment(worker))
    case Some(MergeRequestComment(_, _, Some(iid))) =>
      if gitlab.byNumber(iid) == Ok(None) then byBranch else gitlab.byNumber(iid)
    case _ => byBranch
  }

  /** The branch of a merge request: its own, unless it has none. */
  function BranchOf(worker: string, key: string, comments: seq<Comment>, mr: MergeRequest): string {
    if mr.sourceBranch == "" then RecordedBranch(worker, key, comments) else mr.sourceBranch
  }

  predicate IsMergedRequest(mr: Option<MergeRequest>) {
    mr.Some? && (mr.value.state == Merged || mr.value.hasMergedAt)
  }

  predicate IsOpenRequest(mr: Option<MergeRequest>) {
    mr.Some? && mr.value.state == Opened && !mr.value.hasMergedAt
  }

  /** A review-fix cycle that left its metadata: the merge request, whose account and which discussions it
      went by, and the commit it pushed. */
  datatype ReviewRecord = ReviewRecord(iid: int, me: string, discussions: seq<Discussion>, commit: int)

  /** The discussions such a cycle handed to Codex, given the comments it read. */
  function ShownBy(record: ReviewRecord, key: string, comments: seq<Comment>): seq<Discussion> {
    FindPendingReviewDiscussions(record.discussions, record.me, FindLatestReviewMetadata(comments, key, record.iid))
  }

  /** Codex fixed what was pending: paused on its question, or pushed a new commit last, with exactly the pending
      discussions and that commit on record. */
  ghost predicate IsFixed(
    worker: string, key: string, branch: string, iid: int, previous: Option<ReviewMetadata>, pending: seq<Discussion>,
    after: Issue, l0: Log, l1: Log, headCommit: nat, outcome: CycleOutcome)
  {
    || (outcome == Waiting && l1.events != [] && IsPaused(after, worker, l0, l1, ThreadOf(l1.Last())))
    || (&& outcome == Processed && l1.sum.questions == l0.sum.questions
        && after.status == Review && Synced(after)
        && IsPushed(l1, branch, headCommit)
        && FindLatestReviewMetadata(after.comments, key, iid) ==
           Some(MergeReviewMetadata(worker, key, iid, previous, pending, headCommit)))
  }

  /** The branch was pushed last, at a commit other than that checked out. */
  ghost predicate IsPushed(l: Log, branch: string, headCommit: nat) {
    && (exists tree :: EndsWith(l, Pushed(branch, tree, false)))
    && l.sum.checkout.Some? && l.sum.checkout.value.commit != headCommit
  }

  /** This commit of the branch was checked out last. */
  predicate IsAt(l: Log, branch: string, commit: nat) {
    l.sum.checkout.Some? && l.sum.checkout.value.branch == branch && l.sum.checkout.value.commit == commit
  }

  /** The task is as it was; with a commit, one entry was added to the metadata, and the discussions were replied
      to. */
  ghost predicate WasFixed(
    worker: string, key: string, iid: int, previous: Option<ReviewMetadata>, pending: seq<Discussion>,
    before: Issue, after: Issue, had: seq<Reply>, replies: seq<Reply>, commit: Option<int>)
  {
    && KeepsTask(before, after, key)
    && match commit
       case None => ReviewsIn(after.comments) == ReviewsIn(before.comments)
       case Some(c) =>
         && ReviewsIn(after.comments) == ReviewsIn(before.comments) +
              [MergeReviewMetadata(worker, key, iid, previous, pending, c)]
         && replies == had + RepliesTo(iid, pending, c)
  }

  /** This worker has noted that the merged request waits for people to test it. */
  ghost predicate IsNoted(comments: seq<Comment>, worker: string, url: string) {
    exists reason :: StatusComment(worker, Review, reason, Some(url)) in comments
  }

  /** Without pending discussions nothing happens; else Codex fixes them. */
  ghost predicate IsOpenReviewed(
    worker: string, key: string, comments: seq<Comment>, gitlab: GitLab, mr: MergeRequest, before: Issue, after: Issue,
    l0: Log, l1: Log, headCommit: nat, outcome: CycleOutcome)
  {
    var iid, branch := mr.iid, BranchOf(worker, key, comments, mr);
    && gitlab.discussions(iid).Ok?
    && var previous := FindLatestReviewMetadata(comments, key, iid);
       var (me, discussions) := gitlab.discussions(iid).value;
       var pending := FindPendingReviewDiscussions(discussions, me, previous);
       if pending == [] then outcome == Idle && after == before && l1 == l0
       else IsFixed(worker, key, branch, iid, previous, pending, after, l0, l1, headCommit, outcome)
  }

  /** A merge is noted once; without an open merge request a person takes over; the discussions of an open one are
      seen to. */
  ghost predicate IsReviewed(
    config: Config, key: string, comments: seq<Comment>, gitlab: GitLab, before: Issue, after: Issue,
    l0: Log, l1: Log, headCommit: nat, outcome: CycleOutcome)
  {
    var worker, request := config.workerId, RequestOf(config.workerId, key, comments, gitlab);
    && request.Ok?
    && if IsMergedRequest(request.value) then
         var url := request.value.value.url;
         && l1 == l0
         && if IsNoted(comments, worker, url) then outcome == Idle && after == before
            else outcome == Processed
                 && after == Commented(before, StatusComment(worker, Review, None, Some(url)))
       else if !IsOpenRequest(request.value) then
         && l1 == l0 && outcome == Waiting
         && after == Moved(before, WaitingForAnswer, worker, Some(ManualHold))
       else
         IsOpenReviewed(worker, key, comments, gitlab, request.value.value, before, after, l0, l1, headCommit, outcome)
  }

  // ---------------------------------------------------------------------------------------------
  // When a worker gives up by itself
  // ---------------------------------------------------------------------------------------------

  /** Nothing changed at the first validation; or the validation failed once more than there are attempts; or it
      failed after a self-review's fix; or a self-review was unreadable, or negative once more than there are
      attempts. */
  ghost predicate GaveUpImplementing(config: Config, l0: Log, l1: Log) {
    && l1.events != []
    && var last, rejections, reviews := l1.Last(), l1.sum.rejections - l0.sum.rejections, l1.sum.reviews - l0.sum.reviews;
       || (last.Validated? && !last.changed && rejections == 1 && reviews == 0)
       || (last.Validated? && !IsSuccess(last, config.rules) && rejections == config.maxFixAttempts + 1 && reviews == 0)
       || (last.Validated? && !IsSuccess(last, config.rules) && reviews > 0)
       || (last.SelfReviewed? && last.answer.Some? && !last.answer.value.message.SelfReviewMessage?)
       || (last.SelfReviewed? && last.answer.Some? && last.answer.value.message == SelfReviewMessage(false)
           && reviews == config.selfReviewMaxFixAttempts + 1)
  }

  /** The validation failed once more than there are attempts, or it succeeded without a new commit. */
  ghost predicate GaveUpReviewing(config: Config, l0: Log, l1: Log, headCommit: nat) {
    && l1.EndsWithValidation()
    && if IsSuccess(l1.Last(), config.rules) then l1.sum.checkout.Some? && l1.sum.checkout.value.commit == headCommit
       else l1.sum.rejections == l0.sum.rejections + config.maxReviewFixAttempts + 1
  }

  /** There is a plan to create issues for, and no queue to create them in. */
  ghost predicate GaveUpDecomposing(config: Config, key: string, source: Source, l1: Log) {
    && l1.EndsWithCodex() && l1.Last().answer.Some?
    && PlanOf(config, key, l1.Last().answer.value).Some? && CreatesIssues(config)
    && match source.queue
       case Some(queue) => queue == ""
       case None => key == "" || key[0] == '-'
  }

  // ---------------------------------------------------------------------------------------------
  // A whole run over an issue
  // ---------------------------------------------------------------------------------------------

  /** One run: the issues, the trace and what was thrown, before it, when processing ended, and after it. */
  datatype RunRecord = RunRecord(
    key: string,
    comments: seq<Comment>,
    gitlab: GitLab,
    before: map<string, Issue>,
    mid: map<string, Issue>,
    after: map<string, Issue>,
    l0: Log,
    l1: Log,
    thrown0: seq<Error>,
    thrownMid: seq<Error>,
    thrown1: seq<Error>,
    headCommit: nat,
    processed: Result<CycleOutcome>,  // how `processIssue` ended
    outcome: Result<CycleOutcome>)    // what `handleIssue` made of it

  /** How processing ends when nothing is thrown: a review by its merge request; any other issue by its analysis,
      and on from there. */
  ghost predicate IsEnd(
    config: Config, key: string, comments: seq<Comment>, gitlab: GitLab, before: map<string, Issue>,
    after: map<string, Issue>, l0: Log, l1: Log, headCommit: nat, outcome: CycleOutcome)
  {
    && key in before && key in after
    && if before[key].status == Review then
         IsReviewed(config, key, comments, gitlab, before[key], after[key], l0, l1, headCommit, outcome)
       else IsRoutedEnd(config, key, comments, before, after, l0, l1, outcome)
  }

  ghost predicate IsRoutedEnd(
    config: Config, key: string, comments: seq<Comment>, before: map<string, Issue>, after: map<string, Issue>,
    l0: Log, l1: Log, outcome: CycleOutcome)
  {
    exists prepared, lm, route ::
      && IsPrepared(config, key, comments, before, prepared, l0, lm, route)
      && key in after
      && match route
         case Finish(o) => o == outcome && after == prepared && l1 == lm
         case Continue(thread) => IsImplemented(config, key, thread, after[key], lm, l1, outcome)
  }

  /** Why processing fails when no outside call throws. */
  ghost predicate GaveUp(
    config: Config, key: string, before: Issue, l0: Log, l1: Log, headCommit: nat)
  {
    if before.status == Review then GaveUpReviewing(config, l0, l1, headCommit)
    else GaveUpImplementing(config, l0, l1) || GaveUpDecomposing(config, key, before.source, l1)
  }

  /** Processing returned, with nothing thrown; or it threw what an outside call threw last; or it gave up. */
  ghost predicate IsProcessedAs(
    config: Config, key: string, comments: seq<Comment>, gitlab: GitLab, before: map<string, Issue>,
    mid: map<string, Issue>, l0: Log, l1: Log, headCommit: nat, thrown0: seq<Error>, thrown: seq<Error>,
    processed: Result<CycleOutcome>)
  {
    && key in before && key in mid
    && match processed
       case Ok(outcome) =>
         && thrown == thrown0
         && IsEnd(config, key, comments, gitlab, before, mid, l0, l1, headCommit, outcome)
       case Err(e) =>
         && thrown0 <= thrown
         && if thrown == thrown0 then e == Permanent && GaveUp(config, key, before[key], l0, l1, headCommit)
            else thrown[|thrown| - 1] == e
  }

  ghost predicate IsProcessed(config: Config, run: RunRecord) {
    IsProcessedAs(config, run.key, run.comments, run.gitlab, run.before, run.mid, run.l0, run.l1, run.headCommit,
                  run.thrown0, run.thrownMid, run.processed)
  }

  /** The failure is on record: failed, or, when a call threw on the way, waiting with failure recovery; or what
      the call threw is passed on. */
  ghost predicate IsRecorded(issue: Issue, before: seq<Error>, after: seq<Error>, outcome: Result<CycleOutcome>) {
    match outcome
    case Ok(o) =>
      && o == Processed
      && ((issue.status == Status.Failed && Synced(issue)) || (IsHeld(issue) && after != before))
    case Err(e) => after != before && after != [] && after[|after| - 1] == e
  }

  ghost predicate IsFailureRecorded(run: RunRecord) {
    && run.key in run.after && run.thrownMid <= run.thrown1
    && IsRecorded(run.after[run.key], run.thrownMid, run.thrown1, run.outcome)
  }

  /** What `handleIssue` makes of how processing ended: a temporary exception leaves everything as it is, and
      waits; a permanent one puts the failure on record. */
  ghost predicate IsRun(config: Config, run: RunRecord) {
    && IsProcessed(config, run)
    && match run.processed
       case Ok(o) => run.outcome == Ok(o) && run.after == run.mid && run.thrown1 == run.thrownMid
       case Err(Temporary) => run.outcome == Ok(Waiting) && run.after == run.mid && run.thrown1 == run.thrownMid
       case Err(Permanent) => IsFailureRecorded(run)
  }

  /** Cut short by a temporary exception. */
  predicate IsCutShort(run: RunRecord) {
    run.processed == Err(Temporary)
  }

  /** A run is cut short exactly when the exception that ended its processing is temporary, and then an outside
      call threw it: without one that throws a temporary exception, no run is. */
  lemma CutShortMeansThrown(config: Config, run: RunRecord)
    requires IsRun(config, run)
    ensures IsCutShort(run) ==>
              && |run.thrown0| < |run.thrownMid| && run.thrownMid[|run.thrownMid| - 1] == Temporary
              && run.outcome == Ok(Waiting) && run.after == run.mid
    ensures Temporary !in run.thrownMid[|run.thrown0|..] ==> !IsCutShort(run)
    ensures !IsCutShort(run) && run.processed.Err? ==> IsFailureRecorded(run)
  {
    if IsCutShort(run) {
      var tail := run.thrownMid[|run.thrown0|..];
      assert tail[|tail| - 1] == Temporary;
    }
  }

  // ---------------------------------------------------------------------------------------------
  // What a run may touch
  // ---------------------------------------------------------------------------------------------

  ghost predicate OthersUntouched(before: map<string, Issue>, after: map<string, Issue>, key: string) {
    before.Keys <= after.Keys && forall k :: k in before && k != key ==> after[k] == before[k]
  }

  /** What the issue asks for and the reviews of it are as they were. */
  ghost predicate KeepsTask(before: Issue, after: Issue, key: string) {
    && after.source == before.source
    && TaskIntake.FingerprintsOf(after.comments, key) == TaskIntake.FingerprintsOf(before.comments, key)
  }

  /** Only issue `key` may differ, and neither what it asks for nor any review on record does. */
  ghost predicate OnlyTouches(before: map<string, Issue>, after: map<string, Issue>, key: string) {
    && OthersUntouched(before, after, key)
    && key in before && key in after
    && ReviewsIn(after[key].comments) == ReviewsIn(before[key].comments)
    && KeepsTask(before[key], after[key], key)
  }

  lemma TouchedTwice(first: map<string, Issue>, second: map<string, Issue>, third: map<string, Issue>, key: string)
    requires OnlyTouches(first, second, key) && OnlyTouches(second, third, key)
    ensures OnlyTouches(first, third, key)
  {
  }

  /** What a run adds to the review metadata of its issue: nothing, or one entry with exactly the discussions
      it showed to Codex on top of the metadata it read. */
  ghost predicate Records(
    worker: string, key: string, comments: seq<Comment>, before: Issue, after: Issue, record: Option<ReviewRecord>)
  {
    match record
    case None => ReviewsIn(after.comments) == ReviewsIn(before.comments)
    case Some(rec) =>
      && ShownBy(rec, key, comments) != []
      && ReviewsIn(after.comments) == ReviewsIn(before.comments) +
           [MergeReviewMetadata(worker, key, rec.iid, FindLatestReviewMetadata(comments, key, rec.iid),
                                ShownBy(rec, key, comments), rec.commit)]
  }

  /** How `processIssue` may return: in review, or waiting with a hold or a question of this worker on
      record; the latest AI STATUS comment agrees with the tracker unless nothing happened at all. */
  ghost predicate EndsWell(before: Issue, after: Issue, outcome: CycleOutcome, worker: string) {
    && (after.status == Review || after.status == WaitingForAnswer)
    && (after == before || Synced(after))
    && (after.status == WaitingForAnswer ==> after == before || IsHeld(after) || IsQuestioned(after, worker))
    && (outcome == Waiting ==> after.status == WaitingForAnswer)
    && (outcome == Idle ==> after == before)
  }

  /** How `handleIssue` may return: as above, or failed with the failure on record. */
  ghost predicate Finished(before: Issue, after: Issue, outcome: CycleOutcome, worker: string) {
    EndsWell(before, after, outcome, worker) || (outcome == Processed && after.status == Status.Failed && Synced(after))
  }

  lemma ImplementedEndsWell(
    config: Config, key: string, thread: Option<string>, before: Issue, after: Issue, l0: Log, l1: Log,
    outcome: CycleOutcome)
    requires IsImplemented(config, key, thread, after, l0, l1, outcome)
    ensures EndsWell(before, after, outcome, config.workerId)
    ensures outcome == Processed ==> IsReviewOwnedBy(after.comments, config.workerId)
  {
    if outcome == Processed {
      var issue, iid :| after == Published(issue, config.workerId, BranchNameForIssue(key), iid);
      PublishedIsReviewed(issue, config.workerId, BranchNameForIssue(key), iid);
    }
  }

  lemma ReviewedEndsWell(
    config: Config, key: string, comments: seq<Comment>, gitlab: GitLab, before: Issue, after: Issue, l0: Log, l1: Log,
    headCommit: nat, outcome: CycleOutcome)
    requires before.status == Review
    requires IsReviewed(config, key, comments, gitlab, before, after, l0, l1, headCommit, outcome)
    ensures EndsWell(before, after, outcome, config.workerId)
  {
    var request := RequestOf(config.workerId, key, comments, gitlab).value;
    if IsMergedRequest(request) {
      SyncedAppend(before, StatusComment(config.workerId, Review, None, Some(request.value.url)));
    } else if !IsOpenRequest(request) {
      MovedStatus(before, WaitingForAnswer, config.workerId, Some(ManualHold));
    }
  }

  function CodexBudget(config: Config, status: Status): nat {
    if status == Review then config.maxReviewFixAttempts + 1
    else config.maxFixAttempts + 2 * config.selfReviewMaxFixAttempts + 4
  }

  /** A link the plan asks for, between the right issues. */
  ghost predicate IsPlanLink(link: Link, parent: string, keys: seq<string>, plan: Plan)
    requires |keys| == |plan.subtasks|
  {
    || (link.kind == ParentLink && link.source == parent && link.target in keys)
    || (link.kind == BlockedByLink && exists d, i, j ::
          && d in plan.dependencies && 0 <= i < |keys| && 0 <= j < |keys| && i != j
          && plan.subtasks[i].temporaryId == d.blocked && plan.subtasks[j].temporaryId == d.blocking
          && link.source == keys[i] && link.target == keys[j])
  }

  function Commented(issue: Issue, c: Comment): Issue {
    issue.(comments := issue.comments + [c])
  }

  lemma SyncedAppend(issue: Issue, c: Comment)
    requires c.StatusComment?
    ensures FindLatestStatus(issue.comments + [c]) == Some(c)
  {
    FindLatestAppend(issue.comments, c, IsStatusComment);
  }

  /** In this status, with a comment that says so. */
  function Moved(issue: Issue, status: Status, worker: string, reason: Option<WaitingReason>): Issue {
    Commented(issue.(status := status), StatusComment(worker, status, reason, None))
  }

  lemma MovedStatus(issue: Issue, status: Status, worker: string, reason: Option<WaitingReason>)
    ensures FindLatestStatus(Moved(issue, status, worker, reason).comments) ==
            Some(StatusComment(worker, status, reason, None))
  {
    SyncedAppend(issue, StatusComment(worker, status, reason, None));
  }
}
