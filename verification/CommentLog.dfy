/** The structured comments of an issue (src/integrations/tracker/commentProtocol.ts) as values. An
    issue's log is append-only; its order stands for the order of creation times. */
module CommentLog {
  import opened Common
  import opened ReviewFeedback

  datatype Status = Open | InProgress | WaitingForAnswer | Review | Failed | Closed

  datatype WaitingReason = Clarification | FailureRecovery | ManualHold

  datatype RecommendedMode = Implement | AskClarification | Decompose | Human

  datatype Decision = Decision(confidence: int, mode: RecommendedMode, missingContext: seq<string>)

  datatype Command = Resume | Skip | Cancel

  /** What the tracker keeps of a comment somebody wrote. */
  datatype Remark = Remark(id: string, text: string, createdAt: string, author: Option<string>)

  datatype Comment =
    | StatusComment(worker: string, state: Status, reason: Option<WaitingReason>, awaitingTestingOf: Option<string>)
    | QuestionComment(worker: string, thread: Option<string>)
    | MergeRequestComment(worker: string, branch: string, iid: Option<int>)
    | ReviewComment(worker: string, metadata: ReviewMetadata)
    | AnalysisComment(worker: string, issueKey: string, decision: Decision)
    | DecompositionComment(worker: string, parentKey: string, createdKeys: seq<string>, warnings: nat)
    | TaskReviewComment(worker: string, issueKey: string, fingerprint: string)
    | PlainComment(isSystem: bool, command: Option<Command>, remark: Remark)  // without metadata

  /** What a task asks for. */
  datatype Source = Source(
    title: string,
    description: string,
    queue: Option<string>,
    tags: Option<seq<string>>,
    priority: Option<string>,
    deadline: Option<string>,
    components: Option<seq<string>>)

  datatype Issue = Issue(status: Status, source: Source, comments: seq<Comment>)

  /** The last comment satisfying `p`: the shape of every `findLatest...` function. */
  function FindLatest(log: seq<Comment>, p: Comment -> bool): (r: Option<Comment>)
    ensures r.Some? ==> r.value in log && p(r.value)
  {
    if log == [] then None
    else
      var last := log[|log| - 1];
      assert log == log[..|log| - 1] + [last];
      if p(last) then Some(last) else FindLatest(log[..|log| - 1], p)
  }

  lemma FindLatestAppend(log: seq<Comment>, c: Comment, p: Comment -> bool)
    ensures FindLatest(log + [c], p) == if p(c) then Some(c) else FindLatest(log, p)
  {
    assert (log + [c])[..|log|] == log;
  }

  /** Comment `i` is the last that satisfies `p`. */
  ghost predicate IsLast(log: seq<Comment>, p: Comment -> bool, i: int) {
    0 <= i < |log| && p(log[i]) && forall j :: i < j < |log| ==> !p(log[j])
  }

  lemma {:induction false} FindLatestIsLast(log: seq<Comment>, p: Comment -> bool)
    ensures FindLatest(log, p).None? ==> forall c :: c in log ==> !p(c)
    ensures FindLatest(log, p).Some? ==> exists i :: IsLast(log, p, i) && log[i] == FindLatest(log, p).value
  {
    if log != [] {
      var n := |log| - 1;
      var init, last := log[..n], log[n];
      assert log == init + [last];
      if p(last) {
        assert IsLast(log, p, n);
      } else {
        FindLatestIsLast(init, p);
        if FindLatest(init, p).Some? {
          var i :| IsLast(init, p, i) && init[i] == FindLatest(init, p).value;
          assert IsLast(log, p, i);
        }
      }
    }
  }

  predicate IsStatusComment(c: Comment) {
    c.StatusComment?
  }

  predicate IsHumanCommand(c: Comment) {
    c.PlainComment? && !c.isSystem && c.command.Some?
  }

  function ReviewOf(key: string, iid: int): Comment -> bool {
    (c: Comment) => c.ReviewComment? && c.metadata.issueKey == key && c.metadata.mergeRequestIid == iid
  }

  function AnalysisOf(key: string): Comment -> bool {
    (c: Comment) => c.AnalysisComment? && c.issueKey == key
  }

  function DecompositionOf(key: string): Comment -> bool {
    (c: Comment) => c.DecompositionComment? && c.parentKey == key
  }

  function FindLatestStatus(log: seq<Comment>): Option<Comment> {
    FindLatest(log, IsStatusComment)
  }

  function FindLatestReviewMetadata(log: seq<Comment>, key: string, iid: int): Option<ReviewMetadata> {
    match FindLatest(log, ReviewOf(key, iid))
    case Some(c) => Some(c.metadata)
    case None => None
  }

  function FindLatestAnalysisDecision(log: seq<Comment>, key: string): Option<Decision> {
    match FindLatest(log, AnalysisOf(key))
    case Some(c) => Some(c.decision)
    case None => None
  }

  function FindLatestDecomposition(log: seq<Comment>, key: string): Option<Comment> {
    FindLatest(log, DecompositionOf(key))
  }

  /** The issues the latest decomposition of a parent created. */
  function SubtasksOf(log: seq<Comment>, key: string): seq<string> {
    match FindLatestDecomposition(log, key)
    case Some(c) => c.createdKeys
    case None => []
  }

  predicate HasSubtasks(log: seq<Comment>, key: string) {
    SubtasksOf(log, key) != []
  }

  /** The review metadata on record, oldest first. */
  function ReviewsIn(log: seq<Comment>): seq<ReviewMetadata> {
    if log == [] then []
    else
      var init, last := ReviewsIn(log[..|log| - 1]), log[|log| - 1];
      if last.ReviewComment? then init + [last.metadata] else init
  }

  lemma ReviewsAppend(log: seq<Comment>, c: Comment)
    ensures ReviewsIn(log + [c]) == if c.ReviewComment? then ReviewsIn(log) + [c.metadata] else ReviewsIn(log)
  {
    assert (log + [c])[..|log|] == log;
  }

  function LatestReview(reviews: seq<ReviewMetadata>, key: string, iid: int): Option<ReviewMetadata> {
    if reviews == [] then None
    else
      var last := reviews[|reviews| - 1];
      if last.issueKey == key && last.mergeRequestIid == iid then Some(last)
      else LatestReview(reviews[..|reviews| - 1], key, iid)
  }

  /** What a log says of a merge request depends on the review metadata in it alone. */
  lemma {:induction false} LatestReviewOfLog(log: seq<Comment>, key: string, iid: int)
    ensures FindLatestReviewMetadata(log, key, iid) == LatestReview(ReviewsIn(log), key, iid)
  {
    if log != [] {
      LatestReviewOfLog(log[..|log| - 1], key, iid);
    }
  }

  // ---------------------------------------------------------------------------------------------
  // Resuming after a question
  // ---------------------------------------------------------------------------------------------

  /** The comments after the latest question, with the question itself first; empty without one. */
  function FromLatestQuestion(log: seq<Comment>): (r: seq<Comment>)
    ensures r != [] ==> r[0].QuestionComment?
  {
    if log == [] then []
    else
      var last := log[|log| - 1];
      if last.QuestionComment? then [last]
      else
        var rest := FromLatestQuestion(log[..|log| - 1]);
        if rest == [] then [] else rest + [last]
  }

  function LatestCommand(log: seq<Comment>): Option<Command> {
    match FindLatest(log, IsHumanCommand)
    case Some(c) => c.command
    case None => None
  }

  datatype ResumeContext = ResumeContext(thread: Option<string>)

  /** src/domain/orchestrator.ts:1647-1696. */
  function ResolveResumeContext(log: seq<Comment>, worker: string): Option<ResumeContext> {
    var tail := FromLatestQuestion(log);
    if tail == [] || tail[0].worker != worker then None
    else if LatestCommand(tail[1..]) == Some(Resume) then Some(ResumeContext(tail[0].thread))
    else None
  }

  // ---------------------------------------------------------------------------------------------
  // Which issues a cycle selects
  // ---------------------------------------------------------------------------------------------

  predicate IsActive(s: Status) {
    s == InProgress || s == WaitingForAnswer
  }

  predicate IsOwnedStatus(s: Status) {
    IsActive(s) || s == Review
  }

  predicate IsProcessable(s: Status) {
    s == Open || IsOwnedStatus(s)
  }

  predicate IsResumableStatus(latest: Option<Comment>)
    requires latest.Some? ==> latest.value.StatusComment?
  {
    && latest.Some?
    && IsActive(latest.value.state)
    && latest.value.reason != Some(FailureRecovery)
    && latest.value.reason != Some(ManualHold)
  }

  predicate IsResumableBy(log: seq<Comment>, worker: string) {
    var latest := FindLatestStatus(log);
    latest.Some? && latest.value.worker == worker && IsResumableStatus(latest)
  }

  predicate IsBusyByAnotherWorker(log: seq<Comment>, worker: string) {
    var latest := FindLatestStatus(log);
    latest.Some? && latest.value.worker != worker && IsResumableStatus(latest)
  }

  predicate IsReviewOwnedBy(log: seq<Comment>, worker: string) {
    exists c :: c in log && IsReviewMark(c, worker)
  }

  predicate IsReviewMark(c: Comment, worker: string) {
    match c
    case MergeRequestComment(w, _, _) => w == worker
    case StatusComment(w, s, _, _) => w == worker && s == Review
    case ReviewComment(w, _) => w == worker
    case _ => false
  }

  /** Comment `i` is the latest AI STATUS comment, says the issue is under way, and leaves it to no person. */
  ghost predicate IsUnderWayAt(log: seq<Comment>, i: int) {
    && 0 <= i < |log| && log[i].StatusComment?
    && (forall j :: i < j < |log| ==> !log[j].StatusComment?)
    && (log[i].state == InProgress || log[i].state == WaitingForAnswer)
    && (log[i].reason == None || log[i].reason == Some(Clarification))
  }

  /** An issue is resumable by the worker, and busy for every other, whose status comment is the latest, when that
      says the issue is under way. */
  lemma ResumableMeans(log: seq<Comment>, worker: string)
    ensures IsResumableBy(log, worker) <==> exists i :: IsUnderWayAt(log, i) && log[i].worker == worker
    ensures IsBusyByAnotherWorker(log, worker) <==> exists i :: IsUnderWayAt(log, i) && log[i].worker != worker
  {
    FindLatestIsLast(log, IsStatusComment);
    if FindLatestStatus(log).None? {
      assert forall i :: 0 <= i < |log| ==> log[i] in log && !log[i].StatusComment?;
    } else {
      var i :| IsLast(log, IsStatusComment, i) && log[i] == FindLatestStatus(log).value;
      assert forall k :: 0 <= k < |log| && k != i && IsUnderWayAt(log, k) ==> false;
      match log[i].reason {
        case None => assert IsResumableStatus(Some(log[i])) <==> IsUnderWayAt(log, i);
        case Some(Clarification) => assert IsResumableStatus(Some(log[i])) <==> IsUnderWayAt(log, i);
        case Some(FailureRecovery) => assert !IsResumableStatus(Some(log[i])) && !IsUnderWayAt(log, i);
        case Some(ManualHold) => assert !IsResumableStatus(Some(log[i])) && !IsUnderWayAt(log, i);
      }
    }
  }

  /** A review belongs to every worker that ever recorded its merge request, a status of review, or a review fix. */
  lemma ReviewOwnedMeans(log: seq<Comment>, worker: string)
    ensures IsReviewOwnedBy(log, worker) <==>
            || (exists branch, iid :: MergeRequestComment(worker, branch, iid) in log)
            || (exists reason, url :: StatusComment(worker, Review, reason, url) in log)
            || (exists metadata :: ReviewComment(worker, metadata) in log)
  {
    if IsReviewOwnedBy(log, worker) {
      var c :| c in log && IsReviewMark(c, worker);
      assert c.MergeRequestComment? ==> c == MergeRequestComment(worker, c.branch, c.iid);
      assert c.StatusComment? ==> c == StatusComment(worker, Review, c.reason, c.awaitingTestingOf);
      assert c.ReviewComment? ==> c == ReviewComment(worker, c.metadata);
    } else {
      assert forall c :: c in log ==> !IsReviewMark(c, worker);
    }
  }

  /** The latest AI STATUS comment says what the tracker says. */
  predicate Synced(issue: Issue) {
    var latest := FindLatestStatus(issue.comments);
    latest.Some? && latest.value.state == issue.status
  }

  /** Left to a person: waiting, with a hold or a failed automation as the latest reason. */
  predicate IsHeld(issue: Issue) {
    var latest := FindLatestStatus(issue.comments);
    && issue.status == WaitingForAnswer
    && latest.Some?
    && latest.value.state == WaitingForAnswer
    && (latest.value.reason == Some(ManualHold) || latest.value.reason == Some(FailureRecovery))
  }

  /** Waiting on a question of `worker`: the latest status says so, and a later `/resume` will find it. */
  predicate IsQuestioned(issue: Issue, worker: string) {
    var latest := FindLatestStatus(issue.comments);
    var tail := FromLatestQuestion(issue.comments);
    && issue.status == WaitingForAnswer
    && latest == Some(StatusComment(worker, WaitingForAnswer, Some(Clarification), None))
    && tail != [] && tail[0].worker == worker
  }

  lemma FromLatestQuestionAppend(log: seq<Comment>, c: Comment)
    ensures FromLatestQuestion(log + [c]) ==
            if c.QuestionComment? then [c]
            else if FromLatestQuestion(log) == [] then [] else FromLatestQuestion(log) + [c]
  {
    assert (log + [c])[..|log|] == log;
  }

  /** What one more comment does: a question starts over, a `/resume` by anybody resumes on the latest question if
      this worker asked it, any other command ends that, and nothing else matters. */
  lemma CommandDecides(log: seq<Comment>, worker: string, c: Comment)
    ensures var context := ResolveResumeContext(log + [c], worker);
            var tail := FromLatestQuestion(log);
            if c.QuestionComment? then context == None
            else if !IsHumanCommand(c) then context == ResolveResumeContext(log, worker)
            else if c.command == Some(Resume) && tail != [] && tail[0].worker == worker then
              context == Some(ResumeContext(tail[0].thread))
            else context == None
  {
    var tail := FromLatestQuestion(log);
    FromLatestQuestionAppend(log, c);
    if tail != [] && !c.QuestionComment? {
      assert (tail + [c])[1..] == tail[1..] + [c];
      FindLatestAppend(tail[1..], c, IsHumanCommand);
    }
  }

  /** A `/resume` on a questioned issue resumes it on the thread of the question. */
  lemma ResumeFindsTheQuestion(issue: Issue, worker: string, remark: Remark)
    requires IsQuestioned(issue, worker)
    ensures var log := issue.comments + [PlainComment(false, Some(Resume), remark)];
            && ResolveResumeContext(log, worker).Some?
            && ResolveResumeContext(log, worker).value.thread == FromLatestQuestion(issue.comments)[0].thread
            && IsResumableBy(log, worker)
  {
    var c := PlainComment(false, Some(Resume), remark);
    var tail := FromLatestQuestion(issue.comments);
    FromLatestQuestionAppend(issue.comments, c);
    assert (tail + [c])[1..] == tail[1..] + [c];
    FindLatestAppend(tail[1..], c, IsHumanCommand);
    FindLatestAppend(issue.comments, c, IsStatusComment);
  }
}
