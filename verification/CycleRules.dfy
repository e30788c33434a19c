/** src/domain/orchestrator.ts:294-341: what one cycle of a worker may touch, and what it does, given its answers. */
module CycleRules {
  import opened Common
  import opened CommentLog
  import opened TaskTrace
  import opened TaskRules
  import TaskIntake

  // ---------------------------------------------------------------------------------------------
  // What one cycle may touch
  // ---------------------------------------------------------------------------------------------

  /** A run with the leases around it, and what became of their renewal. */
  datatype Handled = Handled(run: RunRecord, heartbeat: Result<()>, result: Result<CycleOutcome>)

  /** An intake review: the issues it left, and how it ended. */
  datatype IntakeLog = IntakeLog(after: map<string, Issue>, result: Result<CycleOutcome>)

  /** What a cycle did: the issues it picked and the runs over them, its intake review, the review metadata it
      left, and the task it reviewed, as Codex was shown it. */
  datatype CycleLog = CycleLog(
    picked: seq<string>,
    runs: seq<Handled>,
    intake: Option<IntakeLog>,
    record: Option<(string, ReviewRecord)>,
    review: Option<(string, TaskIntake.Shown)>)

  function At<T>(entry: Option<(string, T)>, key: string): Option<T> {
    if entry.Some? && entry.value.0 == key then Some(entry.value.1) else None
  }

  /** What one cycle may do to one issue: nothing unless it is selectable; it adds to the review metadata what
      a review-fix cycle showed Codex, and to the reviews of the task one of a version not reviewed last. */
  ghost predicate IsCycleOn(
    worker: string, fingerprint: Fingerprint, key: string, before: Issue, after: Issue,
    record: Option<ReviewRecord>, review: Option<TaskIntake.Shown>)
  {
    && (after == before || IsSelectable(before, worker))
    && Records(worker, key, before.comments, before, after, record)
    && TaskIntake.IsReviewed(before.comments, after.comments, key, fingerprint, review)
  }

  /** One cycle of one worker: only selectable issues are picked, and no other issue changes. */
  ghost predicate IsCycle(
    worker: string, fingerprint: Fingerprint, before: map<string, Issue>, after: map<string, Issue>, log: CycleLog)
  {
    && before.Keys <= after.Keys
    && AreSelectable(log.picked, before, worker)
    && forall k :: k in before ==>
         IsCycleOn(worker, fingerprint, k, before[k], after[k], At(log.record, k), At(log.review, k))
  }

  /** What an intake review may do to one issue: nothing unless it is open, and then people may edit it. */
  ghost predicate IsIntakeOn(
    fingerprint: Fingerprint, key: string, before: Issue, after: Issue, review: Option<TaskIntake.Shown>)
  {
    && (after == before || (before.status == Open && after.status == Open))
    && ReviewsIn(after.comments) == ReviewsIn(before.comments)
    && TaskIntake.IsReviewed(before.comments, after.comments, key, fingerprint, review)
  }

  ghost predicate IsIntake(
    fingerprint: Fingerprint, before: map<string, Issue>, after: map<string, Issue>,
    review: Option<(string, TaskIntake.Shown)>)
  {
    && after.Keys == before.Keys
    && forall k :: k in before ==> IsIntakeOn(fingerprint, k, before[k], after[k], At(review, k))
  }

  ghost predicate AreSelectable(picked: seq<string>, issues: map<string, Issue>, worker: string) {
    forall k :: k in picked ==> k in issues && IsSelectable(issues[k], worker)
  }

  /** The runs are over the issues picked, in order. */
  ghost predicate ArePicked(picked: seq<string>, runs: seq<Handled>) {
    |picked| == |runs| && forall i :: 0 <= i < |runs| ==> runs[i].run.key == picked[i]
  }

  lemma IntakeIsCycle(
    worker: string, fingerprint: Fingerprint, before: map<string, Issue>, after: map<string, Issue>,
    picked: seq<string>, runs: seq<Handled>, intake: Option<IntakeLog>, review: Option<(string, TaskIntake.Shown)>)
    requires IsIntake(fingerprint, before, after, review) && AreSelectable(picked, before, worker)
    ensures IsCycle(worker, fingerprint, before, after, CycleLog(picked, runs, intake, None, review))
  {
    forall k | k in before
      ensures IsCycleOn(worker, fingerprint, k, before[k], after[k], None, At(review, k))
    {
      assert IsIntakeOn(fingerprint, k, before[k], after[k], At(review, k));
    }
  }

  /** An intake review that left nothing, then a run over the issue. */
  lemma RunIsCycleOn(
    worker: string, fingerprint: Fingerprint, key: string, before: Issue, mid: Issue, after: Issue,
    record: Option<ReviewRecord>)
    requires IsIntakeOn(fingerprint, key, before, mid, None) && IsSelectable(mid, worker)
    requires Records(worker, key, mid.comments, mid, after, record) && KeepsTask(mid, after, key)
    ensures IsCycleOn(worker, fingerprint, key, before, after, record, None)
  {
    if record.Some? {
      LatestReviewOfLog(before.comments, key, record.value.iid);
      LatestReviewOfLog(mid.comments, key, record.value.iid);
    }
  }

  /** An intake review that left nothing, if any, and then the run over one selected issue make a cycle. */
  lemma RunIsCycle(
    worker: string, fingerprint: Fingerprint, before: map<string, Issue>, mid: map<string, Issue>,
    after: map<string, Issue>, key: string, picked: seq<string>, runs: seq<Handled>, intake: Option<IntakeLog>,
    record: Option<ReviewRecord>)
    requires IsIntake(fingerprint, before, mid, None) && AreSelectable(picked, before, worker)
    requires key in mid && IsSelectable(mid[key], worker) && OthersUntouched(mid, after, key)
    requires Records(worker, key, mid[key].comments, mid[key], after[key], record)
    requires KeepsTask(mid[key], after[key], key)
    ensures IsCycle(worker, fingerprint, before, after,
                    CycleLog(picked, runs, intake, if record.Some? then Some((key, record.value)) else None, None))
  {
    var entry := if record.Some? then Some((key, record.value)) else None;
    forall k | k in before
      ensures IsCycleOn(worker, fingerprint, k, before[k], after[k], At(entry, k), None)
    {
      assert IsIntakeOn(fingerprint, k, before[k], mid[k], None);
      if k == key {
        assert At(entry, k) == record;
        RunIsCycleOn(worker, fingerprint, k, before[k], mid[k], after[k], record);
      } else {
        assert At(entry, k) == None && after[k] == mid[k];
      }
    }
  }

  // ---------------------------------------------------------------------------------------------
  // What one cycle does
  // ---------------------------------------------------------------------------------------------

  /** What an intake review is answered: the open issues listed, the lease, whether the last read is still
      eligible, whether nobody edits meanwhile, and how Codex, the comment and the lease's renewal fare. */
  datatype IntakeAnswers = IntakeAnswers(
    listing: Result<seq<string>>,
    lease: Result<bool>,
    eligible: bool,
    quiet: bool,
    codex: Result<()>,
    post: Result<()>,
    heartbeat: Result<()>)

  /** What a cycle is answered. */
  datatype CycleAnswers = CycleAnswers(
    owned: Result<seq<string>>,
    ownedLease: Result<bool>,
    intake: IntakeAnswers,
    listing: Result<seq<string>>,
    eligible: string -> bool,   // whether an issue's dependencies are done
    lease: Result<bool>,
    gitlab: GitLab)

  /** The tracker lists issues it has, in the status it was asked for. */
  ghost predicate AreListings(a: CycleAnswers, issues: map<string, Issue>) {
    && (a.owned.Ok? ==> forall k :: k in a.owned.value ==> k in issues && IsOwnedStatus(issues[k].status))
    && IsOpenListing(a.intake.listing, issues)
    && (a.listing.Ok? ==> forall k :: k in a.listing.value ==> k in issues)
  }

  ghost predicate IsOpenListing(listing: Result<seq<string>>, issues: map<string, Issue>) {
    listing.Ok? ==> forall k :: k in listing.value ==> k in issues && issues[k].status == Open
  }

  /** The first of the listing that this worker owns, if it owns one. */
  ghost predicate IsFirstOwnable(listing: seq<string>, issues: map<string, Issue>, worker: string, k: Option<string>)
    requires forall x :: x in listing ==> x in issues
  {
    match k
    case None => forall x :: x in listing ==> !IsOwnable(issues[x], worker)
    case Some(key) =>
      exists i :: 0 <= i < |listing| && listing[i] == key && IsOwnable(issues[key], worker)
                  && forall j :: 0 <= j < i ==> !IsOwnable(issues[listing[j]], worker)
  }

  /** The first of the listing that can be picked, if one can. */
  ghost predicate IsFirstPick(
    listing: seq<string>, issues: map<string, Issue>, eligible: string -> bool, worker: string, k: Option<string>)
    requires forall x :: x in listing ==> x in issues
  {
    match k
    case None => forall x :: x in listing ==> !CanPick(issues[x], eligible(x), worker)
    case Some(key) =>
      exists i :: 0 <= i < |listing| && listing[i] == key && CanPick(issues[key], eligible(key), worker)
                  && forall j :: 0 <= j < i ==> !CanPick(issues[listing[j]], eligible(listing[j]), worker)
  }

  predicate NeedsReview(issue: Issue, key: string, fingerprint: Fingerprint) {
    TaskIntake.FindLatestTaskIntakeReview(issue.comments, key) != Some(fingerprint(issue.source, issue.comments))
  }

  /** The first of the listing whose latest review saw another version, if there is one. */
  ghost predicate IsFirstToReview(
    listing: seq<string>, issues: map<string, Issue>, fingerprint: Fingerprint, k: Option<string>)
    requires forall x :: x in listing ==> x in issues
  {
    match k
    case None => forall x :: x in listing ==> !NeedsReview(issues[x], x, fingerprint)
    case Some(key) =>
      exists i :: 0 <= i < |listing| && listing[i] == key && NeedsReview(issues[key], key, fingerprint)
                  && forall j :: 0 <= j < i ==> !NeedsReview(issues[listing[j]], listing[j], fingerprint)
  }

  /** What comes before the work itself: a lease that could not be asked for, or was refused. */
  ghost predicate IsTurnedAway(lease: Result<bool>, r: Result<CycleOutcome>) {
    match lease
    case Err(e) => r == Err(e)
    case Ok(granted) => !granted && r == Ok(Waiting)
  }

  /** What an intake review of the picked issue comes to, when nobody edits meanwhile. */
  function ReviewResult(a: IntakeAnswers): Result<CycleOutcome> {
    if a.codex.Err? then Err(a.codex.error)
    else if a.eligible && a.post.Err? then Err(a.post.error)
    else if a.heartbeat.Err? then Err(a.heartbeat.error)
    else Ok(if a.eligible then Processed else Idle)
  }

  /** The picked issue, if there is one, is reviewed, if its lease is granted. */
  ghost predicate IsIntakeOf(
    a: IntakeAnswers, picked: Option<string>, before: map<string, Issue>, after: map<string, Issue>,
    review: Option<(string, TaskIntake.Shown)>, r: Result<CycleOutcome>)
  {
    match picked
    case None => r == Ok(Idle) && after == before && review.None?
    case Some(key) =>
      if a.lease != Ok(true) then IsTurnedAway(a.lease, r) && after == before && review.None?
      else
        && key in before
        && (r == Ok(Processed) ==> a.eligible && review.Some? && review.value.0 == key)
        && (r == Ok(Idle) ==> review.None?)
        && r != Ok(Waiting)
        && (a.quiet ==> r == ReviewResult(a))
        && (a.quiet && r == Ok(Processed) ==>
              review.value.1 == TaskIntake.Shown(before[key].source, before[key].comments))
  }

  /** The first issue to review is reviewed, if there is one and its lease is granted. */
  ghost predicate IsIntakeOutcome(
    fingerprint: Fingerprint, a: IntakeAnswers, before: map<string, Issue>, after: map<string, Issue>,
    review: Option<(string, TaskIntake.Shown)>, r: Result<CycleOutcome>)
    requires IsOpenListing(a.listing, before)
  {
    if a.listing.Err? then r == Err(a.listing.error) && after == before && review.None?
    else
      exists k :: IsFirstToReview(a.listing.value, before, fingerprint, k) && IsIntakeOf(a, k, before, after, review, r)
  }

  /** The run is one over this issue, from this state to that, by the comments as they were. */
  ghost predicate IsHandled(
    config: Config, h: Handled, key: string, gitlab: GitLab, before: map<string, Issue>, after: map<string, Issue>)
  {
    && IsRun(config, h.run)
    && h.run.key == key && h.run.gitlab == gitlab && h.run.before == before && h.run.after == after
    && key in before && h.run.comments == before[key].comments
    && h.result == if h.run.outcome.Ok? && h.heartbeat.Err? then Err(h.heartbeat.error) else h.run.outcome
  }

  /** The picked issue, if there is one, is processed, if its leases are granted. */
  ghost predicate IsRunOf(
    config: Config, a: CycleAnswers, picked: Option<string>, before: map<string, Issue>, after: map<string, Issue>,
    runs: seq<Handled>, r: Result<CycleOutcome>)
  {
    match picked
    case None => r == Ok(Idle) && runs == [] && after == before
    case Some(key) =>
      if a.lease != Ok(true) then IsTurnedAway(a.lease, r) && runs == [] && after == before
      else |runs| == 1 && IsHandled(config, runs[0], key, a.gitlab, before, after) && r == runs[0].result
  }

  /** The first issue that can be picked is processed, if there is one and its leases are granted, and the cycle
      ends as that run does; idle means there is none. */
  ghost predicate IsPickOutcome(
    config: Config, a: CycleAnswers, before: map<string, Issue>, after: map<string, Issue>, runs: seq<Handled>,
    r: Result<CycleOutcome>)
    requires a.listing.Ok? ==> forall k :: k in a.listing.value ==> k in before
  {
    if a.listing.Err? then r == Err(a.listing.error) && runs == [] && after == before
    else
      exists k :: IsFirstPick(a.listing.value, before, a.eligible, config.workerId, k)
                  && IsRunOf(config, a, k, before, after, runs, r)
  }

  /** An intake review, when it is on; and when that is idle, the next task. */
  ghost predicate IsNextOutcome(
    config: Config, fingerprint: Fingerprint, a: CycleAnswers, before: map<string, Issue>, after: map<string, Issue>,
    runs: seq<Handled>, intake: Option<IntakeLog>, review: Option<(string, TaskIntake.Shown)>, r: Result<CycleOutcome>)
    requires AreListings(a, before)
  {
    if !config.intakeReviewEnabled then intake.None? && review.None? && IsPickOutcome(config, a, before, after, runs, r)
    else
      && intake.Some?
      && IsIntakeOutcome(fingerprint, a.intake, before, intake.value.after, review, intake.value.result)
      && if intake.value.result != Ok(Idle) then r == intake.value.result && after == intake.value.after && runs == []
         else intake.value.after.Keys == before.Keys && IsPickOutcome(config, a, intake.value.after, after, runs, r)
  }

  /** The owned issue, if there is one, is processed before anything else, if its leases are granted, and the
      cycle ends as that run does; unless it is an idle review, or there is none: then the rest follows. */
  ghost predicate IsOwnedOutcome(
    config: Config, fingerprint: Fingerprint, a: CycleAnswers, owned: Option<string>, before: map<string, Issue>,
    after: map<string, Issue>, log: CycleLog, r: Result<CycleOutcome>)
    requires AreListings(a, before)
  {
    match owned
    case None => IsNextOutcome(config, fingerprint, a, before, after, log.runs, log.intake, log.review, r)
    case Some(key) =>
      if a.ownedLease != Ok(true) then IsTurnedAway(a.ownedLease, r) && log.runs == [] && after == before
      else
        && key in before && log.runs != []
        && if log.runs[0].result == Ok(Idle) && before[key].status == Review then
             && IsHandled(config, log.runs[0], key, a.gitlab, before, before)
             && IsNextOutcome(config, fingerprint, a, before, after, log.runs[1..], log.intake, log.review, r)
           else
             && IsHandled(config, log.runs[0], key, a.gitlab, before, after)
             && |log.runs| == 1 && r == log.runs[0].result
  }

  /** The first issue this worker owns comes first. */
  ghost predicate IsCycleOutcome(
    config: Config, fingerprint: Fingerprint, a: CycleAnswers, before: map<string, Issue>, after: map<string, Issue>,
    log: CycleLog, r: Result<CycleOutcome>)
    requires AreListings(a, before)
  {
    if a.owned.Err? then r == Err(a.owned.error) && log.runs == [] && after == before
    else
      exists k :: IsFirstOwnable(a.owned.value, before, config.workerId, k)
                  && IsOwnedOutcome(config, fingerprint, a, k, before, after, log, r)
  }
}
