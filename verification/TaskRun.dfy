/** src/domain/orchestrator.ts: one worker processing issues. The tracker, the checkout and GitLab are the
    fields of the class; whatever Codex, a gate, GitLab or the network answers is an arbitrary value. */
module TaskRun {
  import opened Common
  import opened Text
  import opened CommentLog
  import opened ReviewFeedback
  import opened Decomposition
  import opened QualityGates
  import opened TaskTrace
  import opened TaskRules
  import opened CycleRules
  import TaskIntake

  /** The trace ends with this validation. */
  ghost predicate Reflects(log: Log, v: Validation, rules: Rules) {
    && log.EndsWithValidation()
    && log.Last().changed == v.changed
    && (IsValidationSuccessful(v) <==> IsSuccess(log.Last(), rules))
  }

  /** One validation of the tree was added. */
  ghost predicate WasValidated(l0: Log, l1: Log, tree: Tree, changed: bool, rules: Rules) {
    exists verdict :: l1 == Extended(l0, Validated(tree, changed, verdict), rules)
  }

  class WorkerOrchestrator {
    const config: Config
    const fingerprint: Fingerprint

    var issues: map<string, Issue>  // the tracker
    var links: seq<Link>
    var workTree: Tree              // the checkout: uncommitted content, head commit and base branch
    var head: Tree
    var headCommit: nat
    var base: Tree
    var remote: Tree                // the pushed branch
    var replies: seq<Reply>         // to discussions in GitLab
    ghost var asked: seq<Link>      // the links the tracker was asked for
    ghost var log: Log              // what the worker did
    ghost var thrown: seq<Error>    // what outside calls threw

    constructor (config: Config, fingerprint: Fingerprint, issues: map<string, Issue>)
      ensures this.config == config && this.fingerprint == fingerprint
      ensures this.issues == issues && links == [] && replies == [] && asked == [] && thrown == []
      ensures log.events == [] && IsBacked()
    {
      this.config, this.fingerprint, this.issues, links := config, fingerprint, issues, [];
      workTree, head, headCommit, base, remote, replies := 0, 0, 0, 0, 0, [];
      log, asked, thrown := Log([], NOTHING_YET), [], [];
    }

    /** The log carries its summary, and every push in it was backed. */
    ghost predicate IsBacked()
      reads this`log
    {
      Carries(log, config.rules) && log.sum.backed
    }

    // -------------------------------------------------------------------------------------------
    // Calls into the outside world
    // -------------------------------------------------------------------------------------------

    /** A call answers this, or throws it. */
    method Answer<T>(answer: Result<T>) returns (r: Result<T>)
      modifies this`thrown
      ensures r == answer && PassesOn(old(thrown), thrown, r)
    {
      r := answer;
      thrown := thrown + if r.Err? then [r.error] else [];
    }

    /** Any call that only asks: it answers anything, or throws. */
    method Ask<T(0)>() returns (r: Result<T>)
      modifies this`thrown
      ensures PassesOn(old(thrown), thrown, r)
    {
      r := *;
      r := Answer(r);
    }

    /** A failing call may still have reached the tracker. */
    method Transition(key: string, status: Status) returns (r: Result<()>)
      requires key in issues
      modifies this`issues, this`thrown
      ensures PassesOn(old(thrown), thrown, r)
      ensures OnlyTouches(old(issues), issues, key) && issues.Keys == old(issues.Keys)
      ensures issues[key] == old(issues[key]) || issues[key] == old(issues[key]).(status := status)
      ensures r.Ok? ==> issues[key] == old(issues[key]).(status := status)
    {
      r := Ask();
      var landed: bool := *;
      if r.Ok? || landed {
        issues := issues[key := issues[key].(status := status)];
      }
    }

    method AddComment(key: string, comment: Comment) returns (r: Result<()>)
      requires key in issues
      modifies this`issues, this`thrown
      ensures PassesOn(old(thrown), thrown, r)
      ensures OthersUntouched(old(issues), issues, key) && issues.Keys == old(issues.Keys)
      ensures issues[key] == old(issues[key]) || issues[key] == Commented(old(issues[key]), comment)
      ensures r.Ok? ==> issues[key] == Commented(old(issues[key]), comment)
      ensures !comment.ReviewComment? && !comment.TaskReviewComment? ==> OnlyTouches(old(issues), issues, key)
    {
      ReviewsAppend(issues[key].comments, comment);
      TaskIntake.FingerprintsAppend(issues[key].comments, comment, key);
      r := Ask();
      var landed: bool := *;
      if r.Ok? || landed {
        issues := issues[key := Commented(issues[key], comment)];
      }
    }

    /** A transition followed by the status comment that records it. */
    method MoveTo(key: string, status: Status, reason: Option<WaitingReason>) returns (r: Result<()>)
      requires key in issues
      modifies this`issues, this`thrown
      ensures PassesOn(old(thrown), thrown, r)
      ensures OnlyTouches(old(issues), issues, key) && issues.Keys == old(issues.Keys)
      ensures r.Ok? ==> issues[key] == Moved(old(issues[key]), status, config.workerId, reason)
    {
      var _ :- Transition(key, status);
      label moved:
      r := AddComment(key, StatusComment(config.workerId, status, reason, None));
      TouchedTwice(old(issues), old@moved(issues), issues, key);
    }

    ghost method Record(e: Event)
      modifies this`log
      requires IsBacked()
      requires e.Pushed? ==> Backs(log.sum, e)
      ensures log == Extended(old(log), e, config.rules)
      ensures IsBacked()
    {
      SummaryExtends(log.events, e, config.rules);
      assert Summarise(log.events, config.rules) == log.sum;
      log := Extended(log, e, config.rules);
    }

    ghost predicate IsInProgress(key: string)
      reads this`issues
    {
      key in issues && issues[key].status == InProgress
    }

    /** A Codex run that may edit or commit on the branch, whether or not the call returns. */
    method RunCodex(key: string) returns (r: Result<Execution>)
      requires IsBacked() && IsInProgress(key)
      modifies this`workTree, this`head, this`headCommit, this`log, this`thrown
      ensures IsBacked() && PassesOn(old(thrown), thrown, r)
      ensures log == Extended(old(log), CodexRan(workTree, if r.Ok? then Some(r.value) else None), config.rules)
    {
      workTree, head, headCommit := *, *, *;
      r := Ask();
      Record(CodexRan(workTree, if r.Ok? then Some(r.value) else None));
    }

    /** src/domain/orchestrator.ts:2054-2077: one run, and a fresh one exactly when a resumed session fails. */
    method RunResumeOrInitial(key: string, thread: Option<string>) returns (r: Result<Execution>)
      requires IsBacked() && IsInProgress(key)
      modifies this`workTree, this`head, this`headCommit, this`log, this`thrown
      ensures IsBacked() && PassesOn(old(thrown), thrown, r)
      ensures var n := |old(log).events|;
              && old(log).events <= log.events && n + 1 <= |log.events| <= n + 2
              && log.sum.runs == old(log).sum.runs + (|log.events| - n) && log.sum.reviews == old(log).sum.reviews
              && log.sum.rejections == old(log).sum.rejections
              && (|log.events| == n + 2 ==> thread.Some? && IsFailedResume(log.events[n]))
              && (r.Ok? && thread.Some? && |log.events| == n + 1 ==> !IsFailedResume(log.events[n]))
              && log.events[n].CodexRan? && log.sum.checkout == old(log).sum.checkout
              && (r.Ok? ==> log.Last() == CodexRan(workTree, Some(r.value)))
              && (r.Ok? ==> log.sum.questions == old(log).sum.questions + if r.value.clarification then 1 else 0)
    {
      if thread.None? {
        r := RunCodex(key);
        return;
      }
      var execution :- RunCodex(key);
      if execution.exitCode == 0 || execution.clarification {
        return Ok(execution);
      }
      r := RunCodex(key);
    }

    /** What a self-review says, if it can be read. */
    method RunSelfReview(key: string) returns (r: Result<Option<bool>>)
      requires IsBacked() && IsInProgress(key)
      modifies this`log, this`thrown
      ensures IsBacked() && PassesOn(old(thrown), thrown, r)
      ensures log.EndsWithReview() && log.Last().tree == workTree && log.events == old(log).events + [log.Last()]
      ensures log.sum == old(log).sum.(approved := if r == Ok(Some(true)) then Some(workTree) else None,
                                       reviews := old(log).sum.reviews + 1)
      ensures r.Ok? ==>
                && log.Last().answer.Some?
                && var message := log.Last().answer.value.message;
                   if r.value.Some? then message == SelfReviewMessage(r.value.value) else !message.SelfReviewMessage?
    {
      var execution: Result<Execution> := Ask();
      ghost var answer := if execution.Ok? then Some(execution.value) else None;
      Record(SelfReviewed(workTree, answer));
      match execution
      case Err(e) => r := Err(e);
      case Ok(x) =>
        r := Ok(match x.message case SelfReviewMessage(p) => Some(p) case _ => None);
    }

    function StateOfBranch(): BranchState
      reads this`workTree, this`head, this`base
    {
      if workTree != head then Dirty else if head != base then Ahead else Untouched
    }

    method CheckOut(branch: string) returns (r: Result<()>)
      requires IsBacked()
      modifies this`workTree, this`head, this`headCommit, this`base, this`log, this`thrown
      ensures IsBacked() && PassesOn(old(thrown), thrown, r)
      ensures log == Extended(old(log), CheckedOut(workTree, Checkout(branch, headCommit, StateOfBranch())), config.rules)
    {
      workTree, head, headCommit, base := *, *, *, *;
      Record(CheckedOut(workTree, Checkout(branch, headCommit, StateOfBranch())));
      r := Ask();
    }

    /** `git add -A` and `git commit`: the head becomes the working tree. */
    method Commit() returns (r: Result<()>)
      modifies this`head, this`headCommit, this`thrown
      ensures PassesOn(old(thrown), thrown, r)
      ensures r.Ok? ==> head == workTree && headCommit == old(headCommit) + 1
    {
      r := Ask();
      var landed: bool := *;
      if r.Ok? || landed {
        head, headCommit := workTree, headCommit + 1;
      }
    }

    method Push(branch: string, selfReviewed: bool) returns (r: Result<()>)
      requires IsBacked() && Backs(log.sum, Pushed(branch, head, selfReviewed))
      modifies this`remote, this`log, this`thrown
      ensures IsBacked() && PassesOn(old(thrown), thrown, r)
      ensures log == old(log) || log == Extended(old(log), Pushed(branch, head, selfReviewed), config.rules)
      ensures r.Ok? ==> remote == head && log == Extended(old(log), Pushed(branch, head, selfReviewed), config.rules)
    {
      r := Ask();
      var landed: bool := *;
      if r.Ok? || landed {
        remote := head;
        Record(Pushed(branch, head, selfReviewed));
      }
    }

    // -------------------------------------------------------------------------------------------
    // Validation and the repair loops
    // -------------------------------------------------------------------------------------------

    /** src/domain/orchestrator.ts:2512-2551. */
    method ValidateRepositoryState() returns (r: Result<Validation>)
      requires IsBacked()
      modifies this`log, this`thrown
      ensures IsBacked() && PassesOn(old(thrown), thrown, r)
      ensures r.Err? ==> log == old(log)
      ensures r.Ok? ==>
                && (r.value.changed <==> workTree != head || head != base)
                && WasValidated(old(log), log, workTree, r.value.changed, config.rules)
                && Reflects(log, r.value, config.rules)
    {
      var answers: Verdicts :- Ask();  // git answers, and this is how the gates' commands would
      var verdict := answers.of;
      var changed := workTree != head || head != base;
      ghost var event := Validated(workTree, changed, verdict);
      Record(event);
      assert WasValidated(old(log), log, workTree, changed, config.rules);
      if !changed {
        return Ok(Validation(false, []));
      }
      var results, _ := RunQualityGates(config.rules.gates, verdict, config.rules.threshold);
      assert QualityGatesPassed(results) <==> IsSuccess(event, config.rules);
      r := Ok(Validation(true, results));
    }

    /** One more attempt: Codex fixes, and the result is validated; or it asks, and the issue is paused, on the
        last known thread if `keepsThread` and on that of the run if not. */
    method TryFix(key: string, thread: Option<string>, keepsThread: bool, ghost n: nat, ghost initial: Option<string>)
      returns (r: Result<Route>, validation: Validation)
      requires IsInProgress(key) && IsBacked()
      requires n <= |log.events| && thread == ThreadSince(log.events, n, initial)
      modifies this`issues, this`workTree, this`head, this`headCommit, this`log, this`thrown
      ensures IsBacked() && PassesOn(old(thrown), thrown, r) && old(log).events <= log.events
      ensures log.sum.runs == old(log).sum.runs + 1 && log.sum.reviews == old(log).sum.reviews
      ensures log.sum.checkout == old(log).sum.checkout
      ensures OnlyTouches(old(issues), issues, key)
      ensures r.Ok? && r.value.Continue? ==>
                && issues == old(issues) && Reflects(log, validation, config.rules)
                && (IsValidationSuccessful(validation) ==> log.sum.vouched == Some(workTree))
                && log.sum.questions == old(log).sum.questions
                && log.sum.rejections == old(log).sum.rejections + (if IsValidationSuccessful(validation) then 0 else 1)
                && r.value.thread == ThreadSince(log.events, n, initial)
      ensures r.Ok? && r.value.Finish? ==>
                && r.value.outcome == Waiting && log.events != []
                && IsPaused(issues[key], config.workerId, old(log), log,
                            if keepsThread then ThreadSince(log.events, n, initial) else ThreadOf(log.Last()))
    {
      validation := Validation(false, []);
      r := RunFix(key, thread, keepsThread, n, initial);
      if r.Err? || r.value.Finish? {
        return;
      }
      ghost var events := log.events;
      var validated := ValidateRepositoryState();
      if validated.Err? {
        return Err(validated.error), validation;
      }
      validation := validated.value;
      ExtendThread(events, log.Last(), n, initial);
    }

    /** One run of Codex, which may ask. */
    method RunFix(key: string, thread: Option<string>, keepsThread: bool, ghost n: nat, ghost initial: Option<string>)
      returns (r: Result<Route>)
      requires IsInProgress(key) && IsBacked()
      requires n <= |log.events| && thread == ThreadSince(log.events, n, initial)
      modifies this`issues, this`workTree, this`head, this`headCommit, this`log, this`thrown
      ensures IsBacked() && PassesOn(old(thrown), thrown, r) && old(log).events <= log.events
      ensures log.sum.runs == old(log).sum.runs + 1 && log.sum.reviews == old(log).sum.reviews
      ensures log.sum.checkout == old(log).sum.checkout && log.sum.rejections == old(log).sum.rejections
      ensures OnlyTouches(old(issues), issues, key)
      ensures r.Ok? && r.value.Continue? ==>
                && issues == old(issues) && log.sum.questions == old(log).sum.questions
                && r.value.thread == ThreadSince(log.events, n, initial)
      ensures r.Ok? && r.value.Finish? ==>
                && r.value.outcome == Waiting && log.events != []
                && IsPaused(issues[key], config.workerId, old(log), log,
                            if keepsThread then ThreadSince(log.events, n, initial) else ThreadOf(log.Last()))
    {
      ghost var events := log.events;
      var execution :- RunCodex(key);
      ExtendThread(events, log.Last(), n, initial);
      var active := execution.thread.OrElse(thread);
      if execution.clarification {
        r := PauseOnQuestion(key, if keepsThread then active else execution.thread, old(log));
        return;
      }
      r := Ok(Continue(active));
    }

    /** Either repair loop: validate, let Codex fix, validate again, at most `maxAttempts` times. A question
        pauses the issue, on the last known thread if `keepsThread` and on that of the run that asked if not; a
        validation that never succeeds is a permanent error. */
    method FixUntilValid(key: string, first: Validation, thread: Option<string>, maxAttempts: nat, keepsThread: bool)
      returns (r: Result<Route>)
      requires IsInProgress(key) && IsBacked() && Reflects(log, first, config.rules)
      requires IsValidationSuccessful(first) ==> log.sum.vouched == Some(workTree)
      modifies this`issues, this`workTree, this`head, this`headCommit, this`log, this`thrown
      ensures IsBacked() && Explains(old(thrown), thrown, r) && old(log).events <= log.events
      ensures log.sum.runs <= old(log).sum.runs + maxAttempts && log.sum.reviews == old(log).sum.reviews
      ensures log.sum.checkout == old(log).sum.checkout
      ensures OnlyTouches(old(issues), issues, key)
      ensures IsValidationSuccessful(first) ==> r == Ok(Continue(thread)) && log == old(log)
      ensures r.Ok? && r.value.Continue? ==>
                && issues == old(issues) && log.sum.vouched == Some(workTree)
                && log.EndsWithValidation() && IsSuccess(log.Last(), config.rules)
                && r.value.thread == ThreadSince(log.events, |old(log).events|, thread)
                && log.sum.questions == old(log).sum.questions
      ensures r.Ok? && r.value.Finish? ==>
                && r.value.outcome == Waiting && log.events != []
                && IsPaused(issues[key], config.workerId, old(log), log,
                            if keepsThread then ThreadSince(log.events, |old(log).events|, thread) else ThreadOf(log.Last()))
      ensures IsOwnFailure(old(thrown), thrown, r) ==>
                && log.EndsWithValidation() && !IsSuccess(log.Last(), config.rules)
                && log.sum.rejections == old(log).sum.rejections + maxAttempts
    {
      var validation, active := first, thread;
      var attempt := 0;
      while !IsValidationSuccessful(validation) && attempt < maxAttempts
        invariant IsBacked() && issues == old(issues) && thrown == old(thrown) && old(log).events <= log.events
        invariant attempt <= maxAttempts && Reflects(log, validation, config.rules)
        invariant attempt == 0 ==> log == old(log) && validation == first && active == thread
        invariant IsValidationSuccessful(first) ==> attempt == 0
        invariant log.sum.runs == old(log).sum.runs + attempt && log.sum.reviews == old(log).sum.reviews
        invariant log.sum.questions == old(log).sum.questions && log.sum.checkout == old(log).sum.checkout
        invariant active == ThreadSince(log.events, |old(log).events|, thread)
        invariant !IsValidationSuccessful(validation) ==> log.sum.rejections == old(log).sum.rejections + attempt
        invariant IsValidationSuccessful(validation) ==> log.sum.vouched == Some(workTree)
      {
        attempt := attempt + 1;
        var tried: Result<Route>;
        tried, validation := TryFix(key, active, keepsThread, |old(log).events|, thread);
        if tried.Err? || tried.value.Finish? {
          return tried;
        }
        active := tried.value.thread;
      }
      if !IsValidationSuccessful(validation) {
        return Err(Permanent);
      }
      r := Ok(Continue(active));
    }

    /** src/domain/orchestrator.ts:2364-2510: the loop that looks unbounded. */
    method RunSelfReviewGate(key: string, thread: Option<string>) returns (r: Result<Route>)
      requires IsInProgress(key) && IsBacked() && log.sum.vouched == Some(workTree)
      modifies this`issues, this`workTree, this`head, this`headCommit, this`log, this`thrown
      ensures IsBacked() && Explains(old(thrown), thrown, r) && old(log).events <= log.events
      ensures log.sum.checkout == old(log).sum.checkout
      ensures log.sum.Calls() <= old(log).sum.Calls() + 2 * config.selfReviewMaxFixAttempts + 1
      ensures OnlyTouches(old(issues), issues, key)
      ensures r.Ok? && r.value.Continue? ==>
                && issues == old(issues)
                && log.sum.vouched == Some(workTree)
                && (config.selfReviewEnabled ==> log.sum.approved == Some(workTree))
                && log.sum.questions == old(log).sum.questions
      ensures !config.selfReviewEnabled ==> r == Ok(Continue(thread)) && log == old(log)
      ensures r.Ok? && r.value.Finish? ==>
                && r.value.outcome == Waiting && log.events != []
                && IsPaused(issues[key], config.workerId, old(log), log,
                            ThreadSince(log.events, |old(log).events|, thread))
      ensures IsOwnFailure(old(thrown), thrown, r) ==> IsReviewFailure(old(log), log)
    {
      if !config.selfReviewEnabled {
        return Ok(Continue(thread));
      }
      var active := thread;
      var attempt := 0;
      while true
        invariant IsBacked() && issues == old(issues) && thrown == old(thrown) && old(log).events <= log.events
        invariant log.sum.vouched == Some(workTree) && log.sum.questions == old(log).sum.questions
        invariant log.sum.checkout == old(log).sum.checkout
        invariant attempt <= config.selfReviewMaxFixAttempts
        invariant log.sum.runs == old(log).sum.runs + attempt && log.sum.reviews == old(log).sum.reviews + attempt
        invariant active == ThreadSince(log.events, |old(log).events|, thread)
        decreases config.selfReviewMaxFixAttempts - attempt
      {
        ghost var events := log.events;
        var review :- RunSelfReview(key);
        ExtendThread(events, log.Last(), |old(log).events|, thread);
        if review.None? {
          return Err(Permanent);
        }
        if review.value {
          return Ok(Continue(active));
        }
        if attempt >= config.selfReviewMaxFixAttempts {
          return Err(Permanent);
        }
        attempt := attempt + 1;
        var tried := FixAfterReview(key, active, |old(log).events|, thread);
        if tried.Err? || tried.value.Finish? {
          return tried;
        }
        active := tried.value.thread;
      }
    }

    /** After a negative self-review, one more attempt, which must validate. */
    method FixAfterReview(key: string, thread: Option<string>, ghost n: nat, ghost initial: Option<string>)
      returns (r: Result<Route>)
      requires IsInProgress(key) && IsBacked()
      requires n <= |log.events| && thread == ThreadSince(log.events, n, initial)
      modifies this`issues, this`workTree, this`head, this`headCommit, this`log, this`thrown
      ensures IsBacked() && Explains(old(thrown), thrown, r) && old(log).events <= log.events
      ensures log.sum.checkout == old(log).sum.checkout
      ensures log.sum.runs == old(log).sum.runs + 1 && log.sum.reviews == old(log).sum.reviews
      ensures OnlyTouches(old(issues), issues, key)
      ensures r.Ok? && r.value.Continue? ==>
                && issues == old(issues) && log.sum.vouched == Some(workTree)
                && log.sum.questions == old(log).sum.questions
                && r.value.thread == ThreadSince(log.events, n, initial)
      ensures r.Ok? && r.value.Finish? ==>
                && r.value.outcome == Waiting && log.events != []
                && IsPaused(issues[key], config.workerId, old(log), log, ThreadSince(log.events, n, initial))
      ensures IsOwnFailure(old(thrown), thrown, r) ==> log.EndsWithValidation() && !IsSuccess(log.Last(), config.rules)
    {
      var validation;
      r, validation := TryFix(key, thread, true, n, initial);
      if r.Ok? && r.value.Continue? && !IsValidationSuccessful(validation) {
        r := Err(Permanent);
      }
    }

    /** The self-review was unreadable, or negative once more than there are attempts, or its fix did not hold. */
    ghost predicate IsReviewFailure(l0: Log, l1: Log) {
      || (l1.EndsWithReview() && l1.Last().answer.Some? && !l1.Last().answer.value.message.SelfReviewMessage?)
      || (l1.EndsWithReview() && l1.Last().answer.Some? && l1.Last().answer.value.message == SelfReviewMessage(false)
          && l1.sum.reviews == l0.sum.reviews + config.selfReviewMaxFixAttempts + 1)
      || (l1.EndsWithValidation() && !IsSuccess(l1.Last(), config.rules) && l1.sum.reviews > l0.sum.reviews)
    }

    // -------------------------------------------------------------------------------------------
    // Leaving the issue to a person
    // -------------------------------------------------------------------------------------------

    method PauseForClarification(key: string, thread: Option<string>) returns (r: Result<()>)
      requires key in issues
      modifies this`issues, this`thrown
      ensures PassesOn(old(thrown), thrown, r)
      ensures OnlyTouches(old(issues), issues, key) && issues.Keys == old(issues.Keys)
      ensures r.Ok? ==> IsQuestionedOn(issues[key], config.workerId, thread)
    {
      var question := QuestionComment(config.workerId, thread);
      FromLatestQuestionAppend(issues[key].comments, question);
      var _ :- AddComment(key, question);
      FromLatestQuestionAppend(issues[key].comments,
                               StatusComment(config.workerId, WaitingForAnswer, Some(Clarification), None));
      r := MoveTo(key, WaitingForAnswer, Some(Clarification));
    }

    /** The question the last run asked, the first since `l0`. */
    method PauseOnQuestion(key: string, thread: Option<string>, ghost l0: Log) returns (r: Result<Route>)
      requires key in issues && log.events != [] && Asks(log.Last()) && log.sum.questions == l0.sum.questions + 1
      modifies this`issues, this`thrown
      ensures PassesOn(old(thrown), thrown, r)
      ensures OnlyTouches(old(issues), issues, key) && issues.Keys == old(issues.Keys)
      ensures r.Ok? ==> r.value == Finish(Waiting) && IsPaused(issues[key], config.workerId, l0, log, thread)
    {
      var _ :- PauseForClarification(key, thread);
      r := Ok(Finish(Waiting));
    }

    method PauseForManualHold(key: string) returns (r: Result<()>)
      requires key in issues
      modifies this`issues, this`thrown
      ensures PassesOn(old(thrown), thrown, r)
      ensures OnlyTouches(old(issues), issues, key) && issues.Keys == old(issues.Keys)
      ensures r.Ok? ==>
                && IsHeld(issues[key])
                && issues[key] == Moved(old(issues[key]), WaitingForAnswer, config.workerId, Some(ManualHold))
    {
      r := MoveTo(key, WaitingForAnswer, Some(ManualHold));
    }

    // -------------------------------------------------------------------------------------------
    // Decomposition
    // -------------------------------------------------------------------------------------------

    method CreateIssue(title: string) returns (r: Result<string>)
      modifies this`issues, this`thrown
      ensures PassesOn(old(thrown), thrown, r)
      ensures r.Ok? ==> r.value !in old(issues) && r.value in issues
                        && issues[r.value].status == Open && issues[r.value].comments == []
                        && issues[r.value].source.title == title
                        && issues == old(issues)[r.value := issues[r.value]]
      ensures KeepsAll(old(issues), issues)
    {
      var key: string := *;
      // A tracker hands out new keys: one that answers with a key in use is taken to have failed.
      if key in issues {
        r := Answer(Err(Permanent));
        return;
      }
      var answer: Result<()> := Ask();
      var landed: bool := *;
      if answer.Ok? || landed {
        var source: Source := *;
        issues := issues[key := Issue(Open, source.(title := title), [])];
      }
      r := if answer.Ok? then Ok(key) else Err(answer.error);
    }

    /** A link that failed may nevertheless have been made. */
    method LinkIssue(link: Link) returns (linked: bool)
      modifies this`links, this`asked
      ensures asked == old(asked) + if config.canLinkIssue then [link] else []
      ensures links == old(links) || links == old(links) + [link]
      ensures linked ==> config.canLinkIssue && links == old(links) + [link]
      ensures !config.canLinkIssue ==> links == old(links)
    {
      if !config.canLinkIssue {
        return false;
      }
      asked := asked + [link];
      linked := *;
      var landed: bool := *;
      if linked || landed {
        links := links + [link];
      }
    }

    /** One new issue for a subtask, linked to its parent if that call does not fail. */
    method CreateSubtask(parent: string, subtask: Subtask) returns (r: Result<string>, linked: bool)
      modifies this`issues, this`links, this`asked, this`thrown
      ensures PassesOn(old(thrown), thrown, r)
      ensures KeepsAll(old(issues), issues)
      ensures r.Err? ==> links == old(links)
      ensures r.Ok? ==>
                && r.value !in old(issues) && issues.Keys == old(issues).Keys + {r.value}
                && issues[r.value].source.title == TitleOf(config, subtask)
                && asked == old(asked) + (if config.canLinkIssue then [Link(parent, r.value, ParentLink)] else [])
                && (links == old(links) || links == old(links) + [Link(parent, r.value, ParentLink)])
                && (linked ==> links == old(links) + [Link(parent, r.value, ParentLink)])
    {
      linked := false;
      r := CreateIssue(TitleOf(config, subtask));
      if r.Ok? {
        linked := LinkIssue(Link(parent, r.value, ParentLink));
      }
    }

    /** One new issue per subtask, each linked to its parent or warned about; `confirmed` counts the links whose
        calls did not fail. */
    method CreateSubtaskIssues(parent: string, subtasks: seq<Subtask>)
      returns (r: Result<seq<string>>, keyOf: map<string, string>, warnings: nat, ghost confirmed: nat)
      requires NoDuplicates(TemporaryIds(subtasks))
      modifies this`issues, this`links, this`asked, this`thrown
      ensures PassesOn(old(thrown), thrown, r)
      ensures KeepsAll(old(issues), issues)
      ensures r.Ok? ==>
                && |r.value| == |subtasks| && AreIssuesOf(old(issues), issues, r.value, keyOf, subtasks, config)
                && AreParentsSeenTo(old(links), links, old(asked), asked, parent, r.value, config, warnings, confirmed)
    {
      keyOf := map[];
      var keys: seq<string> := [];
      warnings, confirmed := 0, 0;
      for i := 0 to |subtasks|
        invariant thrown == old(thrown) && |keys| == i
        invariant AreIssuesOf(old(issues), issues, keys, keyOf, subtasks, config)
        invariant AreParentsSeenTo(old(links), links, old(asked), asked, parent, keys, config, warnings, confirmed)
      {
        ghost var before, linksBefore, askedBefore := issues, links, asked;
        var created, linked := CreateSubtask(parent, subtasks[i]);
        if created.Err? {
          KeptTwice(old(issues), before, issues);
          return Err(created.error), keyOf, warnings, confirmed;
        }
        var key := created.value;
        IssuesOfMore(old(issues), before, issues, keys, keyOf, key, subtasks, config);
        ParentSeenTo(old(links), linksBefore, old(asked), askedBefore, parent, keys, config, warnings, confirmed, key,
                     linked, links, asked);
        keys := keys + [key];
        keyOf := keyOf[subtasks[i].temporaryId := key];
        if linked {
          confirmed := confirmed + 1;
        } else {
          warnings := warnings + 1;
        }
      }
      r := Ok(keys);
    }

    /** src/domain/orchestrator.ts:2271-2339. A run that is not interrupted creates one new issue per subtask,
        links only what the plan says, confirms every link or warns, and without a warning everything is linked. */
    method CreateSubtasks(parent: string, plan: Plan)
      returns (r: Result<seq<string>>, warnings: nat, ghost confirmed: nat)
      requires WellFormed(plan)
      modifies this`issues, this`links, this`asked, this`thrown
      ensures PassesOn(old(thrown), thrown, r)
      ensures KeepsAll(old(issues), issues)
      ensures r.Ok? ==>
                && |r.value| == |plan.subtasks| && AreCreated(old(issues), issues, r.value)
                && AreTitled(issues, r.value, plan.subtasks, config)
                && old(links) <= links
                && (warnings == 0 ==> AreLinkedTo(links, parent, r.value))
                && (warnings == 0 ==> AreDependenciesLinked(links, plan, r.value, |plan.dependencies|))
                && confirmed + warnings == |plan.subtasks| + |plan.dependencies|
                && confirmed <= |links| - |old(links)| <= |plan.subtasks| + |plan.dependencies|
                && ArePlanLinks(links, |old(links)|, parent, r.value, plan)
                && (config.canLinkIssue ==> AreAsked(old(asked), asked, parent, r.value, plan, |plan.dependencies|))
                && (!config.canLinkIssue ==> asked == old(asked))
    {
      var keyOf;
      r, keyOf, warnings, confirmed := CreateSubtaskIssues(parent, plan.subtasks);
      if r.Err? {
        return;
      }
      ParentLinksArePlanLinks(links, |old(links)|, parent, r.value, plan);
      if config.canLinkIssue {
        OnlyParentsAsked(old(asked), asked, parent, r.value, plan);
      }
      var more;
      ghost var others;
      more, others := LinkDependencies(plan, parent, keyOf, r.value, |old(links)|, old(asked));
      warnings, confirmed := warnings + more, confirmed + others;
    }

    /** The loop over the dependencies. */
    method LinkDependencies(
      plan: Plan, ghost parent: string, keyOf: map<string, string>, ghost keys: seq<string>, ghost n0: nat,
      ghost had: seq<Link>)
      returns (warnings: nat, ghost confirmed: nat)
      requires WellFormed(plan)
      requires |keys| == |plan.subtasks| && AreFoundBy(keyOf, TemporaryIds(plan.subtasks), keys)
      requires ArePlanLinks(links, n0, parent, keys, plan)
      requires config.canLinkIssue ==> AreAsked(had, asked, parent, keys, plan, 0)
      modifies this`links, this`asked
      ensures old(links) <= links && ArePlanLinks(links, n0, parent, keys, plan)
      ensures config.canLinkIssue ==> AreAsked(had, asked, parent, keys, plan, |plan.dependencies|)
      ensures !config.canLinkIssue ==> asked == old(asked)
      ensures warnings == 0 ==> AreDependenciesLinked(links, plan, keys, |plan.dependencies|)
      ensures confirmed + warnings == |plan.dependencies|
      ensures confirmed <= |links| - |old(links)| <= |plan.dependencies|
    {
      warnings, confirmed := 0, 0;
      for n := 0 to |plan.dependencies|
        invariant old(links) <= links && ArePlanLinks(links, n0, parent, keys, plan)
        invariant warnings == 0 ==> AreDependenciesLinked(links, plan, keys, n)
        invariant config.canLinkIssue ==> AreAsked(had, asked, parent, keys, plan, n)
        invariant !config.canLinkIssue ==> asked == old(asked)
        invariant confirmed + warnings == n && confirmed <= |links| - |old(links)| <= n
      {
        var linked := LinkDependency(plan, n, parent, keyOf, keys, n0, had);
        if linked {
          confirmed := confirmed + 1;
        } else {
          warnings := warnings + 1;
        }
      }
    }

    /** The issue of the blocked subtask is linked to that of the blocking one. */
    method LinkDependency(
      plan: Plan, n: nat, ghost parent: string, keyOf: map<string, string>, ghost keys: seq<string>, ghost n0: nat,
      ghost had: seq<Link>)
      returns (linked: bool)
      requires WellFormed(plan) && n < |plan.dependencies|
      requires |keys| == |plan.subtasks| && AreFoundBy(keyOf, TemporaryIds(plan.subtasks), keys)
      requires ArePlanLinks(links, n0, parent, keys, plan)
      requires config.canLinkIssue ==> AreAsked(had, asked, parent, keys, plan, n)
      modifies this`links, this`asked
      ensures config.canLinkIssue ==> AreAsked(had, asked, parent, keys, plan, n + 1)
      ensures !config.canLinkIssue ==> asked == old(asked)
      ensures old(links) <= links && |links| <= |old(links)| + 1 && ArePlanLinks(links, n0, parent, keys, plan)
      ensures linked ==> |links| == |old(links)| + 1
      ensures linked && AreDependenciesLinked(old(links), plan, keys, n) ==> AreDependenciesLinked(links, plan, keys, n + 1)
    {
      var d := plan.dependencies[n];
      ghost var i, j := EndsOf(plan, n, keyOf, keys);
      if d.blocked !in keyOf || d.blocking !in keyOf {
        assert false;  // the source's silent `continue`
        linked := false;
      } else {
        ghost var before, askedBefore := links, asked;
        linked := LinkIssue(Link(keyOf[d.blocked], keyOf[d.blocking], BlockedByLink));
        if config.canLinkIssue {
          AskedMore(had, askedBefore, parent, keys, plan, n, i, j);
        }
        PlanLinksMore(before, links, n0, parent, keys, plan, n, i, j);
        if linked && AreDependenciesLinked(before, plan, keys, n) {
          LinkedOneMore(before, plan, keys, n, i, j);
        }
      }
    }

    /** src/domain/orchestrator.ts:2147-2362. Issues it creates are on record when it returns, and a parent
        with created issues on record is not decomposed again. */
    method RunDecomposition(key: string, comments: seq<Comment>) returns (r: Result<CycleOutcome>)
      requires IsInProgress(key) && IsBacked()
      modifies this`issues, this`links, this`asked, this`workTree, this`head, this`headCommit, this`log, this`thrown
      ensures IsBacked() && Explains(old(thrown), thrown, r) && old(log).events <= log.events && NoChecks(old(log), log)
      ensures log.sum.Calls() <= old(log).sum.Calls() + 1
      ensures OnlyTouches(old(issues), issues, key)
      ensures HasSubtasks(comments, key) || !CreatesIssues(config) ==> issues.Keys == old(issues).Keys
      ensures r.Ok? ==> IsDecomposed(config, key, comments, old(issues).Keys, issues, old(log), log, r.value)
      ensures r.Ok? ==> r.value != Idle && IsHeld(issues[key])
      ensures r.Ok? && issues.Keys != old(issues).Keys ==>
                HasSubtasks(issues[key].comments, key)
                && SetOf(SubtasksOf(issues[key].comments, key)) == issues.Keys - old(issues).Keys
      ensures IsOwnFailure(old(thrown), thrown, r) ==>
                GaveUpDecomposing(config, key, old(issues[key]).source, log)
    {
      if HasSubtasks(comments, key) {
        var _ :- PauseForManualHold(key);
        return Ok(Processed);
      }
      var execution :- RunCodex(key);
      assert GrowsBy(old(log), log, CodexRan(workTree, Some(execution)));
      r := FollowPlan(key, execution);
    }

    /** What is made of Codex's answer to a decomposition. */
    method FollowPlan(key: string, execution: Execution) returns (r: Result<CycleOutcome>)
      requires key in issues
      modifies this`issues, this`links, this`asked, this`thrown
      ensures Explains(old(thrown), thrown, r) && OnlyTouches(old(issues), issues, key)
      ensures !CreatesIssues(config) ==> issues.Keys == old(issues).Keys
      ensures r.Ok? ==> r.value != Idle && IsPlanned(config, key, old(issues).Keys, issues, execution, r.value)
      ensures r.Ok? && issues.Keys != old(issues).Keys ==>
                HasSubtasks(issues[key].comments, key)
                && SetOf(SubtasksOf(issues[key].comments, key)) == issues.Keys - old(issues).Keys
      ensures IsOwnFailure(old(thrown), thrown, r) ==>
                && PlanOf(config, key, execution).Some? && CreatesIssues(config)
                && match old(issues[key]).source.queue
                   case Some(queue) => queue == ""
                   case None => key == "" || key[0] == '-'
    {
      var plan := match execution.message
        case PlanMessage(raw) => NormalizeDecompositionPlan(raw, key, config.maxSubtasks)
        case _ => None;
      if plan.None? {
        var _ :- RecordAndHold(key, [], 1);
        return Ok(Waiting);
      }
      if config.dryRun || !config.createIssues {
        var _ :- RecordAndHold(key, [], 0);
        return Ok(Processed);
      }
      if !config.canCreateIssue {
        var _ :- RecordAndHold(key, [], 1);
        return Ok(Waiting);
      }
      if issues[key].source.queue.GetOr(BeforeDash(key)) == "" {
        return Err(Permanent);
      }
      AcceptedPlanIsWellFormed(execution.message.plan, key, config.maxSubtasks);
      r := CreateAndRecord(key, plan.value);
    }

    /** Creates the plan's issues, records them, and holds the parent. */
    method CreateAndRecord(key: string, plan: Plan) returns (r: Result<CycleOutcome>)
      requires key in issues && WellFormed(plan)
      modifies this`issues, this`links, this`asked, this`thrown
      ensures PassesOn(old(thrown), thrown, r)
      ensures OnlyTouches(old(issues), issues, key)
      ensures r.Ok? ==>
                && r.value == Processed && IsHeld(issues[key])
                && HasSubtasks(issues[key].comments, key)
                && SetOf(SubtasksOf(issues[key].comments, key)) == issues.Keys - old(issues).Keys
                && |SubtasksOf(issues[key].comments, key)| == |plan.subtasks|
                && AreTitled(issues, SubtasksOf(issues[key].comments, key), plan.subtasks, config)
    {
      var keys, warnings, _ := CreateSubtasks(key, plan);
      if keys.Err? {
        return Err(keys.error);
      }
      assert issues.Keys - old(issues).Keys == SetOf(keys.value);
      label created:
      var _ :- RecordAndHold(key, keys.value, warnings);
      TitledElsewhere(old@created(issues), issues, key, keys.value, plan.subtasks, config);
      r := Ok(Processed);
    }

    /** What a decomposition created goes on record, and the parent is held. */
    method RecordAndHold(key: string, createdKeys: seq<string>, warnings: nat) returns (r: Result<()>)
      requires key in issues
      modifies this`issues, this`thrown
      ensures PassesOn(old(thrown), thrown, r)
      ensures OnlyTouches(old(issues), issues, key) && issues.Keys == old(issues.Keys)
      ensures r.Ok? ==> IsHeld(issues[key]) && SubtasksOf(issues[key].comments, key) == createdKeys
    {
      var record := DecompositionComment(config.workerId, key, createdKeys, warnings);
      FindLatestAppend(issues[key].comments, record, DecompositionOf(key));
      var _ :- AddComment(key, record);
      FindLatestAppend(issues[key].comments, StatusComment(config.workerId, WaitingForAnswer, Some(ManualHold), None),
                       DecompositionOf(key));
      r := PauseForManualHold(key);
    }

    // -------------------------------------------------------------------------------------------
    // The implementation path
    // -------------------------------------------------------------------------------------------

    /** src/domain/orchestrator.ts:1698-1811: a stored decision is reused; otherwise Codex decides, and the
        decision is on record. */
    method RunAnalysis(key: string, comments: seq<Comment>) returns (r: Result<AnalysisResult>)
      requires IsInProgress(key) && IsBacked()
      modifies this`issues, this`workTree, this`head, this`headCommit, this`log, this`thrown
      ensures IsBacked() && PassesOn(old(thrown), thrown, r) && old(log).events <= log.events && NoChecks(old(log), log)
      ensures log.sum.Calls() <= old(log).sum.Calls() + 1
      ensures OnlyTouches(old(issues), issues, key) && issues.Keys == old(issues.Keys)
      ensures issues[key].status == old(issues[key]).status
      ensures FindLatestAnalysisDecision(comments, key).Some? ==> issues == old(issues) && log == old(log) && r.Ok?
      ensures r.Ok? ==> IsAnalysis(config, key, comments, old(log), log, r.value)
      ensures r.Ok? && FindLatestAnalysisDecision(comments, key).None? ==>
                FindLatestAnalysisDecision(issues[key].comments, key) == Some(r.value.decision)
    {
      var stored := FindLatestAnalysisDecision(comments, key);
      if stored.Some? {
        return Ok(AnalysisResult(false, None, stored.value));
      }
      var execution :- RunCodex(key);
      assert GrowsBy(old(log), log, CodexRan(workTree, Some(execution)));
      var decision := DecisionOf(execution);
      if execution.clarification {
        decision := Decision(ClampedConfidence(config.humanThreshold), AskClarification, ["question"]);
        QuestionIsAnalysis(config, execution);
      } else {
        AnswerIsAnalysis(config, execution);
      }
      var comment := AnalysisComment(config.workerId, key, decision);
      FindLatestAppend(issues[key].comments, comment, AnalysisOf(key));
      var _ :- AddComment(key, comment);
      r := Ok(AnalysisResult(execution.clarification, execution.thread, decision));
    }

    /** src/domain/orchestrator.ts:915-1015, for an issue that is not in review: everything up to the first
        checkout. */
    method PrepareTask(key: string, comments: seq<Comment>) returns (r: Result<Route>)
      requires key in issues && IsBacked()
      requires IsProcessable(issues[key].status) && issues[key].status != Review
      modifies this`issues, this`links, this`asked, this`workTree, this`head, this`headCommit, this`log, this`thrown
      ensures IsBacked() && Explains(old(thrown), thrown, r) && old(log).events <= log.events && NoChecks(old(log), log)
      ensures OnlyTouches(old(issues), issues, key)
      ensures log.sum.Calls() <= old(log).sum.Calls() + 2
      ensures r.Ok? && r.value.Continue? ==> log.sum.Calls() <= old(log).sum.Calls() + 1
      ensures r.Ok? ==> IsPrepared(config, key, comments, old(issues), issues, old(log), log, r.value)
      ensures r.Ok? && r.value.Finish? ==>
                r.value.outcome != Idle && EndsWell(old(issues[key]), issues[key], r.value.outcome, config.workerId)
      ensures IsOwnFailure(old(thrown), thrown, r) ==>
                GaveUpDecomposing(config, key, old(issues[key]).source, log)
    {
      if issues[key].status == WaitingForAnswer {
        var resume := ResolveResumeContext(comments, config.workerId);
        if resume.None? {
          return Ok(Finish(Waiting));
        }
        var _ :- MoveTo(key, InProgress, None);
        var reread: Result<()> := Ask();
        if reread.Err? {
          return Err(reread.error);
        }
        return Ok(Continue(resume.value.thread));
      }
      if issues[key].status == Open {
        var _ :- MoveTo(key, InProgress, None);
      }
      r := RouteTask(key, comments, old(issues));
    }

    /** The analysis, and what it leads to. */
    method RouteTask(key: string, comments: seq<Comment>, ghost before: map<string, Issue>) returns (r: Result<Route>)
      requires IsInProgress(key) && IsBacked()
      requires OnlyTouches(before, issues, key) && before.Keys == issues.Keys && before[key].status != WaitingForAnswer
      modifies this`issues, this`links, this`asked, this`workTree, this`head, this`headCommit, this`log, this`thrown
      ensures IsBacked() && Explains(old(thrown), thrown, r) && old(log).events <= log.events && NoChecks(old(log), log)
      ensures OnlyTouches(before, issues, key)
      ensures log.sum.Calls() <= old(log).sum.Calls() + 2
      ensures r.Ok? && r.value.Continue? ==> log.sum.Calls() <= old(log).sum.Calls() + 1
      ensures r.Ok? ==> IsPrepared(config, key, comments, before, issues, old(log), log, r.value)
      ensures r.Ok? && r.value.Finish? ==>
                r.value.outcome != Idle && EndsWell(before[key], issues[key], r.value.outcome, config.workerId)
      ensures IsOwnFailure(old(thrown), thrown, r) ==> GaveUpDecomposing(config, key, before[key].source, log)
    {
      var analysis :- RunAnalysis(key, comments);
      label analysed:
      ghost var analysed := log;
      r := FollowDecision(key, comments, analysis);
      TouchedTwice(before, old@analysed(issues), issues, key);
      if r.Ok? {
        assert IsAnalysis(config, key, comments, old(log), analysed, analysis);
        assert IsRouted(config, key, comments, before.Keys, issues, analysed, log, analysis, r.value);
      }
    }

    method FollowDecision(key: string, comments: seq<Comment>, analysis: AnalysisResult) returns (r: Result<Route>)
      requires IsInProgress(key) && IsBacked()
      requires FindLatestAnalysisDecision(comments, key).None? ==>
                 FindLatestAnalysisDecision(issues[key].comments, key) == Some(analysis.decision)
      modifies this`issues, this`links, this`asked, this`workTree, this`head, this`headCommit, this`log, this`thrown
      ensures IsBacked() && Explains(old(thrown), thrown, r) && old(log).events <= log.events && NoChecks(old(log), log)
      ensures OnlyTouches(old(issues), issues, key)
      ensures log.sum.Calls() <= old(log).sum.Calls() + 1
      ensures r.Ok? && r.value.Continue? ==> log == old(log)
      ensures r.Ok? ==> IsRouted(config, key, comments, old(issues).Keys, issues, old(log), log, analysis, r.value)
      ensures r.Ok? && r.value.Finish? ==>
                && r.value.outcome != Idle && issues[key].status == WaitingForAnswer
                && (IsHeld(issues[key]) || IsQuestioned(issues[key], config.workerId))
      ensures IsOwnFailure(old(thrown), thrown, r) ==> GaveUpDecomposing(config, key, old(issues[key]).source, log)
    {
      ModeMeans(config, analysis.decision);
      var mode := ResolveTaskMode(config, analysis.decision);
      if mode.None? {
        var _ :- PauseForManualHold(key);
        return Ok(Finish(Processed));
      }
      match mode.value
      case AskClarification =>
        var _ :- PauseForClarification(key, analysis.thread);
        r := Ok(Finish(Waiting));
      case Human =>
        var _ :- PauseForManualHold(key);
        r := Ok(Finish(Waiting));
      case Decompose =>
        var outcome :- RunDecomposition(key, comments);
        r := Ok(Finish(outcome));
      case Implement =>
        if analysis.clarification {
          var _ :- PauseForClarification(key, analysis.thread);
          return Ok(Finish(Waiting));
        }
        r := Ok(Continue(analysis.thread));
    }

    /** src/domain/orchestrator.ts:2616-2656. */
    method FinalizeSuccess(key: string, branch: string, iid: int) returns (r: Result<()>)
      requires key in issues
      modifies this`issues, this`thrown
      ensures PassesOn(old(thrown), thrown, r)
      ensures OnlyTouches(old(issues), issues, key) && issues.Keys == old(issues.Keys)
      ensures r.Ok? ==> issues[key] == Published(old(issues[key]), config.workerId, branch, iid)
    {
      var _ :- AddComment(key, MergeRequestComment(config.workerId, branch, Some(iid)));
      label added:
      r := MoveTo(key, Review, None);
      assert OnlyTouches(old@added(issues), issues, key);
      TouchedTwice(old(issues), old@added(issues), issues, key);
    }

    /** src/domain/orchestrator.ts:2563-2614: commit what is uncommitted, push, and open a merge request. */
    method Publish(key: string, branch: string, existing: Option<int>) returns (r: Result<int>)
      requires key in issues && IsBacked() && Backs(log.sum, Pushed(branch, workTree, config.selfReviewEnabled))
      modifies this`issues, this`head, this`headCommit, this`remote, this`log, this`thrown
      ensures IsBacked() && PassesOn(old(thrown), thrown, r) && log.sum.Calls() == old(log).sum.Calls()
      ensures OnlyTouches(old(issues), issues, key)
      ensures r.Ok? ==>
                && remote == workTree
                && log == Extended(old(log), Pushed(branch, workTree, config.selfReviewEnabled), config.rules)
                && issues[key] == Published(old(issues[key]), config.workerId, branch, r.value)
                && (existing.Some? ==> r.value == existing.value)
    {
      var _: () :- Ask();
      if workTree != head {
        var _ :- Commit();
      }
      var _ :- Push(branch, config.selfReviewEnabled);
      r := OpenMergeRequest(key, branch, existing);
    }

    /** The open merge request of the branch, or a new one, goes on record. */
    method OpenMergeRequest(key: string, branch: string, existing: Option<int>) returns (r: Result<int>)
      requires key in issues
      modifies this`issues, this`thrown
      ensures PassesOn(old(thrown), thrown, r) && OnlyTouches(old(issues), issues, key)
      ensures r.Ok? ==>
                && issues[key] == Published(old(issues[key]), config.workerId, branch, r.value)
                && (existing.Some? ==> r.value == existing.value)
    {
      var iid := existing.GetOr(0);
      if existing.None? {
        iid :- Ask();
      }
      var _ :- FinalizeSuccess(key, branch, iid);
      r := Ok(iid);
    }

    /** src/domain/orchestrator.ts:1017-1213. */
    method ImplementTask(key: string, thread: Option<string>) returns (r: Result<CycleOutcome>)
      requires IsInProgress(key) && IsBacked()
      modifies this`issues, this`workTree, this`head, this`headCommit, this`base, this`remote, this`log, this`thrown
      ensures IsBacked() && Explains(old(thrown), thrown, r) && OnlyTouches(old(issues), issues, key)
      ensures log.sum.Calls() <= old(log).sum.Calls() + config.maxFixAttempts + 2 * config.selfReviewMaxFixAttempts + 3
      ensures r.Ok? ==> IsImplemented(config, key, thread, issues[key], old(log), log, r.value)
      ensures IsOwnFailure(old(thrown), thrown, r) ==> GaveUpImplementing(config, old(log), log)
    {
      var _ :- CheckOut(BranchNameForIssue(key));
      var existing: Option<int> :- Ask();
      var hasUncommittedChanges, hasCommittedDiff := workTree != head, head != base;
      if existing.Some? && !hasUncommittedChanges && hasCommittedDiff {
        r := KeepMergeRequest(key, existing.value, old(log), thread);
        return;
      }
      var started :- StartTask(key, thread, !hasUncommittedChanges && !hasCommittedDiff, old(log));
      if started.Finish? {
        return Ok(started.outcome);
      }
      r := FinishTask(key, started.thread, existing, old(log), thread);
    }

    /** The branch has been pushed already, with a merge request that is still open. */
    method KeepMergeRequest(key: string, iid: int, ghost l0: Log, ghost initial: Option<string>)
      returns (r: Result<CycleOutcome>)
      requires key in issues && log.sum.questions == l0.sum.questions
      requires GrowsBy(l0, log, CheckedOut(workTree, Checkout(BranchNameForIssue(key), headCommit, Ahead)))
      modifies this`issues, this`thrown
      ensures PassesOn(old(thrown), thrown, r) && OnlyTouches(old(issues), issues, key)
      ensures r.Ok? ==> IsImplemented(config, key, initial, issues[key], l0, log, r.value)
    {
      var branch := BranchNameForIssue(key);
      var _ :- FinalizeSuccess(key, branch, iid);
      PublishedIsReviewed(old(issues[key]), config.workerId, branch, iid);
      r := Ok(Processed);
    }

    /** The first runs, unless the branch has something on it already. */
    method StartTask(key: string, thread: Option<string>, isEmpty: bool, ghost l0: Log) returns (r: Result<Route>)
      requires IsInProgress(key) && IsBacked()
      requires IsBegun(l0, log, BranchNameForIssue(key)) && |log.events| == |l0.events| + 1
      requires isEmpty <==> log.Last().checkout.state == Untouched
      requires log.sum == l0.sum.(vouched := None, approved := None, checkout := Some(log.Last().checkout))
      modifies this`issues, this`workTree, this`head, this`headCommit, this`log, this`thrown
      ensures IsBacked() && PassesOn(old(thrown), thrown, r) && OnlyTouches(old(issues), issues, key)
      ensures l0.events <= log.events && (r.Ok? ==> IsOnItsBranch(key, l0))
      ensures log.sum.runs <= l0.sum.runs + 2 && log.sum.reviews == l0.sum.reviews
      ensures log.sum.rejections == l0.sum.rejections
      ensures r.Ok? && r.value.Continue? ==>
                && log.sum.questions == l0.sum.questions && issues == old(issues)
                && r.value.thread == KnownThread(log.events, |l0.events|, thread)
      ensures r.Ok? && r.value.Finish? ==>
                r.value.outcome == Waiting && IsPausedTask(issues[key], config.workerId, l0, log, thread)
    {
      ghost var start := log;
      if !isEmpty {
        NoThreadYet(l0.events, log.events, thread);
        return Ok(Continue(thread));
      }
      var execution :- RunResumeOrInitial(key, thread);
      FirstThread(l0.events, start.events, log.events, thread);
      var active := execution.thread.OrElse(thread);
      if execution.clarification {
        r := PauseOnQuestion(key, active, l0);
        return;
      }
      r := Ok(Continue(active));
    }

    /** The branch of the issue was checked out since `l0`, and Codex ran if nothing was on it. */
    ghost predicate IsOnItsBranch(key: string, l0: Log)
      reads this`log
    {
      var n := |l0.events|;
      && IsBegun(l0, log, BranchNameForIssue(key))
      && log.sum.checkout.Some? && log.sum.checkout.value.branch == BranchNameForIssue(key)
      && (n + 1 == |log.events| ==> log.events[n].checkout.state != Untouched)
    }

    /** From the first validation on; the run began with `l0`. */
    method FinishTask(
      key: string, thread: Option<string>, existing: Option<int>, ghost l0: Log, ghost initial: Option<string>)
      returns (r: Result<CycleOutcome>)
      requires IsInProgress(key) && IsBacked() && IsOnItsBranch(key, l0)
      requires thread == KnownThread(log.events, |l0.events|, initial)
      requires log.sum.questions == l0.sum.questions && log.sum.reviews == l0.sum.reviews
      requires log.sum.rejections == l0.sum.rejections
      modifies this`issues, this`workTree, this`head, this`headCommit, this`remote, this`log, this`thrown
      ensures IsBacked() && Explains(old(thrown), thrown, r) && OnlyTouches(old(issues), issues, key)
      ensures log.sum.Calls() <= old(log).sum.Calls() + config.maxFixAttempts + 2 * config.selfReviewMaxFixAttempts + 1
      ensures r.Ok? ==> IsImplemented(config, key, initial, issues[key], l0, log, r.value)
      ensures IsOwnFailure(old(thrown), thrown, r) ==> GaveUpImplementing(config, l0, log)
    {
      var fixed :- FixTask(key, thread, l0, initial);
      if fixed.Finish? {
        return Ok(fixed.outcome);
      }
      ghost var l1 := log;
      var reviewed :- RunSelfReviewGate(key, fixed.thread);
      KnownGoesOn(l1.events, log.events, |l0.events|, initial);
      if reviewed.Finish? {
        return Ok(reviewed.outcome);
      }
      r := PublishTask(key, existing, l0, initial);
    }

    method PublishTask(key: string, existing: Option<int>, ghost l0: Log, ghost initial: Option<string>)
      returns (r: Result<CycleOutcome>)
      requires key in issues && IsBacked() && IsOnItsBranch(key, l0) && |l0.events| + 1 < |log.events|
      requires Backs(log.sum, Pushed(BranchNameForIssue(key), workTree, config.selfReviewEnabled))
      requires log.sum.questions == l0.sum.questions
      modifies this`issues, this`head, this`headCommit, this`remote, this`log, this`thrown
      ensures IsBacked() && PassesOn(old(thrown), thrown, r) && log.sum.Calls() == old(log).sum.Calls()
      ensures OnlyTouches(old(issues), issues, key)
      ensures r.Ok? ==> r.value == Processed && IsImplemented(config, key, initial, issues[key], l0, log, r.value)
    {
      var branch := BranchNameForIssue(key);
      var iid :- Publish(key, branch, existing);
      PublishedIsReviewed(old(issues[key]), config.workerId, branch, iid);
      assert EndsWith(log, Pushed(branch, workTree, config.selfReviewEnabled));
      r := Ok(Processed);
    }

    /** The first validation and the repair loop after it. */
    method FixTask(key: string, thread: Option<string>, ghost l0: Log, ghost initial: Option<string>)
      returns (r: Result<Route>)
      requires IsInProgress(key) && IsBacked() && IsOnItsBranch(key, l0)
      requires thread == KnownThread(log.events, |l0.events|, initial)
      requires log.sum.questions == l0.sum.questions && log.sum.reviews == l0.sum.reviews
      requires log.sum.rejections == l0.sum.rejections
      modifies this`issues, this`workTree, this`head, this`headCommit, this`log, this`thrown
      ensures IsBacked() && Explains(old(thrown), thrown, r) && OnlyTouches(old(issues), issues, key)
      ensures log.sum.runs <= old(log).sum.runs + config.maxFixAttempts && log.sum.reviews == l0.sum.reviews
      ensures r.Ok? ==> IsOnItsBranch(key, l0) && |l0.events| + 1 < |log.events|
      ensures r.Ok? && r.value.Continue? ==>
                && issues == old(issues) && log.sum.vouched == Some(workTree) && log.sum.questions == l0.sum.questions
                && r.value.thread == KnownThread(log.events, |l0.events|, initial)
      ensures r.Ok? && r.value.Finish? ==>
                r.value.outcome == Waiting && IsPausedTask(issues[key], config.workerId, l0, log, initial)
      ensures IsOwnFailure(old(thrown), thrown, r) ==> GaveUpImplementing(config, l0, log)
    {
      ghost var l1 := log;
      var validation :- ValidateRepositoryState();
      if !validation.changed {
        return Err(Permanent);
      }
      ghost var l2 := log;
      KnownGoesOn(l1.events, l2.events, |l0.events|, initial);
      r := FixUntilValid(key, validation, thread, config.maxFixAttempts, true);
      KnownGoesOn(l2.events, log.events, |l0.events|, initial);
    }

    // -------------------------------------------------------------------------------------------
    // The review path
    // -------------------------------------------------------------------------------------------

    /** src/domain/orchestrator.ts:1441-1509: by the recorded number, else by the recorded branch, else by the
        branch name of the issue. */
    method ResolveReviewMergeRequest(key: string, comments: seq<Comment>, gitlab: GitLab) returns (r: Result<Resolution>)
      modifies this`thrown
      ensures PassesOn(old(thrown), thrown, r)
      ensures match RequestOf(config.workerId, key, comments, gitlab)
              case Err(e) => r == Err(e)
              case Ok(mr) =>
                && r.Ok?
                && (r.value.MergedRequest? <==> IsMergedRequest(mr)) && (r.value.OpenRequest? <==> IsOpenRequest(mr))
                && (!r.value.NoRequest? ==> mr == Some(r.value.request))
                && (r.value.OpenRequest? ==> r.value.branch == BranchOf(config.workerId, key, comments, r.value.request))
    {
      var recorded := FindLatest(comments, OwnMergeRequestComment(config.workerId));
      var branch := if recorded.Some? && recorded.value.MergeRequestComment? then recorded.value.branch
                    else BranchNameForIssue(key);
      if recorded.Some? && recorded.value.MergeRequestComment? && recorded.value.iid.Some? {
        var byNumber :- Answer(gitlab.byNumber(recorded.value.iid.value));
        if byNumber.Some? {
          return Ok(Classify(branch, byNumber.value));
        }
      }
      var byBranch :- Answer(gitlab.byBranch(branch));
      r := Ok(if byBranch.Some? then Classify(branch, byBranch.value) else NoRequest);
    }

    /** src/domain/orchestrator.ts:1215-1439. A cycle that puts `record` on record showed exactly those
        discussions to Codex and replied to each; no other run records any. */
    method HandleReviewFeedback(key: string, comments: seq<Comment>, gitlab: GitLab)
      returns (r: Result<CycleOutcome>, ghost record: Option<ReviewRecord>)
      requires key in issues && issues[key].status == Review && IsBacked()
      modifies this`issues, this`workTree, this`head, this`headCommit, this`base, this`remote, this`replies, this`log,
        this`thrown
      ensures IsBacked() && Explains(old(thrown), thrown, r) && OthersUntouched(old(issues), issues, key)
      ensures log.sum.Calls() <= old(log).sum.Calls() + config.maxReviewFixAttempts + 1
      ensures r.Ok? ==>
                IsReviewed(config, key, comments, gitlab, old(issues[key]), issues[key], old(log), log, headCommit, r.value)
      ensures r == Ok(Idle) ==> issues == old(issues)
      ensures IsOwnFailure(old(thrown), thrown, r) ==> GaveUpReviewing(config, old(log), log, headCommit)
      ensures Records(config.workerId, key, comments, old(issues[key]), issues[key], record)
      ensures KeepsTask(old(issues[key]), issues[key], key)
      ensures record.Some? ==>
                && gitlab.discussions(record.value.iid) == Ok((record.value.me, record.value.discussions))
                && replies == old(replies) +
                     RepliesTo(record.value.iid, ShownBy(record.value, key, comments), record.value.commit)
    {
      record := None;
      var resolved := ResolveReviewMergeRequest(key, comments, gitlab);
      if resolved.Err? {
        return Err(resolved.error), record;
      }
      match resolved.value
      case MergedRequest(mr) =>
        r := FinalizeMergedReview(key, comments, mr);
      case NoRequest =>
        var held := PauseForManualHold(key);
        r := if held.Ok? then Ok(Waiting) else Err(held.error);
      case OpenRequest(branch, mr) =>
        r, record := HandleOpenRequest(key, comments, gitlab, branch, mr);
    }

    /** The discussions that are pending are fixed, if there are any. */
    method HandleOpenRequest(key: string, comments: seq<Comment>, gitlab: GitLab, branch: string, mr: MergeRequest)
      returns (r: Result<CycleOutcome>, ghost record: Option<ReviewRecord>)
      requires key in issues && IsBacked() && branch == BranchOf(config.workerId, key, comments, mr)
      modifies this`issues, this`workTree, this`head, this`headCommit, this`base, this`remote, this`replies, this`log,
        this`thrown
      ensures IsBacked() && Explains(old(thrown), thrown, r) && OthersUntouched(old(issues), issues, key)
      ensures log.sum.Calls() <= old(log).sum.Calls() + config.maxReviewFixAttempts + 1
      ensures r.Ok? ==>
                IsOpenReviewed(config.workerId, key, comments, gitlab, mr, old(issues[key]), issues[key], old(log), log,
                               headCommit, r.value)
      ensures r == Ok(Idle) ==> issues == old(issues)
      ensures IsOwnFailure(old(thrown), thrown, r) ==> GaveUpReviewing(config, old(log), log, headCommit)
      ensures Records(config.workerId, key, comments, old(issues[key]), issues[key], record)
      ensures KeepsTask(old(issues[key]), issues[key], key)
      ensures record.Some? ==>
                && gitlab.discussions(record.value.iid) == Ok((record.value.me, record.value.discussions))
                && replies == old(replies) +
                     RepliesTo(record.value.iid, ShownBy(record.value, key, comments), record.value.commit)
    {
      record := None;
      var fetched := Answer(gitlab.discussions(mr.iid));
      if fetched.Err? {
        return Err(fetched.error), record;
      }
      var me, discussions := fetched.value.0, fetched.value.1;
      var previous := FindLatestReviewMetadata(comments, key, mr.iid);
      var pending := FindPendingReviewDiscussions(discussions, me, previous);
      if pending == [] {
        return Ok(Idle), record;
      }
      ghost var commit;
      r, commit := FixReview(key, branch, mr.iid, previous, pending);
      record := if commit.Some? then Some(ReviewRecord(mr.iid, me, discussions, commit.value)) else None;
    }

    /** A review-fix cycle, once its discussions are known. `commit` is the one it put on record. */
    method FixReview(key: string, branch: string, iid: int, previous: Option<ReviewMetadata>, pending: seq<Discussion>)
      returns (r: Result<CycleOutcome>, ghost commit: Option<int>)
      requires key in issues && IsBacked()
      modifies this`issues, this`workTree, this`head, this`headCommit, this`base, this`remote, this`replies, this`log,
        this`thrown
      ensures IsBacked() && Explains(old(thrown), thrown, r) && OthersUntouched(old(issues), issues, key)
      ensures log.sum.Calls() <= old(log).sum.Calls() + config.maxReviewFixAttempts + 1
      ensures r.Ok? ==>
                IsFixed(config.workerId, key, branch, iid, previous, pending, issues[key], old(log), log, headCommit, r.value)
      ensures IsOwnFailure(old(thrown), thrown, r) ==> GaveUpReviewing(config, old(log), log, headCommit)
      ensures WasFixed(config.workerId, key, iid, previous, pending, old(issues[key]), issues[key], old(replies), replies,
                       commit)
    {
      commit := None;
      var begun := BeginFix(key, branch);
      if begun.Err? {
        return Err(begun.error), commit;
      }
      var headBefore := headCommit;
      var fixed := FixPending(key);
      if fixed.Err? {
        return Err(fixed.error), commit;
      }
      if fixed.value.Finish? {
        return Ok(fixed.value.outcome), commit;
      }
      r, commit := PublishFix(key, branch, iid, previous, pending, headBefore, old(log));
    }

    /** The issue is in progress, and its branch checked out. */
    method BeginFix(key: string, branch: string) returns (r: Result<()>)
      requires key in issues && IsBacked()
      modifies this`issues, this`workTree, this`head, this`headCommit, this`base, this`log, this`thrown
      ensures IsBacked() && PassesOn(old(thrown), thrown, r) && OnlyTouches(old(issues), issues, key)
      ensures log.sum.Calls() == old(log).sum.Calls() && log.sum.questions == old(log).sum.questions
      ensures log.sum.rejections == old(log).sum.rejections
      ensures r.Ok? ==> IsInProgress(key) && IsAt(log, branch, headCommit)
    {
      var _ :- MoveTo(key, InProgress, None);
      r := CheckOut(branch);
    }

    /** Codex runs on what is pending until the result validates. */
    method FixPending(key: string) returns (r: Result<Route>)
      requires IsInProgress(key) && IsBacked()
      modifies this`issues, this`workTree, this`head, this`headCommit, this`log, this`thrown
      ensures IsBacked() && Explains(old(thrown), thrown, r) && old(log).events <= log.events
      ensures log.sum.runs <= old(log).sum.runs + config.maxReviewFixAttempts + 1
      ensures log.sum.reviews == old(log).sum.reviews && log.sum.checkout == old(log).sum.checkout
      ensures OnlyTouches(old(issues), issues, key)
      ensures r.Ok? && r.value.Continue? ==>
                && issues == old(issues) && log.sum.vouched == Some(workTree)
                && log.EndsWithValidation() && IsSuccess(log.Last(), config.rules)
                && log.sum.questions == old(log).sum.questions
      ensures r.Ok? && r.value.Finish? ==>
                && r.value.outcome == Waiting && log.events != []
                && IsPaused(issues[key], config.workerId, old(log), log, ThreadOf(log.Last()))
      ensures IsOwnFailure(old(thrown), thrown, r) ==>
                && log.EndsWithValidation() && !IsSuccess(log.Last(), config.rules)
                && log.sum.rejections == old(log).sum.rejections + config.maxReviewFixAttempts + 1
    {
      r := RunFix(key, None, false, |log.events|, None);
      if r.Err? || r.value.Finish? {
        return;
      }
      var validation :- ValidateRepositoryState();
      r := FixUntilValid(key, validation, r.value.thread, config.maxReviewFixAttempts, false);
    }

    /** Commits what is uncommitted, pushes what is new, replies, and puts the cycle on record. */
    method PublishFix(
      key: string, branch: string, iid: int, previous: Option<ReviewMetadata>, pending: seq<Discussion>, headBefore: nat,
      ghost l0: Log)
      returns (r: Result<CycleOutcome>, ghost commit: Option<int>)
      requires key in issues && IsBacked() && log.sum.vouched == Some(workTree)
      requires log.EndsWithValidation() && IsSuccess(log.Last(), config.rules)
      requires IsAt(log, branch, headBefore) && log.sum.questions == l0.sum.questions
      modifies this`issues, this`head, this`headCommit, this`remote, this`replies, this`log, this`thrown
      ensures IsBacked() && Explains(old(thrown), thrown, r) && OthersUntouched(old(issues), issues, key)
      ensures log.sum.Calls() == old(log).sum.Calls()
      ensures r.Ok? ==>
                && r.value == Processed
                && IsFixed(config.workerId, key, branch, iid, previous, pending, issues[key], l0, log, headCommit, r.value)
      ensures IsOwnFailure(old(thrown), thrown, r) ==> GaveUpReviewing(config, l0, log, headCommit)
      ensures WasFixed(config.workerId, key, iid, previous, pending, old(issues[key]), issues[key], old(replies), replies,
                       commit)
    {
      commit := None;
      var pushed := PushFix(branch, headBefore, l0);
      if pushed.Err? {
        return Err(pushed.error), commit;
      }
      var answered;
      answered, commit := AnswerReview(key, iid, previous, pending);
      r := if answered.Ok? then Ok(Processed) else Err(answered.error);
    }

    /** Replies, and puts the cycle on record. */
    method AnswerReview(key: string, iid: int, previous: Option<ReviewMetadata>, pending: seq<Discussion>)
      returns (r: Result<()>, ghost commit: Option<int>)
      requires key in issues
      modifies this`issues, this`replies, this`thrown
      ensures PassesOn(old(thrown), thrown, r) && OthersUntouched(old(issues), issues, key) && key in issues
      ensures r.Ok? ==>
                && issues[key].status == Review && Synced(issues[key])
                && FindLatestReviewMetadata(issues[key].comments, key, iid) ==
                   Some(MergeReviewMetadata(config.workerId, key, iid, previous, pending, headCommit))
      ensures WasFixed(config.workerId, key, iid, previous, pending, old(issues[key]), issues[key], old(replies), replies,
                       commit)
    {
      commit := None;
      var replied := ReplyTo(iid, pending, headCommit);
      if replied.Err? {
        return Err(replied.error), commit;
      }
      var metadata := MergeReviewMetadata(config.workerId, key, iid, previous, pending, headCommit);
      ghost var recorded;
      r, recorded := RecordReviewFix(key, metadata);
      commit := if recorded then Some(headCommit) else None;
    }

    /** A fix without a commit of its own is a failure. */
    method PushFix(branch: string, headBefore: nat, ghost l0: Log) returns (r: Result<()>)
      requires IsBacked() && log.sum.vouched == Some(workTree)
      requires log.EndsWithValidation() && IsSuccess(log.Last(), config.rules)
      requires IsAt(log, branch, headBefore) && log.sum.questions == l0.sum.questions
      modifies this`head, this`headCommit, this`remote, this`log, this`thrown
      ensures IsBacked() && Explains(old(thrown), thrown, r) && log.sum.Calls() == old(log).sum.Calls()
      ensures r.Ok? ==> remote == workTree && IsPushed(log, branch, headCommit) && log.sum.questions == l0.sum.questions
      ensures IsOwnFailure(old(thrown), thrown, r) ==> GaveUpReviewing(config, l0, log, headCommit)
    {
      if workTree != head {
        var _ :- Commit();
      }
      if headCommit == headBefore {
        return Err(Permanent);
      }
      var _ :- Push(branch, false);
      assert EndsWith(log, Pushed(branch, head, false));
      r := Ok(());
    }

    /** One reply to each discussion. */
    method ReplyTo(iid: int, discussions: seq<Discussion>, commit: int) returns (r: Result<()>)
      modifies this`replies, this`thrown
      ensures PassesOn(old(thrown), thrown, r)
      ensures r.Ok? ==> replies == old(replies) + RepliesTo(iid, discussions, commit)
    {
      for i := 0 to |discussions|
        invariant thrown == old(thrown)
        invariant replies == old(replies) + RepliesTo(iid, discussions[..i], commit)
      {
        var _: () :- Ask();
        replies := replies + [Reply(iid, discussions[i].id, commit)];
        assert RepliesTo(iid, discussions[..i + 1], commit) ==
               RepliesTo(iid, discussions[..i], commit) + [Reply(iid, discussions[i].id, commit)];
      }
      assert discussions[..|discussions|] == discussions;
      r := Ok(());
    }

    /** The metadata comment of a cycle, then back to review. */
    method RecordReviewFix(key: string, metadata: ReviewMetadata) returns (r: Result<()>, ghost recorded: bool)
      requires key in issues && metadata.issueKey == key
      modifies this`issues, this`thrown
      ensures PassesOn(old(thrown), thrown, r)
      ensures OthersUntouched(old(issues), issues, key) && issues.Keys == old(issues.Keys)
      ensures KeepsTask(old(issues[key]), issues[key], key)
      ensures ReviewsIn(issues[key].comments) ==
              if recorded then ReviewsIn(old(issues[key]).comments) + [metadata] else ReviewsIn(old(issues[key]).comments)
      ensures r.Ok? ==>
                && recorded
                && issues[key].status == Review && Synced(issues[key])
                && FindLatestReviewMetadata(issues[key].comments, key, metadata.mergeRequestIid) == Some(metadata)
    {
      r, recorded := AddReview(key, metadata);
      if r.Err? {
        return;
      }
      label added:
      r := MoveTo(key, Review, None);
      MovedStatus(old@added(issues)[key], Review, config.workerId, None);
      LatestReviewOfLog(issues[key].comments, key, metadata.mergeRequestIid);
    }

    method AddReview(key: string, metadata: ReviewMetadata) returns (r: Result<()>, ghost recorded: bool)
      requires key in issues
      modifies this`issues, this`thrown
      ensures PassesOn(old(thrown), thrown, r)
      ensures OthersUntouched(old(issues), issues, key) && issues.Keys == old(issues.Keys)
      ensures KeepsTask(old(issues[key]), issues[key], key)
      ensures ReviewsIn(issues[key].comments) ==
              if recorded then ReviewsIn(old(issues[key]).comments) + [metadata] else ReviewsIn(old(issues[key]).comments)
      ensures r.Ok? ==> recorded
    {
      var comment := ReviewComment(config.workerId, metadata);
      ReviewsAppend(issues[key].comments, comment);
      TaskIntake.FingerprintsAppend(issues[key].comments, comment, key);
      r := AddComment(key, comment);
      recorded := issues[key] != old(issues[key]);
    }

    /** src/domain/orchestrator.ts:1511-1569. */
    method FinalizeMergedReview(key: string, comments: seq<Comment>, mr: MergeRequest) returns (r: Result<CycleOutcome>)
      requires key in issues && issues[key].status == Review
      modifies this`issues, this`thrown
      ensures PassesOn(old(thrown), thrown, r)
      ensures OnlyTouches(old(issues), issues, key) && issues.Keys == old(issues.Keys)
      ensures r.Ok? ==>
                if IsNoted(comments, config.workerId, mr.url) then
                  r.value == Idle && issues == old(issues)
                else
                  && r.value == Processed
                  && issues[key] == Commented(old(issues[key]), StatusComment(config.workerId, Review, None, Some(mr.url)))
    {
      var noted := exists c :: c in comments && IsAwaitingTestingComment(c, config.workerId, mr.url);
      assert noted <==> IsNoted(comments, config.workerId, mr.url) by {
        if noted {
          var c :| c in comments && IsAwaitingTestingComment(c, config.workerId, mr.url);
          assert c == StatusComment(config.workerId, Review, c.reason, Some(mr.url));
        }
      }
      if noted {
        return Ok(Idle);
      }
      var _ :- AddComment(key, StatusComment(config.workerId, Review, None, Some(mr.url)));
      r := Ok(Processed);
    }

    // -------------------------------------------------------------------------------------------
    // One issue, start to end
    // -------------------------------------------------------------------------------------------

    /** A comment with the error for people to read. */
    method ReportFailure(key: string) returns (r: Result<()>)
      requires key in issues
      modifies this`issues, this`thrown
      ensures PassesOn(old(thrown), thrown, r)
      ensures OnlyTouches(old(issues), issues, key) && issues.Keys == old(issues.Keys)
    {
      var remark: Remark := *;
      r := AddComment(key, PlainComment(false, None, remark));
    }

    /** src/domain/orchestrator.ts:2658-2693: failed, or waiting if a call throws on the way. */
    method FinalizeFailure(key: string) returns (r: Result<()>)
      requires key in issues
      modifies this`issues, this`thrown
      ensures old(thrown) <= thrown
      ensures OnlyTouches(old(issues), issues, key) && issues.Keys == old(issues.Keys)
      ensures r.Ok? ==>
                || (issues[key].status == Status.Failed && Synced(issues[key]))
                || (IsHeld(issues[key]) && thrown != old(thrown))
      ensures r.Err? ==> thrown != old(thrown) && thrown[|thrown| - 1] == r.error
    {
      var _ :- ReportFailure(key);
      label noted:
      var failed := MoveTo(key, Status.Failed, None);
      MovedStatus(old@noted(issues)[key], Status.Failed, config.workerId, None);
      TouchedTwice(old(issues), old@noted(issues), issues, key);
      if failed.Ok? {
        return Ok(());
      }
      label refused:
      r := MoveTo(key, WaitingForAnswer, Some(FailureRecovery));
      MovedStatus(old@refused(issues)[key], WaitingForAnswer, config.workerId, Some(FailureRecovery));
      TouchedTwice(old(issues), old@refused(issues), issues, key);
    }

    /** The path an issue takes by its status. */
    method FollowStatus(key: string, comments: seq<Comment>, gitlab: GitLab)
      returns (r: Result<CycleOutcome>, ghost record: Option<ReviewRecord>)
      requires key in issues && IsProcessable(issues[key].status) && IsBacked()
      modifies this
      ensures IsBacked() && Explains(old(thrown), thrown, r) && OthersUntouched(old(issues), issues, key)
      ensures log.sum.Calls() <= old(log).sum.Calls() + CodexBudget(config, old(issues[key].status))
      ensures r.Ok? ==> IsEnd(config, key, comments, gitlab, old(issues), issues, old(log), log, headCommit, r.value)
      ensures r.Ok? ==> EndsWell(old(issues[key]), issues[key], r.value, config.workerId)
      ensures r == Ok(Idle) ==> issues == old(issues)
      ensures IsOwnFailure(old(thrown), thrown, r) ==> GaveUp(config, key, old(issues[key]), old(log), log, headCommit)
      ensures Records(config.workerId, key, comments, old(issues[key]), issues[key], record)
      ensures KeepsTask(old(issues[key]), issues[key], key)
      ensures record.Some? ==>
                replies == old(replies) + RepliesTo(record.value.iid, ShownBy(record.value, key, comments), record.value.commit)
    {
      if issues[key].status == Review {
        r, record := HandleReviewFeedback(key, comments, gitlab);
        if r.Ok? {
          ReviewedEndsWell(config, key, comments, gitlab, old(issues[key]), issues[key], old(log), log, headCommit, r.value);
        }
        return;
      }
      record := None;
      r := FollowRoute(key, comments);
    }

    /** The path of an issue that is not in review. */
    method FollowRoute(key: string, comments: seq<Comment>) returns (r: Result<CycleOutcome>)
      requires key in issues && IsProcessable(issues[key].status) && issues[key].status != Review && IsBacked()
      modifies this`issues, this`links, this`asked, this`workTree, this`head, this`headCommit, this`base, this`remote,
        this`log, this`thrown
      ensures IsBacked() && Explains(old(thrown), thrown, r) && OnlyTouches(old(issues), issues, key)
      ensures log.sum.Calls() <= old(log).sum.Calls() + CodexBudget(config, old(issues[key].status))
      ensures r.Ok? ==> IsRoutedEnd(config, key, comments, old(issues), issues, old(log), log, r.value)
      ensures r.Ok? ==> r.value != Idle && EndsWell(old(issues[key]), issues[key], r.value, config.workerId)
      ensures IsOwnFailure(old(thrown), thrown, r) ==>
                GaveUpImplementing(config, old(log), log) || GaveUpDecomposing(config, key, old(issues[key]).source, log)
    {
      var route :- PrepareTask(key, comments);
      if route.Finish? {
        return Ok(route.outcome);
      }
      label prepared:
      ghost var prepared := log;
      r := ImplementTask(key, route.thread);
      TouchedTwice(old(issues), old@prepared(issues), issues, key);
      if r.Ok? {
        ImplementedEndsWell(config, key, route.thread, old(issues[key]), issues[key], prepared, log, r.value);
      }
    }

    /** src/domain/orchestrator.ts:897-915: the images of the issue are fetched before, and cleaned up after. */
    method ProcessIssue(key: string, comments: seq<Comment>, gitlab: GitLab)
      returns (r: Result<CycleOutcome>, ghost record: Option<ReviewRecord>)
      requires key in issues && IsProcessable(issues[key].status) && IsBacked()
      modifies this
      ensures IsBacked() && OthersUntouched(old(issues), issues, key)
      ensures log.sum.Calls() <= old(log).sum.Calls() + CodexBudget(config, old(issues[key].status))
      ensures IsProcessedAs(config, key, comments, gitlab, old(issues), issues, old(log), log, headCommit, old(thrown),
                            thrown, r)
      ensures r.Ok? ==> EndsWell(old(issues[key]), issues[key], r.value, config.workerId)
      ensures r == Ok(Idle) ==> issues == old(issues)
      ensures Records(config.workerId, key, comments, old(issues[key]), issues[key], record)
      ensures KeepsTask(old(issues[key]), issues[key], key)
      ensures record.Some? ==>
                replies == old(replies) + RepliesTo(record.value.iid, ShownBy(record.value, key, comments), record.value.commit)
    {
      record := None;
      var images: Result<()> := Ask();
      if images.Err? {
        return Err(images.error), record;
      }
      r, record := FollowStatus(key, comments, gitlab);
      var cleanup: Result<()> := Ask();
      if cleanup.Err? {
        r := Err(cleanup.error);
      }
    }

    /** What is made of how processing ended: a temporary exception waits, a permanent one is put on record. */
    method Settle(key: string, processed: Result<CycleOutcome>) returns (r: Result<CycleOutcome>)
      requires key in issues
      modifies this`issues, this`thrown
      ensures OnlyTouches(old(issues), issues, key) && old(thrown) <= thrown
      ensures processed.Ok? ==> r == processed && issues == old(issues) && thrown == old(thrown)
      ensures processed == Err(Temporary) ==> r == Ok(Waiting) && issues == old(issues) && thrown == old(thrown)
      ensures processed == Err(Permanent) ==> IsRecorded(issues[key], old(thrown), thrown, r)
    {
      match processed {
        case Ok(outcome) =>
          r := Ok(outcome);
        case Err(Temporary) =>
          r := Ok(Waiting);
        case Err(Permanent) =>
          var finalized := FinalizeFailure(key);
          r := if finalized.Ok? then Ok(Processed) else Err(finalized.error);
      }
    }

    /** src/domain/orchestrator.ts:862-895. `run` is all there is to know about it. */
    method HandleIssue(key: string, comments: seq<Comment>, gitlab: GitLab)
      returns (r: Result<CycleOutcome>, ghost record: Option<ReviewRecord>, ghost run: RunRecord)
      requires key in issues && IsProcessable(issues[key].status) && IsBacked()
      modifies this
      ensures IsBacked() && OthersUntouched(old(issues), issues, key)
      ensures log.sum.Calls() <= old(log).sum.Calls() + CodexBudget(config, old(issues[key].status))
      ensures IsRun(config, run)
      ensures run.key == key && run.comments == comments && run.gitlab == gitlab && run.outcome == r
      ensures run.before == old(issues) && run.after == issues && run.l0 == old(log) && run.l1 == log
      ensures run.thrown0 == old(thrown) && run.thrown1 == thrown && run.headCommit == headCommit
      ensures r.Ok? && !IsCutShort(run) ==> Finished(old(issues[key]), issues[key], r.value, config.workerId)
      ensures r == Ok(Idle) ==> issues == old(issues)
      ensures Records(config.workerId, key, comments, old(issues[key]), issues[key], record)
      ensures KeepsTask(old(issues[key]), issues[key], key)
      ensures record.Some? ==>
                replies == old(replies) + RepliesTo(record.value.iid, ShownBy(record.value, key, comments), record.value.commit)
    {
      var processed;
      processed, record := ProcessIssue(key, comments, gitlab);
      ghost var mid, thrownMid := issues, thrown;
      r := Settle(key, processed);
      run := RunRecord(key, comments, gitlab, old(issues), mid, issues, old(log), log, old(thrown), thrownMid, thrown,
                       headCommit, processed, r);
    }

    // -------------------------------------------------------------------------------------------
    // One cycle without a target issue
    // -------------------------------------------------------------------------------------------

    /** src/domain/orchestrator.ts:784-815: the first listed issue this worker owns. */
    method ResumeOwnedTask(listing: seq<string>) returns (r: Option<string>)
      requires forall k :: k in listing ==> k in issues && IsOwnedStatus(issues[k].status)
      ensures IsFirstOwnable(listing, issues, config.workerId, r)
    {
      for i := 0 to |listing|
        invariant forall j :: 0 <= j < i ==> !IsOwnable(issues[listing[j]], config.workerId)
      {
        var issue := issues[listing[i]];
        if IsResumableBy(issue.comments, config.workerId) {
          return Some(listing[i]);
        }
        if issue.status == Review && IsReviewOwnedBy(issue.comments, config.workerId) {
          return Some(listing[i]);
        }
      }
      r := None;
    }

    /** src/domain/orchestrator.ts:817-860: the first open issue whose dependencies are done and that no other
        worker is busy with. */
    method PickNextTask(listing: seq<string>, eligible: string -> bool) returns (r: Option<string>)
      requires forall k :: k in listing ==> k in issues
      ensures IsFirstPick(listing, issues, eligible, config.workerId, r)
    {
      for i := 0 to |listing|
        invariant forall j :: 0 <= j < i ==> !CanPick(issues[listing[j]], eligible(listing[j]), config.workerId)
      {
        var issue := issues[listing[i]];
        if issue.status != Open {
          continue;
        }
        if !eligible(listing[i]) {
          continue;
        }
        if !IsBusyByAnotherWorker(issue.comments, config.workerId) {
          return Some(listing[i]);
        }
      }
      r := None;
    }

    /** The first listed issue whose latest review saw another version of it. */
    method PickTaskIntakeReviewCandidate(candidates: seq<string>) returns (r: Option<string>)
      requires forall k :: k in candidates ==> k in issues
      ensures IsFirstToReview(candidates, issues, fingerprint, r)
    {
      for i := 0 to |candidates|
        invariant forall j :: 0 <= j < i ==> !NeedsReview(issues[candidates[j]], candidates[j], fingerprint)
      {
        if NeedsReview(issues[candidates[i]], candidates[i], fingerprint) {
          return Some(candidates[i]);
        }
      }
      r := None;
    }

    /** src/domain/orchestrator.ts:515-766: picks an open issue whose source changed, asks for its lease, and
        reviews it while people go on editing it. */
    method RunTaskIntakeReviewOnce(a: IntakeAnswers)
      returns (r: Result<CycleOutcome>, ghost review: Option<(string, TaskIntake.Shown)>)
      requires IsOpenListing(a.listing, issues)
      modifies this`issues
      ensures IsIntake(fingerprint, old(issues), issues, review)
      ensures IsIntakeOutcome(fingerprint, a, old(issues), issues, review, r)
    {
      review := None;
      if a.listing.Err? {
        return Err(a.listing.error), review;
      }
      var picked := PickTaskIntakeReviewCandidate(a.listing.value);
      if picked.None? {
        r := Ok(Idle);
      } else if a.lease != Ok(true) {
        r := if a.lease.Err? then Err(a.lease.error) else Ok(Waiting);
      } else {
        r, review := ReviewIssue(picked.value, a);
      }
      assert IsIntakeOf(a, picked, old(issues), issues, review, r);
    }

    /** The review of a picked issue, and the renewal of its lease. */
    method ReviewIssue(key: string, a: IntakeAnswers)
      returns (r: Result<CycleOutcome>, ghost review: Option<(string, TaskIntake.Shown)>)
      requires key in issues && issues[key].status == Open && a.lease == Ok(true)
      requires NeedsReview(issues[key], key, fingerprint)
      modifies this`issues
      ensures IsIntake(fingerprint, old(issues), issues, review)
      ensures IsIntakeOf(a, Some(key), old(issues), issues, review, r)
    {
      var reviewer := new TaskIntake.IntakeReviewer(
        config.workerId, key, fingerprint, issues[key].source, issues[key].comments);
      ghost var shown;
      var outcome;
      outcome, shown := reviewer.ReviewPicked(a.eligible, a.quiet, a.codex, a.post);
      issues := issues[key := issues[key].(source := reviewer.source, comments := reviewer.comments)];
      review := if shown.Some? then Some((key, shown.value)) else None;
      r := match outcome
        case Err(e) => Err(e)
        case Ok(done) =>
          if a.heartbeat.Err? then Err(a.heartbeat.error)
          else Ok(if done == TaskIntake.Processed then Processed else Idle);
    }

    /** The leases around `handleIssue`: a failed renewal turns the outcome into an error. */
    method ProcessSelectedIssue(key: string, comments: seq<Comment>, gitlab: GitLab)
      returns (r: Result<CycleOutcome>, ghost record: Option<ReviewRecord>, ghost handled: Handled)
      requires key in issues && IsProcessable(issues[key].status) && IsBacked() && comments == issues[key].comments
      modifies this
      ensures IsBacked() && OthersUntouched(old(issues), issues, key)
      ensures IsHandled(config, handled, key, gitlab, old(issues), issues) && r == handled.result
      ensures r == Ok(Idle) ==> issues == old(issues)
      ensures log.sum.Calls() <= old(log).sum.Calls() + CodexBudget(config, old(issues[key].status))
      ensures Records(config.workerId, key, comments, old(issues[key]), issues[key], record)
      ensures KeepsTask(old(issues[key]), issues[key], key)
    {
      var outcome;
      ghost var run;
      outcome, record, run := HandleIssue(key, comments, gitlab);
      var heartbeat: Result<()> := Ask();
      r := if outcome.Ok? && heartbeat.Err? then Err(heartbeat.error) else outcome;
      handled := Handled(run, heartbeat, r);
    }

    /** src/domain/orchestrator.ts:294-341 without a target issue. `did` is what the cycle did. Holds for every way
        the cycle can end, exceptions included. */
    method RunOnce(a: CycleAnswers) returns (r: Result<CycleOutcome>, ghost did: CycleLog)
      requires IsBacked() && AreListings(a, issues)
      modifies this
      ensures IsBacked()
      ensures IsCycle(config.workerId, fingerprint, old(issues), issues, did) && ArePicked(did.picked, did.runs)
      ensures IsCycleOutcome(config, fingerprint, a, old(issues), issues, did, r)
    {
      did := CycleLog([], [], None, None, None);
      if a.owned.Err? {
        return Err(a.owned.error), did;
      }
      var task := ResumeOwnedTask(a.owned.value);
      if task.None? {
        r, did := RunNext(a, [], []);
        assert did.runs[0..] == did.runs;
      } else if a.ownedLease != Ok(true) {
        r := if a.ownedLease.Err? then Err(a.ownedLease.error) else Ok(Waiting);
      } else {
        r, did := RunOwned(a, task.value);
      }
      assert IsOwnedOutcome(config, fingerprint, a, task, old(issues), issues, did, r);
    }

    /** The owned issue; after an idle review, the second half of the cycle. */
    method RunOwned(a: CycleAnswers, key: string) returns (r: Result<CycleOutcome>, ghost did: CycleLog)
      requires IsBacked() && AreListings(a, issues) && a.ownedLease == Ok(true)
      requires key in issues && IsOwnable(issues[key], config.workerId)
      modifies this
      ensures IsBacked()
      ensures IsCycle(config.workerId, fingerprint, old(issues), issues, did) && ArePicked(did.picked, did.runs)
      ensures IsOwnedOutcome(config, fingerprint, a, Some(key), old(issues), issues, did, r)
    {
      var wasReview := issues[key].status == Review;
      ghost var record, handled;
      r, record, handled := ProcessSelectedIssue(key, issues[key].comments, a.gitlab);
      if r == Ok(Idle) && wasReview {
        r, did := RunNext(a, [key], [handled]);
      } else {
        did := CycleLog([key], [handled], None, if record.Some? then Some((key, record.value)) else None, None);
        RunIsCycle(config.workerId, fingerprint, old(issues), old(issues), issues, key, [key], [handled], None, record);
      }
    }

    /** The second half of a cycle: an intake review, or the next task. */
    method RunNext(a: CycleAnswers, ghost resumed: seq<string>, ghost runs: seq<Handled>)
      returns (r: Result<CycleOutcome>, ghost did: CycleLog)
      requires IsBacked() && AreListings(a, issues) && AreSelectable(resumed, issues, config.workerId)
      requires ArePicked(resumed, runs)
      modifies this
      ensures IsBacked()
      ensures IsCycle(config.workerId, fingerprint, old(issues), issues, did)
      ensures ArePicked(did.picked, did.runs) && runs <= did.runs
      ensures IsNextOutcome(config, fingerprint, a, old(issues), issues, did.runs[|runs|..], did.intake, did.review, r)
    {
      ghost var intake: Option<IntakeLog> := None;
      if config.intakeReviewEnabled {
        ghost var review;
        r, review := RunTaskIntakeReviewOnce(a.intake);
        intake := Some(IntakeLog(issues, r));
        if r != Ok(Idle) {
          did := CycleLog(resumed, runs, intake, None, review);
          IntakeIsCycle(config.workerId, fingerprint, old(issues), issues, resumed, runs, intake, review);
          return;
        }
      }
      r, did := RunPick(a, resumed, runs, intake, old(issues));
    }

    /** The next task, after an intake review that left nothing. */
    method RunPick(
      a: CycleAnswers, ghost resumed: seq<string>, ghost runs: seq<Handled>, ghost intake: Option<IntakeLog>,
      ghost before: map<string, Issue>)
      returns (r: Result<CycleOutcome>, ghost did: CycleLog)
      requires IsBacked() && (a.listing.Ok? ==> forall k :: k in a.listing.value ==> k in issues)
      requires IsIntake(fingerprint, before, issues, None) && AreSelectable(resumed, before, config.workerId)
      requires ArePicked(resumed, runs)
      modifies this
      ensures IsBacked()
      ensures IsCycle(config.workerId, fingerprint, before, issues, did)
      ensures ArePicked(did.picked, did.runs) && runs <= did.runs && did.intake == intake && did.review.None?
      ensures IsPickOutcome(config, a, old(issues), issues, did.runs[|runs|..], r)
    {
      did := CycleLog(resumed, runs, intake, None, None);
      IntakeIsCycle(config.workerId, fingerprint, before, issues, resumed, runs, intake, None);
      if a.listing.Err? {
        return Err(a.listing.error), did;
      }
      var next := PickNextTask(a.listing.value, a.eligible);
      if next.None? {
        r := Ok(Idle);
      } else if a.lease != Ok(true) {
        r := if a.lease.Err? then Err(a.lease.error) else Ok(Waiting);
      } else {
        r, did := RunPicked(a, next.value, resumed, runs, intake, before);
      }
      assert IsRunOf(config, a, next, old(issues), issues, did.runs[|runs|..], r);
    }

    /** The run over the task that was picked. */
    method RunPicked(
      a: CycleAnswers, key: string, ghost resumed: seq<string>, ghost runs: seq<Handled>, ghost intake: Option<IntakeLog>,
      ghost before: map<string, Issue>)
      returns (r: Result<CycleOutcome>, ghost did: CycleLog)
      requires IsBacked() && key in issues && issues[key].status == Open && a.lease == Ok(true)
      requires IsIntake(fingerprint, before, issues, None) && AreSelectable(resumed, before, config.workerId)
      requires ArePicked(resumed, runs)
      modifies this
      ensures IsBacked()
      ensures IsCycle(config.workerId, fingerprint, before, issues, did)
      ensures ArePicked(did.picked, did.runs) && runs <= did.runs && did.intake == intake && did.review.None?
      ensures IsRunOf(config, a, Some(key), old(issues), issues, did.runs[|runs|..], r)
    {
      assert IsIntakeOn(fingerprint, key, before[key], issues[key], None);
      ghost var record, handled;
      r, record, handled := ProcessSelectedIssue(key, issues[key].comments, a.gitlab);
      did := CycleLog(resumed + [key], runs + [handled], intake,
                      if record.Some? then Some((key, record.value)) else None, None);
      RunIsCycle(config.workerId, fingerprint, before, old(issues), issues, key, did.picked, did.runs, intake, record);
      assert did.runs[|runs|..] == [handled];
    }
  }
}
