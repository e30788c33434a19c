/** src/domain/projectManager/orchestrator.ts: one replanning run, from the snapshot to the completed goals. */
module ProjectManager {
  import opened Common
  import opened Text
  import opened ProjectTypes
  import opened GoalStore
  import opened ReplanSnapshot
  import opened AnalysisPolicy

  // ---------------------------------------------------------------------------------------------
  // Which goals may be completed
  // ---------------------------------------------------------------------------------------------

  /** What the run sees: an active goal with links, all of them leading to tasks that are done. */
  ghost predicate LooksFinished(e: GoalEntry) {
    && e.goal.status == Active
    && e.taskLinks != []
    && forall l :: l in e.taskLinks ==> exists t :: t in e.linkedTasks && t.id == l.taskId && t.status == TaskDone
  }

  /** What it means: the repository's goal is active, has a link, and every link leads to a task of the
      repository that exists and is done. */
  ghost predicate IsFinished(s: Store, tasks: map<string, TaskRecord>, repositoryName: string, id: string) {
    && id in s.goals && s.goals[id].repositoryName == repositoryName && s.goals[id].status == Active
    && (exists l :: l in s.links && l.goalId == id)
    && forall l :: l in s.links && l.goalId == id ==>
         var task := LookUp(tasks, repositoryName, l.taskId);
         task.Some? && task.value.status == TaskDone
  }

  ghost function FinishedIds(entries: seq<GoalEntry>): set<string> {
    set e | e in entries && LooksFinished(e) :: e.id
  }

  lemma {:induction false} TasksOfFinds(
    links: seq<GoalTaskLink>, tasks: map<string, TaskRecord>, repositoryName: string, id: string, t: TaskRecord)
    requires IsTracker(tasks)
    ensures t in TasksOf(links, tasks, repositoryName) && t.id == id <==>
            LookUp(tasks, repositoryName, id) == Some(t) && exists l :: l in links && l.taskId == id
  {
    if links != [] {
      var n := |links| - 1;
      TasksOfFinds(links[..n], tasks, repositoryName, id, t);
      assert links == links[..n] + [links[n]];
      assert forall l :: l in links <==> l in links[..n] || l == links[n];
    }
  }

  /** The snapshot's view of what is finished is right: a missing task, or one of another repository, keeps
      its goal open. */
  lemma FinishedIffLooksFinished(
    entries: seq<GoalEntry>, s: Store, tasks: map<string, TaskRecord>, repositoryName: string, id: string)
    requires IsTracker(tasks) && Shows(entries, s, tasks, repositoryName)
    ensures id in FinishedIds(entries) <==> IsFinished(s, tasks, repositoryName, id)
  {
    if id in s.goals && IsUnderWay(s.goals[id], repositoryName) {
      var e :| e in entries && e.id == id;
      forall l | l in e.taskLinks
        ensures (exists t :: t in e.linkedTasks && t.id == l.taskId && t.status == TaskDone) <==>
                var task := LookUp(tasks, repositoryName, l.taskId); task.Some? && task.value.status == TaskDone
      {
        forall t ensures t in e.linkedTasks && t.id == l.taskId <==> LookUp(tasks, repositoryName, l.taskId) == Some(t) {
          TasksOfFinds(e.taskLinks, tasks, repositoryName, l.taskId, t);
        }
      }
      assert e.taskLinks != [] <==> exists l :: l in s.links && l.goalId == id by {
        if e.taskLinks != [] { assert e.taskLinks[0] in e.taskLinks; }
      }
      forall f | f in entries && f.id == id ensures f == e {
      }
      assert LooksFinished(e) <==> IsFinished(s, tasks, repositoryName, id);
    }
  }

  // ---------------------------------------------------------------------------------------------
  // The loop over the classifications
  // ---------------------------------------------------------------------------------------------

  datatype Progress = Progress(store: Store, failed: bool)

  /** Record the classification, then complete the goal when told to and `finished` allows it. */
  function ApplyReplan(s: Store, replan: GoalReplan, finished: set<string>): Progress {
    var recorded := RecordReplan(s, replan);
    if replan.goalId !in s.goals then Progress(s, true)
    else if replan.decision == MarkCompleted && replan.goalId in finished then
      Progress(MoveGoal(recorded, replan.goalId, Completed), !CanMove(recorded, replan.goalId, Completed))
    else Progress(recorded, false)
  }

  function ApplyReplans(s: Store, replans: seq<GoalReplan>, finished: set<string>): Progress {
    if replans == [] then Progress(s, false)
    else
      var before := ApplyReplans(s, replans[..|replans| - 1], finished);
      if before.failed then before else ApplyReplan(before.store, replans[|replans| - 1], finished)
  }

  predicate Completes(replans: seq<GoalReplan>, finished: set<string>, id: string) {
    id in finished && exists p :: p in replans && p.goalId == id && p.decision == MarkCompleted
  }

  predicate Mentions(replans: seq<GoalReplan>, id: string) {
    exists p :: p in replans && p.goalId == id
  }

  predicate IsReplanEvent(e: AuditEvent) {
    e.GoalClassified? || e.GoalCompleted?
  }

  /** What the loop does to one goal, at whichever classification it stops. */
  ghost predicate GoalAfterLoop(s: Store, s': Store, replans: seq<GoalReplan>, finished: set<string>, id: string)
    requires id in s.goals
  {
    && id in s'.goals && id in s.events && id in s'.events
    && (s'.goals[id] == s.goals[id]
        || (s.goals[id].status == Active && Completes(replans, finished, id)
            && s'.goals[id] == s.goals[id].(status := Completed)))
    && s.events[id] <= s'.events[id]
    && (forall i :: |s.events[id]| <= i < |s'.events[id]| ==> IsReplanEvent(s'.events[id][i]))
    && (!Mentions(replans, id) ==> s'.events[id] == s.events[id])
  }

  lemma ReplanStep(s: Store, replan: GoalReplan, finished: set<string>, id: string)
    requires id in s.goals && s.events.Keys == s.goals.Keys
    ensures var s' := ApplyReplan(s, replan, finished).store;
            && s'.goals.Keys == s.goals.Keys && s'.events.Keys == s.events.Keys
            && (id != replan.goalId ==> s'.goals[id] == s.goals[id] && s'.events[id] == s.events[id])
            && (s'.goals[id] == s.goals[id]
                || (s.goals[id].status == Active && Completes([replan], finished, id)
                    && s'.goals[id] == s.goals[id].(status := Completed)))
            && (s'.events[id] == s.events[id] || s'.events[id] == s.events[id] + [GoalClassified(replan)]
                || s'.events[id] == s.events[id] + [GoalClassified(replan)] + [GoalCompleted])
  {
    assert replan in [replan];
  }

  /** One more classification on top of what the loop did so far. */
  lemma LoopStep(s: Store, s': Store, init: seq<GoalReplan>, last: GoalReplan, finished: set<string>, id: string)
    requires id in s.goals && GoalAfterLoop(s, s', init, finished, id) && s'.events.Keys == s'.goals.Keys
    ensures GoalAfterLoop(s, ApplyReplan(s', last, finished).store, init + [last], finished, id)
  {
    ReplanStep(s', last, finished, id);
    MoreReplans(init, last, finished, id);
  }

  lemma {:induction false} LoopEffect(s: Store, replans: seq<GoalReplan>, finished: set<string>, id: string)
    requires id in s.goals && s.events.Keys == s.goals.Keys
    ensures var p := ApplyReplans(s, replans, finished);
            && GoalAfterLoop(s, p.store, replans, finished, id)
            && p.store.goals.Keys == s.goals.Keys && p.store.events.Keys == s.events.Keys
  {
    if replans != [] {
      var n := |replans| - 1;
      var init, last := replans[..n], replans[n];
      LoopEffect(s, init, finished, id);
      assert replans == init + [last];
      var before := ApplyReplans(s, init, finished);
      if before.failed {
        MoreReplans(init, last, finished, id);
      } else {
        LoopStep(s, before.store, init, last, finished, id);
        ReplanStep(before.store, last, finished, id);
      }
    }
  }

  lemma MoreReplans(replans: seq<GoalReplan>, p: GoalReplan, finished: set<string>, id: string)
    ensures Completes(replans + [p], finished, id) <==> Completes(replans, finished, id) || Completes([p], finished, id)
    ensures Mentions(replans + [p], id) <==> Mentions(replans, id) || p.goalId == id
  {
    assert forall q :: q in replans + [p] <==> q in replans || q in [p];
    assert p in replans + [p];
  }

  /** While nothing failed, a goal is completed exactly when a finished one was told to be. */
  lemma {:induction false} LoopCompletes(s: Store, replans: seq<GoalReplan>, finished: set<string>, id: string)
    requires id in s.goals && s.goals[id].status == Active && id in finished
    requires !ApplyReplans(s, replans, finished).failed
    ensures var p := ApplyReplans(s, replans, finished);
            id in p.store.goals
            && p.store.goals[id].status == if Completes(replans, finished, id) then Completed else Active
  {
    if replans != [] {
      var n := |replans| - 1;
      LoopCompletes(s, replans[..n], finished, id);
      assert replans == replans[..n] + [replans[n]];
      assert forall p :: p in replans <==> p in replans[..n] || p == replans[n];
    }
  }

  function ClassificationsIn(events: seq<AuditEvent>): seq<GoalReplan> {
    if events == [] then []
    else
      var rest := ClassificationsIn(events[..|events| - 1]);
      match events[|events| - 1]
      case GoalClassified(p) => rest + [p]
      case _ => rest
  }

  function ReplansFor(replans: seq<GoalReplan>, id: string): seq<GoalReplan> {
    if replans == [] then []
    else
      var rest := ReplansFor(replans[..|replans| - 1], id);
      if replans[|replans| - 1].goalId == id then rest + [replans[|replans| - 1]] else rest
  }

  lemma ClassificationsAppend(events: seq<AuditEvent>, e: AuditEvent)
    ensures ClassificationsIn(events + [e]) ==
            if e.GoalClassified? then ClassificationsIn(events) + [e.replan] else ClassificationsIn(events)
  {
    assert (events + [e])[..|events|] == events;
  }

  lemma ReplanIsRecorded(s: Store, replan: GoalReplan, finished: set<string>)
    requires replan.goalId in s.goals && replan.goalId in s.events
    ensures ClassificationsIn(ApplyReplan(s, replan, finished).store.events[replan.goalId]) ==
            ClassificationsIn(s.events[replan.goalId]) + [replan]
  {
    ClassificationsAppend(s.events[replan.goalId], GoalClassified(replan));
    ClassificationsAppend(s.events[replan.goalId] + [GoalClassified(replan)], GoalCompleted);
  }

  /** A loop that does not fail leaves every classification of a goal in its history, in order, and no other. */
  lemma {:induction false} LoopRecordsAll(s: Store, replans: seq<GoalReplan>, finished: set<string>, id: string)
    requires id in s.goals && s.events.Keys == s.goals.Keys
    requires !ApplyReplans(s, replans, finished).failed
    ensures var s' := ApplyReplans(s, replans, finished).store;
            id in s'.events && ClassificationsIn(s'.events[id]) == ClassificationsIn(s.events[id]) + ReplansFor(replans, id)
  {
    LoopEffect(s, replans, finished, id);
    if replans != [] {
      var init, last := replans[..|replans| - 1], replans[|replans| - 1];
      LoopRecordsAll(s, init, finished, id);
      LoopEffect(s, init, finished, id);
      var before := ApplyReplans(s, init, finished).store;
      if last.goalId == id {
        ReplanIsRecorded(before, last, finished);
      } else {
        ReplanStep(before, last, finished, id);
      }
    }
  }

  /** Two classifications complete the same finished goal. */
  ghost predicate CompletesTwice(replans: seq<GoalReplan>, finished: set<string>) {
    exists i, j :: 0 <= i < j < |replans| && CompletesBoth(replans[i], replans[j], finished)
  }

  predicate CompletesBoth(a: GoalReplan, b: GoalReplan, finished: set<string>) {
    a.goalId == b.goalId && a.goalId in finished && a.decision == MarkCompleted && b.decision == MarkCompleted
  }

  lemma CompletesTwiceAppend(replans: seq<GoalReplan>, p: GoalReplan, finished: set<string>)
    ensures CompletesTwice(replans + [p], finished) <==>
            CompletesTwice(replans, finished) || (p.decision == MarkCompleted && Completes(replans, finished, p.goalId))
  {
    var all := replans + [p];
    if CompletesTwice(replans, finished) {
      var i, j :| 0 <= i < j < |replans| && CompletesBoth(replans[i], replans[j], finished);
      assert CompletesBoth(all[i], all[j], finished);
    }
    if p.decision == MarkCompleted && Completes(replans, finished, p.goalId) {
      var q :| q in replans && q.goalId == p.goalId && q.decision == MarkCompleted;
      var i :| 0 <= i < |replans| && replans[i] == q;
      assert CompletesBoth(all[i], all[|replans|], finished);
    }
    if CompletesTwice(all, finished) {
      var i, j :| 0 <= i < j < |all| && CompletesBoth(all[i], all[j], finished);
      if j < |replans| {
        assert CompletesBoth(replans[i], replans[j], finished);
      } else {
        assert replans[i] in replans;
      }
    }
  }

  /** A replan that passed the policy fails in the loop exactly when it completes a finished goal twice: the
      second `completeGoal` throws, with the goal already completed. */
  lemma {:induction false} LoopFailsIff(s: Store, replans: seq<GoalReplan>, finished: set<string>)
    requires s.events.Keys == s.goals.Keys
    requires forall p :: p in replans ==> p.goalId in s.goals
    requires forall id :: id in finished ==> id in s.goals && s.goals[id].status == Active
    ensures ApplyReplans(s, replans, finished).failed <==> CompletesTwice(replans, finished)
  {
    if replans != [] {
      var n := |replans| - 1;
      var init, last := replans[..n], replans[n];
      assert replans == init + [last];
      assert forall p :: p in init ==> p in replans;
      LoopFailsIff(s, init, finished);
      CompletesTwiceAppend(init, last, finished);
      assert last in replans;
      LoopEffect(s, init, finished, last.goalId);
      if !ApplyReplans(s, init, finished).failed && last.goalId in finished {
        LoopCompletes(s, init, finished, last.goalId);
      }
    }
  }

  // ---------------------------------------------------------------------------------------------
  // What one run may do to the store
  // ---------------------------------------------------------------------------------------------

  /** A goal that was there before the run: untouched, or classified, or completed when it is finished. */
  ghost predicate OldGoalReplanned(
    before: Store, after: Store, tasks: map<string, TaskRecord>, repositoryName: string, id: string)
    requires id in before.goals && id in before.events
  {
    && id in after.goals && id in after.events
    && (after.goals[id] == before.goals[id]
        || (IsFinished(before, tasks, repositoryName, id)
            && after.goals[id] == before.goals[id].(status := Completed)))
    && before.events[id] <= after.events[id]
    && (forall i :: |before.events[id]| <= i < |after.events[id]| ==> IsReplanEvent(after.events[id][i]))
    && (after.events[id] != before.events[id] ==> IsUnderWay(before.goals[id], repositoryName))
  }

  /** Holds after every run, successful or not. */
  ghost predicate IsReplanned(
    before: Store, after: Store, tasks: map<string, TaskRecord>, repositoryName: string, maxGoalsPerRun: int)
  {
    && before.order <= after.order
    && (|after.order| > |before.order| ==> |after.order| - |before.order| <= maxGoalsPerRun)
    && after.links == before.links
    && (forall id :: id in before.goals ==> id in before.events && OldGoalReplanned(before, after, tasks, repositoryName, id))
    && (forall id :: id in after.goals && id !in before.goals ==> NewGoalReplanned(after, repositoryName, id))
  }

  ghost predicate NewGoalReplanned(after: Store, repositoryName: string, id: string) {
    && id in after.goals && after.goals[id].repositoryName == repositoryName && after.goals[id].status == Proposed
    && id in after.events && after.events[id] == [GoalCreated]
  }

  /** Creating a batch touches no goal that was there. */
  ghost predicate OnlyAdds(s: Store, s': Store, repositoryName: string, id: string) {
    && (id in s.goals ==> id in s'.goals && s'.goals[id] == s.goals[id]
                          && id in s'.events && id in s.events && s'.events[id] == s.events[id])
    && (id in s'.goals && id !in s.goals ==>
          s'.goals[id].repositoryName == repositoryName && s'.goals[id].status == Proposed
          && id in s'.events && s'.events[id] == [GoalCreated])
  }

  lemma CreateOnlyAdds(s: Store, repositoryName: string, draft: GoalDraft, env: Env, id: string)
    requires s.events.Keys == s.goals.Keys && env.IsFresh()
    ensures OnlyAdds(s, CreateGoal(s, repositoryName, draft, env), repositoryName, id)
    ensures CreateGoal(s, repositoryName, draft, env).events.Keys == CreateGoal(s, repositoryName, draft, env).goals.Keys
  {
    assert env.newId(s.goals.Keys) !in s.goals.Keys;
  }

  lemma {:induction false} CreateGoalsOnlyAdds(s: Store, repositoryName: string, drafts: seq<GoalDraft>, env: Env, id: string)
    requires s.events.Keys == s.goals.Keys && env.IsFresh()
    ensures OnlyAdds(s, CreateGoals(s, repositoryName, drafts, env), repositoryName, id)
    ensures CreateGoals(s, repositoryName, drafts, env).events.Keys == CreateGoals(s, repositoryName, drafts, env).goals.Keys
  {
    if drafts != [] {
      var n := |drafts| - 1;
      CreateGoalsOnlyAdds(s, repositoryName, drafts[..n], env, id);
      CreateOnlyAdds(CreateGoals(s, repositoryName, drafts[..n], env), repositoryName, drafts[n], env, id);
    }
  }

  ghost function UnderWayIds(s: Store, repositoryName: string): set<string> {
    set id | id in s.goals && IsUnderWay(s.goals[id], repositoryName)
  }

  ghost function FinishedGoals(s: Store, tasks: map<string, TaskRecord>, repositoryName: string): set<string> {
    set id | id in s.goals && IsFinished(s, tasks, repositoryName, id)
  }

  lemma SnapshotFindsFinished(
    entries: seq<GoalEntry>, s: Store, tasks: map<string, TaskRecord>, repositoryName: string)
    requires IsTracker(tasks) && Shows(entries, s, tasks, repositoryName)
    ensures FinishedIds(entries) == FinishedGoals(s, tasks, repositoryName)
  {
    forall id ensures id in FinishedIds(entries) <==> id in FinishedGoals(s, tasks, repositoryName) {
      FinishedIffLooksFinished(entries, s, tasks, repositoryName, id);
    }
  }

  /** Goals and tasks can be found by their ids. */
  ghost predicate AreKeyed(entries: seq<GoalEntry>) {
    && (forall i, j :: 0 <= i < j < |entries| ==> entries[i].id != entries[j].id)
    && (forall e, t, u :: e in entries && t in e.linkedTasks && u in e.linkedTasks && t.id == u.id ==> t == u)
  }

  lemma SnapshotIsKeyed(entries: seq<GoalEntry>, s: Store, tasks: map<string, TaskRecord>, repositoryName: string)
    requires IsTracker(tasks) && Shows(entries, s, tasks, repositoryName)
    ensures AreKeyed(entries)
  {
    forall e, t, u | e in entries && t in e.linkedTasks && u in e.linkedTasks && t.id == u.id ensures t == u {
      TasksOfFinds(e.taskLinks, tasks, repositoryName, t.id, t);
      TasksOfFinds(e.taskLinks, tasks, repositoryName, t.id, u);
    }
  }

  /** A goal a batch created holds one of the batch's drafts. */
  lemma {:induction false} NewGoalsAreDrafts(s: Store, repositoryName: string, drafts: seq<GoalDraft>, env: Env, id: string)
    requires s.events.Keys == s.goals.Keys && env.IsFresh()
    ensures var s' := CreateGoals(s, repositoryName, drafts, env);
            id in s'.goals && id !in s.goals ==> s'.goals[id].draft in drafts
  {
    if drafts != [] {
      var init, last := drafts[..|drafts| - 1], drafts[|drafts| - 1];
      NewGoalsAreDrafts(s, repositoryName, init, env, id);
      assert drafts == init + [last];
      var s1 := CreateGoals(s, repositoryName, init, env);
      CreateGoalsOnlyAdds(s, repositoryName, init, env, id);
      CreateOnlyAdds(s1, repositoryName, last, env, id);
    }
  }

  /** What a run leaves behind once the policy accepted the plan. */
  function Replanned(s: Store, repositoryName: string, plan: ParsedAnalysis, finished: set<string>, env: Env): Progress {
    ApplyReplans(CreateGoals(s, repositoryName, MaterializableGoals(plan), env), plan.goalReplans, finished)
  }

  /** The policy accepts Codex's answer against the goals under way. */
  ghost predicate IsAccepted(s: Store, repositoryName: string, answer: Option<ParsedAnalysis>, config: ManagerConfig) {
    answer.Some? && ReplanOk(answer.value, config, UnderWayIds(s, repositoryName))
  }

  lemma ReplannedOldGoal(
    s: Store, repositoryName: string, plan: ParsedAnalysis, tasks: map<string, TaskRecord>, env: Env, id: string)
    requires Valid(s, env) && env.IsFresh()
    requires forall p :: p in plan.goalReplans ==> p.goalId in UnderWayIds(s, repositoryName)
    requires id in s.goals
    ensures var finished := FinishedGoals(s, tasks, repositoryName);
            OldGoalReplanned(s, Replanned(s, repositoryName, plan, finished, env).store, tasks, repositoryName, id)
  {
    var s1 := CreateGoals(s, repositoryName, MaterializableGoals(plan), env);
    CreateGoalsOnlyAdds(s, repositoryName, MaterializableGoals(plan), env, id);
    LoopEffect(s1, plan.goalReplans, FinishedGoals(s, tasks, repositoryName), id);
  }

  lemma ReplannedNewGoal(
    s: Store, repositoryName: string, plan: ParsedAnalysis, finished: set<string>, env: Env, id: string)
    requires Valid(s, env) && env.IsFresh()
    requires forall p :: p in plan.goalReplans ==> p.goalId in UnderWayIds(s, repositoryName)
    requires id !in s.goals && id in CreateGoals(s, repositoryName, MaterializableGoals(plan), env).goals
    requires id !in finished
    ensures NewGoalReplanned(Replanned(s, repositoryName, plan, finished, env).store, repositoryName, id)
  {
    var s1 := CreateGoals(s, repositoryName, MaterializableGoals(plan), env);
    CreateGoalsOnlyAdds(s, repositoryName, MaterializableGoals(plan), env, id);
    LoopEffect(s1, plan.goalReplans, finished, id);
  }

  /** Whatever an accepted plan says, the run stays within these bounds, wherever it stops. */
  lemma AcceptedPlanIsBounded(
    s: Store, repositoryName: string, plan: ParsedAnalysis, tasks: map<string, TaskRecord>, config: ManagerConfig, env: Env)
    requires Valid(s, env) && env.IsFresh() && IsAccepted(s, repositoryName, Some(plan), config)
    ensures var s' := Replanned(s, repositoryName, plan, FinishedGoals(s, tasks, repositoryName), env).store;
            Valid(s', env) && IsReplanned(s, s', tasks, repositoryName, config.maxGoalsPerRun)
  {
    var finished := FinishedGoals(s, tasks, repositoryName);
    var s1 := CreateGoals(s, repositoryName, MaterializableGoals(plan), env);
    var s' := Replanned(s, repositoryName, plan, finished, env).store;
    CreateGoalsKeepsValid(s, repositoryName, MaterializableGoals(plan), env);
    LoopKeepsShape(s1, plan.goalReplans, finished);
    LoopKeepsValid(s1, plan.goalReplans, finished, env);
    forall p | p in plan.goalReplans ensures p.goalId in UnderWayIds(s, repositoryName) {
      assert GoalReplanOk(p, config, UnderWayIds(s, repositoryName));
    }
    forall id | id in s.goals ensures OldGoalReplanned(s, s', tasks, repositoryName, id) {
      ReplannedOldGoal(s, repositoryName, plan, tasks, env, id);
    }
    forall id | id in s'.goals && id !in s.goals ensures NewGoalReplanned(s', repositoryName, id) {
      ReplannedNewGoal(s, repositoryName, plan, finished, env, id);
    }
  }

  lemma AcceptedPlanFailsIff(
    s: Store, repositoryName: string, plan: ParsedAnalysis, tasks: map<string, TaskRecord>, config: ManagerConfig, env: Env)
    requires Valid(s, env) && env.IsFresh() && IsAccepted(s, repositoryName, Some(plan), config)
    ensures var finished := FinishedGoals(s, tasks, repositoryName);
            Replanned(s, repositoryName, plan, finished, env).failed <==> CompletesTwice(plan.goalReplans, finished)
  {
    var finished := FinishedGoals(s, tasks, repositoryName);
    var s1 := CreateGoals(s, repositoryName, MaterializableGoals(plan), env);
    CreateGoalsKeepsValid(s, repositoryName, MaterializableGoals(plan), env);
    forall p | p in plan.goalReplans ensures p.goalId in s1.goals {
      assert GoalReplanOk(p, config, UnderWayIds(s, repositoryName));
      CreateGoalsOnlyAdds(s, repositoryName, MaterializableGoals(plan), env, p.goalId);
    }
    forall id | id in finished ensures id in s1.goals && s1.goals[id].status == Active {
      CreateGoalsOnlyAdds(s, repositoryName, MaterializableGoals(plan), env, id);
    }
    LoopFailsIff(s1, plan.goalReplans, finished);
  }

  /** A plan that only says, twice, that a goal is completed. */
  function CompletedTwice(id: string): ParsedAnalysis {
    var replan := GoalReplan(id, MarkCompleted, "All linked tasks are done.", [], [], None);
    ParsedAnalysis("Goal reached.", [], [], [], None, [replan, replan])
  }

  lemma {:induction false} NoFollowUps(replans: seq<GoalReplan>)
    requires forall r :: r in replans ==> r.followUpGoals == []
    ensures FollowUps(replans) == []
  {
    if replans != [] {
      NoFollowUps(replans[..|replans| - 1]);
    }
  }

  /** The failure is real: for every finished goal with an id the policy allows, the plan that says twice it is
      completed is accepted, completes the goal, and fails. */
  lemma FinishedGoalCompletedTwiceFails(
    s: Store, repositoryName: string, tasks: map<string, TaskRecord>, config: ManagerConfig, env: Env, id: string)
    requires Valid(s, env) && env.IsFresh() && 0 <= config.maxGoalsPerRun
    requires id in FinishedGoals(s, tasks, repositoryName) && |id| <= MAX_ID_CHARS
    ensures var plan := CompletedTwice(id);
            var after := Replanned(s, repositoryName, plan, FinishedGoals(s, tasks, repositoryName), env);
            && IsAccepted(s, repositoryName, Some(plan), config)
            && after.failed && id in after.store.goals && after.store.goals[id].status == Completed
  {
    var plan := CompletedTwice(id);
    var replan := plan.goalReplans[0];
    var finished := FinishedGoals(s, tasks, repositoryName);
    NoFollowUps(plan.goalReplans);
    assert |replan.rationale| <= 100 && |plan.summary| <= 100;
    assert GoalReplanOk(replan, config, UnderWayIds(s, repositoryName));
    assert CompletesBoth(plan.goalReplans[0], plan.goalReplans[1], finished);
    assert CompletesTwice(plan.goalReplans, finished);
    AcceptedPlanFailsIff(s, repositoryName, plan, tasks, config, env);
    assert MaterializableGoals(plan) == [];
    assert plan.goalReplans[..1] == [replan];
    LoopCompletes(s, [replan], finished, id);
    assert [replan][..0] == [];
    assert ApplyReplans(s, [], finished) == Progress(s, false);
  }

  /** How a run ends, given Codex's answer: which store it leaves, and whether it succeeds. */
  ghost predicate IsOutcome(
    before: Store, after: Store, ok: bool, repositoryName: string, tasks: map<string, TaskRecord>,
    answer: Option<ParsedAnalysis>, config: ManagerConfig, env: Env)
  {
    var finished := FinishedGoals(before, tasks, repositoryName);
    var accepted := IsAccepted(before, repositoryName, answer, config);
    && after == (if accepted then Replanned(before, repositoryName, answer.value, finished, env).store else before)
    && (ok <==> accepted && !CompletesTwice(answer.value.goalReplans, finished))
  }

  lemma OutcomeIsBounded(
    before: Store, after: Store, ok: bool, repositoryName: string, tasks: map<string, TaskRecord>,
    answer: Option<ParsedAnalysis>, config: ManagerConfig, env: Env)
    requires Valid(before, env) && env.IsFresh()
    requires IsOutcome(before, after, ok, repositoryName, tasks, answer, config, env)
    ensures Valid(after, env) && IsReplanned(before, after, tasks, repositoryName, config.maxGoalsPerRun)
  {
    if IsAccepted(before, repositoryName, answer, config) {
      AcceptedPlanIsBounded(before, repositoryName, answer.value, tasks, config, env);
    }
  }

  lemma {:induction false} LoopKeepsShape(s: Store, replans: seq<GoalReplan>, finished: set<string>)
    ensures var s' := ApplyReplans(s, replans, finished).store;
            s'.order == s.order && s'.goals.Keys == s.goals.Keys && s'.links == s.links
  {
    if replans != [] {
      LoopKeepsShape(s, replans[..|replans| - 1], finished);
    }
  }

  lemma ReplanKeepsValid(s: Store, replan: GoalReplan, finished: set<string>, env: Env)
    requires Valid(s, env)
    ensures Valid(ApplyReplan(s, replan, finished).store, env)
  {
    RecordKeepsValid(s, replan, env);
    MoveKeepsValid(RecordReplan(s, replan), replan.goalId, Completed, env);
  }

  lemma {:induction false} LoopKeepsValid(s: Store, replans: seq<GoalReplan>, finished: set<string>, env: Env)
    requires Valid(s, env)
    ensures Valid(ApplyReplans(s, replans, finished).store, env)
  {
    if replans != [] {
      var n := |replans| - 1;
      LoopKeepsValid(s, replans[..n], finished, env);
      ReplanKeepsValid(ApplyReplans(s, replans[..n], finished).store, replans[n], finished, env);
    }
  }

  // ---------------------------------------------------------------------------------------------
  // The orchestrator
  // ---------------------------------------------------------------------------------------------

  class ProjectManagerOrchestrator {
    const store: InMemoryProjectManagerStore
    const enabled: bool
    const config: ManagerConfig

    constructor (store: InMemoryProjectManagerStore, enabled: bool, config: ManagerConfig)
      ensures this.store == store && this.enabled == enabled && this.config == config
    {
      this.store, this.enabled, this.config := store, enabled, config;
    }

    /** The entry of a goal, and whether every link of it leads to a task that is done. */
    method IsEntryFinished(entries: seq<GoalEntry>, id: string) returns (r: bool)
      requires AreKeyed(entries)
      ensures r <==> id in FinishedIds(entries)
    {
      var i := 0;
      while i < |entries| && entries[i].id != id
        invariant 0 <= i <= |entries|
        invariant forall j :: 0 <= j < i ==> entries[j].id != id
      {
        i := i + 1;
      }
      if i == |entries| {
        return false;
      }
      var entry := entries[i];
      assert entry in entries;
      var byId: map<string, TaskRecord> := map[];
      for k := 0 to |entry.linkedTasks|
        invariant forall key :: key in byId ==> byId[key] in entry.linkedTasks && byId[key].id == key
        invariant forall j :: 0 <= j < k ==> entry.linkedTasks[j].id in byId
      {
        byId := byId[entry.linkedTasks[k].id := entry.linkedTasks[k]];
      }
      r := entry.goal.status == Active && entry.taskLinks != []
           && forall l :: l in entry.taskLinks ==> l.taskId in byId && byId[l.taskId].status == TaskDone;
      assert r <==> LooksFinished(entry) by {
        forall t | t in entry.linkedTasks ensures t.id in byId && byId[t.id] == t {
        }
      }
      assert forall e :: e in entries && e.id == id ==> e == entry;
    }

    method CompleteGoalWhenSafe(replan: GoalReplan, entries: seq<GoalEntry>) returns (r: Result<()>)
      requires AreKeyed(entries)
      modifies store`goals, store`goalEvents
      ensures var told := replan.decision == MarkCompleted && replan.goalId in FinishedIds(entries);
              && store.State() == (if told then MoveGoal(old(store.State()), replan.goalId, Completed) else old(store.State()))
              && (r.Ok? <==> told ==> CanMove(old(store.State()), replan.goalId, Completed))
    {
      if replan.decision != MarkCompleted {
        return Ok(());
      }
      var finished := IsEntryFinished(entries, replan.goalId);
      if !finished {
        return Ok(());
      }
      r := store.TransitionGoal(replan.goalId, Completed);
    }

    /** The loop of `runReplanOnce`; it stops at the first call that throws. */
    method ApplyClassifications(replans: seq<GoalReplan>, entries: seq<GoalEntry>) returns (r: Result<()>)
      requires AreKeyed(entries)
      modifies store`goals, store`goalEvents
      ensures var p := ApplyReplans(old(store.State()), replans, FinishedIds(entries));
              store.State() == p.store && (r.Err? <==> p.failed)
    {
      for i := 0 to |replans|
        invariant ApplyReplans(old(store.State()), replans[..i], FinishedIds(entries)) == Progress(store.State(), false)
      {
        assert replans[..i + 1][..i] == replans[..i];
        r := store.RecordGoalReplanClassification(replans[i]);
        if r.Ok? {
          r := CompleteGoalWhenSafe(replans[i], entries);
        }
        if r.Err? {
          StoppedLoopStays(old(store.State()), replans, i + 1, FinishedIds(entries));
          return;
        }
      }
      assert replans[..|replans|] == replans;
      r := Ok(());
    }

    /** Create the plan's goals, then go through its classifications. */
    method Materialize(repositoryName: string, plan: ParsedAnalysis, entries: seq<GoalEntry>)
      returns (r: Result<seq<string>>)
      requires Valid(store.State(), store.env) && store.env.IsFresh() && AreKeyed(entries)
      modifies store`order, store`goals, store`goalEvents
      ensures var p := Replanned(old(store.State()), repositoryName, plan, FinishedIds(entries), store.env);
              && store.State() == p.store
              && (r.Ok? <==> !p.failed)
              && (r.Ok? ==> store.order == old(store.order) + r.value)
    {
      var created := store.CreateGoalsFromAnalysis(repositoryName, MaterializableGoals(plan));
      LoopKeepsShape(store.State(), plan.goalReplans, FinishedIds(entries));
      var applied := ApplyClassifications(plan.goalReplans, entries);
      r := if applied.Ok? then Ok(created) else Err(applied.error);
    }

    /** The snapshot, as far as the rest of the run looks at it. */
    method Observe(repositoryName: string, tasks: map<string, TaskRecord>, listing: seq<TaskRecord>)
      returns (entries: seq<GoalEntry>)
      requires Valid(store.State(), store.env)
      requires IsTracker(tasks) && forall t :: t in listing ==> t.id in tasks && tasks[t.id] == t
      ensures AreKeyed(entries)
      ensures FinishedIds(entries) == FinishedGoals(store.State(), tasks, repositoryName)
      ensures (set e | e in entries :: e.id) == UnderWayIds(store.State(), repositoryName)
    {
      var previous;
      entries, previous := CollectProjectReplanSnapshot(store, repositoryName, tasks, listing);
      SnapshotFindsFinished(entries, store.State(), tasks, repositoryName);
      SnapshotIsKeyed(entries, store.State(), tasks, repositoryName);
    }

    /** The `try` block up to `completeRun`. */
    method Replan(
      repositoryName: string, tasks: map<string, TaskRecord>, listing: seq<TaskRecord>, answer: Option<ParsedAnalysis>,
      now: int) returns (r: Result<seq<string>>)
      requires Valid(store.State(), store.env) && store.env.IsFresh()
      requires IsTracker(tasks) && forall t :: t in listing ==> t.id in tasks && tasks[t.id] == t
      modifies store`order, store`goals, store`goalEvents, store`analyses
      ensures IsOutcome(old(store.State()), store.State(), r.Ok?, repositoryName, tasks, answer, config, store.env)
      ensures r.Ok? ==> store.order == old(store.order) + r.value
      ensures store.analyses == old(store.analyses) +
                (if IsAccepted(old(store.State()), repositoryName, answer, config)
                 then [AnalysisRecord(repositoryName, now, answer.value)] else [])
    {
      var entries := Observe(repositoryName, tasks, listing);
      if answer.None? {
        return Err(Permanent);
      }
      var accepted := AssertProjectReplanWithinPolicy(answer.value, config, set e | e in entries :: e.id);
      if !accepted {
        return Err(Permanent);
      }
      AcceptedPlanFailsIff(store.State(), repositoryName, answer.value, tasks, config, store.env);
      store.RecordAnalysis(repositoryName, now, answer.value);
      r := Materialize(repositoryName, answer.value, entries);
    }

    /** A run on record: the store it leaves, and its record brought to an end. */
    method RunStarted(
      repositoryName: string, tasks: map<string, TaskRecord>, listing: seq<TaskRecord>,
      reachable: bool, answer: Option<ParsedAnalysis>, now: int) returns (r: Result<()>)
      requires Valid(store.State(), store.env) && store.env.IsFresh()
      requires IsTracker(tasks) && forall t :: t in listing ==> t.id in tasks && tasks[t.id] == t
      modifies store
      ensures var heard := if reachable then answer else None;
              IsOutcome(old(store.State()), store.State(), r.Ok?, repositoryName, tasks, heard, config, store.env)
      ensures r.Ok? ==> old(store.order) <= store.order
      ensures store.runs == old(store.runs) + [
                if r.Ok? then RunRecord(repositoryName, RunCompleted, store.order[|old(store.order)|..])
                else RunRecord(repositoryName, RunFailed, [])]
    {
      var run := store.StartRun(repositoryName);
      var created := Err(Temporary);
      if reachable {
        created := Replan(repositoryName, tasks, listing, answer, now);
      }
      if created.Ok? {
        assert created.value == store.order[|old(store.order)|..];
        r := store.CompleteRun(run, created.value);
      } else {
        var failed := store.FailRun(run);
        r := Err(created.error);
      }
    }

    /** `tasks` is the tracker's content, `listing` what it listed, `reachable` whether the tracker and Codex
        answered at all, and `answer` Codex's parsed plan. The run succeeds exactly when everything answers,
        the policy accepts the plan, and no finished goal is completed twice; it stays within bounds either
        way, and its record never stays `started`. */
    method RunReplanOnce(
      repositoryName: string, reason: string, tasks: map<string, TaskRecord>, listing: seq<TaskRecord>,
      reachable: bool, answer: Option<ParsedAnalysis>, now: int) returns (r: Result<()>)
      requires Valid(store.State(), store.env) && store.env.IsFresh()
      requires IsTracker(tasks) && forall t :: t in listing ==> t.id in tasks && tasks[t.id] == t
      modifies store
      ensures Valid(store.State(), store.env)
      ensures IsReplanned(old(store.State()), store.State(), tasks, repositoryName, config.maxGoalsPerRun)
      ensures var heard := if enabled && Trim(reason) != "" && reachable then answer else None;
              IsOutcome(old(store.State()), store.State(), r.Ok?, repositoryName, tasks, heard, config, store.env)
      ensures r.Ok? ==> old(store.order) <= store.order
      ensures store.runs == if !enabled || Trim(reason) == "" then old(store.runs) else old(store.runs) + [
                if r.Ok? then RunRecord(repositoryName, RunCompleted, store.order[|old(store.order)|..])
                else RunRecord(repositoryName, RunFailed, [])]
    {
      ghost var heard := if enabled && Trim(reason) != "" && reachable then answer else None;
      if !enabled || Trim(reason) == "" {
        r := Err(Permanent);
      } else {
        r := RunStarted(repositoryName, tasks, listing, reachable, answer, now);
      }
      OutcomeIsBounded(old(store.State()), store.State(), r.Ok?, repositoryName, tasks, heard, config, store.env);
    }
  }

  /** Once a classification threw, the rest are not looked at. */
  lemma {:induction false} StoppedLoopStays(s: Store, replans: seq<GoalReplan>, i: nat, finished: set<string>)
    requires i <= |replans| && ApplyReplans(s, replans[..i], finished).failed
    ensures ApplyReplans(s, replans, finished) == ApplyReplans(s, replans[..i], finished)
  {
    if i == |replans| {
      assert replans[..i] == replans;
    } else {
      var n := |replans| - 1;
      assert replans[..n][..i] == replans[..i];
      StoppedLoopStays(s, replans[..n], i, finished);
    }
  }
}
