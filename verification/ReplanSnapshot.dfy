/** src/domain/projectManager/replanSnapshot.ts: the goals under way, joined with their links and tasks. */
module ReplanSnapshot {
  import opened Common
  import opened GoalStore

  datatype TaskStatus = TaskOpen | TaskInProgress | TaskReview | TaskDone | TaskFailed

  datatype TaskRecord = TaskRecord(id: string, repositoryName: Option<string>, status: TaskStatus)

  datatype GoalEntry = GoalEntry(
    id: string,
    goal: Goal,
    taskLinks: seq<GoalTaskLink>,
    linkedTasks: seq<TaskRecord>,
    auditEvents: seq<AuditEvent>)

  // ---------------------------------------------------------------------------------------------
  // The latest of several records
  // ---------------------------------------------------------------------------------------------

  /** `values.reduce(...)` keeping the later of two times, and the second of two equal ones. */
  function LatestByTime<T>(values: seq<T>, time: T -> int): (r: Option<T>)
    ensures r.None? <==> values == []
  {
    if values == [] then None
    else
      var latest := LatestByTime(values[..|values| - 1], time);
      var value := values[|values| - 1];
      if latest.None? || time(value) >= time(latest.value) then Some(value) else latest
  }

  /** Value `i` has the greatest time, and every value after it an earlier one. */
  ghost predicate IsLatestAt<T>(values: seq<T>, time: T -> int, i: nat) {
    && i < |values|
    && (forall j :: 0 <= j < i ==> time(values[j]) <= time(values[i]))
    && (forall j :: i < j < |values| ==> time(values[j]) < time(values[i]))
  }

  lemma {:induction false} LatestByTimeIsLast<T(!new)>(values: seq<T>, time: T -> int) returns (i: nat)
    requires values != []
    ensures IsLatestAt(values, time, i) && LatestByTime(values, time) == Some(values[i])
    ensures forall j: nat :: IsLatestAt(values, time, j) ==> j == i
  {
    var n := |values| - 1;
    var init := values[..n];
    if n == 0 {
      assert init == [];
      i := 0;
    } else {
      i := LatestByTimeIsLast(init, time);
      assert forall j :: 0 <= j < n ==> values[j] == init[j];
      if time(values[n]) >= time(values[i]) {
        i := n;
      }
    }
  }

  function CreatedAt(a: AnalysisRecord): int {
    a.createdAt
  }

  function AnalysesOf(analyses: seq<AnalysisRecord>, repositoryName: string): seq<AnalysisRecord> {
    if analyses == [] then []
    else
      var init, last := AnalysesOf(analyses[..|analyses| - 1], repositoryName), analyses[|analyses| - 1];
      if last.repositoryName == repositoryName then init + [last] else init
  }

  /** Analysis `i` is of the repository, none of the repository is newer, and none after it as new. */
  ghost predicate IsNewestAt(analyses: seq<AnalysisRecord>, repositoryName: string, i: nat) {
    && i < |analyses| && analyses[i].repositoryName == repositoryName
    && forall j :: 0 <= j < |analyses| && analyses[j].repositoryName == repositoryName ==>
         analyses[j].createdAt <= analyses[i].createdAt && (i < j ==> analyses[j].createdAt < analyses[i].createdAt)
  }

  /** The repository's newest analysis, none exactly when it has none. */
  ghost predicate IsPrevious(previous: Option<AnalysisRecord>, analyses: seq<AnalysisRecord>, repositoryName: string) {
    match previous
    case None => forall a :: a in analyses ==> a.repositoryName != repositoryName
    case Some(a) => exists i: nat :: IsNewestAt(analyses, repositoryName, i) && analyses[i] == a
  }

  lemma {:induction false} PreviousIsLatest(analyses: seq<AnalysisRecord>, repositoryName: string)
    ensures IsPrevious(LatestByTime(AnalysesOf(analyses, repositoryName), CreatedAt), analyses, repositoryName)
  {
    if analyses != [] {
      var n := |analyses| - 1;
      var init, last := analyses[..n], analyses[n];
      PreviousIsLatest(init, repositoryName);
      var filtered := AnalysesOf(init, repositoryName);
      var before := LatestByTime(filtered, CreatedAt);
      assert (filtered + [last])[..|filtered|] == filtered;
      if last.repositoryName == repositoryName && (before.None? || last.createdAt >= before.value.createdAt) {
        assert IsNewestAt(analyses, repositoryName, n);
      } else if before.Some? {
        var i: nat :| IsNewestAt(init, repositoryName, i) && init[i] == before.value;
        assert IsNewestAt(analyses, repositoryName, i);
      }
    }
  }

  // ---------------------------------------------------------------------------------------------
  // The join, said directly
  // ---------------------------------------------------------------------------------------------

  predicate IsUnderWay(goal: Goal, repositoryName: string) {
    goal.repositoryName == repositoryName && (goal.status == Approved || goal.status == Active)
  }

  function LinksOf(links: seq<GoalTaskLink>, goalId: string): (r: seq<GoalTaskLink>)
    ensures forall l :: l in r <==> l in links && l.goalId == goalId
  {
    if links == [] then []
    else
      var rest := LinksOf(links[..|links| - 1], goalId);
      assert links == links[..|links| - 1] + [links[|links| - 1]];
      if links[|links| - 1].goalId == goalId then rest + [links[|links| - 1]] else rest
  }

  /** A task of the tracker, unless it is missing or belongs to another repository. */
  function LookUp(tasks: map<string, TaskRecord>, repositoryName: string, taskId: string): Option<TaskRecord> {
    if taskId in tasks && tasks[taskId].repositoryName == Some(repositoryName) then Some(tasks[taskId]) else None
  }

  function TasksOf(links: seq<GoalTaskLink>, tasks: map<string, TaskRecord>, repositoryName: string): seq<TaskRecord> {
    if links == [] then []
    else
      var rest := TasksOf(links[..|links| - 1], tasks, repositoryName);
      match LookUp(tasks, repositoryName, links[|links| - 1].taskId)
      case Some(task) => rest + [task]
      case None => rest
  }

  /** A goal without events has none. */
  function EventsOf(events: map<string, seq<AuditEvent>>, id: string): seq<AuditEvent> {
    if id in events then events[id] else []
  }

  function EntryOf(s: Store, tasks: map<string, TaskRecord>, repositoryName: string, id: string): GoalEntry
    requires id in s.goals
  {
    var links := LinksOf(s.links, id);
    GoalEntry(id, s.goals[id], links, TasksOf(links, tasks, repositoryName), EventsOf(s.events, id))
  }

  /** The snapshot shows exactly the goals under way, each with all its links, the tasks they lead to and its
      whole history. */
  ghost predicate Shows(entries: seq<GoalEntry>, s: Store, tasks: map<string, TaskRecord>, repositoryName: string) {
    && (forall e :: e in entries ==>
          e.id in s.goals && IsUnderWay(s.goals[e.id], repositoryName) && e == EntryOf(s, tasks, repositoryName, e.id))
    && (forall id :: id in s.goals && IsUnderWay(s.goals[id], repositoryName) ==> exists e :: e in entries && e.id == id)
    && (forall i, j :: 0 <= i < j < |entries| ==> entries[i].id != entries[j].id)
  }

  /** The tracker's records carry their own ids. */
  ghost predicate IsTracker(tasks: map<string, TaskRecord>) {
    forall id :: id in tasks ==> tasks[id].id == id
  }

  // ---------------------------------------------------------------------------------------------
  // The collector
  // ---------------------------------------------------------------------------------------------

  /** The ids of the tasks the links lead to, each once. */
  method TaskIdsFromLinks(links: seq<GoalTaskLink>) returns (taskIds: seq<string>)
    ensures forall id :: id in taskIds <==> exists l :: l in links && l.taskId == id
    ensures NoDuplicates(taskIds)
  {
    var seen: set<string> := {};
    taskIds := [];
    for i := 0 to |links|
      invariant seen == SetOf(taskIds)
      invariant forall id :: id in taskIds <==> exists l :: l in links[..i] && l.taskId == id
      invariant NoDuplicates(taskIds)
    {
      assert links[..i + 1] == links[..i] + [links[i]];
      var taskId := links[i].taskId;
      assert taskId in seen <==> taskId in taskIds;
      if taskId !in seen {
        seen := seen + {taskId};
        taskIds := taskIds + [taskId];
      }
      forall id ensures id in taskIds <==> exists l :: l in links[..i + 1] && l.taskId == id {
        if id == taskId { assert links[i] in links[..i + 1]; }
      }
    }
    assert links[..|links|] == links;
  }

  /** The listed tasks of the repository, completed by asking for each linked task that was not listed:
      for a linked task the result does not depend on what was listed, nor on how much. */
  method CollectLinkedTasks(
    listed: seq<TaskRecord>, taskIds: seq<string>, tasks: map<string, TaskRecord>, repositoryName: string)
    returns (byId: map<string, TaskRecord>)
    requires IsTracker(tasks)
    requires forall t :: t in listed ==> t.id in tasks && tasks[t.id] == t
    ensures forall id :: id in taskIds ==>
              (if id in byId then Some(byId[id]) else None) == LookUp(tasks, repositoryName, id)
  {
    byId := map[];
    for i := 0 to |listed|
      invariant forall id :: id in byId ==> Some(byId[id]) == LookUp(tasks, repositoryName, id)
    {
      assert listed[i] in listed;
      if listed[i].repositoryName == Some(repositoryName) {
        byId := byId[listed[i].id := listed[i]];
      }
    }
    for i := 0 to |taskIds|
      invariant forall id :: id in byId ==> Some(byId[id]) == LookUp(tasks, repositoryName, id)
      invariant forall id :: id in taskIds[..i] && LookUp(tasks, repositoryName, id).Some? ==> id in byId
    {
      assert taskIds[..i + 1] == taskIds[..i] + [taskIds[i]];
      if taskIds[i] !in byId && taskIds[i] in tasks {
        var task := tasks[taskIds[i]];
        if task.repositoryName == Some(repositoryName) {
          byId := byId[task.id := task];
        }
      }
    }
    assert taskIds[..|taskIds|] == taskIds;
  }

  /** The tasks of the links, taken from the map collected above. */
  method JoinTasks(
    links: seq<GoalTaskLink>, byId: map<string, TaskRecord>, ghost tasks: map<string, TaskRecord>, ghost repositoryName: string)
    returns (linked: seq<TaskRecord>)
    requires forall l :: l in links ==>
               (if l.taskId in byId then Some(byId[l.taskId]) else None) == LookUp(tasks, repositoryName, l.taskId)
    ensures linked == TasksOf(links, tasks, repositoryName)
  {
    linked := [];
    for i := 0 to |links|
      invariant linked == TasksOf(links[..i], tasks, repositoryName)
    {
      assert links[..i + 1][..i] == links[..i] && links[i] in links;
      if links[i].taskId in byId {
        linked := linked + [byId[links[i].taskId]];
      }
    }
    assert links[..|links|] == links;
  }

  method CollectLinks(links: seq<GoalTaskLink>, ids: seq<string>) returns (r: seq<GoalTaskLink>)
    ensures forall l :: l in r <==> l in links && l.goalId in ids
  {
    r := [];
    for i := 0 to |ids|
      invariant forall l :: l in r <==> l in links && l.goalId in ids[..i]
    {
      assert ids[..i + 1] == ids[..i] + [ids[i]];
      r := r + LinksOf(links, ids[i]);
    }
    assert ids[..|ids|] == ids;
  }

  /** One entry per id, in order. */
  ghost predicate AreEntriesOf(
    entries: seq<GoalEntry>, ids: seq<string>, s: Store, tasks: map<string, TaskRecord>, repositoryName: string)
    requires forall id :: id in ids ==> id in s.goals
  {
    |entries| == |ids| && forall j :: 0 <= j < |ids| ==> entries[j] == EntryOf(s, tasks, repositoryName, ids[j])
  }

  lemma EntriesShow(
    entries: seq<GoalEntry>, ids: seq<string>, s: Store, tasks: map<string, TaskRecord>, repositoryName: string)
    requires forall id :: id in ids <==> id in s.goals && IsUnderWay(s.goals[id], repositoryName)
    requires NoDuplicates(ids) && AreEntriesOf(entries, ids, s, tasks, repositoryName)
    ensures Shows(entries, s, tasks, repositoryName)
  {
    forall e | e in entries
      ensures e.id in ids && e == EntryOf(s, tasks, repositoryName, e.id)
    {
      var j :| 0 <= j < |entries| && entries[j] == e;
      assert ids[j] in ids;
    }
    forall id | id in ids ensures exists e :: e in entries && e.id == id {
      var j :| 0 <= j < |ids| && ids[j] == id;
      assert entries[j] in entries;
    }
    forall i, j | 0 <= i < j < |entries| ensures entries[i].id != entries[j].id {
      assert ids[i] != ids[j];
    }
  }

  /** `listing` is what `listTasks` answered: some of the tracker's tasks, at most as many as the limit. */
  method CollectProjectReplanSnapshot(
    store: InMemoryProjectManagerStore, repositoryName: string, tasks: map<string, TaskRecord>, listing: seq<TaskRecord>)
    returns (entries: seq<GoalEntry>, previous: Option<AnalysisRecord>)
    requires Valid(store.State(), store.env)
    requires IsTracker(tasks) && forall t :: t in listing ==> t.id in tasks && tasks[t.id] == t
    ensures Shows(entries, store.State(), tasks, repositoryName)
    ensures IsPrevious(previous, store.analyses, repositoryName)
  {
    var ids := store.ListGoals(repositoryName, {Approved, Active});
    assert forall id :: id in ids <==> id in store.State().goals && IsUnderWay(store.State().goals[id], repositoryName);
    var links := CollectLinks(store.goalTaskLinks, ids);
    var taskIds := TaskIdsFromLinks(links);
    var byId := CollectLinkedTasks(listing, taskIds, tasks, repositoryName);
    forall l | l in store.goalTaskLinks && l.goalId in ids ensures l.taskId in taskIds {
      assert l in links;
    }
    entries := CollectEntries(store, ids, byId, tasks, repositoryName);
    EntriesShow(entries, ids, store.State(), tasks, repositoryName);
    previous := LatestByTime(AnalysesOf(store.analyses, repositoryName), CreatedAt);
    PreviousIsLatest(store.analyses, repositoryName);
  }

  method CollectEntries(
    store: InMemoryProjectManagerStore, ids: seq<string>, byId: map<string, TaskRecord>,
    ghost tasks: map<string, TaskRecord>, ghost repositoryName: string) returns (entries: seq<GoalEntry>)
    requires forall id :: id in ids ==> id in store.goals
    requires forall l :: l in store.goalTaskLinks && l.goalId in ids ==>
               (if l.taskId in byId then Some(byId[l.taskId]) else None) == LookUp(tasks, repositoryName, l.taskId)
    ensures AreEntriesOf(entries, ids, store.State(), tasks, repositoryName)
  {
    entries := [];
    for i := 0 to |ids|
      invariant |entries| == i
      invariant forall j :: 0 <= j < i ==> entries[j] == EntryOf(store.State(), tasks, repositoryName, ids[j])
    {
      var taskLinks := LinksOf(store.goalTaskLinks, ids[i]);
      var linked := JoinTasks(taskLinks, byId, tasks, repositoryName);
      entries := entries + [GoalEntry(ids[i], store.goals[ids[i]], taskLinks, linked, EventsOf(store.goalEvents, ids[i]))];
    }
  }
}
