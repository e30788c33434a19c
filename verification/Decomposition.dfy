/** src/domain/decomposition.ts: which decomposition payloads become a plan. */
module Decomposition {
  import opened Common
  import opened Text

  datatype Subtask = Subtask(temporaryId: string, title: string, description: string)

  datatype Dependency = Dependency(blocked: string, blocking: string)

  datatype Plan = Plan(subtasks: seq<Subtask>, dependencies: seq<Dependency>)

  /** An entry of a payload array: not an object, or an object whose fields may be absent or not text. */
  datatype RawSubtask =
    | NotAnObject
    | RawSubtask(temporaryId: Option<string>, title: Option<string>, description: Option<string>)

  datatype RawDependency =
    | NotAnObject
    | RawDependency(blocked: Option<string>, blocking: Option<string>)

  /** The parsed JSON payload; `subtasks` and `dependencies` are None when they are not arrays. */
  datatype RawPlan = RawPlan(
    parentIssueKey: Option<string>,
    subtasks: Option<seq<RawSubtask>>,
    dependencies: Option<seq<RawDependency>>)

  function NormalizeSubtask(raw: RawSubtask): Option<Subtask> {
    match raw
    case NotAnObject => None
    case RawSubtask(id, title, description) =>
      var (i, t, d) := (NormalizeString(id), NormalizeString(title), NormalizeString(description));
      if i.Some? && t.Some? && d.Some? then Some(Subtask(i.value, t.value, d.value)) else None
  }

  function NormalizeDependency(raw: RawDependency): Option<Dependency> {
    match raw
    case NotAnObject => None
    case RawDependency(blocked, blocking) =>
      var (b, c) := (NormalizeString(blocked), NormalizeString(blocking));
      if b.Some? && c.Some? then Some(Dependency(b.value, c.value)) else None
  }

  function NormalizeSubtasks(raws: seq<RawSubtask>): (r: seq<Subtask>)
    ensures |r| <= |raws|
  {
    FilterMap(raws, NormalizeSubtask)
  }

  function NormalizeDependencies(raws: seq<RawDependency>): seq<Dependency> {
    FilterMap(raws, NormalizeDependency)
  }

  function TemporaryIds(subtasks: seq<Subtask>): (r: seq<string>)
    ensures |r| == |subtasks|
    ensures forall i :: 0 <= i < |subtasks| ==> r[i] == subtasks[i].temporaryId
  {
    if subtasks == [] then [] else [subtasks[0].temporaryId] + TemporaryIds(subtasks[1..])
  }

  predicate IsBadDependency(d: Dependency, ids: set<string>) {
    d.blocked !in ids || d.blocking !in ids || d.blocked == d.blocking
  }

  function NormalizeDecompositionPlan(raw: RawPlan, parentIssueKey: string, maxSubtasks: nat): Option<Plan> {
    if NormalizeString(raw.parentIssueKey).GetOr(parentIssueKey) != parentIssueKey then None
    else if raw.subtasks.None? then None
    else
      var subtasks := NormalizeSubtasks(raw.subtasks.value);
      if |subtasks| == 0 || |subtasks| != |raw.subtasks.value| || |subtasks| > maxSubtasks then None
      else
        var ids := SetOf(TemporaryIds(subtasks));
        if |ids| != |subtasks| then None
        else
          var dependencies := if raw.dependencies.Some? then NormalizeDependencies(raw.dependencies.value) else [];
          if exists d :: d in dependencies && IsBadDependency(d, ids) then None
          else Some(Plan(subtasks, dependencies))
  }

  ghost predicate IsSoundDependency(d: Dependency, ids: seq<string>) {
    d.blocked != d.blocking && d.blocked in ids && d.blocking in ids
  }

  /** What an accepted plan promises to the run that creates its issues. */
  ghost predicate WellFormed(plan: Plan) {
    && plan.subtasks != []
    && NoDuplicates(TemporaryIds(plan.subtasks))
    && forall d :: d in plan.dependencies ==> IsSoundDependency(d, TemporaryIds(plan.subtasks))
  }

  // ---------------------------------------------------------------------------------------------
  // The same, read off the payload
  // ---------------------------------------------------------------------------------------------

  /** The field holds more than blanks. */
  predicate HasText(field: Option<string>) {
    field.Some? && Trim(field.value) != ""
  }

  /** The text of a field is the field without the blanks around it. */
  predicate IsTextOf(text: string, field: Option<string>) {
    HasText(field) && text == Trim(field.value)
  }

  predicate IsComplete(raw: RawSubtask) {
    raw.RawSubtask? && HasText(raw.temporaryId) && HasText(raw.title) && HasText(raw.description)
  }

  predicate IsCompleteDependency(raw: RawDependency) {
    raw.RawDependency? && HasText(raw.blocked) && HasText(raw.blocking)
  }

  predicate IsSubtaskOf(s: Subtask, raw: RawSubtask) {
    && raw.RawSubtask?
    && IsTextOf(s.temporaryId, raw.temporaryId) && IsTextOf(s.title, raw.title)
    && IsTextOf(s.description, raw.description)
  }

  predicate IsDependencyOf(d: Dependency, raw: RawDependency) {
    raw.RawDependency? && IsTextOf(d.blocked, raw.blocked) && IsTextOf(d.blocking, raw.blocking)
  }

  lemma SubtaskIsOf(raw: RawSubtask, s: Subtask)
    ensures NormalizeSubtask(raw) == Some(s) <==> IsSubtaskOf(s, raw)
    ensures NormalizeSubtask(raw).Some? <==> IsComplete(raw)
  {
  }

  lemma DependencyIsOf(raw: RawDependency, d: Dependency)
    ensures NormalizeDependency(raw) == Some(d) <==> IsDependencyOf(d, raw)
    ensures NormalizeDependency(raw).Some? <==> IsCompleteDependency(raw)
  {
  }

  /** The dependencies are the complete ones of the payload, in order, each end as the payload has it: `at`
      lists where they stand. */
  ghost predicate AreDependenciesOf(ds: seq<Dependency>, raws: seq<RawDependency>, at: seq<nat>) {
    && |at| == |ds|
    && (forall i, j :: 0 <= i < j < |at| ==> at[i] < at[j])
    && (forall i :: 0 <= i < |at| ==> at[i] < |raws| && IsDependencyOf(ds[i], raws[at[i]]))
    && (forall k: nat :: k < |raws| && k !in at ==> !IsCompleteDependency(raws[k]))
  }

  lemma DependenciesAreOf(raws: seq<RawDependency>)
    ensures exists at :: AreDependenciesOf(NormalizeDependencies(raws), raws, at)
  {
    var ds := NormalizeDependencies(raws);
    var at := FilterMapPicks(raws, NormalizeDependency);
    forall i | 0 <= i < |at| ensures at[i] < |raws| && IsDependencyOf(ds[i], raws[at[i]]) {
      assert Becomes(raws, NormalizeDependency, at[i], ds[i]);
      DependencyIsOf(raws[at[i]], ds[i]);
    }
    forall k: nat | k < |raws| && k !in at ensures !IsCompleteDependency(raws[k]) {
      DependencyIsOf(raws[k], Dependency("", ""));
    }
    assert AreDependenciesOf(ds, raws, at);
  }

  lemma AllSubtasksKept(raws: seq<RawSubtask>)
    ensures |NormalizeSubtasks(raws)| == |raws| <==> forall i :: 0 <= i < |raws| ==> IsComplete(raws[i])
    ensures |NormalizeSubtasks(raws)| == |raws| ==>
              forall i :: 0 <= i < |raws| ==> IsSubtaskOf(NormalizeSubtasks(raws)[i], raws[i])
  {
    FilterMapKeepsAllIff(raws, NormalizeSubtask);
    forall i | 0 <= i < |raws| ensures NormalizeSubtask(raws[i]).Some? <==> IsComplete(raws[i]) {
      SubtaskIsOf(raws[i], Subtask("", "", ""));
    }
    if |NormalizeSubtasks(raws)| == |raws| {
      forall i | 0 <= i < |raws| ensures IsSubtaskOf(NormalizeSubtasks(raws)[i], raws[i]) {
        SubtaskIsOf(raws[i], NormalizeSubtasks(raws)[i]);
      }
    }
  }

  /** The plan of a payload, when there is one, is well formed; it has every subtask of the payload in order,
      and exactly its complete dependencies, each blocked by what the payload says it is blocked by. */
  lemma AcceptedPlanIsWellFormed(raw: RawPlan, parentIssueKey: string, maxSubtasks: nat)
    requires NormalizeDecompositionPlan(raw, parentIssueKey, maxSubtasks).Some?
    ensures var plan := NormalizeDecompositionPlan(raw, parentIssueKey, maxSubtasks).value;
            && WellFormed(plan)
            && |plan.subtasks| <= maxSubtasks
            && raw.subtasks.Some? && |raw.subtasks.value| == |plan.subtasks|
            && (forall i :: 0 <= i < |plan.subtasks| ==> IsSubtaskOf(plan.subtasks[i], raw.subtasks.value[i]))
            && exists at :: AreDependenciesOf(plan.dependencies, raw.dependencies.GetOr([]), at)
  {
    var plan := NormalizeDecompositionPlan(raw, parentIssueKey, maxSubtasks).value;
    CardinalityOfSetOf(TemporaryIds(plan.subtasks));
    AllSubtasksKept(raw.subtasks.value);
    DependenciesAreOf(raw.dependencies.GetOr([]));
    forall d | d in plan.dependencies ensures IsSoundDependency(d, TemporaryIds(plan.subtasks)) {
      assert !IsBadDependency(d, SetOf(TemporaryIds(plan.subtasks)));
    }
  }

  predicate HasId(raw: RawSubtask, id: string) {
    raw.RawSubtask? && IsTextOf(id, raw.temporaryId)
  }

  /** Some subtask of the payload has this id. */
  ghost predicate IsIdIn(id: string, raws: seq<RawSubtask>) {
    exists i :: 0 <= i < |raws| && HasId(raws[i], id)
  }

  /** No two subtasks of the payload have one id. */
  ghost predicate IdsDiffer(raws: seq<RawSubtask>) {
    forall i, j, id :: 0 <= i < j < |raws| && HasId(raws[i], id) ==> !HasId(raws[j], id)
  }

  /** The two ends of a complete dependency are two different subtasks of the payload. */
  ghost predicate JoinsSubtasks(d: RawDependency, raws: seq<RawSubtask>)
    requires IsCompleteDependency(d)
  {
    var blocked, blocking := Trim(d.blocked.value), Trim(d.blocking.value);
    blocked != blocking && IsIdIn(blocked, raws) && IsIdIn(blocking, raws)
  }

  /** The subtasks and dependencies of a payload make a plan: between one and `maxSubtasks` complete subtasks
      with distinct ids, and every complete dependency joins two of them. */
  ghost predicate MakesPlan(raws: seq<RawSubtask>, rawDeps: seq<RawDependency>, maxSubtasks: nat) {
    && 0 < |raws| <= maxSubtasks
    && (forall i :: 0 <= i < |raws| ==> IsComplete(raws[i]))
    && IdsDiffer(raws)
    && forall d :: d in rawDeps && IsCompleteDependency(d) ==> JoinsSubtasks(d, raws)
  }

  lemma MakesPlanIff(raws: seq<RawSubtask>, rawDeps: seq<RawDependency>, maxSubtasks: nat)
    ensures var subtasks := NormalizeSubtasks(raws);
            MakesPlan(raws, rawDeps, maxSubtasks) <==>
            |subtasks| == |raws| <= maxSubtasks && WellFormed(Plan(subtasks, NormalizeDependencies(rawDeps)))
  {
    AllSubtasksKept(raws);
    if |NormalizeSubtasks(raws)| == |raws| {
      IdsOfSubtasks(raws);
      AllSoundIffAllJoin(raws, rawDeps, TemporaryIds(NormalizeSubtasks(raws)));
    }
  }

  /** A payload is accepted exactly when it names this parent or none, and its subtasks and dependencies make
      a plan. */
  lemma PlanAcceptedIff(raw: RawPlan, parentIssueKey: string, maxSubtasks: nat)
    ensures NormalizeDecompositionPlan(raw, parentIssueKey, maxSubtasks).Some? <==>
            && (HasText(raw.parentIssueKey) ==> IsTextOf(parentIssueKey, raw.parentIssueKey))
            && raw.subtasks.Some? && MakesPlan(raw.subtasks.value, raw.dependencies.GetOr([]), maxSubtasks)
  {
    if raw.subtasks.Some? {
      MakesPlanIff(raw.subtasks.value, raw.dependencies.GetOr([]), maxSubtasks);
      WellFormedIff(NormalizeSubtasks(raw.subtasks.value), NormalizeDependencies(raw.dependencies.GetOr([])));
    }
  }

  /** Ids that belong to the entries of a list one by one: they are the ids in it, and distinct when those are. */
  lemma IdsMatch<T>(raws: seq<T>, ids: seq<string>, has: (T, string) -> bool)
    requires |ids| == |raws| && forall i :: 0 <= i < |raws| ==> has(raws[i], ids[i])
    requires forall r, a, b :: has(r, a) && has(r, b) ==> a == b
    ensures forall id :: id in ids <==> exists i :: 0 <= i < |raws| && has(raws[i], id)
    ensures NoDuplicates(ids) <==> forall i, j, id :: 0 <= i < j < |raws| && has(raws[i], id) ==> !has(raws[j], id)
  {
    if forall i, j, id :: 0 <= i < j < |raws| && has(raws[i], id) ==> !has(raws[j], id) {
      forall i, j | 0 <= i < j < |ids| ensures ids[i] != ids[j] {
        assert has(raws[i], ids[i]) && !has(raws[j], ids[i]);
      }
    }
  }

  lemma SubtaskHasItsId(s: Subtask, raw: RawSubtask)
    requires IsSubtaskOf(s, raw)
    ensures HasId(raw, s.temporaryId)
  {
  }

  /** The ids of the plan are those of the payload, and distinct when those are. */
  lemma IdsOfSubtasks(raws: seq<RawSubtask>)
    requires |NormalizeSubtasks(raws)| == |raws|
    ensures forall id :: id in TemporaryIds(NormalizeSubtasks(raws)) <==> IsIdIn(id, raws)
    ensures NoDuplicates(TemporaryIds(NormalizeSubtasks(raws))) <==> IdsDiffer(raws)
  {
    AllSubtasksKept(raws);
    var subtasks := NormalizeSubtasks(raws);
    forall i | 0 <= i < |raws| ensures HasId(raws[i], TemporaryIds(subtasks)[i]) {
      SubtaskHasItsId(subtasks[i], raws[i]);
    }
    IdsMatch(raws, TemporaryIds(subtasks), HasId);
  }

  lemma SoundIffJoining(d: Dependency, r: RawDependency, ids: seq<string>, raws: seq<RawSubtask>)
    requires IsDependencyOf(d, r) && forall id :: id in ids <==> IsIdIn(id, raws)
    ensures IsCompleteDependency(r) && (IsSoundDependency(d, ids) <==> JoinsSubtasks(r, raws))
  {
  }

  lemma RawOf(ds: seq<Dependency>, raws: seq<RawDependency>, at: seq<nat>, d: Dependency) returns (r: RawDependency)
    requires AreDependenciesOf(ds, raws, at) && d in ds
    ensures r in raws && IsDependencyOf(d, r)
  {
    var i :| 0 <= i < |ds| && ds[i] == d;
    r := raws[at[i]];
  }

  lemma DependencyFor(ds: seq<Dependency>, raws: seq<RawDependency>, at: seq<nat>, r: RawDependency) returns (d: Dependency)
    requires AreDependenciesOf(ds, raws, at) && r in raws && IsCompleteDependency(r)
    ensures d in ds && IsDependencyOf(d, r)
  {
    var k :| 0 <= k < |raws| && raws[k] == r;
    var i :| 0 <= i < |at| && at[i] == k;
    d := ds[i];
  }

  lemma AllSoundIffAllJoin(raws: seq<RawSubtask>, rawDeps: seq<RawDependency>, ids: seq<string>)
    requires forall id :: id in ids <==> IsIdIn(id, raws)
    ensures (forall d :: d in NormalizeDependencies(rawDeps) ==> IsSoundDependency(d, ids)) <==>
            forall r :: r in rawDeps && IsCompleteDependency(r) ==> JoinsSubtasks(r, raws)
  {
    DependenciesAreOf(rawDeps);
    var ds := NormalizeDependencies(rawDeps);
    var at :| AreDependenciesOf(ds, rawDeps, at);
    if forall d :: d in ds ==> IsSoundDependency(d, ids) {
      forall r | r in rawDeps && IsCompleteDependency(r) ensures JoinsSubtasks(r, raws) {
        var d := DependencyFor(ds, rawDeps, at, r);
        SoundIffJoining(d, r, ids, raws);
      }
    } else {
      var d :| d in ds && !IsSoundDependency(d, ids);
      var r := RawOf(ds, rawDeps, at, d);
      SoundIffJoining(d, r, ids, raws);
    }
  }

  /** The tests on sets and counts say what `WellFormed` says. */
  lemma WellFormedIff(subtasks: seq<Subtask>, dependencies: seq<Dependency>)
    ensures var ids := SetOf(TemporaryIds(subtasks));
            WellFormed(Plan(subtasks, dependencies)) <==>
            |subtasks| != 0 && |ids| == |subtasks| && !exists d :: d in dependencies && IsBadDependency(d, ids)
  {
    var ids := TemporaryIds(subtasks);
    CardinalityOfSetOf(ids);
    assert forall d :: d in dependencies ==> (IsBadDependency(d, SetOf(ids)) <==> !IsSoundDependency(d, ids));
  }
}
