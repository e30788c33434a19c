/** src/domain/projectManager/store.ts: goals, their audit events and their links to tasks. The store as a
    value with its operations, what every run of them keeps, and the class that updates it in place. */
module GoalStore {
  import opened Common
  import opened Text
  import opened ProjectTypes
  import opened GoalPolicy

  datatype GoalStatus = Proposed | Approved | Active | Completed | Rejected | Stale

  datatype Goal = Goal(repositoryName: string, draft: GoalDraft, status: GoalStatus, duplicateSignature: string)

  datatype AuditEvent =
    | GoalCreated | GoalApproved | GoalActivated | GoalCompleted | GoalRejected | GoalStale
    | GoalClassified(replan: GoalReplan)

  datatype GoalTaskLink = GoalTaskLink(goalId: string, taskId: string, linkType: string)

  /** `order` lists the goal ids as the source's map iterates over them. */
  datatype Store = Store(
    order: seq<string>,
    goals: map<string, Goal>,
    events: map<string, seq<AuditEvent>>,
    links: seq<GoalTaskLink>)

  /** What the store is given: a signature of goals, and identifiers not used before. */
  datatype Env = Env(signatureOf: (string, GoalDraft) -> string, newId: set<string> -> string) {
    ghost predicate IsFresh() {
      forall used :: newId(used) !in used
    }

    /** The signature is a digest of the payload of module GoalPolicy. */
    ghost predicate Signs(digest: SignaturePayload -> string) {
      forall r, d: GoalDraft :: signatureOf(r, d) == digest(PayloadOf(r, d.title, d.evidenceRefs))
    }
  }

  const EMPTY := Store([], map[], map[], [])

  predicate IsTerminal(s: GoalStatus) {
    s == Completed || s == Rejected || s == Stale
  }

  // ---------------------------------------------------------------------------------------------
  // Operations
  // ---------------------------------------------------------------------------------------------

  /** From where `approveGoal`, `activateGoal`, ... may move a goal, by where they move it. */
  function SourcesOf(to: GoalStatus): set<GoalStatus> {
    match to
    case Proposed => {}
    case Approved => {Proposed}
    case Active => {Approved}
    case Completed => {Active}
    case Rejected => {Proposed}
    case Stale => {Proposed, Approved, Active}
  }

  function EventOf(to: GoalStatus): AuditEvent {
    match to
    case Proposed => GoalCreated
    case Approved => GoalApproved
    case Active => GoalActivated
    case Completed => GoalCompleted
    case Rejected => GoalRejected
    case Stale => GoalStale
  }

  function AppendEvent(s: Store, id: string, e: AuditEvent): Store {
    s.(events := s.events[id := (if id in s.events then s.events[id] else []) + [e]])
  }

  /** One goal gets a status and an event: what `approveGoal` and its like, and a classification, do. */
  function UpdateGoal(s: Store, id: string, status: GoalStatus, e: AuditEvent): Store
    requires id in s.goals
  {
    AppendEvent(s.(goals := s.goals[id := s.goals[id].(status := status)]), id, e)
  }

  /** The store with one more goal. */
  function AddGoal(s: Store, id: string, goal: Goal): Store {
    AppendEvent(s.(order := s.order + [id], goals := s.goals[id := goal]), id, GoalCreated)
  }

  predicate CanMove(s: Store, id: string, to: GoalStatus) {
    id in s.goals && s.goals[id].status in SourcesOf(to)
  }

  function MoveGoal(s: Store, id: string, to: GoalStatus): Store {
    if CanMove(s, id, to) then UpdateGoal(s, id, to, EventOf(to)) else s
  }

  predicate IsActiveDuplicate(goal: Goal, repositoryName: string, signature: string) {
    goal.repositoryName == repositoryName && goal.duplicateSignature == signature && !IsTerminal(goal.status)
  }

  predicate HasActiveDuplicate(s: Store, repositoryName: string, signature: string) {
    exists id :: id in s.goals && IsActiveDuplicate(s.goals[id], repositoryName, signature)
  }

  function CreateGoal(s: Store, repositoryName: string, draft: GoalDraft, env: Env): Store {
    var signature := env.signatureOf(repositoryName, draft);
    if HasActiveDuplicate(s, repositoryName, signature) then s
    else
      var id := env.newId(s.goals.Keys);
      AddGoal(s, id, Goal(repositoryName, draft, Proposed, signature))
  }

  function CreateGoals(s: Store, repositoryName: string, drafts: seq<GoalDraft>, env: Env): Store {
    if drafts == [] then s
    else CreateGoal(CreateGoals(s, repositoryName, drafts[..|drafts| - 1], env), repositoryName, drafts[|drafts| - 1], env)
  }

  function RecordReplan(s: Store, replan: GoalReplan): Store {
    if replan.goalId in s.goals then AppendEvent(s, replan.goalId, GoalClassified(replan)) else s
  }

  function LinkTask(s: Store, link: GoalTaskLink): Store {
    if link.goalId !in s.goals || link in s.links then s else s.(links := s.links + [link])
  }

  // ---------------------------------------------------------------------------------------------
  // What every reachable store satisfies
  // ---------------------------------------------------------------------------------------------

  /** The status an audit history ends in; none when it is not a history of the lifecycle. */
  function Replay(events: seq<AuditEvent>): Option<GoalStatus> {
    if events == [] then None
    else
      var before := Replay(events[..|events| - 1]);
      match events[|events| - 1]
      case GoalCreated => if |events| == 1 then Some(Proposed) else None
      case GoalClassified(_) => before
      case GoalApproved => if before == Some(Proposed) then Some(Approved) else None
      case GoalActivated => if before == Some(Approved) then Some(Active) else None
      case GoalCompleted => if before == Some(Active) then Some(Completed) else None
      case GoalRejected => if before == Some(Proposed) then Some(Rejected) else None
      case GoalStale => if before.Some? && !IsTerminal(before.value) then Some(Stale) else None
  }

  /** How a history continues: exactly as the status guards allow. */
  lemma HistoryContinuesIff(events: seq<AuditEvent>, status: GoalStatus, to: GoalStatus)
    requires Replay(events) == Some(status)
    ensures Replay(events + [EventOf(to)]) == if status in SourcesOf(to) then Some(to) else None
  {
    assert (events + [EventOf(to)])[..|events|] == events;
  }

  lemma ClassifiedHistory(events: seq<AuditEvent>, replan: GoalReplan)
    requires events != []
    ensures Replay(events + [GoalClassified(replan)]) == Replay(events)
  {
    assert (events + [GoalClassified(replan)])[..|events|] == events;
  }

  ghost predicate HistoryTells(s: Store, id: string)
    requires id in s.goals
  {
    id in s.events && Replay(s.events[id]) == Some(s.goals[id].status)
  }

  ghost predicate IsSigned(s: Store, id: string, env: Env)
    requires id in s.goals
  {
    s.goals[id].duplicateSignature == env.signatureOf(s.goals[id].repositoryName, s.goals[id].draft)
  }

  /** Two goals of one repository that are both still open have different signatures. */
  ghost predicate NoOpenDuplicates(s: Store) {
    forall a, b :: a in s.goals && b in s.goals && a != b && !IsTerminal(s.goals[a].status) ==>
      !IsActiveDuplicate(s.goals[b], s.goals[a].repositoryName, s.goals[a].duplicateSignature)
  }

  ghost predicate IsKeyed(s: Store) {
    && NoDuplicates(s.order) && SetOf(s.order) == s.goals.Keys && s.events.Keys == s.goals.Keys
    && NoDuplicates(s.links) && (forall l :: l in s.links ==> l.goalId in s.goals)
  }

  ghost predicate HistoriesTell(s: Store) {
    forall id :: id in s.goals ==> HistoryTells(s, id)
  }

  ghost predicate AllSigned(s: Store, env: Env) {
    forall id :: id in s.goals ==> IsSigned(s, id, env)
  }

  ghost predicate Valid(s: Store, env: Env) {
    IsKeyed(s) && HistoriesTell(s) && AllSigned(s, env) && NoOpenDuplicates(s)
  }

  /** Nothing is forgotten and no closed goal changes. */
  ghost predicate Extends(before: Store, after: Store) {
    && before.order <= after.order
    && before.links <= after.links
    && forall id :: id in before.goals ==> ExtendsGoal(before, after, id)
  }

  ghost predicate ExtendsGoal(before: Store, after: Store, id: string)
    requires id in before.goals
  {
    && id in after.goals
    && (id in before.events ==> id in after.events && before.events[id] <= after.events[id])
    && after.goals[id] == before.goals[id].(status := after.goals[id].status)
    && (IsTerminal(before.goals[id].status) ==> after.goals[id].status == before.goals[id].status)
  }

  lemma UpdateKeepsHistories(s: Store, id: string, status: GoalStatus, e: AuditEvent)
    requires HistoriesTell(s) && id in s.goals
    requires Replay(s.events[id] + [e]) == Some(status)
    ensures HistoriesTell(UpdateGoal(s, id, status, e))
  {
    var s' := UpdateGoal(s, id, status, e);
    forall a | a in s'.goals ensures HistoryTells(s', a) {
      assert HistoryTells(s, a);
    }
  }

  lemma UpdateKeepsDuplicatesOut(s: Store, id: string, status: GoalStatus, e: AuditEvent)
    requires NoOpenDuplicates(s) && id in s.goals
    requires IsTerminal(s.goals[id].status) ==> IsTerminal(status)
    ensures NoOpenDuplicates(UpdateGoal(s, id, status, e))
  {
    var s' := UpdateGoal(s, id, status, e);
    forall a, b | a in s'.goals && b in s'.goals && a != b && !IsTerminal(s'.goals[a].status)
      ensures !IsActiveDuplicate(s'.goals[b], s'.goals[a].repositoryName, s'.goals[a].duplicateSignature)
    {
      assert !IsActiveDuplicate(s.goals[b], s.goals[a].repositoryName, s.goals[a].duplicateSignature);
    }
  }

  lemma UpdateKeepsSigned(s: Store, id: string, status: GoalStatus, e: AuditEvent, env: Env)
    requires AllSigned(s, env) && id in s.goals
    ensures AllSigned(UpdateGoal(s, id, status, e), env)
  {
    var s' := UpdateGoal(s, id, status, e);
    forall a | a in s'.goals ensures IsSigned(s', a, env) {
      assert IsSigned(s, a, env);
    }
  }

  lemma UpdateExtends(s: Store, id: string, status: GoalStatus, e: AuditEvent)
    requires IsKeyed(s) && id in s.goals
    requires IsTerminal(s.goals[id].status) ==> status == s.goals[id].status
    ensures IsKeyed(UpdateGoal(s, id, status, e)) && Extends(s, UpdateGoal(s, id, status, e))
  {
    var s' := UpdateGoal(s, id, status, e);
    forall a | a in s.goals ensures ExtendsGoal(s, s', a) {
    }
  }

  lemma UpdateKeepsValid(s: Store, id: string, status: GoalStatus, e: AuditEvent, env: Env)
    requires Valid(s, env) && id in s.goals
    requires Replay(s.events[id] + [e]) == Some(status)
    requires IsTerminal(s.goals[id].status) ==> status == s.goals[id].status
    ensures Valid(UpdateGoal(s, id, status, e), env) && Extends(s, UpdateGoal(s, id, status, e))
  {
    UpdateKeepsHistories(s, id, status, e);
    UpdateKeepsDuplicatesOut(s, id, status, e);
    UpdateExtends(s, id, status, e);
    UpdateKeepsSigned(s, id, status, e, env);
  }

  lemma MoveKeepsValid(s: Store, id: string, to: GoalStatus, env: Env)
    requires Valid(s, env)
    ensures Valid(MoveGoal(s, id, to), env) && Extends(s, MoveGoal(s, id, to))
  {
    if CanMove(s, id, to) {
      assert HistoryTells(s, id);
      HistoryContinuesIff(s.events[id], s.goals[id].status, to);
      UpdateKeepsValid(s, id, to, EventOf(to), env);
    }
  }

  lemma RecordKeepsValid(s: Store, replan: GoalReplan, env: Env)
    requires Valid(s, env)
    ensures Valid(RecordReplan(s, replan), env) && Extends(s, RecordReplan(s, replan))
  {
    var id := replan.goalId;
    if id in s.goals {
      assert HistoryTells(s, id);
      ClassifiedHistory(s.events[id], replan);
      UpdateKeepsValid(s, id, s.goals[id].status, GoalClassified(replan), env);
      assert s.goals[id := s.goals[id].(status := s.goals[id].status)] == s.goals;
    }
  }

  /** The predicates that do not look at links. */
  lemma LinksDoNotMatter(s: Store, links: seq<GoalTaskLink>, env: Env)
    requires HistoriesTell(s) && AllSigned(s, env) && NoOpenDuplicates(s)
    ensures var s' := s.(links := links); HistoriesTell(s') && AllSigned(s', env) && NoOpenDuplicates(s')
  {
    var s' := s.(links := links);
    forall a | a in s'.goals ensures HistoryTells(s', a) && IsSigned(s', a, env) {
      assert HistoryTells(s, a) && IsSigned(s, a, env);
    }
    forall a, b | a in s'.goals && b in s'.goals && a != b && !IsTerminal(s'.goals[a].status)
      ensures !IsActiveDuplicate(s'.goals[b], s'.goals[a].repositoryName, s'.goals[a].duplicateSignature)
    {
      assert !IsActiveDuplicate(s.goals[b], s.goals[a].repositoryName, s.goals[a].duplicateSignature);
    }
  }

  lemma LinkKeepsValid(s: Store, link: GoalTaskLink, env: Env)
    requires Valid(s, env)
    ensures Valid(LinkTask(s, link), env) && Extends(s, LinkTask(s, link))
  {
    LinksDoNotMatter(s, s.links + [link], env);
  }

  lemma AddKeepsKeyed(s: Store, id: string, goal: Goal)
    requires IsKeyed(s) && id !in s.goals
    ensures IsKeyed(AddGoal(s, id, goal))
  {
    assert id !in SetOf(s.order);
    assert SetOf(s.order + [id]) == SetOf(s.order) + {id};
  }

  lemma AddKeepsDuplicatesOut(s: Store, id: string, goal: Goal)
    requires NoOpenDuplicates(s) && id !in s.goals
    requires !HasActiveDuplicate(s, goal.repositoryName, goal.duplicateSignature)
    ensures NoOpenDuplicates(AddGoal(s, id, goal))
  {
    var s' := AddGoal(s, id, goal);
    forall a, b | a in s'.goals && b in s'.goals && a != b && !IsTerminal(s'.goals[a].status)
      ensures !IsActiveDuplicate(s'.goals[b], s'.goals[a].repositoryName, s'.goals[a].duplicateSignature)
    {
      if a != id {
        assert !IsActiveDuplicate(s.goals[a], goal.repositoryName, goal.duplicateSignature);
      }
    }
  }

  lemma AddKeepsTold(s: Store, id: string, goal: Goal, env: Env)
    requires IsKeyed(s) && HistoriesTell(s) && AllSigned(s, env) && id !in s.goals && goal.status == Proposed
    requires goal.duplicateSignature == env.signatureOf(goal.repositoryName, goal.draft)
    ensures HistoriesTell(AddGoal(s, id, goal)) && AllSigned(AddGoal(s, id, goal), env)
  {
    var s' := AddGoal(s, id, goal);
    forall a | a in s'.goals ensures HistoryTells(s', a) && IsSigned(s', a, env) {
      if a != id { assert HistoryTells(s, a) && IsSigned(s, a, env); }
    }
  }

  lemma AddKeepsValid(s: Store, id: string, goal: Goal, env: Env)
    requires Valid(s, env) && id !in s.goals && goal.status == Proposed
    requires goal.duplicateSignature == env.signatureOf(goal.repositoryName, goal.draft)
    requires !HasActiveDuplicate(s, goal.repositoryName, goal.duplicateSignature)
    ensures Valid(AddGoal(s, id, goal), env) && Extends(s, AddGoal(s, id, goal))
  {
    AddKeepsKeyed(s, id, goal);
    AddKeepsDuplicatesOut(s, id, goal);
    AddKeepsTold(s, id, goal, env);
    forall a | a in s.goals ensures ExtendsGoal(s, AddGoal(s, id, goal), a) {
    }
  }

  lemma CreateKeepsValid(s: Store, repositoryName: string, draft: GoalDraft, env: Env)
    requires Valid(s, env) && env.IsFresh()
    ensures var s' := CreateGoal(s, repositoryName, draft, env);
            Valid(s', env) && Extends(s, s') && |s'.order| <= |s.order| + 1 && s'.links == s.links
  {
    var signature := env.signatureOf(repositoryName, draft);
    if !HasActiveDuplicate(s, repositoryName, signature) {
      AddKeepsValid(s, env.newId(s.goals.Keys), Goal(repositoryName, draft, Proposed, signature), env);
    }
  }

  lemma {:induction false} CreateGoalsKeepsValid(s: Store, repositoryName: string, drafts: seq<GoalDraft>, env: Env)
    requires Valid(s, env) && env.IsFresh()
    ensures var s' := CreateGoals(s, repositoryName, drafts, env);
            Valid(s', env) && Extends(s, s') && |s'.order| <= |s.order| + |drafts| && s'.links == s.links
  {
    if drafts != [] {
      var n := |drafts| - 1;
      CreateGoalsKeepsValid(s, repositoryName, drafts[..n], env);
      CreateKeepsValid(CreateGoals(s, repositoryName, drafts[..n], env), repositoryName, drafts[n], env);
    }
  }

  // ---------------------------------------------------------------------------------------------
  // Every run of operations
  // ---------------------------------------------------------------------------------------------

  datatype Op =
    | Create(repositoryName: string, drafts: seq<GoalDraft>)
    | Move(goalId: string, to: GoalStatus)
    | Classify(replan: GoalReplan)
    | LinkOp(link: GoalTaskLink)

  function Apply(s: Store, op: Op, env: Env): Store {
    match op
    case Create(repositoryName, drafts) => CreateGoals(s, repositoryName, drafts, env)
    case Move(id, to) => MoveGoal(s, id, to)
    case Classify(replan) => RecordReplan(s, replan)
    case LinkOp(link) => LinkTask(s, link)
  }

  function Run(s: Store, ops: seq<Op>, env: Env): Store {
    if ops == [] then s else Apply(Run(s, ops[..|ops| - 1], env), ops[|ops| - 1], env)
  }

  lemma ApplyKeepsValid(s: Store, op: Op, env: Env)
    requires Valid(s, env) && env.IsFresh()
    ensures Valid(Apply(s, op, env), env) && Extends(s, Apply(s, op, env))
  {
    match op
    case Create(repositoryName, drafts) => CreateGoalsKeepsValid(s, repositoryName, drafts, env);
    case Move(id, to) => MoveKeepsValid(s, id, to, env);
    case Classify(replan) => RecordKeepsValid(s, replan, env);
    case LinkOp(link) => LinkKeepsValid(s, link, env);
  }

  lemma ExtendsTransitive(a: Store, b: Store, c: Store)
    requires Extends(a, b) && Extends(b, c)
    ensures Extends(a, c)
  {
    forall id | id in a.goals ensures ExtendsGoal(a, c, id) {
      assert ExtendsGoal(a, b, id) && ExtendsGoal(b, c, id);
    }
  }

  /** Whatever is done to a valid store, it stays valid and extends what it was: histories only grow, and
      a goal that was completed, rejected or stale keeps its status. */
  lemma {:induction false} RunKeepsValid(s: Store, ops: seq<Op>, env: Env)
    requires Valid(s, env) && env.IsFresh()
    ensures Valid(Run(s, ops, env), env) && Extends(s, Run(s, ops, env))
  {
    if ops != [] {
      var init := ops[..|ops| - 1];
      RunKeepsValid(s, init, env);
      ApplyKeepsValid(Run(s, init, env), ops[|ops| - 1], env);
      ExtendsTransitive(s, Run(s, init, env), Run(s, ops, env));
    }
  }

  /** Every store reachable from the empty one. */
  lemma ReachableStore(ops: seq<Op>, env: Env, id: string)
    requires env.IsFresh()
    ensures Valid(Run(EMPTY, ops, env), env)
    ensures var s := Run(EMPTY, ops, env);
            id in s.goals ==> id in s.events && Replay(s.events[id]) == Some(s.goals[id].status)
  {
    RunKeepsValid(EMPTY, ops, env);
    var s := Run(EMPTY, ops, env);
    if id in s.goals { assert HistoryTells(s, id); }
  }

  /** The status guards let a goal move exactly when its audit history can be continued that way. */
  lemma MoveAcceptedIff(s: Store, id: string, to: GoalStatus, env: Env)
    requires Valid(s, env)
    ensures CanMove(s, id, to) <==> id in s.goals && Replay(s.events[id] + [EventOf(to)]).Some?
  {
    if id in s.goals {
      assert HistoryTells(s, id);
      HistoryContinuesIff(s.events[id], s.goals[id].status, to);
    }
  }

  // ---------------------------------------------------------------------------------------------
  // Duplicate suppression
  // ---------------------------------------------------------------------------------------------

  /** The draft says the same as the goal: the same title words and evidence, for the same repository. */
  ghost predicate SaysTheSame(goal: Goal, repositoryName: string, draft: GoalDraft) {
    && goal.repositoryName == repositoryName
    && Words(Lower(goal.draft.title)) == Words(Lower(draft.title))
    && SameEvidenceSets(goal.draft.evidenceRefs, draft.evidenceRefs)
  }

  ghost predicate IsAlreadyOpen(s: Store, repositoryName: string, draft: GoalDraft) {
    exists id :: id in s.goals && !IsTerminal(s.goals[id].status) && SaysTheSame(s.goals[id], repositoryName, draft)
  }

  lemma SamePayload(goal: Goal, repositoryName: string, draft: GoalDraft)
    ensures SaysTheSame(goal, repositoryName, draft) <==>
            PayloadOf(goal.repositoryName, goal.draft.title, goal.draft.evidenceRefs)
            == PayloadOf(repositoryName, draft.title, draft.evidenceRefs)
  {
    SamePayloadIff(goal.repositoryName, goal.draft.title, goal.draft.evidenceRefs,
                   repositoryName, draft.title, draft.evidenceRefs);
  }

  /** An open goal that says the same suppresses a draft; with a digest that never collides on these
      payloads, nothing else does. */
  lemma DraftIsSuppressedIff(
    s: Store, repositoryName: string, draft: GoalDraft, env: Env, digest: SignaturePayload -> string)
    requires Valid(s, env) && env.IsFresh() && env.Signs(digest)
    ensures IsAlreadyOpen(s, repositoryName, draft) ==> CreateGoal(s, repositoryName, draft, env) == s
    ensures (forall p, q :: digest(p) == digest(q) ==> p == q) ==>
              (CreateGoal(s, repositoryName, draft, env) == s <==> IsAlreadyOpen(s, repositoryName, draft))
  {
    var signature := env.signatureOf(repositoryName, draft);
    if IsAlreadyOpen(s, repositoryName, draft) {
      var id :| id in s.goals && !IsTerminal(s.goals[id].status) && SaysTheSame(s.goals[id], repositoryName, draft);
      assert IsSigned(s, id, env);
      SamePayload(s.goals[id], repositoryName, draft);
      assert IsActiveDuplicate(s.goals[id], repositoryName, signature);
    }
    if HasActiveDuplicate(s, repositoryName, signature) {
      var id :| id in s.goals && IsActiveDuplicate(s.goals[id], repositoryName, signature);
      assert IsSigned(s, id, env);
      SamePayload(s.goals[id], repositoryName, draft);
    } else {
      assert |CreateGoal(s, repositoryName, draft, env).order| == |s.order| + 1;
    }
  }

  lemma CreateKeepsOpenGoal(s: Store, repositoryName: string, draft: GoalDraft, env: Env, signature: string)
    requires env.IsFresh() && HasActiveDuplicate(s, repositoryName, signature)
    ensures HasActiveDuplicate(CreateGoal(s, repositoryName, draft, env), repositoryName, signature)
  {
    var id :| id in s.goals && IsActiveDuplicate(s.goals[id], repositoryName, signature);
    var s' := CreateGoal(s, repositoryName, draft, env);
    assert env.newId(s.goals.Keys) !in s.goals.Keys;
    assert s'.goals[id] == s.goals[id];
  }

  lemma CreateLeavesOpenGoal(s: Store, repositoryName: string, draft: GoalDraft, env: Env)
    ensures HasActiveDuplicate(CreateGoal(s, repositoryName, draft, env), repositoryName, env.signatureOf(repositoryName, draft))
  {
    var signature := env.signatureOf(repositoryName, draft);
    var s' := CreateGoal(s, repositoryName, draft, env);
    if !HasActiveDuplicate(s, repositoryName, signature) {
      assert IsActiveDuplicate(s'.goals[env.newId(s.goals.Keys)], repositoryName, signature);
    }
  }

  /** After a batch, every draft of it has an open goal with its signature. */
  lemma {:induction false} BatchLeavesOpenGoals(
    s: Store, repositoryName: string, drafts: seq<GoalDraft>, env: Env, d: GoalDraft)
    requires Valid(s, env) && env.IsFresh() && d in drafts
    ensures HasActiveDuplicate(CreateGoals(s, repositoryName, drafts, env), repositoryName, env.signatureOf(repositoryName, d))
  {
    var n := |drafts| - 1;
    var s1 := CreateGoals(s, repositoryName, drafts[..n], env);
    if d == drafts[n] {
      CreateLeavesOpenGoal(s1, repositoryName, d, env);
    } else {
      assert drafts == drafts[..n] + [drafts[n]];
      BatchLeavesOpenGoals(s, repositoryName, drafts[..n], env, d);
      CreateGoalsKeepsValid(s, repositoryName, drafts[..n], env);
      CreateKeepsOpenGoal(s1, repositoryName, drafts[n], env, env.signatureOf(repositoryName, d));
    }
  }

  ghost predicate Restates(draft: GoalDraft, original: GoalDraft) {
    Words(Lower(draft.title)) == Words(Lower(original.title)) && SameEvidenceSets(draft.evidenceRefs, original.evidenceRefs)
  }

  /** Repeating a batch creates nothing, even with the titles in another case or spacing, and the evidence
      reordered, repeated, in another case or padded. */
  lemma {:induction false} RepeatedBatchCreatesNothing(
    s: Store, repositoryName: string, drafts: seq<GoalDraft>, again: seq<GoalDraft>, env: Env,
    digest: SignaturePayload -> string)
    requires Valid(s, env) && env.IsFresh() && env.Signs(digest)
    requires forall a :: a in again ==> exists d :: d in drafts && Restates(a, d)
    ensures var s' := CreateGoals(s, repositoryName, drafts, env);
            CreateGoals(s', repositoryName, again, env) == s'
  {
    var s' := CreateGoals(s, repositoryName, drafts, env);
    if again != [] {
      var n := |again| - 1;
      assert forall a :: a in again[..n] ==> a in again;
      RepeatedBatchCreatesNothing(s, repositoryName, drafts, again[..n], env, digest);
      assert again[n] in again;
      var d :| d in drafts && Restates(again[n], d);
      BatchLeavesOpenGoals(s, repositoryName, drafts, env, d);
      SamePayloadIff(repositoryName, again[n].title, again[n].evidenceRefs, repositoryName, d.title, d.evidenceRefs);
    }
  }

  predicate IsListed(goal: Goal, repositoryName: string, statuses: set<GoalStatus>) {
    goal.repositoryName == repositoryName && goal.status in statuses
  }

  // ---------------------------------------------------------------------------------------------
  // The class
  // ---------------------------------------------------------------------------------------------

  datatype RunStatus = Started | RunCompleted | RunFailed

  /** A run of the project manager; its id is its position. */
  datatype RunRecord = RunRecord(repositoryName: string, status: RunStatus, proposedGoalIds: seq<string>)

  datatype AnalysisRecord = AnalysisRecord(repositoryName: string, createdAt: int, analysis: ParsedAnalysis)

  class InMemoryProjectManagerStore {
    const env: Env

    var order: seq<string>
    var goals: map<string, Goal>
    var goalEvents: map<string, seq<AuditEvent>>
    var goalTaskLinks: seq<GoalTaskLink>
    var runs: seq<RunRecord>
    var analyses: seq<AnalysisRecord>

    ghost function State(): Store
      reads this
    {
      Store(order, goals, goalEvents, goalTaskLinks)
    }

    constructor (env: Env)
      ensures this.env == env && State() == EMPTY && runs == [] && analyses == []
    {
      this.env := env;
      order, goals, goalEvents, goalTaskLinks := [], map[], map[], [];
      runs, analyses := [], [];
    }

    method StartRun(repositoryName: string) returns (id: nat)
      modifies this`runs
      ensures id == |old(runs)| && runs == old(runs) + [RunRecord(repositoryName, Started, [])]
    {
      id := |runs|;
      runs := runs + [RunRecord(repositoryName, Started, [])];
    }

    method CompleteRun(id: nat, proposedGoalIds: seq<string>) returns (r: Result<()>)
      modifies this`runs
      ensures r.Ok? <==> id < |old(runs)|
      ensures runs == if r.Ok?
                      then old(runs)[id := old(runs)[id].(status := RunCompleted, proposedGoalIds := proposedGoalIds)]
                      else old(runs)
    {
      if id >= |runs| {
        return Err(Permanent);
      }
      runs := runs[id := runs[id].(status := RunCompleted, proposedGoalIds := proposedGoalIds)];
      r := Ok(());
    }

    method FailRun(id: nat) returns (r: Result<()>)
      modifies this`runs
      ensures r.Ok? <==> id < |old(runs)|
      ensures runs == if r.Ok? then old(runs)[id := old(runs)[id].(status := RunFailed)] else old(runs)
    {
      if id >= |runs| {
        return Err(Permanent);
      }
      runs := runs[id := runs[id].(status := RunFailed)];
      r := Ok(());
    }

    method RecordAnalysis(repositoryName: string, now: int, analysis: ParsedAnalysis)
      modifies this`analyses
      ensures analyses == old(analyses) + [AnalysisRecord(repositoryName, now, analysis)]
    {
      analyses := analyses + [AnalysisRecord(repositoryName, now, analysis)];
    }

    method AppendGoalEvent(id: string, e: AuditEvent)
      modifies this`goalEvents
      ensures State() == AppendEvent(old(State()), id, e)
    {
      var existing := if id in goalEvents then goalEvents[id] else [];
      goalEvents := goalEvents[id := existing + [e]];
    }

    /** Skips every draft an open goal of the repository duplicates, goals of this very batch included. */
    method CreateGoalsFromAnalysis(repositoryName: string, drafts: seq<GoalDraft>) returns (created: seq<string>)
      requires Valid(State(), env) && env.IsFresh()
      modifies this`order, this`goals, this`goalEvents
      ensures State() == CreateGoals(old(State()), repositoryName, drafts, env)
      ensures Valid(State(), env) && Extends(old(State()), State())
      ensures order == old(order) + created && |created| <= |drafts|
    {
      created := [];
      CreateGoalsKeepsValid(State(), repositoryName, drafts, env);
      for i := 0 to |drafts|
        invariant State() == CreateGoals(old(State()), repositoryName, drafts[..i], env)
        invariant order == old(order) + created && |created| <= i
      {
        assert drafts[..i + 1][..i] == drafts[..i];
        var goal := CreateGoalFromDraft(repositoryName, drafts[i]);
        if goal.Some? {
          created := created + [goal.value];
        }
      }
      assert drafts[..|drafts|] == drafts;
    }

    /** The body of the loop: nothing when `hasActiveDuplicate` says so. */
    method CreateGoalFromDraft(repositoryName: string, draft: GoalDraft) returns (created: Option<string>)
      modifies this`order, this`goals, this`goalEvents
      ensures State() == CreateGoal(old(State()), repositoryName, draft, env)
      ensures order == old(order) + if created.Some? then [created.value] else []
    {
      var signature := env.signatureOf(repositoryName, draft);
      if exists id :: id in goals && IsActiveDuplicate(goals[id], repositoryName, signature) {
        assert HasActiveDuplicate(State(), repositoryName, signature);
        return None;
      }
      assert !HasActiveDuplicate(State(), repositoryName, signature);
      var id := env.newId(goals.Keys);
      goals := goals[id := Goal(repositoryName, draft, Proposed, signature)];
      order := order + [id];
      AppendGoalEvent(id, GoalCreated);
      created := Some(id);
    }

    /** The goals of a repository in one of some statuses, in order. */
    method ListGoals(repositoryName: string, statuses: set<GoalStatus>) returns (r: seq<string>)
      requires IsKeyed(State())
      ensures forall id :: id in r <==> id in goals && IsListed(goals[id], repositoryName, statuses)
      ensures NoDuplicates(r)
    {
      assert forall id :: id in order <==> id in goals by {
        assert forall id :: id in order <==> id in SetOf(order);
      }
      r := [];
      for i := 0 to |order|
        invariant forall id :: id in r <==> id in order[..i] && id in goals && IsListed(goals[id], repositoryName, statuses)
        invariant NoDuplicates(r)
      {
        assert order[..i + 1] == order[..i] + [order[i]] && order[i] !in order[..i];
        assert order[i] in order;
        if IsListed(goals[order[i]], repositoryName, statuses) {
          r := r + [order[i]];
        }
      }
      assert order[..|order|] == order;
    }

    /** The body `approveGoal`, `activateGoal`, `completeGoal`, `rejectGoal` and `markGoalStale` share. */
    method TransitionGoal(id: string, to: GoalStatus) returns (r: Result<()>)
      modifies this`goals, this`goalEvents
      ensures r.Ok? <==> CanMove(old(State()), id, to)
      ensures State() == MoveGoal(old(State()), id, to)
    {
      if id !in goals || goals[id].status !in SourcesOf(to) {
        return Err(Permanent);
      }
      goals := goals[id := goals[id].(status := to)];
      AppendGoalEvent(id, EventOf(to));
      r := Ok(());
    }

    method RecordGoalReplanClassification(replan: GoalReplan) returns (r: Result<()>)
      modifies this`goalEvents
      ensures r.Ok? <==> replan.goalId in goals
      ensures State() == RecordReplan(old(State()), replan)
    {
      if replan.goalId !in goals {
        return Err(Permanent);
      }
      AppendGoalEvent(replan.goalId, GoalClassified(replan));
      r := Ok(());
    }

    /** Linking the same task the same way again returns the link there is. */
    method LinkGoalTask(link: GoalTaskLink) returns (r: Result<GoalTaskLink>)
      modifies this`goalTaskLinks
      ensures r.Ok? <==> link.goalId in goals
      ensures r.Ok? ==> r.value == link && link in goalTaskLinks
      ensures State() == LinkTask(old(State()), link)
    {
      if link.goalId !in goals {
        return Err(Permanent);
      }
      if link !in goalTaskLinks {
        goalTaskLinks := goalTaskLinks + [link];
      }
      r := Ok(link);
    }
  }
}
