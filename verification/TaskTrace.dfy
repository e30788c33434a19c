/** What one worker did to its checkout, in order, and what that says about the trees it pushed. */
module TaskTrace {
  import opened Common
  import opened CommentLog
  import opened Decomposition
  import opened QualityGates

  /** The part of Codex's final message a stage reads. */
  datatype Message =
    | ReadyMarker
    | AnalysisMessage(decision: Decision)
    | PlanMessage(plan: RawPlan)
    | SelfReviewMessage(passed: bool)
    | OtherMessage

  datatype Execution = Execution(exitCode: int, thread: Option<string>, clarification: bool, message: Message)

  /** What a validation asks for. */
  datatype Rules = Rules(gates: seq<Gate>, threshold: Option<real>)

  /** The identity of the content of a working tree or commit. */
  type Tree = nat

  /** What a checkout finds on a branch: nothing but what the base has; commits; or uncommitted changes. */
  datatype BranchState = Untouched | Ahead | Dirty

  datatype Checkout = Checkout(branch: string, commit: nat, state: BranchState)

  datatype Event =
    | CodexRan(left: Tree, answer: Option<Execution>)  // may have edited or committed; None: the call threw
    | CheckedOut(tree: Tree, checkout: Checkout)
    | Validated(tree: Tree, changed: bool, verdict: nat -> Verdict)  // what each gate's command would do
    | SelfReviewed(tree: Tree, answer: Option<Execution>)
    | Pushed(branch: string, tree: Tree, selfReviewed: bool)  // `selfReviewed`: on a path with a self-review gate

  /** Validation succeeded: something changed, and every gate with a command succeeds. */
  ghost predicate IsSuccess(e: Event, rules: Rules) {
    && e.Validated? && e.changed
    && forall i :: 0 <= i < |rules.gates| && rules.gates[i].command != "" ==>
         Succeeds(rules.gates[i], e.verdict(i), rules.threshold)
  }

  /** A self-review that says the tree passed. */
  predicate IsPass(e: Event) {
    e.SelfReviewed? && e.answer.Some? && e.answer.value.message == SelfReviewMessage(true)
  }

  predicate Writes(e: Event) {
    e.CodexRan? || e.CheckedOut?
  }

  /** Codex asks a person. */
  predicate Asks(e: Event) {
    e.CodexRan? && e.answer.Some? && e.answer.value.clarification
  }

  /** What a trace comes to: the tree the last validation accepted and the one the last self-review passed, if
      nothing wrote since; whether every push was backed by them, and went to the branch checked out; how often
      Codex ran, reviewed and asked, and how often a validation did not succeed; and the last checkout. */
  datatype Summary = Summary(
    vouched: Option<Tree>,
    approved: Option<Tree>,
    backed: bool,
    runs: nat,
    reviews: nat,
    questions: nat,
    rejections: nat,
    checkout: Option<Checkout>)
  {
    function Calls(): nat {
      runs + reviews
    }
  }

  const NOTHING_YET := Summary(None, None, true, 0, 0, 0, 0, None)

  /** The push is of the tree vouched for, and approved where that is asked for, to the branch checked out. */
  predicate Backs(s: Summary, push: Event)
    requires push.Pushed?
  {
    && s.vouched == Some(push.tree) && (push.selfReviewed ==> s.approved == Some(push.tree))
    && s.checkout.Some? && s.checkout.value.branch == push.branch
  }

  /** What one more event makes of it. */
  ghost function Step(s: Summary, e: Event, rules: Rules): Summary {
    match e
    case CodexRan(_, _) =>
      s.(vouched := None, approved := None, runs := s.runs + 1, questions := s.questions + if Asks(e) then 1 else 0)
    case CheckedOut(_, checkout) => s.(vouched := None, approved := None, checkout := Some(checkout))
    case Validated(tree, _, _) =>
      if IsSuccess(e, rules) then s.(vouched := Some(tree)) else s.(vouched := None, rejections := s.rejections + 1)
    case SelfReviewed(tree, _) =>
      s.(approved := if IsPass(e) then Some(tree) else None, reviews := s.reviews + 1)
    case Pushed(_, _, _) => s.(backed := s.backed && Backs(s, e))
  }

  ghost function Summarise(trace: seq<Event>, rules: Rules): Summary {
    if trace == [] then NOTHING_YET
    else Step(Summarise(trace[..|trace| - 1], rules), trace[|trace| - 1], rules)
  }

  /** A trace that carries its summary. */
  datatype Log = Log(events: seq<Event>, sum: Summary) {
    predicate EndsWithCodex() {
      events != [] && events[|events| - 1].CodexRan?
    }

    predicate EndsWithValidation() {
      events != [] && events[|events| - 1].Validated?
    }

    predicate EndsWithReview() {
      events != [] && events[|events| - 1].SelfReviewed?
    }

    function Last(): Event
      requires events != []
    {
      events[|events| - 1]
    }
  }

  /** The summary is that of the events. */
  ghost predicate Carries(log: Log, rules: Rules) {
    forall events :: events == log.events ==> Summarise(events, rules) == log.sum
  }

  ghost function Extended(log: Log, e: Event, rules: Rules): Log {
    Log(log.events + [e], Step(log.sum, e, rules))
  }

  lemma SummaryExtends(trace: seq<Event>, e: Event, rules: Rules)
    ensures Summarise(trace + [e], rules) == Step(Summarise(trace, rules), e, rules)
  {
    assert (trace + [e])[..|trace|] == trace;
  }

  /** The session a run names, if it names one. */
  function ThreadOf(e: Event): Option<string> {
    if e.CodexRan? && e.answer.Some? then e.answer.value.thread else None
  }

  /** The session the last run after the first `n` events named, or else the one there was. */
  function ThreadSince(trace: seq<Event>, n: nat, initial: Option<string>): Option<string> {
    if |trace| <= n then initial
    else ThreadOf(trace[|trace| - 1]).OrElse(ThreadSince(trace[..|trace| - 1], n, initial))
  }

  lemma ExtendThread(trace: seq<Event>, e: Event, n: nat, initial: Option<string>)
    requires n <= |trace|
    ensures ThreadSince(trace + [e], n, initial) == ThreadOf(e).OrElse(ThreadSince(trace, n, initial))
  {
    assert (trace + [e])[..|trace|] == trace;
  }

  /** The session can be followed in two stretches. */
  lemma {:induction false} ThreadInTwo(trace: seq<Event>, n: nat, m: nat, initial: Option<string>)
    requires n <= m <= |trace|
    ensures ThreadSince(trace, n, initial) == ThreadSince(trace, m, ThreadSince(trace[..m], n, initial))
  {
    if m < |trace| {
      ThreadInTwo(trace[..|trace| - 1], n, m, initial);
      assert trace[..|trace| - 1][..m] == trace[..m];
    } else {
      assert trace[..m] == trace;
    }
  }

  /** A resumed session that came to nothing; the worker then starts afresh, and forgets what it named. */
  predicate IsFailedResume(e: Event) {
    e.CodexRan? && e.answer.Some? && e.answer.value.exitCode != 0 && !e.answer.value.clarification
  }

  /** The session an implementation knows of, whose checkout is event `n`. */
  function KnownThread(trace: seq<Event>, n: nat, initial: Option<string>): Option<string> {
    if initial.Some? && n + 1 < |trace| && IsFailedResume(trace[n + 1]) then ThreadSince(trace, n + 2, initial)
    else ThreadSince(trace, n, initial)
  }

  /** After a checkout and the first runs: the session the last of them named, or else the one there was. */
  lemma FirstThread(e0: seq<Event>, e1: seq<Event>, e2: seq<Event>, initial: Option<string>)
    requires |e1| == |e0| + 1 && e0 <= e1 <= e2 && e1[|e0|].CheckedOut?
    requires |e1| + 1 <= |e2| <= |e1| + 2 && e2[|e2| - 1].CodexRan?
    requires |e2| == |e1| + 2 ==> initial.Some? && IsFailedResume(e2[|e1|])
    requires initial.Some? && |e2| == |e1| + 1 ==> !IsFailedResume(e2[|e1|])
    ensures KnownThread(e2, |e0|, initial) == ThreadOf(e2[|e2| - 1]).OrElse(initial)
  {
    var n := |e0|;
    if |e2| == n + 2 {
      assert e2[..n + 1] == e1;
      NoThreadYet(e0, e1, initial);
    } else {
      assert ThreadSince(e2[..n + 2], n + 2, initial) == initial;
    }
  }

  lemma NoThreadYet(e0: seq<Event>, e1: seq<Event>, initial: Option<string>)
    requires |e1| == |e0| + 1 && e0 <= e1 && e1[|e0|].CheckedOut?
    ensures ThreadSince(e1, |e0|, initial) == initial && KnownThread(e1, |e0|, initial) == initial
  {
    assert ThreadSince(e1[..|e0|], |e0|, initial) == initial;
  }

  /** Since `l0`: the branch was checked out, and Codex ran next exactly if nothing was on it. */
  ghost predicate IsBegun(l0: Log, l1: Log, branch: string) {
    var n := |l0.events|;
    && n < |l1.events| && l0.events <= l1.events
    && l1.events[n].CheckedOut? && l1.events[n].checkout.branch == branch
    && (n + 1 < |l1.events| ==> (l1.events[n + 1].CodexRan? <==> l1.events[n].checkout.state == Untouched))
  }

  /** What is known goes on being followed. */
  lemma KnownGoesOn(e1: seq<Event>, e2: seq<Event>, n: nat, initial: Option<string>)
    requires n < |e1| && e1 <= e2
    requires |e1| == n + 1 && n + 1 < |e2| ==> !e2[n + 1].CodexRan?
    requires initial.Some? && n + 1 < |e1| && IsFailedResume(e1[n + 1]) ==> n + 2 <= |e1|
    ensures KnownThread(e2, n, initial) == ThreadSince(e2, |e1|, KnownThread(e1, n, initial))
  {
    assert e2[..|e1|] == e1;
    if initial.Some? && n + 1 < |e1| && IsFailedResume(e1[n + 1]) {
      ThreadInTwo(e2, n + 2, |e1|, initial);
    } else {
      ThreadInTwo(e2, n, |e1|, initial);
    }
  }

  // ---------------------------------------------------------------------------------------------
  // The same, said about positions in the trace
  // ---------------------------------------------------------------------------------------------

  /** Event `j` accepted tree `t`; no validation and no write came after it. */
  ghost predicate LastValidationAccepts(trace: seq<Event>, rules: Rules, t: Tree, j: int) {
    && 0 <= j < |trace|
    && IsSuccess(trace[j], rules) && trace[j].tree == t
    && forall k :: j < k < |trace| ==> !trace[k].Validated? && !Writes(trace[k])
  }

  ghost predicate LastReviewPasses(trace: seq<Event>, t: Tree, j: int) {
    && 0 <= j < |trace|
    && IsPass(trace[j]) && trace[j].tree == t
    && forall k :: j < k < |trace| ==> !trace[k].SelfReviewed? && !Writes(trace[k])
  }

  lemma {:induction false} VouchedMeansLastValidation(trace: seq<Event>, rules: Rules, t: Tree)
    ensures Summarise(trace, rules).vouched == Some(t) <==> exists j :: LastValidationAccepts(trace, rules, t, j)
  {
    if trace != [] {
      var n := |trace| - 1;
      var init, last := trace[..n], trace[n];
      VouchedMeansLastValidation(init, rules, t);
      if last.Validated? || Writes(last) {
        assert IsSuccess(last, rules) && last.tree == t ==> LastValidationAccepts(trace, rules, t, n);
      } else {
        forall j ensures LastValidationAccepts(trace, rules, t, j) <==> LastValidationAccepts(init, rules, t, j) {
          assert forall k :: 0 <= k < n ==> trace[k] == init[k];
        }
      }
    }
  }

  lemma {:induction false} ApprovedMeansLastReview(trace: seq<Event>, rules: Rules, t: Tree)
    ensures Summarise(trace, rules).approved == Some(t) <==> exists j :: LastReviewPasses(trace, t, j)
  {
    if trace != [] {
      var n := |trace| - 1;
      var init, last := trace[..n], trace[n];
      ApprovedMeansLastReview(init, rules, t);
      if last.SelfReviewed? || Writes(last) {
        assert IsPass(last) && last.tree == t ==> LastReviewPasses(trace, t, n);
      } else {
        forall j ensures LastReviewPasses(trace, t, j) <==> LastReviewPasses(init, t, j) {
          assert forall k :: 0 <= k < n ==> trace[k] == init[k];
        }
      }
    }
  }

  ghost predicate IsLastCheckout(trace: seq<Event>, checkout: Checkout, j: int) {
    && 0 <= j < |trace| && trace[j].CheckedOut? && trace[j].checkout == checkout
    && forall k :: j < k < |trace| ==> !trace[k].CheckedOut?
  }

  /** The checkout of a summary is the last one. */
  lemma {:induction false} CheckoutIsLast(trace: seq<Event>, rules: Rules, checkout: Checkout)
    ensures Summarise(trace, rules).checkout == Some(checkout) <==> exists j :: IsLastCheckout(trace, checkout, j)
  {
    if trace != [] {
      var n := |trace| - 1;
      var init, last := trace[..n], trace[n];
      CheckoutIsLast(init, rules, checkout);
      if last.CheckedOut? {
        assert last.checkout == checkout ==> IsLastCheckout(trace, checkout, n);
      } else {
        forall j ensures IsLastCheckout(trace, checkout, j) <==> IsLastCheckout(init, checkout, j) {
          assert forall k :: 0 <= k < n ==> trace[k] == init[k];
        }
      }
    }
  }

  /** The last checkout is one of the branch. */
  ghost predicate IsOnBranch(trace: seq<Event>, branch: string) {
    exists checkout, j :: IsLastCheckout(trace, checkout, j) && checkout.branch == branch
  }

  /** In a backed trace every push, wherever it is, publishes the tree of the last validation before it, in
      which every gate with a command succeeded, with no Codex run or checkout in between; to the branch of the
      last checkout; and where the path has a self-review gate, also the tree the last self-review passed. */
  lemma {:induction false} EveryPushIsLastValidated(trace: seq<Event>, rules: Rules, i: int)
    requires Summarise(trace, rules).backed
    requires 0 <= i < |trace| && trace[i].Pushed?
    ensures exists j :: LastValidationAccepts(trace[..i], rules, trace[i].tree, j)
    ensures IsOnBranch(trace[..i], trace[i].branch)
    ensures trace[i].selfReviewed ==> exists j :: LastReviewPasses(trace[..i], trace[i].tree, j)
  {
    var n := |trace| - 1;
    if i == n {
      VouchedMeansLastValidation(trace[..n], rules, trace[n].tree);
      ApprovedMeansLastReview(trace[..n], rules, trace[n].tree);
      var checkout := Summarise(trace[..n], rules).checkout.value;
      CheckoutIsLast(trace[..n], rules, checkout);
      var j :| IsLastCheckout(trace[..n], checkout, j);
      assert IsOnBranch(trace[..n], trace[n].branch);
    } else {
      EveryPushIsLastValidated(trace[..n], rules, i);
      assert trace[..n][..i] == trace[..i];
    }
  }

  // ---------------------------------------------------------------------------------------------
  // What is counted
  // ---------------------------------------------------------------------------------------------

  /** The positions of the events a property holds of. */
  ghost function Positions(trace: seq<Event>, p: Event -> bool): set<nat> {
    set i: nat | i < |trace| && p(trace[i])
  }

  lemma PositionsGrow(trace: seq<Event>, e: Event, p: Event -> bool)
    ensures |Positions(trace + [e], p)| == |Positions(trace, p)| + if p(e) then 1 else 0
  {
    var before, after := Positions(trace, p), Positions(trace + [e], p);
    if p(e) {
      assert after == before + {|trace|};
    } else {
      assert after == before;
    }
  }

  predicate IsCodexRun(e: Event) {
    e.CodexRan?
  }

  predicate IsSelfReview(e: Event) {
    e.SelfReviewed?
  }

  ghost function RejectedBy(rules: Rules): Event -> bool {
    (e: Event) => e.Validated? && !IsSuccess(e, rules)
  }

  /** The counts of a summary are how many such events there are. */
  lemma {:induction false} CountsMean(trace: seq<Event>, rules: Rules)
    ensures var s := Summarise(trace, rules);
            && s.runs == |Positions(trace, IsCodexRun)|
            && s.reviews == |Positions(trace, IsSelfReview)|
            && s.questions == |Positions(trace, Asks)|
            && s.rejections == |Positions(trace, RejectedBy(rules))|
  {
    if trace == [] {
      assert Positions(trace, IsCodexRun) == {} && Positions(trace, IsSelfReview) == {};
      assert Positions(trace, Asks) == {} && Positions(trace, RejectedBy(rules)) == {};
    } else {
      var init, last := trace[..|trace| - 1], trace[|trace| - 1];
      CountsMean(init, rules);
      assert trace == init + [last];
      PositionsGrow(init, last, IsCodexRun);
      PositionsGrow(init, last, IsSelfReview);
      PositionsGrow(init, last, Asks);
      PositionsGrow(init, last, RejectedBy(rules));
    }
  }
}
