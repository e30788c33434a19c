/** src/observability/alerts.ts: alert rules over sliding windows that forget what they no longer need, and
    the suppression of repeated alerts, against the full history of events and of accepted alerts. */
module Alerts {
  import opened Common
  import opened Text

  datatype Kind = TaskFailed | MrReady | TaskLeaseBlocked | TaskPicked | ValidationCompleted | OtherKind

  datatype TaskEvent = TaskEvent(
    kind: Kind,
    isError: bool,
    repositoryName: Option<string>,
    issueKey: Option<string>,
    gate: Option<string>,
    timedOut: bool)

  datatype Rule = TaskFailedRule | MrReadyRule | QueueBlocked | ValidationFailuresRepeated | CodexTimeoutsRepeated

  datatype Severity = Info | Warning | Error

  datatype Alert = Alert(rule: Rule, severity: Severity, repositoryName: Option<string>, issueKey: Option<string>, stage: Kind)

  datatype AlertKey = AlertKey(rule: Rule, repositoryName: string, issueKey: string, stage: Kind)

  datatype Config = Config(
    enabled: bool,
    minSeverity: Severity,
    dedupWindowSeconds: int,
    validationFailureWindowSeconds: int,
    validationFailureThreshold: int,
    codexTimeoutWindowSeconds: int,
    codexTimeoutThreshold: int,
    queueBlockedCycles: int,
    sinks: nat)

  function SeverityRank(s: Severity): nat {
    match s
    case Info => 0
    case Warning => 1
    case Error => 2
  }

  function KeyOf(a: Alert): AlertKey {
    AlertKey(a.rule, a.repositoryName.GetOr(""), a.issueKey.GetOr(""), a.stage)
  }

  function AlertFor(rule: Rule, severity: Severity, e: TaskEvent): Alert {
    Alert(rule, severity, e.repositoryName, e.issueKey, e.kind)
  }

  /** Alerts of one rule and stage about one repository and issue share a key; a missing name counts as empty. */
  lemma SameKeyIff(a: Alert, b: Alert)
    ensures KeyOf(a) == KeyOf(b) <==>
            && a.rule == b.rule && a.stage == b.stage
            && a.repositoryName.GetOr("") == b.repositoryName.GetOr("") && a.issueKey.GetOr("") == b.issueKey.GetOr("")
  {
  }

  /** Less severe than the configured minimum. */
  predicate IsMinor(s: Severity, minimum: Severity) {
    s != minimum && (s == Info || minimum == Error)
  }

  /** The source's truthiness of an optional string. */
  predicate IsNamed(name: Option<string>) {
    name.Some? && name.value != ""
  }

  // ---------------------------------------------------------------------------------------------
  // Sliding windows
  // ---------------------------------------------------------------------------------------------

  function Recent(times: seq<int>, since: int): seq<int> {
    if times == [] then []
    else
      var rest := Recent(times[..|times| - 1], since);
      if times[|times| - 1] >= since then rest + [times[|times| - 1]] else rest
  }

  /** The times of the window as it was pruned when the last of all times was pushed. */
  function Window(times: seq<int>, width: int): seq<int> {
    if times == [] then []
    else
      var last := times[|times| - 1];
      Recent(times[..|times| - 1], last - width) + [last]
  }

  lemma {:induction false} RecentOfRecent(times: seq<int>, early: int, late: int)
    requires early <= late
    ensures Recent(Recent(times, early), late) == Recent(times, late)
  {
    if times != [] {
      var n := |times| - 1;
      RecentOfRecent(times[..n], early, late);
      var rest := Recent(times[..n], early);
      assert (rest + [times[n]])[..|rest|] == rest;
    }
  }

  lemma RecentAppend(times: seq<int>, t: int, since: int)
    ensures Recent(times + [t], since) == if t >= since then Recent(times, since) + [t] else Recent(times, since)
  {
    assert (times + [t])[..|times|] == times;
  }

  lemma WindowAppend(times: seq<int>, t: int, width: int)
    ensures Window(times + [t], width) == Recent(times, t - width) + [t]
  {
    assert (times + [t])[..|times|] == times;
  }

  /** With a clock that does not go back, pruning the pruned window is pruning the whole history. */
  lemma PrunedWindowIsEnough(times: seq<int>, width: int, now: int)
    requires times != [] ==> times[|times| - 1] <= now
    ensures Recent(Window(times, width), now - width) == Recent(times, now - width)
    ensures Window(times + [now], width) == Recent(times, now - width) + [now]
  {
    WindowAppend(times, now, width);
    if times != [] {
      PrunedAppend(times[..|times| - 1], times[|times| - 1], width, now - width);
      assert times == times[..|times| - 1] + [times[|times| - 1]];
    }
  }

  lemma PrunedAppend(init: seq<int>, last: int, width: int, since: int)
    requires last - width <= since
    ensures Recent(Recent(init, last - width) + [last], since) == Recent(init + [last], since)
  {
    RecentOfRecent(init, last - width, since);
    RecentAppend(Recent(init, last - width), last, since);
    RecentAppend(init, last, since);
  }

  /** The recent times are all those inside the window, each as often as it occurs. */
  lemma {:induction false} RecentKeeps(times: seq<int>, since: int, t: int)
    ensures multiset(Recent(times, since))[t] == if t >= since then multiset(times)[t] else 0
  {
    if times != [] {
      var n := |times| - 1;
      RecentKeeps(times[..n], since, t);
      assert times == times[..n] + [times[n]];
    }
  }

  // ---------------------------------------------------------------------------------------------
  // The rules, said about the whole history
  // ---------------------------------------------------------------------------------------------

  /** An event, and when its failure and its timeout were counted. */
  datatype Entry = Entry(event: TaskEvent, failureAt: int, timeoutAt: int)

  predicate IsFailure(e: TaskEvent) {
    e.kind == ValidationCompleted && e.isError && IsNamed(e.repositoryName)
  }

  predicate IsTimeout(e: TaskEvent) {
    e.timedOut && IsNamed(e.repositoryName)
  }

  function FailureKey(e: TaskEvent): string {
    e.repositoryName.GetOr("") + ":" + e.gate.GetOr("unknown")
  }

  /** Failures share a window when repository and gate are the same, a missing gate counting as "unknown". */
  lemma SameFailureKeyIff(a: TaskEvent, b: TaskEvent)
    requires ':' !in a.repositoryName.GetOr("") && ':' !in b.repositoryName.GetOr("")
    ensures FailureKey(a) == FailureKey(b) <==>
            && a.repositoryName.GetOr("") == b.repositoryName.GetOr("")
            && a.gate.GetOr("unknown") == b.gate.GetOr("unknown")
  {
    if FailureKey(a) == FailureKey(b) {
      SplitAtFirst(a.repositoryName.GetOr(""), a.gate.GetOr("unknown"), b.repositoryName.GetOr(""),
                   b.gate.GetOr("unknown"), ':');
    }
  }

  /** With a colon in a repository name, failures of two repositories can share one. */
  lemma ColonSharesFailureKey(isError: bool, timedOut: bool)
    ensures var a := TaskEvent(ValidationCompleted, isError, Some("a:b"), None, Some("c"), timedOut);
            var b := TaskEvent(ValidationCompleted, isError, Some("a"), None, Some("b:c"), timedOut);
            a.repositoryName != b.repositoryName && FailureKey(a) == FailureKey(b)
  {
    assert "a:b" + ":" + "c" == "a:b:c" == "a" + ":" + "b:c";
  }

  function QueueKey(e: TaskEvent): string {
    e.repositoryName.GetOr("unknown")
  }

  function FailureTimes(history: seq<Entry>, key: string): seq<int> {
    if history == [] then []
    else
      var rest := FailureTimes(history[..|history| - 1], key);
      var last := history[|history| - 1];
      if IsFailure(last.event) && FailureKey(last.event) == key then rest + [last.failureAt] else rest
  }

  function TimeoutTimes(history: seq<Entry>, repositoryName: string): seq<int> {
    if history == [] then []
    else
      var rest := TimeoutTimes(history[..|history| - 1], repositoryName);
      var last := history[|history| - 1];
      if IsTimeout(last.event) && last.event.repositoryName == Some(repositoryName) then rest + [last.timeoutAt] else rest
  }

  /** The blocked cycles of a queue since a task of that repository was last picked. */
  function BlockedCycles(history: seq<Entry>, key: string): nat {
    if history == [] then 0
    else
      var rest := BlockedCycles(history[..|history| - 1], key);
      var last := history[|history| - 1].event;
      if last.kind == TaskLeaseBlocked && QueueKey(last) == key then rest + 1
      else if last.kind == TaskPicked && last.repositoryName == Some(key) && key != "" then 0
      else rest
  }

  function AlertIf(condition: bool, rule: Rule, severity: Severity, e: TaskEvent): seq<Alert> {
    if condition then [AlertFor(rule, severity, e)] else []
  }

  /** How many failures of its gate, timeouts of its repository and blocked cycles of its queue there are
      with this event: every count is over all earlier events. */
  function FailuresWith(history: seq<Entry>, e: TaskEvent, now: int, config: Config): nat {
    |Recent(FailureTimes(history, FailureKey(e)), now - config.validationFailureWindowSeconds * 1000)| + 1
  }

  function TimeoutsWith(history: seq<Entry>, e: TaskEvent, now: int, config: Config): nat {
    |Recent(TimeoutTimes(history, e.repositoryName.GetOr("")), now - config.codexTimeoutWindowSeconds * 1000)| + 1
  }

  function BlockedWith(history: seq<Entry>, e: TaskEvent): nat {
    BlockedCycles(history, QueueKey(e)) + 1
  }

  /** The alerts of an event, given its three counts. */
  function DueWith(e: TaskEvent, config: Config, blocked: nat, failures: nat, timeouts: nat): seq<Alert> {
    AlertIf(e.kind == TaskFailed, TaskFailedRule, Error, e)
    + AlertIf(e.kind == MrReady, MrReadyRule, Info, e)
    + AlertIf(e.kind == TaskLeaseBlocked && blocked >= config.queueBlockedCycles, QueueBlocked, Warning, e)
    + AlertIf(IsFailure(e) && failures >= config.validationFailureThreshold, ValidationFailuresRepeated, Warning, e)
    + AlertIf(IsTimeout(e) && timeouts >= config.codexTimeoutThreshold, CodexTimeoutsRepeated, Warning, e)
  }

  /** Which alerts an event raises after `history`. */
  function Due(history: seq<Entry>, entry: Entry, config: Config): seq<Alert> {
    var e := entry.event;
    DueWith(e, config, BlockedWith(history, e), FailuresWith(history, e, entry.failureAt, config),
            TimeoutsWith(history, e, entry.timeoutAt, config))
  }

  /** The three counters of an event, as far as the rules look at them. */
  predicate Measured(
    e: TaskEvent, history: seq<Entry>, entry: Entry, config: Config, blocked: nat, failures: nat, timeouts: nat)
  {
    && (e.kind == TaskLeaseBlocked ==> blocked == BlockedWith(history, e))
    && (IsFailure(e) ==> failures == FailuresWith(history, e, entry.failureAt, config))
    && (IsTimeout(e) ==> timeouts == TimeoutsWith(history, e, entry.timeoutAt, config))
  }

  lemma MeasuredIsDue(
    e: TaskEvent, history: seq<Entry>, entry: Entry, config: Config, blocked: nat, failures: nat, timeouts: nat)
    requires entry.event == e && Measured(e, history, entry, config, blocked, failures, timeouts)
    ensures DueWith(e, config, blocked, failures, timeouts) == Due(history, entry, config)
  {
  }

  // ---------------------------------------------------------------------------------------------
  // The windows kept against the history
  // ---------------------------------------------------------------------------------------------

  ghost predicate FailuresFollow(windows: map<string, seq<int>>, history: seq<Entry>, width: int) {
    forall key :: GetWindow(windows, key) == Window(FailureTimes(history, key), width)
  }

  ghost predicate TimeoutsFollow(windows: map<string, seq<int>>, history: seq<Entry>, width: int) {
    forall key :: GetWindow(windows, key) == Window(TimeoutTimes(history, key), width)
  }

  ghost predicate CyclesFollow(cycles: map<string, nat>, history: seq<Entry>) {
    forall key :: GetCycles(cycles, key) == BlockedCycles(history, key)
  }

  lemma FailuresAppend(history: seq<Entry>, entry: Entry, key: string)
    ensures FailureTimes(history + [entry], key) ==
            if IsFailure(entry.event) && FailureKey(entry.event) == key
            then FailureTimes(history, key) + [entry.failureAt] else FailureTimes(history, key)
  {
    assert (history + [entry])[..|history|] == history;
  }

  lemma TimeoutsAppend(history: seq<Entry>, entry: Entry, key: string)
    ensures TimeoutTimes(history + [entry], key) ==
            if IsTimeout(entry.event) && entry.event.repositoryName == Some(key)
            then TimeoutTimes(history, key) + [entry.timeoutAt] else TimeoutTimes(history, key)
  {
    assert (history + [entry])[..|history|] == history;
  }

  lemma CyclesAppend(history: seq<Entry>, entry: Entry, key: string)
    ensures BlockedCycles(history + [entry], key) ==
            if entry.event.kind == TaskLeaseBlocked && QueueKey(entry.event) == key then BlockedCycles(history, key) + 1
            else if entry.event.kind == TaskPicked && entry.event.repositoryName == Some(key) && key != "" then 0
            else BlockedCycles(history, key)
  {
    assert (history + [entry])[..|history|] == history;
  }

  predicate EndsBy(times: seq<int>, now: int) {
    times == [] || times[|times| - 1] <= now
  }

  ghost predicate IsPast(history: seq<Entry>, failureAt: int, timeoutAt: int) {
    forall e :: e in history ==> e.failureAt <= failureAt && e.timeoutAt <= timeoutAt
  }

  lemma {:induction false} TimesArePast(history: seq<Entry>, key: string, failureAt: int, timeoutAt: int)
    requires IsPast(history, failureAt, timeoutAt)
    ensures EndsBy(FailureTimes(history, key), failureAt) && EndsBy(TimeoutTimes(history, key), timeoutAt)
  {
    if history != [] {
      var n := |history| - 1;
      assert history[n] in history;
      TimesArePast(history[..n], key, failureAt, timeoutAt);
    }
  }

  /** What `pushWindowed` leaves of a window. */
  function Push(windows: map<string, seq<int>>, key: string, now: int, width: int): seq<int> {
    Recent(GetWindow(windows, key), now - width) + [now]
  }

  function PushFailure(windows: map<string, seq<int>>, entry: Entry, width: int): map<string, seq<int>> {
    var key := FailureKey(entry.event);
    if IsFailure(entry.event) then windows[key := Push(windows, key, entry.failureAt, width)] else windows
  }

  function PushTimeout(windows: map<string, seq<int>>, entry: Entry, width: int): map<string, seq<int>> {
    var key := entry.event.repositoryName.GetOr("");
    if IsTimeout(entry.event) then windows[key := Push(windows, key, entry.timeoutAt, width)] else windows
  }

  /** A pruned window, pushed, counts what the history counts. */
  lemma PushedWindow(values: seq<int>, times: seq<int>, width: int, now: int)
    requires values == Window(times, width) && EndsBy(times, now)
    ensures |Recent(values, now - width) + [now]| == |Recent(times, now - width)| + 1
    ensures Recent(values, now - width) + [now] == Window(times + [now], width)
  {
    PrunedWindowIsEnough(times, width, now);
  }

  lemma FailureWindowStep(windows: map<string, seq<int>>, history: seq<Entry>, entry: Entry, width: int, key: string)
    requires GetWindow(windows, key) == Window(FailureTimes(history, key), width)
    requires EndsBy(FailureTimes(history, key), entry.failureAt)
    ensures GetWindow(PushFailure(windows, entry, width), key) == Window(FailureTimes(history + [entry], key), width)
  {
    FailuresAppend(history, entry, key);
    if IsFailure(entry.event) && FailureKey(entry.event) == key {
      PushedWindow(GetWindow(windows, key), FailureTimes(history, key), width, entry.failureAt);
    }
  }

  lemma TimeoutWindowStep(windows: map<string, seq<int>>, history: seq<Entry>, entry: Entry, width: int, key: string)
    requires GetWindow(windows, key) == Window(TimeoutTimes(history, key), width)
    requires EndsBy(TimeoutTimes(history, key), entry.timeoutAt)
    ensures GetWindow(PushTimeout(windows, entry, width), key) == Window(TimeoutTimes(history + [entry], key), width)
  {
    TimeoutsAppend(history, entry, key);
    if IsTimeout(entry.event) && entry.event.repositoryName == Some(key) {
      PushedWindow(GetWindow(windows, key), TimeoutTimes(history, key), width, entry.timeoutAt);
    }
  }

  /** Pushing keeps every window right. */
  lemma FailuresStep(windows: map<string, seq<int>>, history: seq<Entry>, entry: Entry, width: int)
    requires FailuresFollow(windows, history, width) && IsPast(history, entry.failureAt, entry.timeoutAt)
    ensures FailuresFollow(PushFailure(windows, entry, width), history + [entry], width)
  {
    forall k ensures GetWindow(PushFailure(windows, entry, width), k) == Window(FailureTimes(history + [entry], k), width) {
      TimesArePast(history, k, entry.failureAt, entry.timeoutAt);
      FailureWindowStep(windows, history, entry, width, k);
    }
  }

  lemma TimeoutsStep(windows: map<string, seq<int>>, history: seq<Entry>, entry: Entry, width: int)
    requires TimeoutsFollow(windows, history, width) && IsPast(history, entry.failureAt, entry.timeoutAt)
    ensures TimeoutsFollow(PushTimeout(windows, entry, width), history + [entry], width)
  {
    forall k ensures GetWindow(PushTimeout(windows, entry, width), k) == Window(TimeoutTimes(history + [entry], k), width) {
      TimesArePast(history, k, entry.failureAt, entry.timeoutAt);
      TimeoutWindowStep(windows, history, entry, width, k);
    }
  }

  /** The counts of blocked cycles after one more event. */
  function CountCycle(cycles: map<string, nat>, e: TaskEvent): map<string, nat> {
    if e.kind == TaskLeaseBlocked then cycles[QueueKey(e) := GetCycles(cycles, QueueKey(e)) + 1]
    else if e.kind == TaskPicked && IsNamed(e.repositoryName) then cycles - {e.repositoryName.value}
    else cycles
  }

  lemma CyclesStep(cycles: map<string, nat>, history: seq<Entry>, entry: Entry)
    requires CyclesFollow(cycles, history)
    ensures CyclesFollow(CountCycle(cycles, entry.event), history + [entry])
  {
    forall k ensures GetCycles(CountCycle(cycles, entry.event), k) == BlockedCycles(history + [entry], k) {
      assert GetCycles(cycles, k) == BlockedCycles(history, k);
      CyclesAppend(history, entry, k);
    }
  }

  lemma CountersStep(
    failures: map<string, seq<int>>, timeouts: map<string, seq<int>>, cycles: map<string, nat>, history: seq<Entry>,
    entry: Entry, clock: int, config: Config)
    requires FailuresFollow(failures, history, config.validationFailureWindowSeconds * 1000)
    requires TimeoutsFollow(timeouts, history, config.codexTimeoutWindowSeconds * 1000)
    requires CyclesFollow(cycles, history)
    requires IsPast(history, entry.failureAt, entry.timeoutAt) && entry.failureAt <= clock && entry.timeoutAt <= clock
    ensures var failureWidth := config.validationFailureWindowSeconds * 1000;
            FailuresFollow(PushFailure(failures, entry, failureWidth), history + [entry], failureWidth)
    ensures var timeoutWidth := config.codexTimeoutWindowSeconds * 1000;
            TimeoutsFollow(PushTimeout(timeouts, entry, timeoutWidth), history + [entry], timeoutWidth)
    ensures CyclesFollow(CountCycle(cycles, entry.event), history + [entry])
    ensures IsPast(history + [entry], clock, clock)
  {
    FailuresStep(failures, history, entry, config.validationFailureWindowSeconds * 1000);
    TimeoutsStep(timeouts, history, entry, config.codexTimeoutWindowSeconds * 1000);
    CyclesStep(cycles, history, entry);
  }

  // ---------------------------------------------------------------------------------------------
  // Suppression, said about all accepted alerts
  // ---------------------------------------------------------------------------------------------

  /** An alert that was let through to the sinks, whether or not they delivered it. */
  datatype Accepted = Accepted(key: AlertKey, at: int)

  function LastAccepted(accepted: seq<Accepted>, key: AlertKey): Option<int> {
    if accepted == [] then None
    else if accepted[|accepted| - 1].key == key then Some(accepted[|accepted| - 1].at)
    else LastAccepted(accepted[..|accepted| - 1], key)
  }

  /** Two accepted alerts with one key are at least the window apart. */
  ghost predicate AreSpaced(accepted: seq<Accepted>, window: int) {
    forall i, j :: 0 <= i < j < |accepted| && accepted[i].key == accepted[j].key ==>
      accepted[j].at - accepted[i].at >= window
  }

  ghost predicate AreInOrder(accepted: seq<Accepted>, clock: int) {
    && (forall i, j :: 0 <= i < j < |accepted| ==> accepted[i].at <= accepted[j].at)
    && (forall a :: a in accepted ==> a.at <= clock)
  }

  /** Some alert with this key was accepted less than the window ago. */
  ghost predicate IsRepeat(accepted: seq<Accepted>, key: AlertKey, now: int, window: int) {
    exists a :: a in accepted && a.key == key && now - a.at < window
  }

  /** The last accepted alert of a key decides about all of them. */
  lemma {:induction false} LastAcceptedDecides(accepted: seq<Accepted>, key: AlertKey, now: int, window: int)
    requires AreInOrder(accepted, now)
    ensures var last := LastAccepted(accepted, key);
            IsRepeat(accepted, key, now, window) <==> last.Some? && now - last.value < window
  {
    if accepted != [] {
      var n := |accepted| - 1;
      var init, last := accepted[..n], accepted[n];
      assert accepted == init + [last];
      if last.key == key {
        assert IsRepeat(accepted, key, now, window) ==> now - last.at < window;
        assert last in accepted;
      } else {
        LastAcceptedDecides(init, key, now, window);
        assert IsRepeat(accepted, key, now, window) <==> IsRepeat(init, key, now, window);
      }
    }
  }

  lemma AcceptKeepsSpaced(accepted: seq<Accepted>, key: AlertKey, now: int, window: int)
    requires AreInOrder(accepted, now) && AreSpaced(accepted, window)
    requires !IsRepeat(accepted, key, now, window)
    ensures var all := accepted + [Accepted(key, now)];
            AreSpaced(all, window) && AreInOrder(all, now)
  {
    var all := accepted + [Accepted(key, now)];
    forall i, j | 0 <= i < j < |all| && all[i].key == all[j].key ensures all[j].at - all[i].at >= window {
      if j == |accepted| {
        assert accepted[i] in accepted;
      }
    }
  }

  /** The map of last times says what the accepted alerts say. */
  ghost predicate SentFollows(lastSentAt: map<AlertKey, int>, accepted: seq<Accepted>) {
    forall key :: LastAccepted(accepted, key) == if key in lastSentAt then Some(lastSentAt[key]) else None
  }

  lemma AcceptFollows(lastSentAt: map<AlertKey, int>, accepted: seq<Accepted>, key: AlertKey, now: int)
    requires SentFollows(lastSentAt, accepted)
    ensures SentFollows(lastSentAt[key := now], accepted + [Accepted(key, now)])
  {
    assert (accepted + [Accepted(key, now)])[..|accepted|] == accepted;
  }

  // ---------------------------------------------------------------------------------------------
  // The service
  // ---------------------------------------------------------------------------------------------

  datatype Outcome = Sent | Deduped | Filtered | FailedToSend

  function LastOf<T>(xs: seq<T>, count: nat): seq<T> {
    if |xs| <= count then xs else xs[|xs| - count..]
  }

  lemma LastOfLast<T>(xs: seq<T>, more: nat, count: nat)
    requires count <= more
    ensures LastOf(LastOf(xs, more), count) == LastOf(xs, count)
  {
  }

  function Reversed<T>(xs: seq<T>): (r: seq<T>)
    ensures |r| == |xs|
    ensures forall i :: 0 <= i < |xs| ==> r[i] == xs[|xs| - 1 - i]
  {
    if xs == [] then [] else Reversed(xs[1..]) + [xs[0]]
  }

  function GetWindow(windows: map<string, seq<int>>, key: string): seq<int> {
    if key in windows then windows[key] else []
  }

  function GetCycles(cycles: map<string, nat>, key: string): nat {
    if key in cycles then cycles[key] else 0
  }

  const RECENT_LIMIT: nat := 50

  class BasicAlertService {
    const config: Config

    var clock: int
    var recentAlerts: seq<Alert>
    var lastSentAt: map<AlertKey, int>
    var validationFailures: map<string, seq<int>>
    var codexTimeouts: map<string, seq<int>>
    var queueBlockedCycles: map<string, nat>

    ghost var history: seq<Entry>       // every event evaluated
    ghost var raised: seq<Alert>        // every alert raised
    ghost var accepted: seq<Accepted>   // every alert let through

    constructor (config: Config, clock: int)
      ensures Valid() && this.config == config && history == [] && raised == [] && accepted == []
    {
      this.config, this.clock := config, clock;
      recentAlerts, lastSentAt, validationFailures, codexTimeouts, queueBlockedCycles := [], map[], map[], map[], map[];
      history, raised, accepted := [], [], [];
    }

    ghost predicate WindowsFollow()
      reads this`validationFailures, this`codexTimeouts, this`queueBlockedCycles, this`history
    {
      && FailuresFollow(validationFailures, history, config.validationFailureWindowSeconds * 1000)
      && TimeoutsFollow(codexTimeouts, history, config.codexTimeoutWindowSeconds * 1000)
      && CyclesFollow(queueBlockedCycles, history)
    }

    ghost predicate HistoryIsPast()
      reads this`history, this`clock
    {
      IsPast(history, clock, clock)
    }

    ghost predicate SendsFollow()
      reads this`lastSentAt, this`accepted, this`clock
    {
      && AreInOrder(accepted, clock)
      && AreSpaced(accepted, config.dedupWindowSeconds * 1000)
      && SentFollows(lastSentAt, accepted)
    }

    ghost predicate Valid()
      reads this
    {
      WindowsFollow() && HistoryIsPast() && SendsFollow() && recentAlerts == LastOf(raised, RECENT_LIMIT)
    }

    /** `Date.now()`, a clock that does not go back. */
    method Now() returns (now: int)
      modifies this`clock
      ensures now == clock >= old(clock)
    {
      var elapsed: int := *;
      clock := if elapsed > 0 then clock + elapsed else clock;
      now := clock;
    }

    /** Counts a blocked cycle, or forgets them when a task is picked. */
    method CountBlockedCycle(e: TaskEvent) returns (count: nat)
      modifies this`queueBlockedCycles
      ensures queueBlockedCycles == CountCycle(old(queueBlockedCycles), e)
      ensures e.kind == TaskLeaseBlocked ==> count == GetCycles(old(queueBlockedCycles), QueueKey(e)) + 1
    {
      var key := e.repositoryName.GetOr("unknown");
      count := GetCycles(queueBlockedCycles, key) + 1;
      if e.kind == TaskLeaseBlocked {
        queueBlockedCycles := queueBlockedCycles[key := count];
      } else if e.kind == TaskPicked && IsNamed(e.repositoryName) {
        queueBlockedCycles := queueBlockedCycles - {e.repositoryName.value};
      }
    }

    /** `pushWindowed`, on one of the two maps of the class; the result is what becomes of it. When the
        window follows `times`, the count is over all of them. */
    method PushWindowed(windows: map<string, seq<int>>, key: string, windowSeconds: int, ghost times: seq<int>)
      returns (updated: map<string, seq<int>>, count: nat, now: int)
      requires GetWindow(windows, key) == Window(times, windowSeconds * 1000) && EndsBy(times, clock)
      modifies this`clock
      ensures now == clock >= old(clock)
      ensures updated == windows[key := Push(windows, key, now, windowSeconds * 1000)]
      ensures count == |Recent(times, now - windowSeconds * 1000)| + 1
    {
      now := Now();
      PushedWindow(GetWindow(windows, key), times, windowSeconds * 1000, now);
      var values := Recent(GetWindow(windows, key), now - windowSeconds * 1000) + [now];
      updated := windows[key := values];
      count := |values|;
    }

    /** Counts a failure in the window of its gate. */
    method MeasureFailures(e: TaskEvent) returns (failures: nat, at: int)
      requires FailuresFollow(validationFailures, history, config.validationFailureWindowSeconds * 1000)
      requires IsPast(history, clock, clock)
      modifies this`clock, this`validationFailures
      ensures at == clock >= old(clock)
      ensures validationFailures ==
              PushFailure(old(validationFailures), Entry(e, at, at), config.validationFailureWindowSeconds * 1000)
      ensures IsFailure(e) ==> failures == FailuresWith(history, e, at, config)
    {
      failures, at := 0, clock;
      if e.kind == ValidationCompleted && e.isError && IsNamed(e.repositoryName) {
        var key := e.repositoryName.value + ":" + e.gate.GetOr("unknown");
        assert key == FailureKey(e);
        TimesArePast(history, key, at, at);
        validationFailures, failures, at :=
          PushWindowed(validationFailures, key, config.validationFailureWindowSeconds, FailureTimes(history, key));
      }
    }

    /** Counts a timeout in the window of its repository. */
    method MeasureTimeouts(e: TaskEvent) returns (timeouts: nat, at: int)
      requires TimeoutsFollow(codexTimeouts, history, config.codexTimeoutWindowSeconds * 1000)
      requires IsPast(history, clock, clock)
      modifies this`clock, this`codexTimeouts
      ensures at == clock >= old(clock)
      ensures codexTimeouts == PushTimeout(old(codexTimeouts), Entry(e, at, at), config.codexTimeoutWindowSeconds * 1000)
      ensures IsTimeout(e) ==> timeouts == TimeoutsWith(history, e, at, config)
    {
      timeouts, at := 0, clock;
      if e.timedOut && IsNamed(e.repositoryName) {
        var key := e.repositoryName.value;
        TimesArePast(history, key, at, at);
        codexTimeouts, timeouts, at :=
          PushWindowed(codexTimeouts, key, config.codexTimeoutWindowSeconds, TimeoutTimes(history, key));
      }
    }

    /** Updates the counters for an event and reads them. */
    method Measure(e: TaskEvent) returns (blocked: nat, failures: nat, timeouts: nat)
      requires WindowsFollow() && HistoryIsPast()
      modifies this`clock, this`validationFailures, this`codexTimeouts, this`queueBlockedCycles, this`history
      ensures WindowsFollow() && HistoryIsPast() && clock >= old(clock)
      ensures |history| == |old(history)| + 1 && history[..|old(history)|] == old(history)
      ensures history[|old(history)|].event == e
      ensures Measured(e, old(history), history[|old(history)|], config, blocked, failures, timeouts)
    {
      var failureAt, timeoutAt;
      blocked := CountBlockedCycle(e);
      failures, failureAt := MeasureFailures(e);
      timeouts, timeoutAt := MeasureTimeouts(e);
      ghost var entry := Entry(e, failureAt, timeoutAt);
      CountersStep(old(validationFailures), old(codexTimeouts), old(queueBlockedCycles), history, entry, clock, config);
      history := history + [entry];
    }

    /** The alerts an event raises are those due on the whole history. */
    method Evaluate(e: TaskEvent) returns (alerts: seq<Alert>)
      requires WindowsFollow() && HistoryIsPast()
      modifies this`clock, this`validationFailures, this`codexTimeouts, this`queueBlockedCycles, this`history
      ensures WindowsFollow() && HistoryIsPast() && clock >= old(clock)
      ensures |history| == |old(history)| + 1 && history[..|old(history)|] == old(history)
      ensures history[|old(history)|].event == e && alerts == Due(old(history), history[|old(history)|], config)
    {
      var blocked, failures, timeouts := Measure(e);
      MeasuredIsDue(e, old(history), history[|old(history)|], config, blocked, failures, timeouts);
      alerts := AlertsOf(e, blocked, failures, timeouts);
    }

    method AlertsOf(e: TaskEvent, blocked: nat, failures: nat, timeouts: nat) returns (alerts: seq<Alert>)
      ensures alerts == DueWith(e, config, blocked, failures, timeouts)
    {
      alerts := [];
      if e.kind == TaskFailed {
        alerts := alerts + [AlertFor(TaskFailedRule, Error, e)];
      }
      if e.kind == MrReady {
        alerts := alerts + [AlertFor(MrReadyRule, Info, e)];
      }
      if e.kind == TaskLeaseBlocked && blocked >= config.queueBlockedCycles {
        alerts := alerts + [AlertFor(QueueBlocked, Warning, e)];
      }
      if IsFailure(e) && failures >= config.validationFailureThreshold {
        alerts := alerts + [AlertFor(ValidationFailuresRepeated, Warning, e)];
      }
      if IsTimeout(e) && timeouts >= config.codexTimeoutThreshold {
        alerts := alerts + [AlertFor(CodexTimeoutsRepeated, Warning, e)];
      }
    }

    /** An alert is suppressed exactly when one with its key was accepted less than the window ago. */
    method SendWithDedup(alert: Alert) returns (outcome: Outcome)
      requires Valid()
      modifies this`clock, this`lastSentAt, this`accepted
      ensures Valid()
      ensures outcome == Filtered <==> IsMinor(alert.severity, config.minSeverity)
      ensures outcome == Deduped <==>
                outcome != Filtered && IsRepeat(old(accepted), KeyOf(alert), clock, config.dedupWindowSeconds * 1000)
      ensures outcome == Sent ==> config.sinks > 0
      ensures accepted == old(accepted) +
                if outcome == Sent || outcome == FailedToSend then [Accepted(KeyOf(alert), clock)] else []
    {
      if SeverityRank(alert.severity) < SeverityRank(config.minSeverity) {
        return Filtered;
      }
      var key := KeyOf(alert);
      var now := Now();
      var repeats := WasSent(key, now);
      if repeats {
        return Deduped;
      }
      Accept(key, now);
      if config.sinks == 0 {
        return FailedToSend;
      }
      var failed: bool := *;
      outcome := if failed then FailedToSend else Sent;
    }

    /** The last accepted time of a key decides whether an alert repeats it. */
    method WasSent(key: AlertKey, now: int) returns (r: bool)
      requires SendsFollow() && now == clock
      ensures r <==> IsRepeat(accepted, key, now, config.dedupWindowSeconds * 1000)
    {
      LastAcceptedDecides(accepted, key, now, config.dedupWindowSeconds * 1000);
      assert LastAccepted(accepted, key) == if key in lastSentAt then Some(lastSentAt[key]) else None;
      r := key in lastSentAt && now - lastSentAt[key] < config.dedupWindowSeconds * 1000;
    }

    /** Remembers when an alert with this key was last accepted. */
    method Accept(key: AlertKey, now: int)
      requires SendsFollow() && now == clock
      requires !IsRepeat(accepted, key, now, config.dedupWindowSeconds * 1000)
      modifies this`lastSentAt, this`accepted
      ensures SendsFollow() && accepted == old(accepted) + [Accepted(key, now)]
    {
      AcceptKeepsSpaced(accepted, key, now, config.dedupWindowSeconds * 1000);
      AcceptFollows(lastSentAt, accepted, key, now);
      lastSentAt := lastSentAt[key := now];
      accepted := accepted + [Accepted(key, now)];
    }

    method Send(alert: Alert) returns (outcome: Outcome)
      requires Valid()
      modifies this`clock, this`lastSentAt, this`accepted, this`recentAlerts, this`raised
      ensures Valid()
      ensures raised == old(raised) + [alert]
      ensures old(accepted) <= accepted
    {
      recentAlerts := recentAlerts + [alert];
      if |recentAlerts| > RECENT_LIMIT {
        recentAlerts := recentAlerts[|recentAlerts| - RECENT_LIMIT..];
      }
      raised := raised + [alert];
      outcome := SendWithDedup(alert);
    }

    method RecordEvent(e: TaskEvent)
      requires Valid()
      modifies this
      ensures Valid()
      ensures !config.enabled ==> raised == old(raised) && history == old(history)
      ensures config.enabled ==>
                && |history| == |old(history)| + 1 && history[..|old(history)|] == old(history)
                && history[|old(history)|].event == e
                && raised == old(raised) + Due(old(history), history[|old(history)|], config)
      ensures old(accepted) <= accepted
    {
      if !config.enabled {
        return;
      }
      var alerts := Evaluate(e);
      SendAll(alerts);
    }

    method SendAll(alerts: seq<Alert>)
      requires Valid()
      modifies this`clock, this`lastSentAt, this`accepted, this`recentAlerts, this`raised
      ensures Valid()
      ensures raised == old(raised) + alerts && old(accepted) <= accepted
    {
      for i := 0 to |alerts|
        invariant Valid()
        invariant raised == old(raised) + alerts[..i] && old(accepted) <= accepted
      {
        assert alerts[..i + 1] == alerts[..i] + [alerts[i]];
        var outcome := Send(alerts[i]);
      }
      assert alerts[..|alerts|] == alerts;
    }

    /** The latest alerts, newest first: between one and fifty of them when there are that many. */
    method ListRecent(limit: int) returns (r: seq<Alert>)
      requires Valid()
      ensures var count: nat := if limit < 1 then 1 else if limit > RECENT_LIMIT then RECENT_LIMIT else limit;
              r == Reversed(LastOf(raised, count))
    {
      var count := if limit < 1 then 1 else limit;
      count := if count > RECENT_LIMIT then RECENT_LIMIT else count;
      LastOfLast(raised, RECENT_LIMIT, count);
      r := Reversed(LastOf(recentAlerts, count));
    }
  }
}
