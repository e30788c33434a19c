/** `withLeaseHeartbeat` (src/domain/lockBackend.ts:192-236): a timer renews the leases while the callback runs,
    and the leases are released when it is done. Every renewal of a batch settles on its own; `Promise.all`
    rejects at the first that fails, while the others of the batch go on. */
module LeaseHeartbeat {
  import opened Common

  datatype GuardedLease = GuardedLease(token: nat, expiresAt: int)

  datatype Renewal = Pending | Done(expiresAt: int) | Failed

  /** One `Promise.all`: the leases it was given, and how far the renewal of each has come. */
  datatype Batch = Batch(leases: seq<GuardedLease>, renewals: seq<Renewal>)

  /** What the interleaving of timer, renewals and callback can do next. */
  datatype Event =
    | TimerFires
    | Renews(batch: nat, index: nat, expiresAt: int)
    | Fails(batch: nat, index: nat)
    | CallbackReturns(value: int)
    | CallbackThrows

  datatype Exit = Running | Returned(value: int) | Thrown

  datatype State = State(
    activeLeases: seq<GuardedLease>,
    renewing: bool,
    renewalError: bool,
    exit: Exit,
    batches: seq<Batch>,
    releaseAttempts: seq<nat>)

  function TokensOf(leases: seq<GuardedLease>): (r: seq<nat>)
    ensures |r| == |leases| && forall i :: 0 <= i < |r| ==> r[i] == leases[i].token
  {
    seq(|leases|, i requires 0 <= i < |leases| => leases[i].token)
  }

  predicate IsRejected(b: Batch) {
    exists i :: 0 <= i < |b.renewals| && b.renewals[i].Failed?
  }

  predicate IsFulfilled(b: Batch) {
    forall i :: 0 <= i < |b.renewals| ==> b.renewals[i].Done?
  }

  /** `renewTaskLease` copies the lease and changes its times only. */
  function RenewedLeases(b: Batch): (r: seq<GuardedLease>)
    requires |b.renewals| == |b.leases| && IsFulfilled(b)
    ensures TokensOf(r) == TokensOf(b.leases)
  {
    seq(|b.leases|, i requires 0 <= i < |b.leases| => b.leases[i].(expiresAt := b.renewals[i].expiresAt))
  }

  /** The renewal was started and has not settled. */
  predicate IsPending(s: State, batch: nat, index: nat) {
    batch < |s.batches| && index < |s.batches[batch].renewals| && s.batches[batch].renewals[index].Pending?
  }

  function Begin(leases: seq<GuardedLease>): State {
    State(leases, false, false, Running, [], [])
  }

  function StartBatch(leases: seq<GuardedLease>): Batch {
    Batch(leases, seq(|leases|, _ => Pending))
  }

  /** A renewal settles. A batch that was rejected has nobody listening any more. */
  function Settle(s: State, batch: nat, index: nat, result: Renewal): State
    requires IsPending(s, batch, index)
  {
    var before := s.batches[batch];
    var after := before.(renewals := before.renewals[index := result]);
    var settled := s.(batches := s.batches[batch := after]);
    if IsRejected(before) then settled
    else if result.Failed? then settled.(renewalError := true, renewing := false)
    else if IsFulfilled(after) && |after.renewals| == |after.leases|
    then settled.(activeLeases := RenewedLeases(after), renewing := false)
    else settled
  }

  function Exits(s: State, exit: Exit): State {
    s.(exit := exit, releaseAttempts := s.releaseAttempts + TokensOf(s.activeLeases))
  }

  /** The guarded wrapper, event by event; events that cannot happen in a state change nothing. */
  function Apply(s: State, e: Event): State {
    match e
    case TimerFires =>
      if s.exit != Running || s.renewing || s.renewalError then s
      else s.(renewing := true, batches := s.batches + [StartBatch(s.activeLeases)])
    case Renews(b, i, expiresAt) => if IsPending(s, b, i) then Settle(s, b, i, Done(expiresAt)) else s
    case Fails(b, i) => if IsPending(s, b, i) then Settle(s, b, i, Failed) else s
    case CallbackReturns(v) =>
      if s.exit != Running then s else Exits(s, if s.renewalError then Thrown else Returned(v))
    case CallbackThrows => if s.exit != Running then s else Exits(s, Thrown)
  }

  /** Without leases, or without a positive heartbeat, the wrapper only calls the callback. */
  predicate IsGuarding(leases: seq<GuardedLease>, heartbeatMs: int) {
    leases != [] && heartbeatMs > 0
  }

  function ApplyUnguarded(s: State, e: Event): State {
    if s.exit != Running then s
    else match e
      case CallbackReturns(v) => s.(exit := Returned(v))
      case CallbackThrows => s.(exit := Thrown)
      case _ => s
  }

  function Run(leases: seq<GuardedLease>, heartbeatMs: int, events: seq<Event>): State {
    if events == [] then Begin(leases)
    else
      var s := Run(leases, heartbeatMs, events[..|events| - 1]);
      var e := events[|events| - 1];
      if IsGuarding(leases, heartbeatMs) then Apply(s, e) else ApplyUnguarded(s, e)
  }

  // ---------------------------------------------------------------------------------------------
  // What every event keeps
  // ---------------------------------------------------------------------------------------------

  /** A batch renews the leases the wrapper was given, under the same tokens. */
  predicate IsBatchOf(b: Batch, leases: seq<GuardedLease>) {
    |b.renewals| == |leases| && TokensOf(b.leases) == TokensOf(leases)
  }

  predicate IsOpen(b: Batch) {
    !IsRejected(b) && !IsFulfilled(b)
  }

  /** Only the last batch can be unsettled, and the two flags say how it stands. */
  ghost predicate IsOrderly(s: State, leases: seq<GuardedLease>) {
    var n := |s.batches|;
    && (forall b :: 0 <= b < n ==> IsBatchOf(s.batches[b], leases))
    && (forall b :: 0 <= b < n - 1 ==> IsFulfilled(s.batches[b]))
    && (s.renewing <==> n > 0 && IsOpen(s.batches[n - 1]))
    && (s.renewalError <==> n > 0 && IsRejected(s.batches[n - 1]))
    && TokensOf(s.activeLeases) == TokensOf(leases)
    && s.releaseAttempts == (if s.exit == Running then [] else TokensOf(leases))
  }

  lemma SettleStaysOrderly(s: State, batch: nat, index: nat, result: Renewal, leases: seq<GuardedLease>)
    requires leases != [] && IsOrderly(s, leases) && IsPending(s, batch, index) && result != Pending
    ensures IsOrderly(Settle(s, batch, index, result), leases)
  {
    var last := |s.batches| - 1;
    assert batch == last;
    var before := s.batches[batch];
    var after := before.(renewals := before.renewals[index := result]);
    assert after.renewals[index] == result;
    assert forall i :: 0 <= i < |before.renewals| && i != index ==> after.renewals[i] == before.renewals[i];
    assert IsBatchOf(before, leases);
    if IsRejected(before) {
      var i :| 0 <= i < |before.renewals| && before.renewals[i].Failed?;
      assert after.renewals[i].Failed?;
    }
    assert |TokensOf(after.leases)| == |TokensOf(leases)|;
  }

  lemma StepStaysOrderly(s: State, e: Event, leases: seq<GuardedLease>)
    requires leases != [] && IsOrderly(s, leases)
    ensures IsOrderly(Apply(s, e), leases)
  {
    match e
    case TimerFires =>
      var s' := Apply(s, e);
      if s' != s {
        var b := StartBatch(s.activeLeases);
        assert |TokensOf(s.activeLeases)| == |TokensOf(leases)|;
        assert b.renewals[0].Pending?;
      }
    case Renews(b, i, expiresAt) =>
      if IsPending(s, b, i) { SettleStaysOrderly(s, b, i, Done(expiresAt), leases); }
    case Fails(b, i) =>
      if IsPending(s, b, i) { SettleStaysOrderly(s, b, i, Failed, leases); }
    case _ =>
  }

  lemma {:induction false} RunIsOrderly(leases: seq<GuardedLease>, heartbeatMs: int, events: seq<Event>)
    requires IsGuarding(leases, heartbeatMs)
    ensures IsOrderly(Run(leases, heartbeatMs, events), leases)
  {
    if events != [] {
      var init := events[..|events| - 1];
      RunIsOrderly(leases, heartbeatMs, init);
      StepStaysOrderly(Run(leases, heartbeatMs, init), events[|events| - 1], leases);
    }
  }

  // ---------------------------------------------------------------------------------------------
  // Renewals
  // ---------------------------------------------------------------------------------------------

  /** The renewal of the lease with this token runs as number `i` of batch `b`. */
  predicate IsRenewing(s: State, token: nat, b: nat, i: nat) {
    IsPending(s, b, i) && i < |s.batches[b].leases| && s.batches[b].leases[i].token == token
  }

  /** At any time at most one renewal of a lease is unsettled, the leftovers of a rejected batch included. */
  lemma OneRenewalPerLease(leases: seq<GuardedLease>, heartbeatMs: int, events: seq<Event>, token: nat,
                           b1: nat, i1: nat, b2: nat, i2: nat)
    requires IsGuarding(leases, heartbeatMs) && NoDuplicates(TokensOf(leases))
    requires IsRenewing(Run(leases, heartbeatMs, events), token, b1, i1)
    requires IsRenewing(Run(leases, heartbeatMs, events), token, b2, i2)
    ensures b1 == b2 && i1 == i2
  {
    RunIsOrderly(leases, heartbeatMs, events);
    var s := Run(leases, heartbeatMs, events);
    assert b1 == |s.batches| - 1 == b2;
    assert TokensOf(s.batches[b1].leases)[i1] == token == TokensOf(s.batches[b1].leases)[i2];
  }

  /** Event `j` is the failure of a renewal in flight. */
  predicate FailsAt(leases: seq<GuardedLease>, heartbeatMs: int, events: seq<Event>, j: nat)
    requires j < |events|
  {
    events[j].Fails? && IsPending(Run(leases, heartbeatMs, events[..j]), events[j].batch, events[j].index)
  }

  ghost predicate HasFailed(leases: seq<GuardedLease>, heartbeatMs: int, events: seq<Event>) {
    exists j :: 0 <= j < |events| && FailsAt(leases, heartbeatMs, events, j)
  }

  lemma HasFailedAppend(leases: seq<GuardedLease>, heartbeatMs: int, events: seq<Event>, e: Event)
    ensures HasFailed(leases, heartbeatMs, events + [e]) <==>
            || HasFailed(leases, heartbeatMs, events)
            || FailsAt(leases, heartbeatMs, events + [e], |events|)
  {
    var all := events + [e];
    forall j | 0 <= j < |events|
      ensures FailsAt(leases, heartbeatMs, all, j) <==> FailsAt(leases, heartbeatMs, events, j)
    {
      assert all[..j] == events[..j];
    }
  }

  lemma ErrorStep(s: State, e: Event, leases: seq<GuardedLease>)
    requires IsOrderly(s, leases)
    ensures Apply(s, e).renewalError <==> s.renewalError || (e.Fails? && IsPending(s, e.batch, e.index))
  {
  }

  /** The flag is set exactly when some renewal in flight failed, the leftovers of a rejected batch included. */
  lemma {:induction false} ErrorIffFailed(leases: seq<GuardedLease>, heartbeatMs: int, events: seq<Event>)
    requires IsGuarding(leases, heartbeatMs)
    ensures Run(leases, heartbeatMs, events).renewalError <==> HasFailed(leases, heartbeatMs, events)
  {
    if events != [] {
      var init, last := events[..|events| - 1], events[|events| - 1];
      ErrorIffFailed(leases, heartbeatMs, init);
      HasFailedAppend(leases, heartbeatMs, init, last);
      assert events == init + [last] && events[..|init|] == init;
      RunIsOrderly(leases, heartbeatMs, init);
      ErrorStep(Run(leases, heartbeatMs, init), last, leases);
    }
  }

  lemma FailedStep(s: State, e: Event)
    requires s.renewalError
    ensures |Apply(s, e).batches| == |s.batches|
  {
  }

  /** Once a renewal has failed, no event starts another batch. */
  lemma {:induction false} NoneStartsAfterFailure(leases: seq<GuardedLease>, heartbeatMs: int, events: seq<Event>, more: seq<Event>)
    requires IsGuarding(leases, heartbeatMs) && HasFailed(leases, heartbeatMs, events)
    ensures HasFailed(leases, heartbeatMs, events + more)
    ensures |Run(leases, heartbeatMs, events + more).batches| == |Run(leases, heartbeatMs, events).batches|
  {
    if more == [] {
      assert events + more == events;
    } else {
      var init := more[..|more| - 1];
      NoneStartsAfterFailure(leases, heartbeatMs, events, init);
      assert events + more == (events + init) + [more[|more| - 1]];
      assert (events + more)[..|events + init|] == events + init;
      HasFailedAppend(leases, heartbeatMs, events + init, more[|more| - 1]);
      ErrorIffFailed(leases, heartbeatMs, events + init);
      FailedStep(Run(leases, heartbeatMs, events + init), more[|more| - 1]);
    }
  }

  // ---------------------------------------------------------------------------------------------
  // The exit
  // ---------------------------------------------------------------------------------------------

  predicate IsCallback(e: Event) {
    e.CallbackReturns? || e.CallbackThrows?
  }

  /** Event `k` is the first word of the callback, its value `v`, and no renewal in flight failed before it. */
  ghost predicate ReturnsAt(leases: seq<GuardedLease>, heartbeatMs: int, events: seq<Event>, k: nat, v: int)
    requires k < |events|
  {
    && events[k] == CallbackReturns(v)
    && forall j :: 0 <= j < k ==> !IsCallback(events[j]) && !FailsAt(leases, heartbeatMs, events, j)
  }

  /** The callback's first word decides; renewals and the timer do not. */
  lemma ExitStep(s: State, e: Event)
    ensures Apply(s, e).exit ==
            if s.exit != Running || !IsCallback(e) then s.exit
            else if e.CallbackReturns? && !s.renewalError then Returned(e.value)
            else Thrown
  {
  }

  lemma {:induction false} RunningIff(leases: seq<GuardedLease>, heartbeatMs: int, events: seq<Event>)
    requires IsGuarding(leases, heartbeatMs)
    ensures Run(leases, heartbeatMs, events).exit == Running <==>
            forall j :: 0 <= j < |events| ==> !IsCallback(events[j])
  {
    if events != [] {
      var n := |events| - 1;
      RunningIff(leases, heartbeatMs, events[..n]);
      ExitStep(Run(leases, heartbeatMs, events[..n]), events[n]);
      assert forall j :: 0 <= j < n ==> events[j] == events[..n][j];
    }
  }

  lemma ReturnsAtPrefix(leases: seq<GuardedLease>, heartbeatMs: int, events: seq<Event>, n: nat, k: nat, v: int)
    requires k < n <= |events|
    ensures ReturnsAt(leases, heartbeatMs, events[..n], k, v) <==> ReturnsAt(leases, heartbeatMs, events, k, v)
  {
    var init := events[..n];
    forall j | 0 <= j < k
      ensures FailsAt(leases, heartbeatMs, init, j) <==> FailsAt(leases, heartbeatMs, events, j)
    {
      assert init[..j] == events[..j];
    }
  }

  /** The wrapper returns a value exactly when the callback's first word is that value and no renewal in flight
      had failed before it. */
  lemma {:induction false} ReturnsValueIff(leases: seq<GuardedLease>, heartbeatMs: int, events: seq<Event>, v: int)
    requires IsGuarding(leases, heartbeatMs)
    ensures Run(leases, heartbeatMs, events).exit == Returned(v) <==>
            exists k :: 0 <= k < |events| && ReturnsAt(leases, heartbeatMs, events, k, v)
  {
    if events != [] {
      var n := |events| - 1;
      var init := events[..n];
      ReturnsValueIff(leases, heartbeatMs, init, v);
      RunningIff(leases, heartbeatMs, init);
      ErrorIffFailed(leases, heartbeatMs, init);
      ExitStep(Run(leases, heartbeatMs, init), events[n]);
      forall k | 0 <= k < n
        ensures ReturnsAt(leases, heartbeatMs, init, k, v) <==> ReturnsAt(leases, heartbeatMs, events, k, v)
      {
        ReturnsAtPrefix(leases, heartbeatMs, events, n, k, v);
      }
      forall j | 0 <= j < n
        ensures FailsAt(leases, heartbeatMs, init, j) <==> FailsAt(leases, heartbeatMs, events, j)
      {
        assert init[..j] == events[..j];
      }
      assert ReturnsAt(leases, heartbeatMs, events, n, v) <==>
             events[n] == CallbackReturns(v) && Run(leases, heartbeatMs, init).exit == Running
             && !HasFailed(leases, heartbeatMs, init);
    }
  }

  /** Nothing is released while the callback runs, and at the exit every lease is, once, in order, under the
      token it was acquired with, whatever became of its renewals. */
  lemma EveryTokenReleasedOnce(leases: seq<GuardedLease>, heartbeatMs: int, events: seq<Event>)
    requires IsGuarding(leases, heartbeatMs)
    ensures Run(leases, heartbeatMs, events).releaseAttempts ==
            if exists j :: 0 <= j < |events| && IsCallback(events[j]) then TokensOf(leases) else []
  {
    RunIsOrderly(leases, heartbeatMs, events);
    RunningIff(leases, heartbeatMs, events);
  }

  /** The exit does not wait for renewals: with two leases or more, the failure of the first leaves the second
      still being renewed when both are released. */
  lemma LeftoverOutlivesRelease(leases: seq<GuardedLease>, heartbeatMs: int, v: int)
    requires 0 < heartbeatMs && 2 <= |leases|
    ensures var s := Run(leases, heartbeatMs, [TimerFires, Fails(0, 0), CallbackReturns(v)]);
            s.exit == Thrown && s.releaseAttempts == TokensOf(leases) && IsRenewing(s, leases[1].token, 0, 1)
  {
    var e1, e2, e3 := TimerFires, Fails(0, 0), CallbackReturns(v);
    assert [e1][..0] == [] && [e1, e2][..1] == [e1] && [e1, e2, e3][..2] == [e1, e2];
    var s1 := Run(leases, heartbeatMs, [e1]);
    assert Run(leases, heartbeatMs, []) == Begin(leases);
    assert s1 == Apply(Begin(leases), e1);
    assert s1.batches[0] == StartBatch(leases) && IsPending(s1, 0, 0) && !IsRejected(s1.batches[0]);
    var s2 := Run(leases, heartbeatMs, [e1, e2]);
    assert s2 == Settle(s1, 0, 0, Failed);
    var s3 := Run(leases, heartbeatMs, [e1, e2, e3]);
    assert s3 == Exits(s2, Thrown);
  }

  // ---------------------------------------------------------------------------------------------
  // The interval
  // ---------------------------------------------------------------------------------------------

  lemma {:induction false} UnguardedReleasesNothing(leases: seq<GuardedLease>, heartbeatMs: int, events: seq<Event>)
    requires !IsGuarding(leases, heartbeatMs)
    ensures Run(leases, heartbeatMs, events).releaseAttempts == []
  {
    if events != [] {
      UnguardedReleasesNothing(leases, heartbeatMs, events[..|events| - 1]);
    }
  }

  /** Of the wrapper by itself: every exit releases every lease exactly once if and only if the interval is
      positive or there is nothing to release. */
  lemma EveryExitReleasesIff(leases: seq<GuardedLease>, heartbeatMs: int)
    ensures (forall events :: Run(leases, heartbeatMs, events).exit != Running ==>
               Run(leases, heartbeatMs, events).releaseAttempts == TokensOf(leases))
            <==> (heartbeatMs > 0 || leases == [])
  {
    if IsGuarding(leases, heartbeatMs) {
      forall events ensures Run(leases, heartbeatMs, events).exit != Running ==>
                              Run(leases, heartbeatMs, events).releaseAttempts == TokensOf(leases)
      {
        RunIsOrderly(leases, heartbeatMs, events);
      }
    } else {
      forall events ensures Run(leases, heartbeatMs, events).releaseAttempts == [] {
        UnguardedReleasesNothing(leases, heartbeatMs, events);
      }
      assert [CallbackThrows][..0] == [];
      assert Run(leases, heartbeatMs, []) == Begin(leases);
      assert Run(leases, heartbeatMs, [CallbackThrows]).exit == Thrown;
    }
  }

  /** A setting as it was written: in the environment (what `Number.parseInt` makes of it) or in the file. */
  datatype Setting = Absent | Whole(value: int) | NotWhole

  /** `lockHeartbeatMs` (src/config.ts:203-209, 986-1000, 2476-2489). */
  function LockHeartbeatMs(env: Setting, file: Setting): Result<int> {
    match if env == Absent then file else env
    case Absent => Ok(60 * 1000)
    case Whole(seconds) => if seconds <= 0 then Err(Permanent) else Ok(seconds * 1000)
    case NotWhole => Err(Permanent)
  }

  /** The setting in seconds: of the environment, or else of the file, or else a minute. */
  predicate IsSetTo(env: Setting, file: Setting, seconds: int) {
    env == Whole(seconds) || (env == Absent && (file == Whole(seconds) || (file == Absent && seconds == 60)))
  }

  /** The intervals accepted are the positive ones. */
  lemma HeartbeatIff(env: Setting, file: Setting, ms: int)
    ensures LockHeartbeatMs(env, file) == Ok(ms) <==> exists s :: IsSetTo(env, file, s) && s > 0 && ms == 1000 * s
  {
    var s := if env.Whole? then env.value else if file.Whole? then file.value else 60;
    assert forall x :: IsSetTo(env, file, x) ==> x == s;
    if LockHeartbeatMs(env, file) == Ok(ms) {
      assert IsSetTo(env, file, s);
    }
  }

  /** With any interval the configuration accepts, every exit releases every lease exactly once. */
  lemma ConfiguredExitReleases(leases: seq<GuardedLease>, env: Setting, file: Setting, events: seq<Event>)
    requires LockHeartbeatMs(env, file).Ok?
    requires Run(leases, LockHeartbeatMs(env, file).value, events).exit != Running
    ensures Run(leases, LockHeartbeatMs(env, file).value, events).releaseAttempts == TokensOf(leases)
  {
    EveryExitReleasesIff(leases, LockHeartbeatMs(env, file).value);
  }
}
