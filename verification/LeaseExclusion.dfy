/** When two workers can hold the same lease. The repository's lookup reports the latest comment of a slot, so
    a newer comment hides a lease that is still held: exclusion fails, and this module says exactly when. */
module LeaseExclusion {
  import opened Common
  import opened LeaseProtocol

  // ---------------------------------------------------------------------------------------------
  // The repository's lookup
  // ---------------------------------------------------------------------------------------------

  lemma {:induction false} LatestAppend(log: seq<Lease>, e: Lease, slot: Slot)
    ensures FindLatestLease(log + [e], slot) == if e.slot == slot then Some(e) else FindLatestLease(log, slot)
  {
    assert (log + [e])[..|log|] == log;
  }

  lemma {:induction false} LatestIsInLog(log: seq<Lease>, slot: Slot)
    ensures var l := FindLatestLease(log, slot); l.Some? ==> l.value in log && l.value.slot == slot
  {
    if log != [] && log[|log| - 1].slot != slot {
      LatestIsInLog(log[..|log| - 1], slot);
      assert log == log[..|log| - 1] + [log[|log| - 1]];
    }
  }

  lemma ActiveLeaseReportsLive()
    ensures ReportsLive(FindActiveLease)
  {
    forall log, slot, now, l | FindActiveLease(log, slot, now) == Some(l)
      ensures l in log && l.slot == slot && IsLive(l, now)
    {
      LatestIsInLog(log, slot);
    }
    forall log, slot, now, l: Lease, e: Lease
      | FindActiveLease(log, slot, now) == Some(l) && e.slot == slot && e.token == l.token && IsLive(e, now)
      ensures FindActiveLease(log + [e], slot, now) == Some(e)
    {
      LatestAppend(log, e, slot);
    }
  }

  function Do(s: State, step: Step, ttl: int): State {
    Apply(s, step, FindActiveLease, ttl)
  }

  /** Two reads of an empty log, one whole acquisition, then the append and verification of the other: any
      two workers end up holding any slot. */
  lemma StaleReadBreaksExclusion(a: string, b: string, slot: Slot, ttl: int)
    requires 0 < ttl && a != b
    ensures var s1 := Do(Do(START, Read(a, slot), ttl), Read(b, slot), ttl);
            var s2 := Do(Do(s1, Append(a), ttl), Verify(a), ttl);
            var s3 := Do(Do(s2, Append(b), ttl), Verify(b), ttl);
            Exclusive(s2) && !Exclusive(s3)
  {
    var la, lb := Lease(slot, a, ttl, 0, false), Lease(slot, b, ttl, 1, false);
    var ca, cb := Claim(a, slot), Claim(b, slot);
    var s1 := Do(Do(START, Read(a, slot), ttl), Read(b, slot), ttl);
    assert s1 == State([], 0, [ca, cb], map[a := Built(la), b := Built(lb)], map[]);
    var s2 := Do(Do(s1, Append(a), ttl), Verify(a), ttl);
    assert s2 == State([la], 0, [ca, cb], map[a := Outside, b := Built(lb)], map[ca := la]) by {
      OwnEntryIsActive([], la, 0);
    }
    var s3 := Do(Do(s2, Append(b), ttl), Verify(b), ttl);
    assert s3.now == 0 && s3.held == map[ca := la, cb := lb] by {
      OwnEntryIsActive([la], lb, 0);
    }
    assert Holds(s3, a, slot) && Holds(s3, b, slot);
  }

  lemma OwnEntryIsActive(log: seq<Lease>, l: Lease, now: int)
    requires IsLive(l, now)
    ensures FindActiveLease(log + [l], l.slot, now) == Some(l)
  {
    LatestAppend(log, l, l.slot);
  }

  /** One worker acquiring without interference. */
  function Acquire(s: State, w: string, slot: Slot, ttl: int): State {
    Do(Do(Do(s, Read(w, slot), ttl), Append(w), ttl), Verify(w), ttl)
  }

  /** An acquisition nobody interferes with succeeds when the lookup reports nothing. */
  lemma UncontestedAcquire(s: State, w: string, slot: Slot, ttl: int)
    requires 0 < ttl && PhaseOf(s, w) == Outside && FindActiveLease(s.log, slot, s.now).None?
    ensures var lease := Lease(slot, w, s.now + ttl, |s.issued|, false);
            Acquire(s, w, slot, ttl) ==
            s.(log := s.log + [lease], issued := s.issued + [Claim(w, slot)],
               phases := s.phases[w := Outside], held := s.held[Claim(w, slot) := lease])
  {
    var lease := Lease(slot, w, s.now + ttl, |s.issued|, false);
    OwnEntryIsActive(s.log, lease, s.now);
    var s1 := Do(s, Read(w, slot), ttl);
    assert s1 == s.(issued := s.issued + [Claim(w, slot)], phases := s.phases[w := Built(lease)]);
    var s2 := Do(s1, Append(w), ttl);
    assert s2.phases[w := Outside] == s.phases[w := Outside];
  }

  /** In any state: when `a` still has a claim on a slot that `b` holds, the release of `a` hides the lease of
      `b`, and the next uncontested acquisition makes a second holder. */
  lemma LateReleaseAdmitsAnother(s: State, a: string, b: string, c: string, slot: Slot, ttl: int)
    requires 0 < ttl && a != b && b != c
    requires Claim(a, slot) in s.held && s.held[Claim(a, slot)].slot == slot
    requires Holds(s, b, slot) && PhaseOf(s, c) == Outside
    ensures var s' := Acquire(Do(s, Release(a, slot), ttl), c, slot, ttl); Holds(s', b, slot) && Holds(s', c, slot)
  {
    var s1 := Do(s, Release(a, slot), ttl);
    LatestAppend(s.log, s.held[Claim(a, slot)].(expiresAt := s.now, released := true), slot);
    UncontestedAcquire(s1, c, slot, ttl);
  }

  /** Such a state is reached by acquisitions that never interleave: `a` acquires, its lease expires, `b`
      acquires; then `a` releases what it no longer holds and `c` acquires too. */
  lemma LateReleaseBreaksExclusion(a: string, b: string, c: string, slot: Slot, ttl: int)
    requires 0 < ttl && a != b && b != c && c != a
    ensures var s2 := Acquire(AfterExpiry(a, slot, ttl), b, slot, ttl);
            Exclusive(s2) && !Exclusive(Acquire(Do(s2, Release(a, slot), ttl), c, slot, ttl))
  {
    var la, lb := Lease(slot, a, ttl, 0, false), Lease(slot, b, ttl + ttl, 1, false);
    var s1 := AfterExpiry(a, slot, ttl);
    ExpiredAcquisition(a, slot, ttl);
    UncontestedAcquire(s1, b, slot, ttl);
    var s2 := Acquire(s1, b, slot, ttl);
    assert s2.held == map[Claim(a, slot) := la, Claim(b, slot) := lb] && s2.now == ttl;
    LateReleaseAdmitsAnother(s2, a, b, c, slot, ttl);
  }

  /** `a` acquires, and its lease expires. */
  function AfterExpiry(a: string, slot: Slot, ttl: int): State
    requires 0 < ttl
  {
    Do(Acquire(START, a, slot, ttl), Tick(ttl), ttl)
  }

  lemma ExpiredAcquisition(a: string, slot: Slot, ttl: int)
    requires 0 < ttl
    ensures var la := Lease(slot, a, ttl, 0, false);
            var s := AfterExpiry(a, slot, ttl);
            && s == State([la], ttl, [Claim(a, slot)], map[a := Outside], map[Claim(a, slot) := la])
            && FindActiveLease(s.log, slot, ttl).None?
  {
    var la := Lease(slot, a, ttl, 0, false);
    UncontestedAcquire(START, a, slot, ttl);
    LatestAppend([], la, slot);
    assert [] + [la] == [la];
  }

  // ---------------------------------------------------------------------------------------------
  // A discipline that would be enough
  // ---------------------------------------------------------------------------------------------

  /** Appends made while the log still shows no active lease, and releases only of the active lease. */
  ghost predicate IsDisciplined(s: State, step: Step) {
    && (step.Append? && PhaseOf(s, step.worker).Built? ==>
          FindActiveLease(s.log, PhaseOf(s, step.worker).lease.slot, s.now).None?)
    && (step.Release? && Claim(step.worker, step.slot) in s.held ==>
          var active := FindActiveLease(s.log, step.slot, s.now);
          active.Some? ==> active.value.token == s.held[Claim(step.worker, step.slot)].token)
  }

  ghost predicate IsDisciplinedRun(steps: seq<Step>, ttl: int) {
    steps == [] ||
    (var init, last := steps[..|steps| - 1], steps[|steps| - 1];
     IsDisciplinedRun(init, ttl) && IsDisciplined(Run(START, init, FindActiveLease, ttl), last))
  }

  lemma DisciplinedStepIsUndisturbed(s: State, step: Step, ttl: int)
    requires IsSound(s) && IsDisciplined(s, step)
    ensures var e := AppendedBy(s, step, FindActiveLease, ttl);
            e.Some? ==> Undisturbed(FindActiveLease, s.log, e.value, s.now)
  {
    ActiveLeaseReportsLive();
    var e := AppendedBy(s, step, FindActiveLease, ttl);
    if step.Renew? || step.Release? { assert IsSoundClaim(s, Claim(step.worker, step.slot)); }
    if e.Some? {
      forall slot, l | FindActiveLease(s.log, slot, s.now) == Some(l) && l.token != e.value.token
        ensures FindActiveLease(s.log + [e.value], slot, s.now) == Some(l)
      {
        LatestAppend(s.log, e.value, slot);
      }
    }
  }

  /** With both disciplines the repository's own lookup excludes; each of the two broken runs above breaks
      exactly one of them. */
  lemma {:induction false} DisciplinedRunIsExclusive(steps: seq<Step>, ttl: int)
    requires 0 < ttl && IsDisciplinedRun(steps, ttl)
    ensures var s := Run(START, steps, FindActiveLease, ttl);
            IsSound(s) && HeldIsReported(s, FindActiveLease) && Exclusive(s)
  {
    ActiveLeaseReportsLive();
    if steps != [] {
      var init, last := steps[..|steps| - 1], steps[|steps| - 1];
      DisciplinedRunIsExclusive(init, ttl);
      var s := Run(START, init, FindActiveLease, ttl);
      DisciplinedStepIsUndisturbed(s, last, ttl);
      StepKeepsReported(s, last, FindActiveLease, ttl);
      StepKeepsSound(s, last, FindActiveLease, ttl);
    }
    ReportedIsExclusive(Run(START, steps, FindActiveLease, ttl), FindActiveLease);
  }

  // ---------------------------------------------------------------------------------------------
  // The exact conditions, read off the log
  // ---------------------------------------------------------------------------------------------

  /** The lease is its worker's: held, or appended and about to be verified. */
  ghost predicate IsOwned(s: State, l: Lease) {
    || (Claim(l.worker, l.slot) in s.held && s.held[Claim(l.worker, l.slot)] == l)
    || PhaseOf(s, l.worker) == Appended(l)
  }

  /** Whatever the lookup reports belongs to somebody. */
  ghost predicate ReportedIsOwned(s: State) {
    forall slot :: FindActiveLease(s.log, slot, s.now).Some? ==> IsOwned(s, FindActiveLease(s.log, slot, s.now).value)
  }

  /** The step does not leave an appended lease behind without an owner. */
  predicate IsSettled(s: State, step: Step) {
    step.Abandon? ==> !PhaseOf(s, step.worker).Appended?
  }

  lemma RenewKeepsOwned(s: State, w: string, lease: Lease, ttl: int)
    requires ReportedIsOwned(s) && lease.worker == w
    ensures ReportedIsOwned(RenewWith(s, w, lease, FindActiveLease, ttl))
  {
    var s' := RenewWith(s, w, lease, FindActiveLease, ttl);
    if s' != s {
      ActiveLeaseReportsLive();
      forall slot | FindActiveLease(s'.log, slot, s'.now).Some?
        ensures IsOwned(s', FindActiveLease(s'.log, slot, s'.now).value)
      {
        LatestAppend(s.log, lease.(expiresAt := s.now + ttl), slot);
        LatestIsInLog(s.log, slot);
        if slot != lease.slot {
          assert IsOwned(s, FindActiveLease(s.log, slot, s.now).value);
        }
      }
    }
  }

  lemma AppendKeepsOwned(s: State, w: string, ttl: int)
    requires IsSound(s) && ReportedIsOwned(s)
    ensures ReportedIsOwned(Do(s, Append(w), ttl))
  {
    var s' := Do(s, Append(w), ttl);
    assert IsSoundPhase(s, w);
    if PhaseOf(s, w).Built? {
      forall slot | FindActiveLease(s'.log, slot, s'.now).Some?
        ensures IsOwned(s', FindActiveLease(s'.log, slot, s'.now).value)
      {
        LatestAppend(s.log, PhaseOf(s, w).lease, slot);
        if slot != PhaseOf(s, w).lease.slot {
          assert IsOwned(s, FindActiveLease(s.log, slot, s.now).value);
        }
      }
    }
  }

  lemma VerifyKeepsOwner(s: State, w: string, ttl: int, a: Lease)
    requires IsSoundPhase(s, w) && PhaseOf(s, w).Appended?
    requires IsOwned(s, a) && a in s.log && FindActiveLease(s.log, a.slot, s.now) == Some(a)
    ensures IsOwned(Do(s, Verify(w), ttl), a)
  {
    var l := PhaseOf(s, w).lease;
    var s' := Do(s, Verify(w), ttl);
    if a.token == l.token {
      assert a == l && s'.held[Claim(w, l.slot)] == a;
    } else if a.slot == l.slot {
      assert s'.held == s.held;
    }
  }

  lemma VerifyKeepsOwned(s: State, w: string, ttl: int)
    requires IsSound(s) && ReportedIsOwned(s)
    ensures ReportedIsOwned(Do(s, Verify(w), ttl))
  {
    var s' := Do(s, Verify(w), ttl);
    assert IsSoundPhase(s, w);
    if PhaseOf(s, w).Appended? {
      forall slot | FindActiveLease(s'.log, slot, s'.now).Some?
        ensures IsOwned(s', FindActiveLease(s'.log, slot, s'.now).value)
      {
        LatestIsInLog(s.log, slot);
        VerifyKeepsOwner(s, w, ttl, FindActiveLease(s.log, slot, s.now).value);
      }
    }
  }

  lemma ReleaseKeepsOwned(s: State, w: string, slot: Slot, ttl: int)
    requires IsSound(s) && ReportedIsOwned(s)
    ensures ReportedIsOwned(Do(s, Release(w, slot), ttl))
  {
    var s' := Do(s, Release(w, slot), ttl);
    assert IsSoundClaim(s, Claim(w, slot));
    if Claim(w, slot) in s.held {
      forall place | FindActiveLease(s'.log, place, s'.now).Some?
        ensures IsOwned(s', FindActiveLease(s'.log, place, s'.now).value)
      {
        LatestAppend(s.log, s.held[Claim(w, slot)].(expiresAt := s.now, released := true), place);
        LatestIsInLog(s.log, place);
        assert IsOwned(s, FindActiveLease(s.log, place, s.now).value);
      }
    }
  }

  lemma StepKeepsOwned(s: State, step: Step, ttl: int)
    requires IsSound(s) && ReportedIsOwned(s) && IsSettled(s, step)
    ensures ReportedIsOwned(Do(s, step, ttl))
  {
    var s' := Do(s, step, ttl);
    match step
    case Append(w) => AppendKeepsOwned(s, w, ttl);
    case Verify(w) => VerifyKeepsOwned(s, w, ttl);
    case Release(w, slot) => ReleaseKeepsOwned(s, w, slot, ttl);
    case Renew(w, slot) =>
      assert IsSoundClaim(s, Claim(w, slot));
      if Claim(w, slot) in s.held {
        RenewKeepsOwned(s, w, s.held[Claim(w, slot)], ttl);
      }
    case Read(w, slot) =>
      var active := FindActiveLease(s.log, slot, s.now);
      if PhaseOf(s, w) == Outside && active.Some? && active.value.worker == w {
        RenewKeepsOwned(s, w, active.value, ttl);
      } else {
        forall place | FindActiveLease(s'.log, place, s'.now).Some?
          ensures IsOwned(s', FindActiveLease(s'.log, place, s'.now).value)
        {
          assert IsOwned(s, FindActiveLease(s.log, place, s.now).value);
        }
      }
    case _ =>
      forall place | FindActiveLease(s'.log, place, s'.now).Some?
        ensures IsOwned(s', FindActiveLease(s'.log, place, s'.now).value)
      {
        assert IsOwned(s, FindActiveLease(s.log, place, s.now).value);
      }
  }

  /** Whoever has built a lease has no active one on the slot: it saw none when it read, and only an append of
      its own could change that. */
  ghost predicate BuiltHasNone(s: State) {
    forall w :: PhaseOf(s, w).Built? ==> HasNone(s, w, PhaseOf(s, w).lease.slot)
  }

  predicate HasNone(s: State, w: string, slot: Slot) {
    var active := FindActiveLease(s.log, slot, s.now);
    active.Some? ==> active.value.worker != w
  }

  /** A comment of another worker, or one that is not live, gives a worker no active lease. */
  lemma AppendGivesNone(s: State, e: Lease, w: string, slot: Slot)
    requires HasNone(s, w, slot) && (e.slot == slot ==> e.worker != w || !IsLive(e, s.now))
    ensures HasNone(s.(log := s.log + [e]), w, slot)
  {
    LatestAppend(s.log, e, slot);
  }

  lemma RenewKeepsHasNone(s: State, v: string, lease: Lease, ttl: int, w: string, slot: Slot)
    requires IsSound(s) && HasNone(s, w, slot) && IsIssued(lease, s.issued)
    ensures HasNone(RenewWith(s, v, lease, FindActiveLease, ttl), w, slot)
  {
    LatestIsInLog(s.log, lease.slot);
    var renewed := lease.(expiresAt := s.now + ttl);
    if lease.slot != slot || lease.worker != w {
      AppendGivesNone(s, renewed, w, slot);
    }
  }

  lemma StepKeepsHasNone(s: State, step: Step, ttl: int, w: string)
    requires IsSound(s) && BuiltHasNone(s) && PhaseOf(Do(s, step, ttl), w).Built?
    ensures HasNone(Do(s, step, ttl), w, PhaseOf(Do(s, step, ttl), w).lease.slot)
  {
    var slot := PhaseOf(Do(s, step, ttl), w).lease.slot;
    if PhaseOf(s, w).Built? {
      assert PhaseOf(Do(s, step, ttl), w) == PhaseOf(s, w) && HasNone(s, w, slot);
    } else {
      assert step == Read(w, slot) && HasNone(s, w, slot);
    }
    match step
    case Read(v, place) =>
      var active := FindActiveLease(s.log, place, s.now);
      LatestIsInLog(s.log, place);
      if PhaseOf(s, v) == Outside && active.Some? && active.value.worker == v {
        RenewKeepsHasNone(s, v, active.value, ttl, w, slot);
      }
    case Append(v) =>
      assert IsSoundPhase(s, v);
      if PhaseOf(s, v).Built? { AppendGivesNone(s, PhaseOf(s, v).lease, w, slot); }
    case Renew(v, place) =>
      assert IsSoundClaim(s, Claim(v, place));
      if Claim(v, place) in s.held { RenewKeepsHasNone(s, v, s.held[Claim(v, place)], ttl, w, slot); }
    case Release(v, place) =>
      if Claim(v, place) in s.held {
        AppendGivesNone(s, s.held[Claim(v, place)].(expiresAt := s.now, released := true), w, slot);
      }
    case _ =>
  }

  /** A disciplined run in which no acquisition throws between its append and its verification. */
  ghost predicate IsCleanRun(steps: seq<Step>, ttl: int) {
    steps == [] ||
    (var init, last := steps[..|steps| - 1], steps[|steps| - 1];
     var s := Run(START, init, FindActiveLease, ttl);
     IsCleanRun(init, ttl) && IsDisciplined(s, last) && IsSettled(s, last))
  }

  lemma {:induction false} CleanRunMeans(steps: seq<Step>, ttl: int)
    requires 0 < ttl && IsCleanRun(steps, ttl)
    ensures var s := Run(START, steps, FindActiveLease, ttl);
            IsSound(s) && HeldIsReported(s, FindActiveLease) && Exclusive(s) && ReportedIsOwned(s) && BuiltHasNone(s)
    ensures IsDisciplinedRun(steps, ttl)
  {
    if steps != [] {
      var init, last := steps[..|steps| - 1], steps[|steps| - 1];
      var s := Run(START, init, FindActiveLease, ttl);
      CleanRunMeans(init, ttl);
      StepKeepsOwned(s, last, ttl);
      forall w | PhaseOf(Do(s, last, ttl), w).Built?
        ensures HasNone(Do(s, last, ttl), w, PhaseOf(Do(s, last, ttl), w).lease.slot)
      {
        StepKeepsHasNone(s, last, ttl, w);
      }
    }
    DisciplinedRunIsExclusive(steps, ttl);
  }

  /** Whoever holds a slot is whom the lookup reports. */
  lemma HolderIsReported(s: State, v: string, slot: Slot)
    requires IsSound(s) && HeldIsReported(s, FindActiveLease) && Holds(s, v, slot)
    ensures FindActiveLease(s.log, slot, s.now).Some? && FindActiveLease(s.log, slot, s.now).value.worker == v
  {
    assert IsReported(s, Claim(v, slot), FindActiveLease);
    assert IsSoundClaim(s, Claim(v, slot));
    LatestIsInLog(s.log, slot);
  }

  /** Verifying moves nothing but the worker's phase and, at most, its claim on the slot it appended to. */
  lemma VerifyMoves(s: State, v: string, ttl: int)
    ensures var s' := Do(s, Verify(v), ttl);
            && s'.log == s.log && s'.now == s.now
            && (forall w :: w != v ==> PhaseOf(s', w) == PhaseOf(s, w))
            && (PhaseOf(s, v) == Outside ==> s' == s)
            && (forall c :: c in s.held ==> c in s'.held && (c.worker != v ==> s'.held[c] == s.held[c]))
  {
  }

  /** What the lookup reports of a worker, that worker holds once it has had the chance to verify. */
  lemma OwnerHoldsAfterVerify(s: State, slot: Slot, ttl: int)
    requires IsSound(s) && ReportedIsOwned(s) && FindActiveLease(s.log, slot, s.now).Some?
    ensures var u := FindActiveLease(s.log, slot, s.now).value.worker;
            Holds(Do(s, Verify(u), ttl), u, slot)
  {
    var a := FindActiveLease(s.log, slot, s.now).value;
    LatestIsInLog(s.log, slot);
    assert IsOwned(s, a) && IsSoundPhase(s, a.worker);
  }

  /** An append and its verification make at most their worker a holder, and make it one if its lease is live. */
  lemma AppendVerifyMoves(s: State, w: string, ttl: int)
    requires PhaseOf(s, w).Built?
    ensures var slot := PhaseOf(s, w).lease.slot;
            var s' := Do(Do(s, Append(w), ttl), Verify(w), ttl);
            && (forall v, place :: Holds(s', v, place) ==> Holds(s, v, place) || (v == w && place == slot))
            && (forall v, place :: Holds(s, v, place) && v != w ==> Holds(s', v, place))
            && (IsLive(PhaseOf(s, w).lease, s.now) ==> Holds(s', w, slot))
            && (!IsLive(PhaseOf(s, w).lease, s.now) ==> s'.held == s.held)
  {
    LatestAppend(s.log, PhaseOf(s, w).lease, PhaseOf(s, w).lease.slot);
  }

  /** Nobody, or the worker itself. */
  predicate IsFreeFor(active: Option<Lease>, w: string) {
    active.Some? ==> active.value.worker == w
  }

  /** The append and verification of what `w` has built, with the verification of `v` made first or not. */
  function AppendVerified(s: State, v: string, w: string, ttl: int): State {
    Do(Do(Do(s, Verify(v), ttl), Append(w), ttl), Verify(w), ttl)
  }

  /** Nobody holds the slot beside another, now or after one more acquisition by any idle worker. */
  ghost predicate StaysExclusive(s: State, slot: Slot, ttl: int) {
    Exclusive(s) && forall c :: PhaseOf(s, c) == Outside ==> Exclusive(Acquire(s, c, slot, ttl))
  }

  /** After a clean run, with whatever verification is still to come made first or not: appending a built lease,
      expired by then or not, keeps exclusion if and only if the lookup, made at the append, reports nothing. */
  lemma AppendIsSafeIff(steps: seq<Step>, w: string, ttl: int)
    requires 0 < ttl && IsCleanRun(steps, ttl)
    requires PhaseOf(Run(START, steps, FindActiveLease, ttl), w).Built?
    ensures var s := Run(START, steps, FindActiveLease, ttl);
            var slot := PhaseOf(s, w).lease.slot;
            (forall v :: StaysExclusive(AppendVerified(s, v, w, ttl), slot, ttl))
            <==> FindActiveLease(s.log, slot, s.now).None?
  {
    CleanRunMeans(steps, ttl);
    ActiveLeaseReportsLive();
    var s := Run(START, steps, FindActiveLease, ttl);
    var slot := PhaseOf(s, w).lease.slot;
    var active := FindActiveLease(s.log, slot, s.now);
    if active.None? {
      forall v ensures StaysExclusive(AppendVerified(s, v, w, ttl), slot, ttl) {
        AppendOntoFree(s, v, w, ttl);
      }
    } else {
      assert HasNone(s, w, slot);
      AppendOntoTaken(s, w, ttl);
      assert !StaysExclusive(AppendVerified(s, active.value.worker, w, ttl), slot, ttl);
    }
  }

  /** Onto an active lease of another worker: its owner holds the slot, and `w` holds it too, at once or by
      asking again. */
  lemma AppendOntoTaken(s: State, w: string, ttl: int)
    requires 0 < ttl && IsSound(s) && ReportedIsOwned(s) && PhaseOf(s, w).Built?
    requires FindActiveLease(s.log, PhaseOf(s, w).lease.slot, s.now).Some? && HasNone(s, w, PhaseOf(s, w).lease.slot)
    ensures var slot := PhaseOf(s, w).lease.slot;
            var u := FindActiveLease(s.log, slot, s.now).value.worker;
            !StaysExclusive(AppendVerified(s, u, w, ttl), slot, ttl)
  {
    var slot := PhaseOf(s, w).lease.slot;
    var u := FindActiveLease(s.log, slot, s.now).value.worker;
    var s1 := Do(s, Verify(u), ttl);
    OwnerHoldsAfterVerify(s, slot, ttl);
    VerifyMoves(s, u, ttl);
    AppendVerifyMoves(s1, w, ttl);
    var s2 := AppendVerified(s, u, w, ttl);
    assert Holds(s2, u, slot);
    if Holds(s2, w, slot) {
      assert !Exclusive(s2);
    } else {
      assert IsSoundPhase(s, w);
      LatestAppend(s1.log, PhaseOf(s, w).lease, slot);
      UncontestedAcquire(s2, w, slot, ttl);
      var s3 := Acquire(s2, w, slot, ttl);
      assert Holds(s3, u, slot) && Holds(s3, w, slot);
    }
  }

  lemma AppendOntoFree(s: State, v: string, w: string, ttl: int)
    requires 0 < ttl && IsSound(s) && HeldIsReported(s, FindActiveLease) && ReportsLive(FindActiveLease)
    requires PhaseOf(s, w).Built?
    requires FindActiveLease(s.log, PhaseOf(s, w).lease.slot, s.now).None?
    ensures StaysExclusive(AppendVerified(s, v, w, ttl), PhaseOf(s, w).lease.slot, ttl)
  {
    var s1 := Do(s, Verify(v), ttl);
    var slot := PhaseOf(s, w).lease.slot;
    VerifyMoves(s, v, ttl);
    StepKeepsSound(s, Verify(v), FindActiveLease, ttl);
    SilentStepKeepsReported(s, Verify(v), FindActiveLease, ttl);
    ReportedIsExclusive(s1, FindActiveLease);
    forall u ensures !Holds(s1, u, slot) {
      if Holds(s1, u, slot) { HolderIsReported(s1, u, slot); }
    }
    assert PhaseOf(s1, w) == PhaseOf(s, w);
    AppendVerifyMoves(s1, w, ttl);
    var s2 := AppendVerified(s, v, w, ttl);
    assert Exclusive(s2);
    LatestAppend(s1.log, PhaseOf(s, w).lease, slot);
    assert IsSoundPhase(s, w) && s2.log == s1.log + [PhaseOf(s, w).lease];
    forall c | PhaseOf(s2, c) == Outside ensures Exclusive(Acquire(s2, c, slot, ttl)) {
      AcquireIsSafe(s2, c, slot, ttl);
    }
  }

  /** An uncontested acquisition makes at most its worker a holder of the slot. */
  lemma AcquireMoves(s: State, c: string, slot: Slot, ttl: int, v: string, place: Slot)
    requires PhaseOf(s, c) == Outside && Holds(Acquire(s, c, slot, ttl), v, place)
    ensures Holds(s, v, place) || (v == c && place == slot)
  {
    LatestIsInLog(s.log, slot);
    var s1 := Do(s, Read(c, slot), ttl);
    if FindActiveLease(s.log, slot, s.now).None? {
      AppendVerifyMoves(s1, c, ttl);
    }
  }

  /** Onto a slot that at most the reported worker holds, an acquisition makes no second holder. */
  lemma AcquireIsSafe(s: State, c: string, slot: Slot, ttl: int)
    requires Exclusive(s) && PhaseOf(s, c) == Outside
    requires forall v :: Holds(s, v, slot) ==>
               var active := FindActiveLease(s.log, slot, s.now); active.Some? && active.value.worker == v
    ensures Exclusive(Acquire(s, c, slot, ttl))
  {
    var s' := Acquire(s, c, slot, ttl);
    forall v, place | Holds(s', v, place) ensures Holds(s, v, place) || (v == c && place == slot) {
      AcquireMoves(s, c, slot, ttl, v, place);
    }
    var active := FindActiveLease(s.log, slot, s.now);
    if active.Some? && active.value.worker != c {
      assert s' == s;
    }
  }

  /** After a clean run, with whatever verification is still to come made first or not: a release by `a`
      followed by an acquisition of an idle `c` keeps exclusion if and only if the lookup, made at the release,
      reports nobody but the two of them. */
  lemma ReleaseIsSafeIff(steps: seq<Step>, a: string, c: string, slot: Slot, ttl: int)
    requires 0 < ttl && IsCleanRun(steps, ttl)
    requires var s := Run(START, steps, FindActiveLease, ttl); Claim(a, slot) in s.held && PhaseOf(s, c) == Outside
    ensures var s := Run(START, steps, FindActiveLease, ttl);
            var active := FindActiveLease(s.log, slot, s.now);
            (forall v :: Exclusive(Acquire(Do(Do(s, Verify(v), ttl), Release(a, slot), ttl), c, slot, ttl)))
            <==> IsFreeFor(active, a) || IsFreeFor(active, c)
  {
    CleanRunMeans(steps, ttl);
    ActiveLeaseReportsLive();
    var s := Run(START, steps, FindActiveLease, ttl);
    var active := FindActiveLease(s.log, slot, s.now);
    if IsFreeFor(active, a) || IsFreeFor(active, c) {
      forall v ensures Exclusive(Acquire(Do(Do(s, Verify(v), ttl), Release(a, slot), ttl), c, slot, ttl)) {
        ReleaseOfFree(s, v, a, c, slot, ttl);
      }
    } else {
      var u := active.value.worker;
      VerifyMoves(s, u, ttl);
      OwnerHoldsAfterVerify(s, slot, ttl);
      var s1 := Do(s, Verify(u), ttl);
      assert IsSoundClaim(s, Claim(a, slot));
      LateReleaseAdmitsAnother(s1, a, u, c, slot, ttl);
      assert !Exclusive(Acquire(Do(s1, Release(a, slot), ttl), c, slot, ttl));
    }
  }

  lemma ReleaseOfFree(s: State, v: string, a: string, c: string, slot: Slot, ttl: int)
    requires 0 < ttl && IsSound(s) && HeldIsReported(s, FindActiveLease) && ReportsLive(FindActiveLease)
    requires Claim(a, slot) in s.held && PhaseOf(s, c) == Outside
    requires var active := FindActiveLease(s.log, slot, s.now); IsFreeFor(active, a) || IsFreeFor(active, c)
    ensures Exclusive(Acquire(Do(Do(s, Verify(v), ttl), Release(a, slot), ttl), c, slot, ttl))
  {
    var s1 := Do(s, Verify(v), ttl);
    VerifyMoves(s, v, ttl);
    StepKeepsSound(s, Verify(v), FindActiveLease, ttl);
    SilentStepKeepsReported(s, Verify(v), FindActiveLease, ttl);
    ReportedIsExclusive(s1, FindActiveLease);
    forall u | Holds(s1, u, slot) ensures u == a || u == c {
      HolderIsReported(s1, u, slot);
    }
    var s2 := Do(s1, Release(a, slot), ttl);
    assert forall u, place :: Holds(s2, u, place) ==> Holds(s1, u, place) && Claim(u, place) != Claim(a, slot);
    var s3 := Acquire(s2, c, slot, ttl);
    forall u, place | Holds(s3, u, place) ensures Holds(s2, u, place) || (u == c && place == slot) {
      AcquireMoves(s2, c, slot, ttl, u, place);
    }
  }

  // ---------------------------------------------------------------------------------------------
  // A lookup that keeps the first live lease
  // ---------------------------------------------------------------------------------------------

  /** The latest comment with a token. */
  function LatestOfToken(log: seq<Lease>, token: nat): Option<Lease> {
    if log == [] then None
    else if log[|log| - 1].token == token then Some(log[|log| - 1])
    else LatestOfToken(log[..|log| - 1], token)
  }

  predicate IsFirstLive(log: seq<Lease>, slot: Slot, now: int, i: nat)
    requires i < |log|
  {
    var latest := LatestOfToken(log, log[i].token);
    log[i].slot == slot && latest.Some? && latest.value.slot == slot && IsLive(latest.value, now)
  }

  /** The latest comment of the first token of the slot that is live, among the first `n` comments. */
  function FirstLiveUpTo(log: seq<Lease>, slot: Slot, now: int, n: nat): Option<Lease>
    requires n <= |log|
  {
    if n == 0 then None
    else
      var earlier := FirstLiveUpTo(log, slot, now, n - 1);
      if earlier.Some? then earlier
      else if IsFirstLive(log, slot, now, n - 1) then LatestOfToken(log, log[n - 1].token)
      else None
  }

  function FindFirstLiveLease(log: seq<Lease>, slot: Slot, now: int): Option<Lease> {
    FirstLiveUpTo(log, slot, now, |log|)
  }

  lemma {:induction false} LatestOfTokenInLog(log: seq<Lease>, token: nat)
    ensures var l := LatestOfToken(log, token); l.Some? ==> l.value in log && l.value.token == token
  {
    if log != [] && log[|log| - 1].token != token {
      LatestOfTokenInLog(log[..|log| - 1], token);
      assert log == log[..|log| - 1] + [log[|log| - 1]];
    }
  }

  lemma LatestOfTokenAppend(log: seq<Lease>, e: Lease, token: nat)
    ensures LatestOfToken(log + [e], token) == if e.token == token then Some(e) else LatestOfToken(log, token)
  {
    assert (log + [e])[..|log|] == log;
  }

  /** What the first-live lookup reports, by position: the first position whose token is live. */
  lemma {:induction false} FirstLiveMeans(log: seq<Lease>, slot: Slot, now: int, n: nat, l: Lease)
    requires n <= |log|
    ensures FirstLiveUpTo(log, slot, now, n) == Some(l) <==>
            exists i: nat :: i < n && IsFirstLive(log, slot, now, i) && LatestOfToken(log, log[i].token) == Some(l)
                        && forall j: nat :: j < i ==> !IsFirstLive(log, slot, now, j)
    ensures FirstLiveUpTo(log, slot, now, n).None? <==> forall j: nat :: j < n ==> !IsFirstLive(log, slot, now, j)
  {
    if n > 0 {
      FirstLiveMeans(log, slot, now, n - 1, l);
    }
  }

  /** Appending a protocol comment changes no earlier position's verdict, unless it is a comment of the
      reported token. */
  lemma FirstLiveKeepsActive()
    ensures ReportsLive(FindFirstLiveLease) && KeepsActive(FindFirstLiveLease)
  {
    forall log: seq<Lease>, slot, now, l | FindFirstLiveLease(log, slot, now) == Some(l)
      ensures l in log && l.slot == slot && IsLive(l, now)
    {
      FirstLiveMeans(log, slot, now, |log|, l);
      var i: nat :| i < |log| && IsFirstLive(log, slot, now, i) && LatestOfToken(log, log[i].token) == Some(l);
      LatestOfTokenInLog(log, log[i].token);
    }
    forall log: seq<Lease>, slot, now, l: Lease, later
      | FindFirstLiveLease(log, slot, now) == Some(l) && now <= later < l.expiresAt
      ensures FindFirstLiveLease(log, slot, later) == Some(l)
    {
      FirstLiveMeans(log, slot, now, |log|, l);
      var i: nat :| i < |log| && IsFirstLive(log, slot, now, i) && LatestOfToken(log, log[i].token) == Some(l)
                    && forall j: nat :: j < i ==> !IsFirstLive(log, slot, now, j);
      assert IsFirstLive(log, slot, later, i);
      forall j: nat | j < i ensures !IsFirstLive(log, slot, later, j) {
        assert !IsFirstLive(log, slot, now, j);
      }
      FirstLiveMeans(log, slot, later, |log|, l);
    }
    forall log, slot, now, l: Lease, e: Lease
      | FindFirstLiveLease(log, slot, now) == Some(l) && e.slot == slot && e.token == l.token && IsLive(e, now)
      ensures FindFirstLiveLease(log + [e], slot, now) == Some(e)
    {
      FirstLiveAfter(log, slot, now, l, e);
    }
    forall log, e, now | IsProtocolEntry(FindFirstLiveLease, log, e, now)
      ensures Undisturbed(FindFirstLiveLease, log, e, now)
    {
      forall slot, l | FindFirstLiveLease(log, slot, now) == Some(l) && l.token != e.token
        ensures FindFirstLiveLease(log + [e], slot, now) == Some(l)
      {
        FirstLiveAfter(log, slot, now, l, e);
      }
    }
  }

  /** The report after one more protocol comment: the comment itself when it renews, else what it was. */
  lemma FirstLiveAfter(log: seq<Lease>, slot: Slot, now: int, l: Lease, e: Lease)
    requires FindFirstLiveLease(log, slot, now) == Some(l)
    requires (e.token == l.token && e.slot == slot && IsLive(e, now))
          || (e.token != l.token && IsProtocolEntry(FindFirstLiveLease, log, e, now))
    ensures FindFirstLiveLease(log + [e], slot, now) == Some(if e.token == l.token then e else l)
  {
    var log' := log + [e];
    var l' := if e.token == l.token then e else l;
    FirstLiveMeans(log, slot, now, |log|, l);
    var i: nat :| i < |log| && IsFirstLive(log, slot, now, i) && LatestOfToken(log, log[i].token) == Some(l)
                  && forall j: nat :: j < i ==> !IsFirstLive(log, slot, now, j);
    LatestOfTokenInLog(log, log[i].token);
    LatestOfTokenAppend(log, e, log[i].token);
    forall j: nat | j < i ensures !IsFirstLive(log', slot, now, j) {
      LatestOfTokenAppend(log, e, log[j].token);
      assert !IsFirstLive(log, slot, now, j);
    }
    assert IsFirstLive(log', slot, now, i);
    FirstLiveMeans(log', slot, now, |log'|, l');
  }

  /** With the first live lease instead of the latest one, every interleaving is exclusive. */
  lemma FirstLiveLookupExcludes(steps: seq<Step>, ttl: int)
    requires 0 < ttl
    ensures Exclusive(Run(START, steps, FindFirstLiveLease, ttl))
  {
    FirstLiveKeepsActive();
    KeepingLookupExcludes(steps, FindFirstLiveLease, ttl);
  }

  /** The repository's lookup does not keep its reports: a comment with a new token replaces them. */
  lemma ActiveLeaseIsNotKept()
    ensures !KeepsActive(FindActiveLease)
  {
    var slot := Slot("", TaskLease, "");
    var la, lb := Lease(slot, "", 1, 0, false), Lease(slot, "", 1, 1, false);
    OwnEntryIsActive([], la, 0);
    OwnEntryIsActive([la], lb, 0);
    assert [] + [la] == [la];
    assert IsProtocolEntry(FindActiveLease, [la], lb, 0);
    assert !Undisturbed(FindActiveLease, [la], lb, 0);
  }
}
