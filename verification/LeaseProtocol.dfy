/** src/domain/lockBackend.ts: leases kept as comments. Any number of workers interleave the calls of
    `acquireLease` (read, append, verify), renewals and releases on one append-only log of lease comments. */
module LeaseProtocol {
  import opened Common

  datatype LeaseKind = TaskLease | RepositoryLease

  /** What a lease is for: lookups only see the comments of one issue, kind and key. */
  datatype Slot = Slot(issue: string, kind: LeaseKind, key: string)

  datatype Lease = Lease(slot: Slot, worker: string, expiresAt: int, token: nat, released: bool)

  datatype Claim = Claim(worker: string, slot: Slot)

  /** A way to decide which lease of a slot is active at a time. */
  type Lookup = (seq<Lease>, Slot, int) -> Option<Lease>

  predicate IsLive(l: Lease, now: int) {
    !l.released && now < l.expiresAt
  }

  function FindLatestLease(log: seq<Lease>, slot: Slot): Option<Lease> {
    if log == [] then None
    else if log[|log| - 1].slot == slot then Some(log[|log| - 1])
    else FindLatestLease(log[..|log| - 1], slot)
  }

  /** The repository's lookup (src/integrations/tracker/commentProtocol.ts:1032-1067): the latest comment
      of the slot, if it is live. */
  function FindActiveLease(log: seq<Lease>, slot: Slot, now: int): Option<Lease> {
    var latest := FindLatestLease(log, slot);
    if latest.Some? && IsLive(latest.value, now) then latest else None
  }

  /** Where a worker is inside `acquireLease`. */
  datatype Phase =
    | Outside
    | Built(lease: Lease)     // found nothing active, built its lease, has not appended it
    | Appended(lease: Lease)  // has appended its lease, has not verified it

  /** `issued[t]` says for whom the random token `t` was drawn. */
  datatype State = State(
    log: seq<Lease>,
    now: int,
    issued: seq<Claim>,
    phases: map<string, Phase>,
    held: map<Claim, Lease>)

  datatype Step =
    | Tick(elapsed: nat)
    | Read(worker: string, slot: Slot)
    | Append(worker: string)
    | Verify(worker: string)
    | Renew(worker: string, slot: Slot)
    | Release(worker: string, slot: Slot)
    | Abandon(worker: string)  // the acquisition throws; what it appended stays in the log

  const START := State([], 0, [], map[], map[])

  function PhaseOf(s: State, worker: string): Phase {
    if worker in s.phases then s.phases[worker] else Outside
  }

  /** `renewTaskLease`, its read and its append taken as one step. */
  function RenewWith(s: State, worker: string, lease: Lease, lookup: Lookup, ttl: int): State {
    var active := lookup(s.log, lease.slot, s.now);
    if active.None? || active.value.token != lease.token then s
    else
      var renewed := lease.(expiresAt := s.now + ttl);
      s.(log := s.log + [renewed], held := s.held[Claim(worker, lease.slot) := renewed])
  }

  function Apply(s: State, step: Step, lookup: Lookup, ttl: int): State {
    match step
    case Tick(elapsed) => s.(now := s.now + elapsed)
    case Read(w, slot) =>
      if PhaseOf(s, w) != Outside then s
      else (
        match lookup(s.log, slot, s.now)
        case None =>
          var lease := Lease(slot, w, s.now + ttl, |s.issued|, false);
          s.(phases := s.phases[w := Built(lease)], issued := s.issued + [Claim(w, slot)])
        case Some(active) =>
          if active.worker != w then s else RenewWith(s, w, active, lookup, ttl))
    case Append(w) =>
      var phase := PhaseOf(s, w);
      if phase.Built? then s.(log := s.log + [phase.lease], phases := s.phases[w := Appended(phase.lease)]) else s
    case Verify(w) =>
      var phase := PhaseOf(s, w);
      if !phase.Appended? then s
      else
        var active := lookup(s.log, phase.lease.slot, s.now);
        var done := s.(phases := s.phases[w := Outside]);
        if active.Some? && active.value.token == phase.lease.token
        then done.(held := s.held[Claim(w, phase.lease.slot) := phase.lease])
        else done
    case Renew(w, slot) =>
      if Claim(w, slot) in s.held then RenewWith(s, w, s.held[Claim(w, slot)], lookup, ttl) else s
    case Release(w, slot) =>
      if Claim(w, slot) in s.held then
        s.(log := s.log + [s.held[Claim(w, slot)].(expiresAt := s.now, released := true)],
           held := s.held - {Claim(w, slot)})
      else s
    case Abandon(w) => s.(phases := s.phases[w := Outside])
  }

  function Run(s: State, steps: seq<Step>, lookup: Lookup, ttl: int): State {
    if steps == [] then s else Apply(Run(s, steps[..|steps| - 1], lookup, ttl), steps[|steps| - 1], lookup, ttl)
  }

  /** The worker acquired the lease, has not released it, and it has not expired. */
  predicate Holds(s: State, worker: string, slot: Slot) {
    Claim(worker, slot) in s.held && s.now < s.held[Claim(worker, slot)].expiresAt
  }

  ghost predicate Exclusive(s: State) {
    forall w1, w2, slot :: Holds(s, w1, slot) && Holds(s, w2, slot) ==> w1 == w2
  }

  // ---------------------------------------------------------------------------------------------
  // Bookkeeping that every step keeps
  // ---------------------------------------------------------------------------------------------

  predicate IsIssued(l: Lease, issued: seq<Claim>) {
    l.token < |issued| && issued[l.token] == Claim(l.worker, l.slot)
  }

  predicate IsFresh(l: Lease, log: seq<Lease>) {
    forall a :: a in log ==> a.token != l.token
  }

  ghost predicate IsSoundPhase(s: State, w: string) {
    match PhaseOf(s, w)
    case Outside => true
    case Built(l) => l.worker == w && !l.released && IsIssued(l, s.issued) && IsFresh(l, s.log)
    case Appended(l) => l.worker == w && !l.released && IsIssued(l, s.issued)
                        && forall a :: a in s.log && a.token == l.token ==> a == l
  }

  ghost predicate IsSoundClaim(s: State, c: Claim) {
    c in s.held ==>
      var l := s.held[c];
      Claim(l.worker, l.slot) == c && !l.released && IsIssued(l, s.issued) && !IsFresh(l, s.log)
      && (PhaseOf(s, c.worker).Appended? ==> PhaseOf(s, c.worker).lease.token != l.token)
  }

  /** Comments, pending leases and held leases carry the token drawn for their worker and slot. */
  ghost predicate IsSound(s: State) {
    && (forall a :: a in s.log ==> IsIssued(a, s.issued))
    && (forall w :: IsSoundPhase(s, w))
    && (forall c :: IsSoundClaim(s, c))
  }

  // ---------------------------------------------------------------------------------------------
  // Any lookup that keeps what it reports
  // ---------------------------------------------------------------------------------------------

  /** The lookup reports comments of the slot that are live, goes on reporting one while time passes until
      it expires, and follows its renewals. */
  ghost predicate ReportsLive(lookup: Lookup) {
    && (forall log, slot, now, l :: lookup(log, slot, now) == Some(l) ==> l in log && l.slot == slot && IsLive(l, now))
    && (forall log, slot, now, l: Lease, later :: lookup(log, slot, now) == Some(l) && now <= later < l.expiresAt ==>
          lookup(log, slot, later) == Some(l))
    && (forall log, slot, now, l: Lease, e: Lease ::
          (lookup(log, slot, now) == Some(l) && e.slot == slot && e.token == l.token && IsLive(e, now)) ==>
            lookup(log + [e], slot, now) == Some(e))
  }

  /** Appending `e` changes no reported lease but the one `e` itself renews or releases. */
  ghost predicate Undisturbed(lookup: Lookup, log: seq<Lease>, e: Lease, now: int) {
    forall slot, l :: lookup(log, slot, now) == Some(l) && l.token != e.token ==> lookup(log + [e], slot, now) == Some(l)
  }

  /** A comment the protocol may append: a new token, a release, or a renewal of a reported lease. */
  ghost predicate IsProtocolEntry(lookup: Lookup, log: seq<Lease>, e: Lease, now: int) {
    || IsFresh(e, log)
    || e.released
    || (lookup(log, e.slot, now).Some? && lookup(log, e.slot, now).value.token == e.token)
  }

  /** An active lease stays active until it is released or expires, whatever the others append. */
  ghost predicate KeepsActive(lookup: Lookup) {
    forall log, e, now :: IsProtocolEntry(lookup, log, e, now) ==> Undisturbed(lookup, log, e, now)
  }

  /** Every lease somebody holds is the one the lookup reports. */
  ghost predicate HeldIsReported(s: State, lookup: Lookup) {
    forall w, slot :: Holds(s, w, slot) ==> IsReported(s, Claim(w, slot), lookup)
  }

  /** The comment a step appends, if it appends one. */
  function AppendedBy(s: State, step: Step, lookup: Lookup, ttl: int): Option<Lease> {
    var s' := Apply(s, step, lookup, ttl);
    if |s'.log| == |s.log| + 1 then Some(s'.log[|s.log|]) else None
  }

  lemma RenewKeepsSound(s: State, w: string, lease: Lease, lookup: Lookup, ttl: int)
    requires IsSound(s) && ReportsLive(lookup)
    requires IsIssued(lease, s.issued) && lease.worker == w && !lease.released && !IsFresh(lease, s.log)
    requires PhaseOf(s, w).Appended? ==> PhaseOf(s, w).lease.token != lease.token
    ensures IsSound(RenewWith(s, w, lease, lookup, ttl))
  {
    var s' := RenewWith(s, w, lease, lookup, ttl);
    forall v ensures IsSoundPhase(s', v) {
      assert IsSoundPhase(s, v);
    }
    forall c ensures IsSoundClaim(s', c) {
      assert IsSoundClaim(s, c);
    }
  }

  lemma ReadKeepsSound(s: State, w: string, slot: Slot, lookup: Lookup, ttl: int)
    requires IsSound(s) && ReportsLive(lookup)
    ensures IsSound(Apply(s, Read(w, slot), lookup, ttl))
  {
    var s' := Apply(s, Read(w, slot), lookup, ttl);
    var active := lookup(s.log, slot, s.now);
    if PhaseOf(s, w) == Outside && active.Some? && active.value.worker == w {
      assert active.value in s.log;
      RenewKeepsSound(s, w, active.value, lookup, ttl);
    } else {
      forall v ensures IsSoundPhase(s', v) {
        assert IsSoundPhase(s, v);
      }
      forall c ensures IsSoundClaim(s', c) {
        assert IsSoundClaim(s, c);
      }
    }
  }

  lemma AppendKeepsSound(s: State, w: string, lookup: Lookup, ttl: int)
    requires IsSound(s)
    ensures IsSound(Apply(s, Append(w), lookup, ttl))
  {
    var s' := Apply(s, Append(w), lookup, ttl);
    assert IsSoundPhase(s, w);
    forall v ensures IsSoundPhase(s', v) {
      assert IsSoundPhase(s, v);
    }
    forall c ensures IsSoundClaim(s', c) {
      assert IsSoundClaim(s, c);
    }
  }

  lemma VerifyKeepsSound(s: State, w: string, lookup: Lookup, ttl: int)
    requires IsSound(s) && ReportsLive(lookup)
    ensures IsSound(Apply(s, Verify(w), lookup, ttl))
  {
    var s' := Apply(s, Verify(w), lookup, ttl);
    assert IsSoundPhase(s, w);
    forall v ensures IsSoundPhase(s', v) {
      assert IsSoundPhase(s, v);
    }
    forall c ensures IsSoundClaim(s', c) {
      assert IsSoundClaim(s, c);
    }
  }

  lemma ReleaseKeepsSound(s: State, w: string, slot: Slot, lookup: Lookup, ttl: int)
    requires IsSound(s)
    ensures IsSound(Apply(s, Release(w, slot), lookup, ttl))
  {
    var s' := Apply(s, Release(w, slot), lookup, ttl);
    assert IsSoundClaim(s, Claim(w, slot));
    forall v ensures IsSoundPhase(s', v) {
      assert IsSoundPhase(s, v);
    }
    forall c ensures IsSoundClaim(s', c) {
      assert IsSoundClaim(s, c);
    }
  }

  lemma StepKeepsSound(s: State, step: Step, lookup: Lookup, ttl: int)
    requires IsSound(s) && ReportsLive(lookup)
    ensures IsSound(Apply(s, step, lookup, ttl))
  {
    var s' := Apply(s, step, lookup, ttl);
    match step
    case Read(w, slot) => ReadKeepsSound(s, w, slot, lookup, ttl);
    case Append(w) => AppendKeepsSound(s, w, lookup, ttl);
    case Verify(w) => VerifyKeepsSound(s, w, lookup, ttl);
    case Release(w, slot) => ReleaseKeepsSound(s, w, slot, lookup, ttl);
    case Renew(w, slot) =>
      assert IsSoundClaim(s, Claim(w, slot));
      if Claim(w, slot) in s.held {
        RenewKeepsSound(s, w, s.held[Claim(w, slot)], lookup, ttl);
      }
    case _ =>
      forall v ensures IsSoundPhase(s', v) {
        assert IsSoundPhase(s, v);
      }
      forall c ensures IsSoundClaim(s', c) {
        assert IsSoundClaim(s, c);
      }
  }

  /** Every comment a step appends is one the protocol may append. */
  lemma StepAppendsProtocolEntry(s: State, step: Step, lookup: Lookup, ttl: int)
    requires IsSound(s) && ReportsLive(lookup)
    ensures var e := AppendedBy(s, step, lookup, ttl);
            e.Some? ==> IsProtocolEntry(lookup, s.log, e.value, s.now)
  {
    if step.Append? { assert IsSoundPhase(s, step.worker); }
    if step.Renew? { assert IsSoundClaim(s, Claim(step.worker, step.slot)); }
  }

  /** What `HeldIsReported` says of one claim. */
  ghost predicate IsReported(s: State, c: Claim, lookup: Lookup)
    requires c in s.held
  {
    var active := lookup(s.log, c.slot, s.now);
    active.Some? && active.value.token == s.held[c].token && s.held[c].expiresAt <= active.value.expiresAt
  }

  /** A comment of one claim leaves every other claim reported. */
  lemma OtherClaimStaysReported(s: State, e: Lease, c: Claim, lookup: Lookup)
    requires IsSound(s) && ReportsLive(lookup) && Undisturbed(lookup, s.log, e, s.now)
    requires IsIssued(e, s.issued)
    requires c in s.held && IsReported(s, c, lookup) && s.held[c].token != e.token
    ensures IsReported(s.(log := s.log + [e]), c, lookup)
  {
    var active := lookup(s.log, c.slot, s.now);
    assert lookup(s.log + [e], c.slot, s.now) == active;
  }

  lemma RenewKeepsReported(s: State, w: string, lease: Lease, lookup: Lookup, ttl: int)
    requires 0 < ttl && IsSound(s) && ReportsLive(lookup) && HeldIsReported(s, lookup)
    requires IsIssued(lease, s.issued) && lease.worker == w && !lease.released
    requires Undisturbed(lookup, s.log, lease.(expiresAt := s.now + ttl), s.now)
    ensures HeldIsReported(RenewWith(s, w, lease, lookup, ttl), lookup)
  {
    var s' := RenewWith(s, w, lease, lookup, ttl);
    var renewed := lease.(expiresAt := s.now + ttl);
    if s' != s {
      assert lookup(s'.log, lease.slot, s.now) == Some(renewed);
      forall v, slot | Holds(s', v, slot) ensures IsReported(s', Claim(v, slot), lookup) {
        var c := Claim(v, slot);
        assert IsSoundClaim(s, c);
        if c != Claim(w, lease.slot) {
          assert Holds(s, v, slot);
          OtherClaimStaysReported(s, renewed, c, lookup);
        }
      }
    }
  }

  lemma AppendKeepsReported(s: State, w: string, lookup: Lookup, ttl: int)
    requires IsSound(s) && ReportsLive(lookup) && HeldIsReported(s, lookup)
    requires PhaseOf(s, w).Built? ==> Undisturbed(lookup, s.log, PhaseOf(s, w).lease, s.now)
    ensures HeldIsReported(Apply(s, Append(w), lookup, ttl), lookup)
  {
    var s' := Apply(s, Append(w), lookup, ttl);
    assert IsSoundPhase(s, w);
    forall v, slot | Holds(s', v, slot) ensures IsReported(s', Claim(v, slot), lookup) {
      assert Holds(s, v, slot) && IsSoundClaim(s, Claim(v, slot));
      if PhaseOf(s, w).Built? {
        OtherClaimStaysReported(s, PhaseOf(s, w).lease, Claim(v, slot), lookup);
      }
    }
  }

  lemma ReleaseKeepsReported(s: State, w: string, slot: Slot, lookup: Lookup, ttl: int)
    requires IsSound(s) && ReportsLive(lookup) && HeldIsReported(s, lookup)
    requires Claim(w, slot) in s.held ==>
               Undisturbed(lookup, s.log, s.held[Claim(w, slot)].(expiresAt := s.now, released := true), s.now)
    ensures HeldIsReported(Apply(s, Release(w, slot), lookup, ttl), lookup)
  {
    var s' := Apply(s, Release(w, slot), lookup, ttl);
    assert IsSoundClaim(s, Claim(w, slot));
    forall v, place | Holds(s', v, place) ensures IsReported(s', Claim(v, place), lookup) {
      assert Holds(s, v, place) && IsSoundClaim(s, Claim(v, place));
      if Claim(w, slot) in s.held {
        OtherClaimStaysReported(s, s.held[Claim(w, slot)].(expiresAt := s.now, released := true), Claim(v, place), lookup);
      }
    }
  }

  lemma SilentStepKeepsReported(s: State, step: Step, lookup: Lookup, ttl: int)
    requires IsSound(s) && ReportsLive(lookup) && HeldIsReported(s, lookup)
    requires step.Tick? || step.Verify? || step.Abandon?
    ensures HeldIsReported(Apply(s, step, lookup, ttl), lookup)
  {
    var s' := Apply(s, step, lookup, ttl);
    forall v, slot | Holds(s', v, slot) ensures IsReported(s', Claim(v, slot), lookup) {
      var c := Claim(v, slot);
      if step.Verify? {
        assert IsSoundPhase(s, step.worker);
        if s'.held != s.held && c == Claim(step.worker, PhaseOf(s, step.worker).lease.slot) {
          var active := lookup(s.log, slot, s.now);
          assert active.value in s.log;
        } else {
          assert Holds(s, v, slot);
        }
      } else {
        assert Holds(s, v, slot);
        var active := lookup(s.log, slot, s.now);
        if step.Tick? {
          assert lookup(s.log, slot, s'.now) == active;
        }
      }
    }
  }

  /** A step that disturbs no active lease keeps every held lease reported. */
  lemma StepKeepsReported(s: State, step: Step, lookup: Lookup, ttl: int)
    requires 0 < ttl && IsSound(s) && ReportsLive(lookup) && HeldIsReported(s, lookup)
    requires var e := AppendedBy(s, step, lookup, ttl); e.Some? ==> Undisturbed(lookup, s.log, e.value, s.now)
    ensures HeldIsReported(Apply(s, step, lookup, ttl), lookup)
  {
    match step
    case Append(w) =>
      AppendKeepsReported(s, w, lookup, ttl);
    case Release(w, slot) =>
      ReleaseKeepsReported(s, w, slot, lookup, ttl);
    case Renew(w, slot) =>
      assert IsSoundClaim(s, Claim(w, slot));
      if AppendedBy(s, step, lookup, ttl).Some? {
        RenewKeepsReported(s, w, s.held[Claim(w, slot)], lookup, ttl);
      }
    case Read(w, slot) =>
      if AppendedBy(s, step, lookup, ttl).Some? {
        var active := lookup(s.log, slot, s.now).value;
        assert active in s.log;
        RenewKeepsReported(s, w, active, lookup, ttl);
      } else {
        var s' := Apply(s, step, lookup, ttl);
        forall v, place | Holds(s', v, place) ensures IsReported(s', Claim(v, place), lookup) {
          assert Holds(s, v, place);
        }
      }
    case _ =>
      SilentStepKeepsReported(s, step, lookup, ttl);
  }

  lemma ReportedIsExclusive(s: State, lookup: Lookup)
    requires IsSound(s) && ReportsLive(lookup) && HeldIsReported(s, lookup)
    ensures Exclusive(s)
  {
    forall w1, w2, slot | Holds(s, w1, slot) && Holds(s, w2, slot) ensures w1 == w2 {
      assert IsSoundClaim(s, Claim(w1, slot)) && IsSoundClaim(s, Claim(w2, slot));
    }
  }

  /** With any lookup that reports live comments and keeps an active lease active until it is released or
      expires, two workers never hold the same slot, whatever the interleaving. */
  lemma {:induction false} KeepingLookupExcludes(steps: seq<Step>, lookup: Lookup, ttl: int)
    requires 0 < ttl && ReportsLive(lookup) && KeepsActive(lookup)
    ensures var s := Run(START, steps, lookup, ttl);
            IsSound(s) && HeldIsReported(s, lookup) && Exclusive(s)
  {
    if steps != [] {
      var init, last := steps[..|steps| - 1], steps[|steps| - 1];
      KeepingLookupExcludes(init, lookup, ttl);
      var s := Run(START, init, lookup, ttl);
      StepAppendsProtocolEntry(s, last, lookup, ttl);
      StepKeepsReported(s, last, lookup, ttl);
      StepKeepsSound(s, last, lookup, ttl);
    }
    ReportedIsExclusive(Run(START, steps, lookup, ttl), lookup);
  }
}
