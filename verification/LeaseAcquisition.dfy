/** The two-phase acquisition before a run (src/domain/fleetOrchestrator.ts:330-376,
    src/domain/orchestrator.ts:444-513), in the steps of the lease protocol: the task lease, then the repository
    lease, then giving the task lease back. Any tracker call may throw, and an append that throws may have
    landed. First with nobody else on the two slots and no lease expiring, then whatever the others do. */
module LeaseAcquisition {
  import opened Common
  import opened LeaseProtocol
  import opened LeaseExclusion

  /** At which call of one `acquireLease` the tracker throws. A renewal reads twice; its two reads are one. */
  datatype Cut = AtRead | AtAppend(landed: bool) | AtVerify

  datatype Where = Uncut | InTask(cut: Cut) | InRepository(cut: Cut) | InRelease(landed: bool)

  /** What the log shows of a slot: no active lease, one of this worker, or one of another. */
  datatype Standing = Free | Mine | Theirs

  function StandingOf(s: State, w: string, slot: Slot): Standing {
    match FindActiveLease(s.log, slot, s.now)
    case None => Free
    case Some(l) => if l.worker == w then Mine else Theirs
  }

  datatype Outcome = Outcome(state: State, result: Result<bool>)

  /** `acquireLease`: Ok(true) with the lease, Ok(false) without, Err when the tracker throws. */
  function AcquireOne(s: State, w: string, slot: Slot, ttl: int, cut: Option<Cut>): Outcome {
    if cut == Some(AtRead) then Outcome(s, Err(Temporary))
    else
      var read := Do(s, Read(w, slot), ttl);
      match FindActiveLease(s.log, slot, s.now)
      case Some(active) =>
        if active.worker != w then Outcome(read, Ok(false))
        else if cut.Some? && cut.value.AtAppend? then
          Outcome(if cut.value.landed then s.(log := read.log) else s, Err(Temporary))
        else Outcome(read, Ok(true))
      case None =>
        if cut.Some? && cut.value.AtAppend? then
          Outcome(Do(if cut.value.landed then Do(read, Append(w), ttl) else read, Abandon(w), ttl), Err(Temporary))
        else
          var appended := Do(read, Append(w), ttl);
          if cut == Some(AtVerify) then Outcome(Do(appended, Abandon(w), ttl), Err(Temporary))
          else
            var verified := Do(appended, Verify(w), ttl);
            Outcome(verified, Ok(StandingOf(verified, w, slot) == Mine))
  }

  /** `acquireLeases`: Ok(true) with both leases, Ok(false) with none, Err when the tracker throws. There is no
      handler: what a call leaves behind when it throws stays. */
  function AcquireBoth(s: State, w: string, task: Slot, repository: Slot, ttl: int, cut: Where): Outcome {
    var first := AcquireOne(s, w, task, ttl, if cut.InTask? then Some(cut.cut) else None);
    if first.result != Ok(true) then first
    else
      var second := AcquireOne(first.state, w, repository, ttl, if cut.InRepository? then Some(cut.cut) else None);
      if second.result != Ok(false) then second
      else if cut.InRelease? then
        Outcome(if cut.landed then Do(second.state, Release(w, task), ttl) else second.state, Err(Temporary))
      else Outcome(Do(second.state, Release(w, task), ttl), Ok(false))
  }

  /** Both leases are handed out and active, or the log shows neither slot as this worker's. */
  predicate IsAllOrNothing(o: Outcome, w: string, task: Slot, repository: Slot) {
    if o.result == Ok(true) then StandingOf(o.state, w, task) == Mine && StandingOf(o.state, w, repository) == Mine
    else StandingOf(o.state, w, task) != Mine && StandingOf(o.state, w, repository) != Mine
  }

  /** Whether the cut leaves the worker with both leases or none, by what the log showed of the slots before. */
  predicate IsCleanCut(task: Standing, repository: Standing, cut: Where) {
    if task == Theirs then repository != Mine
    else
      match cut
      case Uncut => true
      case InTask(AtRead) => task == Free && repository != Mine
      case InTask(AtAppend(landed)) => !landed && task == Free && repository != Mine
      case InTask(AtVerify) => task == Mine  // a renewal does not verify
      case InRepository(AtRead) => false
      case InRepository(AtAppend(_)) => repository == Theirs
      case InRepository(AtVerify) => repository != Free
      case InRelease(landed) => repository != Theirs || landed
  }

  // ---------------------------------------------------------------------------------------------
  // What one acquisition leaves behind
  // ---------------------------------------------------------------------------------------------

  /** How the slot stands after `AcquireOne`, by how it stood before. */
  function StandingAfter(before: Standing, cut: Option<Cut>): Standing {
    match before
    case Theirs => Theirs
    case Mine => Mine
    case Free => if cut == Some(AtRead) || cut == Some(AtAppend(false)) then Free else Mine
  }

  function ResultAfter(before: Standing, cut: Option<Cut>): Result<bool> {
    if cut == Some(AtRead) then Err(Temporary)
    else
      match before
      case Theirs => Ok(false)
      case Mine => if cut.Some? && cut.value.AtAppend? then Err(Temporary) else Ok(true)
      case Free => if cut.Some? then Err(Temporary) else Ok(true)
  }

  lemma StandingAfterAppend(s: State, e: Lease, w: string, slot: Slot)
    requires IsLive(e, s.now)
    ensures StandingOf(s.(log := s.log + [e]), w, slot) ==
            if e.slot == slot then (if e.worker == w then Mine else Theirs) else StandingOf(s, w, slot)
  {
    LatestAppend(s.log, e, slot);
  }

  /** The lease a worker holds once an acquisition returned it: the one the log shows. */
  ghost predicate HoldsReported(s: State, w: string, slot: Slot) {
    && Claim(w, slot) in s.held
    && s.held[Claim(w, slot)].slot == slot && s.held[Claim(w, slot)].worker == w
    && FindActiveLease(s.log, slot, s.now) == Some(s.held[Claim(w, slot)])
  }

  /** What `OneAcquisition` says of an outcome. */
  ghost predicate IsAcquisition(s: State, o: Outcome, w: string, slot: Slot, cut: Option<Cut>, other: Slot) {
    && PhaseOf(o.state, w) == Outside && o.state.now == s.now
    && StandingOf(o.state, w, slot) == StandingAfter(StandingOf(s, w, slot), cut)
    && StandingOf(o.state, w, other) == StandingOf(s, w, other)
    && (HoldsReported(s, w, other) ==> HoldsReported(o.state, w, other))
    && o.result == ResultAfter(StandingOf(s, w, slot), cut)
    && (o.result == Ok(true) ==> HoldsReported(o.state, w, slot))
  }

  lemma RenewedOne(s: State, w: string, slot: Slot, ttl: int, cut: Option<Cut>, other: Slot)
    requires 0 < ttl && PhaseOf(s, w) == Outside && slot != other && StandingOf(s, w, slot) == Mine
    ensures IsAcquisition(s, AcquireOne(s, w, slot, ttl, cut), w, slot, cut, other)
  {
    LatestIsInLog(s.log, slot);
    var renewed := FindActiveLease(s.log, slot, s.now).value.(expiresAt := s.now + ttl);
    StandingAfterAppend(s, renewed, w, slot);
    StandingAfterAppend(s, renewed, w, other);
    LatestAppend(s.log, renewed, slot);
    LatestAppend(s.log, renewed, other);
    var read := Do(s, Read(w, slot), ttl);
    assert read == s.(log := s.log + [renewed], held := s.held[Claim(w, slot) := renewed]);
  }

  /** An append that landed, with nothing done about it afterwards. */
  lemma AbandonedAppend(s: State, w: string, slot: Slot, ttl: int)
    requires 0 < ttl && PhaseOf(s, w) == Outside && StandingOf(s, w, slot) == Free
    ensures var lease := Lease(slot, w, s.now + ttl, |s.issued|, false);
            Do(Do(Do(s, Read(w, slot), ttl), Append(w), ttl), Abandon(w), ttl) ==
            s.(log := s.log + [lease], issued := s.issued + [Claim(w, slot)], phases := s.phases[w := Outside])
  {
    var lease := Lease(slot, w, s.now + ttl, |s.issued|, false);
    var read := Do(s, Read(w, slot), ttl);
    assert read == s.(issued := s.issued + [Claim(w, slot)], phases := s.phases[w := Built(lease)]);
    var appended := Do(read, Append(w), ttl);
    assert appended.phases[w := Outside] == s.phases[w := Outside];
  }

  lemma AcquiredFresh(s: State, w: string, slot: Slot, ttl: int, cut: Option<Cut>, other: Slot)
    requires 0 < ttl && PhaseOf(s, w) == Outside && slot != other && StandingOf(s, w, slot) == Free
    requires cut != Some(AtRead) && cut != Some(AtAppend(false))
    ensures IsAcquisition(s, AcquireOne(s, w, slot, ttl, cut), w, slot, cut, other)
  {
    var lease := Lease(slot, w, s.now + ttl, |s.issued|, false);
    AbandonedAppend(s, w, slot, ttl);
    UncontestedAcquire(s, w, slot, ttl);
    StandingAfterAppend(s, lease, w, slot);
    StandingAfterAppend(s, lease, w, other);
    LatestAppend(s.log, lease, slot);
    LatestAppend(s.log, lease, other);
    var o := AcquireOne(s, w, slot, ttl, cut);
    assert o.state.log == s.log + [lease] && o.state.now == s.now;
    if cut == None {
      assert o.state == Acquire(s, w, slot, ttl);
    } else {
      assert o.state.held == s.held;
    }
  }

  /** What `acquireLease` leaves behind at every cut: the standing of the slot and the result follow from how
      the slot stood before, and the other slot keeps its standing. */
  lemma OneAcquisition(s: State, w: string, slot: Slot, ttl: int, cut: Option<Cut>, other: Slot)
    requires 0 < ttl && PhaseOf(s, w) == Outside && slot != other
    ensures IsAcquisition(s, AcquireOne(s, w, slot, ttl, cut), w, slot, cut, other)
  {
    if cut != Some(AtRead) {
      match StandingOf(s, w, slot)
      case Theirs =>
      case Mine => RenewedOne(s, w, slot, ttl, cut, other);
      case Free =>
        if cut != Some(AtAppend(false)) { AcquiredFresh(s, w, slot, ttl, cut, other); }
    }
  }

  lemma ReleasedIsFree(s: State, w: string, slot: Slot, ttl: int, other: Slot)
    requires HoldsReported(s, w, slot) && slot != other
    ensures var s' := Do(s, Release(w, slot), ttl);
            StandingOf(s', w, slot) == Free && StandingOf(s', w, other) == StandingOf(s, w, other)
  {
    var released := s.held[Claim(w, slot)].(expiresAt := s.now, released := true);
    LatestAppend(s.log, released, slot);
    LatestAppend(s.log, released, other);
  }

  /** From any state of the log, with the run cut at any call: the worker ends with both leases, or with none
      of the log's active leases its own, if and only if the cut is clean. */
  lemma AllOrNothingIff(s: State, w: string, task: Slot, repository: Slot, ttl: int, cut: Where)
    requires 0 < ttl && PhaseOf(s, w) == Outside && task != repository
    ensures IsAllOrNothing(AcquireBoth(s, w, task, repository, ttl, cut), w, task, repository) <==>
            IsCleanCut(StandingOf(s, w, task), StandingOf(s, w, repository), cut)
  {
    var taskCut := if cut.InTask? then Some(cut.cut) else None;
    OneAcquisition(s, w, task, ttl, taskCut, repository);
    var first := AcquireOne(s, w, task, ttl, taskCut);
    if first.result == Ok(true) {
      var repositoryCut := if cut.InRepository? then Some(cut.cut) else None;
      OneAcquisition(first.state, w, repository, ttl, repositoryCut, task);
      var second := AcquireOne(first.state, w, repository, ttl, repositoryCut);
      if second.result == Ok(false) {
        ReleasedIsFree(second.state, w, task, ttl, repository);
      }
    }
  }

  /** A worker without a lease that finds the task free keeps it, with nothing in hand to give it back, exactly
      when the run is cut after its task append landed and before it has the repository lease or its release
      has landed. */
  lemma FreshAcquisitionLeaksIff(s: State, w: string, task: Slot, repository: Slot, ttl: int, cut: Where)
    requires 0 < ttl && PhaseOf(s, w) == Outside && task != repository
    requires StandingOf(s, w, task) == Free && StandingOf(s, w, repository) != Mine
    ensures var o := AcquireBoth(s, w, task, repository, ttl, cut);
            (o.result != Ok(true) && StandingOf(o.state, w, task) == Mine) <==>
            || cut == InTask(AtAppend(true)) || cut == InTask(AtVerify)
            || cut == InRepository(AtRead)
            || (cut.InRepository? && StandingOf(s, w, repository) == Free)
            || (cut == InRelease(false) && StandingOf(s, w, repository) == Theirs)
  {
    var taskCut := if cut.InTask? then Some(cut.cut) else None;
    OneAcquisition(s, w, task, ttl, taskCut, repository);
    var first := AcquireOne(s, w, task, ttl, taskCut);
    if first.result == Ok(true) {
      var repositoryCut := if cut.InRepository? then Some(cut.cut) else None;
      OneAcquisition(first.state, w, repository, ttl, repositoryCut, task);
      var second := AcquireOne(first.state, w, repository, ttl, repositoryCut);
      if second.result == Ok(false) {
        ReleasedIsFree(second.state, w, task, ttl, repository);
      }
    }
  }

  /** Until it expires, what was left behind turns every other worker away. */
  lemma LeftLeaseTurnsAway(s: State, w: string, other: string, slot: Slot, elapsed: nat, ttl: int)
    requires StandingOf(s, w, slot) == Mine && other != w && PhaseOf(s, other) == Outside
    requires s.now + elapsed < FindActiveLease(s.log, slot, s.now).value.expiresAt
    ensures var s' := Do(s, Tick(elapsed), ttl);
            AcquireOne(s', other, slot, ttl, None) == Outcome(s', Ok(false))
  {
    assert FindActiveLease(s.log, slot, s.now + elapsed) == FindActiveLease(s.log, slot, s.now);
  }

  // ---------------------------------------------------------------------------------------------
  // Whatever the others do meanwhile
  // ---------------------------------------------------------------------------------------------

  datatype Request = Request(worker: string, task: Slot, repository: Slot, ttl: int)

  function SlotOf(q: Request, second: bool): Slot {
    if second then q.repository else q.task
  }

  /** Which call comes next: of the first acquisition or the second, or the release between. */
  datatype Stage =
    | Reading(second: bool)
    | Appending(second: bool)
    | Verifying(second: bool)
    | GivingBack
    | Ended(result: Result<bool>)

  datatype Progress = Progress(state: State, stage: Stage)

  /** The worker's next call answers, or throws with its comment landed or not; or another worker does
      anything, or time passes. */
  datatype Move = Calls | Throws(landed: bool) | Others(step: Step)

  function Gained(second: bool): Stage {
    if second then Ended(Ok(true)) else Reading(true)
  }

  function Refused(second: bool): Stage {
    if second then GivingBack else Ended(Ok(false))
  }

  /** The lookup reports the lease the worker has appended. */
  predicate Verifies(s: State, w: string) {
    var phase := PhaseOf(s, w);
    phase.Appended? &&
    var active := FindActiveLease(s.log, phase.lease.slot, s.now);
    active.Some? && active.value.token == phase.lease.token
  }

  function Call(p: Progress, q: Request): Progress {
    var w := q.worker;
    match p.stage
    case Reading(second) =>
      var read := Do(p.state, Read(w, SlotOf(q, second)), q.ttl);
      (match FindActiveLease(p.state.log, SlotOf(q, second), p.state.now)
       case None => Progress(read, Appending(second))
       case Some(l) => Progress(read, if l.worker == w then Gained(second) else Refused(second)))
    case Appending(second) => Progress(Do(p.state, Append(w), q.ttl), Verifying(second))
    case Verifying(second) =>
      Progress(Do(p.state, Verify(w), q.ttl), if Verifies(p.state, w) then Gained(second) else Refused(second))
    case GivingBack => Progress(Do(p.state, Release(w, q.task), q.ttl), Ended(Ok(false)))
    case Ended(_) => p
  }

  /** Nobody catches: the acquisition is over, and what landed stays. */
  function Throw(p: Progress, q: Request, landed: bool): Progress {
    var w := q.worker;
    match p.stage
    case Reading(second) =>
      var renews := StandingOf(p.state, w, SlotOf(q, second)) == Mine;
      var read := Do(p.state, Read(w, SlotOf(q, second)), q.ttl);
      Progress(if renews && landed then p.state.(log := read.log) else p.state, Ended(Err(Temporary)))
    case Appending(_) =>
      Progress(Do(if landed then Do(p.state, Append(w), q.ttl) else p.state, Abandon(w), q.ttl), Ended(Err(Temporary)))
    case Verifying(_) => Progress(Do(p.state, Abandon(w), q.ttl), Ended(Err(Temporary)))
    case GivingBack =>
      Progress(if landed then Do(p.state, Release(w, q.task), q.ttl) else p.state, Ended(Err(Temporary)))
    case Ended(_) => p
  }

  predicate IsOf(step: Step, w: string) {
    !step.Tick? && step.worker == w
  }

  function Advance(p: Progress, q: Request, move: Move): Progress {
    match move
    case Calls => Call(p, q)
    case Throws(landed) => Throw(p, q, landed)
    case Others(step) => if IsOf(step, q.worker) then p else p.(state := Do(p.state, step, q.ttl))
  }

  function After(s: State, q: Request, moves: seq<Move>): Progress {
    if moves == [] then Progress(s, Reading(false))
    else Advance(After(s, q, moves[..|moves| - 1]), q, moves[|moves| - 1])
  }

  // What each stage knows

  predicate LatestIsOthers(s: State, w: string, slot: Slot) {
    var latest := FindLatestLease(s.log, slot);
    latest.Some? ==> latest.value.worker != w || !IsLive(latest.value, s.now)
  }

  /** The worker's own latest comment on the slot, if it is the latest, is the lease it has appended. */
  predicate LatestIsAppended(s: State, w: string, slot: Slot) {
    var latest := FindLatestLease(s.log, slot);
    && PhaseOf(s, w).Appended? && PhaseOf(s, w).lease.slot == slot
    && (latest.Some? && latest.value.worker == w ==> latest.value == PhaseOf(s, w).lease)
  }

  predicate HasClaim(s: State, w: string, slot: Slot) {
    Claim(w, slot) in s.held
  }

  /** At every stage, for a worker that started without a repository lease. */
  ghost predicate IsOnCourse(p: Progress, q: Request) {
    var s, w := p.state, q.worker;
    && IsSound(s)
    && match p.stage
       case Reading(second) =>
         PhaseOf(s, w) == Outside && LatestIsOthers(s, w, q.repository) && (second ==> HasClaim(s, w, q.task))
       case Appending(second) =>
         && PhaseOf(s, w).Built? && PhaseOf(s, w).lease.slot == SlotOf(q, second)
         && LatestIsOthers(s, w, SlotOf(q, second)) && LatestIsOthers(s, w, q.repository)
         && (second ==> HasClaim(s, w, q.task))
       case Verifying(second) =>
         && LatestIsAppended(s, w, SlotOf(q, second))
         && (if second then HasClaim(s, w, q.task) else LatestIsOthers(s, w, q.repository))
       case GivingBack => PhaseOf(s, w) == Outside && LatestIsOthers(s, w, q.repository) && HasClaim(s, w, q.task)
       case Ended(Ok(true)) => HasClaim(s, w, q.task) && HasClaim(s, w, q.repository)
       case Ended(Ok(false)) => LatestIsOthers(s, w, q.task) && LatestIsOthers(s, w, q.repository)
       case Ended(Err(_)) => true
  }

  /** The one comment a step of another worker may append is that worker's. */
  lemma OthersAppendTheirs(s: State, step: Step, ttl: int, w: string)
    requires IsSound(s) && !IsOf(step, w)
    ensures var s' := Do(s, step, ttl);
            && PhaseOf(s', w) == PhaseOf(s, w)
            && (forall slot :: HasClaim(s', w, slot) <==> HasClaim(s, w, slot))
            && s.now <= s'.now
            && (s'.log == s.log || exists e :: s'.log == s.log + [e] && e.worker != w)
  {
    var s' := Do(s, step, ttl);
    match step
    case Read(v, slot) => LatestIsInLog(s.log, slot);
    case Append(v) => assert IsSoundPhase(s, v);
    case Renew(v, slot) => assert IsSoundClaim(s, Claim(v, slot));
    case Release(v, slot) => assert IsSoundClaim(s, Claim(v, slot));
    case _ =>
  }

  lemma OthersKeepLatest(s: State, s': State, w: string, slot: Slot)
    requires s.now <= s'.now && PhaseOf(s', w) == PhaseOf(s, w)
    requires s'.log == s.log || exists e :: s'.log == s.log + [e] && e.worker != w
    ensures LatestIsOthers(s, w, slot) ==> LatestIsOthers(s', w, slot)
    ensures LatestIsAppended(s, w, slot) ==> LatestIsAppended(s', w, slot)
  {
    if s'.log != s.log {
      var e :| s'.log == s.log + [e] && e.worker != w;
      LatestAppend(s.log, e, slot);
    }
  }

  lemma OthersStayOnCourse(p: Progress, q: Request, step: Step)
    requires 0 < q.ttl && IsOnCourse(p, q) && !IsOf(step, q.worker)
    ensures IsOnCourse(Advance(p, q, Others(step)), q)
  {
    var s' := Do(p.state, step, q.ttl);
    ActiveLeaseReportsLive();
    StepKeepsSound(p.state, step, FindActiveLease, q.ttl);
    OthersAppendTheirs(p.state, step, q.ttl, q.worker);
    OthersKeepLatest(p.state, s', q.worker, q.task);
    OthersKeepLatest(p.state, s', q.worker, q.repository);
  }

  lemma ReadStaysOnCourse(p: Progress, q: Request)
    requires 0 < q.ttl && q.task != q.repository && IsOnCourse(p, q) && p.stage.Reading?
    ensures IsOnCourse(Call(p, q), q)
  {
    var s, slot := p.state, SlotOf(q, p.stage.second);
    ActiveLeaseReportsLive();
    StepKeepsSound(s, Read(q.worker, slot), FindActiveLease, q.ttl);
    LatestIsInLog(s.log, slot);
    var active := FindActiveLease(s.log, slot, s.now);
    if active.Some? && active.value.worker == q.worker {
      LatestAppend(s.log, active.value.(expiresAt := s.now + q.ttl), q.repository);
    }
  }

  lemma AppendStaysOnCourse(p: Progress, q: Request)
    requires 0 < q.ttl && q.task != q.repository && IsOnCourse(p, q) && p.stage.Appending?
    ensures IsOnCourse(Call(p, q), q)
  {
    var s, lease := p.state, PhaseOf(p.state, q.worker).lease;
    ActiveLeaseReportsLive();
    StepKeepsSound(s, Append(q.worker), FindActiveLease, q.ttl);
    LatestAppend(s.log, lease, q.task);
    LatestAppend(s.log, lease, q.repository);
  }

  lemma VerifyStaysOnCourse(p: Progress, q: Request)
    requires 0 < q.ttl && q.task != q.repository && IsOnCourse(p, q) && p.stage.Verifying?
    ensures IsOnCourse(Call(p, q), q)
  {
    ActiveLeaseReportsLive();
    StepKeepsSound(p.state, Verify(q.worker), FindActiveLease, q.ttl);
  }

  lemma ReleaseStaysOnCourse(p: Progress, q: Request)
    requires 0 < q.ttl && q.task != q.repository && IsOnCourse(p, q) && p.stage.GivingBack?
    ensures IsOnCourse(Call(p, q), q)
  {
    var s := p.state;
    ActiveLeaseReportsLive();
    StepKeepsSound(s, Release(q.worker, q.task), FindActiveLease, q.ttl);
    assert IsSoundClaim(s, Claim(q.worker, q.task));
    var released := s.held[Claim(q.worker, q.task)].(expiresAt := s.now, released := true);
    LatestAppend(s.log, released, q.task);
    LatestAppend(s.log, released, q.repository);
  }

  /** A renewal whose comment landed and whose call then threw. */
  lemma LandedRenewalIsSound(s: State, w: string, slot: Slot, ttl: int)
    requires IsSound(s) && PhaseOf(s, w) == Outside && StandingOf(s, w, slot) == Mine
    ensures IsSound(s.(log := Do(s, Read(w, slot), ttl).log))
  {
    LatestIsInLog(s.log, slot);
    var s' := s.(log := Do(s, Read(w, slot), ttl).log);
    forall v ensures IsSoundPhase(s', v) {
      assert IsSoundPhase(s, v);
    }
    forall c ensures IsSoundClaim(s', c) {
      assert IsSoundClaim(s, c);
    }
  }

  lemma ThrowStaysOnCourse(p: Progress, q: Request, landed: bool)
    requires 0 < q.ttl && IsOnCourse(p, q)
    ensures IsOnCourse(Throw(p, q, landed), q)
  {
    var s, w := p.state, q.worker;
    ActiveLeaseReportsLive();
    match p.stage
    case Reading(second) =>
      if StandingOf(s, w, SlotOf(q, second)) == Mine { LandedRenewalIsSound(s, w, SlotOf(q, second), q.ttl); }
    case Appending(_) =>
      var s1 := if landed then Do(s, Append(w), q.ttl) else s;
      StepKeepsSound(s, Append(w), FindActiveLease, q.ttl);
      StepKeepsSound(s1, Abandon(w), FindActiveLease, q.ttl);
    case Verifying(_) => StepKeepsSound(s, Abandon(w), FindActiveLease, q.ttl);
    case GivingBack => StepKeepsSound(s, Release(w, q.task), FindActiveLease, q.ttl);
    case Ended(_) =>
  }

  lemma {:induction false} StaysOnCourse(s: State, q: Request, moves: seq<Move>)
    requires 0 < q.ttl && q.task != q.repository && IsSound(s) && PhaseOf(s, q.worker) == Outside
    requires StandingOf(s, q.worker, q.repository) != Mine
    ensures IsOnCourse(After(s, q, moves), q)
  {
    if moves != [] {
      var n := |moves| - 1;
      StaysOnCourse(s, q, moves[..n]);
      var p := After(s, q, moves[..n]);
      match moves[n]
      case Throws(landed) => ThrowStaysOnCourse(p, q, landed);
      case Others(step) => if !IsOf(step, q.worker) { OthersStayOnCourse(p, q, step); }
      case Calls =>
        match p.stage
        case Reading(_) => ReadStaysOnCourse(p, q);
        case Appending(_) => AppendStaysOnCourse(p, q);
        case Verifying(_) => VerifyStaysOnCourse(p, q);
        case GivingBack => ReleaseStaysOnCourse(p, q);
        case Ended(_) =>
    }
  }

  /** The comment that one log has on the slot and the one before it has not. */
  function LandedIn(before: seq<Lease>, after: seq<Lease>, slot: Slot): Option<Lease> {
    if |before| < |after| && after[|before|].slot == slot then Some(after[|before|]) else None
  }

  ghost predicate IsOneMore(before: seq<Lease>, after: seq<Lease>) {
    after == before || exists e :: after == before + [e]
  }

  lemma LandedIsLatest(before: seq<Lease>, after: seq<Lease>, slot: Slot)
    requires IsOneMore(before, after)
    ensures FindLatestLease(after, slot) ==
            if LandedIn(before, after, slot).Some? then LandedIn(before, after, slot) else FindLatestLease(before, slot)
  {
    if after != before {
      var e :| after == before + [e];
      LatestAppend(before, e, slot);
    }
  }

  /** The log before the first move and after every move. */
  function Logs(s: State, q: Request, moves: seq<Move>): (r: seq<seq<Lease>>)
    ensures |r| == |moves| + 1
  {
    seq(|moves| + 1, k requires 0 <= k <= |moves| => After(s, q, moves[..k]).state.log)
  }

  /** Move `j` is the last to add a comment to the slot. */
  ghost predicate IsLastToLand(logs: seq<seq<Lease>>, slot: Slot, j: nat) {
    && j + 1 < |logs| && LandedIn(logs[j], logs[j + 1], slot).Some?
    && forall k :: j < k < |logs| - 1 ==> LandedIn(logs[k], logs[k + 1], slot).None?
  }

  /** With move `j` the worker added a lease to the slot that nobody has commented on since, and it has not
      expired. */
  ghost predicate IsLeftBy(s: State, q: Request, moves: seq<Move>, slot: Slot, j: nat) {
    var logs := Logs(s, q, moves);
    && IsLastToLand(logs, slot, j)
    && var l := LandedIn(logs[j], logs[j + 1], slot).value;
       l.worker == q.worker && IsLive(l, After(s, q, moves).state.now)
  }

  ghost predicate IsLeft(s: State, q: Request, moves: seq<Move>, slot: Slot) {
    exists j: nat :: IsLeftBy(s, q, moves, slot, j)
  }

  lemma NothingMoreLands(logs: seq<seq<Lease>>, slot: Slot, j: nat)
    requires |logs| > 1 && LandedIn(logs[|logs| - 2], logs[|logs| - 1], slot).None?
    ensures IsLastToLand(logs, slot, j) <==> IsLastToLand(logs[..|logs| - 1], slot, j)
  {
    var init := logs[..|logs| - 1];
    assert forall k :: 0 <= k < |init| ==> init[k] == logs[k];
  }

  /** The latest comment of the slot is the last one added, or else the one there was. */
  lemma {:induction false} LatestIsLastLanded(logs: seq<seq<Lease>>, slot: Slot)
    requires logs != [] && forall k :: 0 <= k < |logs| - 1 ==> IsOneMore(logs[k], logs[k + 1])
    ensures var latest := FindLatestLease(logs[|logs| - 1], slot);
            || (exists j: nat :: IsLastToLand(logs, slot, j) && latest == LandedIn(logs[j], logs[j + 1], slot))
            || (latest == FindLatestLease(logs[0], slot) && forall j: nat :: !IsLastToLand(logs, slot, j))
  {
    if |logs| > 1 {
      var n := |logs| - 1;
      var init := logs[..n];
      LatestIsLastLanded(init, slot);
      LandedIsLatest(logs[n - 1], logs[n], slot);
      if LandedIn(logs[n - 1], logs[n], slot).Some? {
        assert IsLastToLand(logs, slot, n - 1);
      } else {
        forall j: nat ensures IsLastToLand(logs, slot, j) <==> IsLastToLand(init, slot, j) {
          NothingMoreLands(logs, slot, j);
        }
      }
    }
  }

  lemma AdvanceAppends(p: Progress, q: Request, move: Move)
    ensures var p' := Advance(p, q, move);
            && p.state.now <= p'.state.now
            && IsOneMore(p.state.log, p'.state.log)
  {
    match move
    case Calls => CallAppends(p, q);
    case Throws(landed) => ThrowAppends(p, q, landed);
    case Others(step) => StepAppends(p.state, step, q.ttl);
  }

  lemma StepAppends(s: State, step: Step, ttl: int)
    ensures s.now <= Do(s, step, ttl).now && IsOneMore(s.log, Do(s, step, ttl).log)
  {
  }

  lemma CallAppends(p: Progress, q: Request)
    ensures p.state.now <= Call(p, q).state.now && IsOneMore(p.state.log, Call(p, q).state.log)
  {
    match p.stage
    case Reading(second) => StepAppends(p.state, Read(q.worker, SlotOf(q, second)), q.ttl);
    case Appending(_) => StepAppends(p.state, Append(q.worker), q.ttl);
    case Verifying(_) => StepAppends(p.state, Verify(q.worker), q.ttl);
    case GivingBack => StepAppends(p.state, Release(q.worker, q.task), q.ttl);
    case Ended(_) =>
  }

  lemma ThrowAppends(p: Progress, q: Request, landed: bool)
    ensures p.state.now <= Throw(p, q, landed).state.now && IsOneMore(p.state.log, Throw(p, q, landed).state.log)
  {
    match p.stage
    case Reading(second) => StepAppends(p.state, Read(q.worker, SlotOf(q, second)), q.ttl);
    case Appending(_) => StepAppends(p.state, Append(q.worker), q.ttl);
    case GivingBack => StepAppends(p.state, Release(q.worker, q.task), q.ttl);
    case _ =>
  }

  lemma MoveAppends(s: State, q: Request, moves: seq<Move>, k: nat)
    requires k < |moves|
    ensures IsOneMore(After(s, q, moves[..k]).state.log, After(s, q, moves[..k + 1]).state.log)
  {
    assert moves[..k + 1][..k] == moves[..k];
    AdvanceAppends(After(s, q, moves[..k]), q, moves[k]);
  }

  lemma {:induction false} TimePasses(s: State, q: Request, moves: seq<Move>)
    ensures s.now <= After(s, q, moves).state.now
  {
    if moves != [] {
      TimePasses(s, q, moves[..|moves| - 1]);
      AdvanceAppends(After(s, q, moves[..|moves| - 1]), q, moves[|moves| - 1]);
    }
  }

  /** What the log shows of a slot as the worker's, at any time of any interleaving, is what one of its calls
      left there. */
  lemma MineIffLeft(s: State, q: Request, moves: seq<Move>, slot: Slot)
    requires StandingOf(s, q.worker, slot) != Mine
    ensures StandingOf(After(s, q, moves).state, q.worker, slot) == Mine <==> IsLeft(s, q, moves, slot)
  {
    var logs, end := Logs(s, q, moves), After(s, q, moves).state;
    assert moves[..|moves|] == moves && logs[|moves|] == end.log && logs[0] == s.log;
    forall k | 0 <= k < |moves| ensures IsOneMore(logs[k], logs[k + 1]) {
      MoveAppends(s, q, moves, k);
    }
    TimePasses(s, q, moves);
    LatestIsLastLanded(logs, slot);
    if j: nat :| IsLastToLand(logs, slot, j) && FindLatestLease(end.log, slot) == LandedIn(logs[j], logs[j + 1], slot) {
      assert StandingOf(end, q.worker, slot) == Mine <==> IsLeftBy(s, q, moves, slot, j);
      forall k: nat | IsLastToLand(logs, slot, k) ensures k == j {
      }
    }
  }

  /** For every interleaving of the acquisition with any steps of others and any time, cut anywhere or not: a
      refusal leaves nothing; a grant is both exactly while both leases are left undisturbed; and an exception
      leaves nothing exactly when neither lease was left. */
  lemma AllOrNothingWhateverOthersDo(s: State, q: Request, moves: seq<Move>, result: Result<bool>)
    requires 0 < q.ttl && q.task != q.repository && IsSound(s) && PhaseOf(s, q.worker) == Outside
    requires StandingOf(s, q.worker, q.task) != Mine && StandingOf(s, q.worker, q.repository) != Mine
    requires After(s, q, moves).stage == Ended(result)
    ensures IsAllOrNothing(Outcome(After(s, q, moves).state, result), q.worker, q.task, q.repository) <==>
            match result
            case Ok(false) => true
            case Ok(true) => IsLeft(s, q, moves, q.task) && IsLeft(s, q, moves, q.repository)
            case Err(_) => !IsLeft(s, q, moves, q.task) && !IsLeft(s, q, moves, q.repository)
    ensures result == Ok(true) ==>
              var s' := After(s, q, moves).state; HasClaim(s', q.worker, q.task) && HasClaim(s', q.worker, q.repository)
  {
    StaysOnCourse(s, q, moves);
    MineIffLeft(s, q, moves, q.task);
    MineIffLeft(s, q, moves, q.repository);
  }

  lemma LandsItself(p: Progress, q: Request, move: Move, slot: Slot)
    requires IsOnCourse(p, q)
    requires var e := LandedIn(p.state.log, Advance(p, q, move).state.log, slot);
             e.Some? && e.value.worker == q.worker && !e.value.released
    ensures !move.Others? && (move.Throws? ==> move.landed)
    ensures (p.stage.Reading? || p.stage.Appending?) && SlotOf(q, p.stage.second) == slot
  {
    if p.stage.Reading? { LatestIsInLog(p.state.log, SlotOf(q, p.stage.second)); }
    if move.Others? && !IsOf(move.step, q.worker) {
      OthersAppendTheirs(p.state, move.step, q.ttl, q.worker);
      assert false;
    }
  }

  /** Whoever is left a lease left it itself: with a call, or with one that threw after its comment landed. */
  lemma LeftByItself(s: State, q: Request, moves: seq<Move>, slot: Slot, j: nat)
    requires 0 < q.ttl && q.task != q.repository && IsSound(s) && PhaseOf(s, q.worker) == Outside
    requires StandingOf(s, q.worker, q.repository) != Mine && IsLeftBy(s, q, moves, slot, j)
    ensures !moves[j].Others? && (moves[j].Throws? ==> moves[j].landed)
    ensures var stage := After(s, q, moves[..j]).stage;
            (stage.Reading? || stage.Appending?) && SlotOf(q, stage.second) == slot
  {
    StaysOnCourse(s, q, moves[..j]);
    assert moves[..j + 1][..j] == moves[..j];
    LandsItself(After(s, q, moves[..j]), q, moves[j], slot);
  }

  // The acquisition nobody interferes with is one of these runs

  function StageAfter(result: Result<bool>, second: bool): Stage {
    match result
    case Err(e) => Ended(Err(e))
    case Ok(gained) => if gained then Gained(second) else Refused(second)
  }

  ghost predicate IsUndisturbed(moves: seq<Move>) {
    forall m :: m in moves ==> !m.Others?
  }

  lemma OneMore(s: State, q: Request, moves: seq<Move>, m: Move)
    ensures After(s, q, moves + [m]) == Advance(After(s, q, moves), q, m)
  {
    assert (moves + [m])[..|moves|] == moves;
  }

  /** A fresh acquisition that nobody interferes with is verified. */
  lemma FreshIsVerified(s: State, w: string, slot: Slot, ttl: int)
    requires 0 < ttl && PhaseOf(s, w) == Outside && StandingOf(s, w, slot) == Free
    ensures var read := Do(s, Read(w, slot), ttl);
            var appended := Do(read, Append(w), ttl);
            && PhaseOf(read, w).Built? && Verifies(appended, w)
            && StandingOf(Do(appended, Verify(w), ttl), w, slot) == Mine
  {
    var lease := Lease(slot, w, s.now + ttl, |s.issued|, false);
    var read := Do(s, Read(w, slot), ttl);
    assert PhaseOf(read, w) == Built(lease);
    OwnEntryIsActive(s.log, lease, s.now);
  }

  /** The calls of a fresh acquisition from its read on, as `AcquireOne` makes them. */
  lemma FreshCalls(p: Progress, q: Request, second: bool)
    requires 0 < q.ttl && p.stage == Reading(second) && PhaseOf(p.state, q.worker) == Outside
    requires StandingOf(p.state, q.worker, SlotOf(q, second)) == Free
    ensures var read := Do(p.state, Read(q.worker, SlotOf(q, second)), q.ttl);
            var appended := Do(read, Append(q.worker), q.ttl);
            && Call(p, q) == Progress(read, Appending(second))
            && Call(Progress(read, Appending(second)), q) == Progress(appended, Verifying(second))
            && Call(Progress(appended, Verifying(second)), q)
               == Progress(Do(appended, Verify(q.worker), q.ttl), Gained(second))
  {
    FreshIsVerified(p.state, q.worker, SlotOf(q, second), q.ttl);
  }

  /** What `AcquireOne` makes of a free slot. */
  lemma FreshOutcome(s: State, w: string, slot: Slot, ttl: int, cut: Option<Cut>)
    requires 0 < ttl && PhaseOf(s, w) == Outside && StandingOf(s, w, slot) == Free && cut != Some(AtRead)
    ensures var read := Do(s, Read(w, slot), ttl);
            var appended := Do(read, Append(w), ttl);
            AcquireOne(s, w, slot, ttl, cut) ==
            match cut
            case Some(AtAppend(landed)) => Outcome(Do(if landed then appended else read, Abandon(w), ttl), Err(Temporary))
            case Some(AtVerify) => Outcome(Do(appended, Abandon(w), ttl), Err(Temporary))
            case _ => Outcome(Do(appended, Verify(w), ttl), Ok(true))
  {
    FreshIsVerified(s, w, slot, ttl);
  }

  lemma FreshAppendThrows(s: State, q: Request, moves: seq<Move>, second: bool, landed: bool)
    requires 0 < q.ttl && After(s, q, moves).stage == Reading(second)
    requires PhaseOf(After(s, q, moves).state, q.worker) == Outside
    requires StandingOf(After(s, q, moves).state, q.worker, SlotOf(q, second)) == Free
    ensures var o := AcquireOne(After(s, q, moves).state, q.worker, SlotOf(q, second), q.ttl, Some(AtAppend(landed)));
            After(s, q, moves + [Calls] + [Throws(landed)]) == Progress(o.state, StageAfter(o.result, second))
  {
    FreshCalls(After(s, q, moves), q, second);
    OneMore(s, q, moves, Calls);
    OneMore(s, q, moves + [Calls], Throws(landed));
    FreshOutcome(After(s, q, moves).state, q.worker, SlotOf(q, second), q.ttl, Some(AtAppend(landed)));
  }

  /** The read, the append and the verification, which may throw. */
  lemma FreshVerifies(s: State, q: Request, moves: seq<Move>, second: bool, cut: Option<Cut>)
    requires 0 < q.ttl && After(s, q, moves).stage == Reading(second) && (cut == None || cut == Some(AtVerify))
    requires PhaseOf(After(s, q, moves).state, q.worker) == Outside
    requires StandingOf(After(s, q, moves).state, q.worker, SlotOf(q, second)) == Free
    ensures var o := AcquireOne(After(s, q, moves).state, q.worker, SlotOf(q, second), q.ttl, cut);
            After(s, q, moves + [Calls] + [Calls] + [if cut == None then Calls else Throws(false)])
            == Progress(o.state, StageAfter(o.result, second))
  {
    FreshCalls(After(s, q, moves), q, second);
    OneMore(s, q, moves, Calls);
    OneMore(s, q, moves + [Calls], Calls);
    OneMore(s, q, moves + [Calls] + [Calls], if cut == None then Calls else Throws(false));
    FreshOutcome(After(s, q, moves).state, q.worker, SlotOf(q, second), q.ttl, cut);
  }

  lemma OneIsARun(s: State, q: Request, moves: seq<Move>, second: bool, cut: Option<Cut>) returns (more: seq<Move>)
    requires 0 < q.ttl && IsUndisturbed(moves) && After(s, q, moves).stage == Reading(second)
    requires PhaseOf(After(s, q, moves).state, q.worker) == Outside
    ensures IsUndisturbed(more)
    ensures var o := AcquireOne(After(s, q, moves).state, q.worker, SlotOf(q, second), q.ttl, cut);
            After(s, q, more) == Progress(o.state, StageAfter(o.result, second))
  {
    var standing := StandingOf(After(s, q, moves).state, q.worker, SlotOf(q, second));
    if cut != Some(AtRead) && standing == Free {
      if cut.Some? && cut.value.AtAppend? {
        FreshAppendThrows(s, q, moves, second, cut.value.landed);
        more := moves + [Calls] + [Throws(cut.value.landed)];
      } else {
        FreshVerifies(s, q, moves, second, cut);
        more := moves + [Calls] + [Calls] + [if cut == None then Calls else Throws(false)];
      }
    } else {
      var m := if cut == Some(AtRead) then Throws(false)
               else if standing == Mine && cut.Some? && cut.value.AtAppend? then Throws(cut.value.landed)
               else Calls;
      OneMore(s, q, moves, m);
      more := moves + [m];
    }
  }

  /** `AcquireBoth`, cut anywhere, is an interleaving in which the others do nothing. */
  lemma BothIsARun(s: State, q: Request, cut: Where) returns (moves: seq<Move>)
    requires 0 < q.ttl && q.task != q.repository && PhaseOf(s, q.worker) == Outside
    ensures IsUndisturbed(moves)
    ensures var o := AcquireBoth(s, q.worker, q.task, q.repository, q.ttl, cut);
            After(s, q, moves) == Progress(o.state, Ended(o.result))
  {
    var taskCut := if cut.InTask? then Some(cut.cut) else None;
    OneAcquisition(s, q.worker, q.task, q.ttl, taskCut, q.repository);
    moves := OneIsARun(s, q, [], false, taskCut);
    var first := AcquireOne(s, q.worker, q.task, q.ttl, taskCut);
    if first.result == Ok(true) {
      var repositoryCut := if cut.InRepository? then Some(cut.cut) else None;
      OneAcquisition(first.state, q.worker, q.repository, q.ttl, repositoryCut, q.task);
      moves := OneIsARun(s, q, moves, true, repositoryCut);
      if AcquireOne(first.state, q.worker, q.repository, q.ttl, repositoryCut).result == Ok(false) {
        var last := if cut.InRelease? then Throws(cut.landed) else Calls;
        OneMore(s, q, moves, last);
        moves := moves + [last];
      }
    }
  }

  /** A renewal may still be in flight when its lease is released. If its comment comes first the slot is free
      afterwards; if it comes after the release, the lease is active again, with nobody left to give it back. */
  lemma LateRenewalRevives(log: seq<Lease>, lease: Lease, now: int, ttl: int)
    requires 0 < ttl && FindActiveLease(log, lease.slot, now) == Some(lease)
    ensures var renewed := lease.(expiresAt := now + ttl);
            var released := lease.(expiresAt := now, released := true);
            && FindActiveLease(log + [renewed] + [released], lease.slot, now) == None
            && FindActiveLease(log + [released] + [renewed], lease.slot, now) == Some(renewed)
  {
    var renewed := lease.(expiresAt := now + ttl);
    var released := lease.(expiresAt := now, released := true);
    LatestAppend(log + [renewed], released, lease.slot);
    LatestAppend(log + [released], renewed, lease.slot);
  }
}
