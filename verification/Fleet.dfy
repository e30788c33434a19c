/** src/domain/fleetOrchestrator.ts: one cycle over many repositories. The tracker does not change while the
    candidates are collected; what it answers, and who grants a lease, are parameters. */
module Fleet {
  import opened Common
  import opened Text
  import opened Sorting
  import opened PriorityQueue

  datatype Profile = Profile(name: string, leasePath: string, queues: seq<string>, tags: seq<string>)

  datatype RepositoryLease = RepositoryLease(key: string, worker: string, issueKey: string)

  /** What the tracker says of an issue, its comments included. */
  datatype Facts = Facts(
    issue: QueuedIssue,
    queue: Option<string>,
    isOpen: bool,
    dependenciesDone: bool,
    confidence: Option<real>,
    taskLeaseHolder: Option<string>,          // the worker of the active task lease
    repositoryLease: Option<RepositoryLease>) // the active repository lease in its comments

  datatype Tracker = Tracker(
    find: (string, string, string) -> seq<string>,  // repository, queue, tag: the keys listed
    facts: (string, string) -> Facts)               // repository, key

  datatype Candidate = Candidate(profile: Profile, key: string)

  datatype Outcome = Run(candidate: ScoredCandidate) | Idle | Waiting

  /** A field and its value after trimming, without case. */
  function Normal(s: string): string {
    Lower(Trim(s))
  }

  function QueueFromIssue(f: Facts): string {
    if f.queue.Some? && Trim(f.queue.value) != "" then Trim(f.queue.value) else BeforeDash(f.issue.key)
  }

  predicate Intersects(left: seq<string>, right: seq<string>) {
    left == [] || exists l, r :: l in left && r in right && Normal(l) == Normal(r)
  }

  predicate RepositoryMatchesIssue(profile: Profile, f: Facts) {
    && (exists q :: q in profile.queues && Normal(q) == Lower(QueueFromIssue(f)))
    && Intersects(f.issue.tags, profile.tags)
  }

  /** The queue of an issue: the one given, or else what its key has before the first dash. */
  predicate IsQueueOf(queue: string, f: Facts) {
    if f.queue.Some? && Trim(f.queue.value) != "" then queue == Trim(f.queue.value)
    else
      && queue <= f.issue.key && '-' !in queue
      && (|queue| < |f.issue.key| ==> f.issue.key[|queue|] == '-')
  }

  /** The repository serves the queue of the issue, and one of its tags, if it has any; case and padding aside. */
  ghost predicate Serves(profile: Profile, f: Facts) {
    ServesQueue(profile, f) && ServesTags(profile, f)
  }

  lemma QueueIsOnlyOne(queue: string, f: Facts)
    ensures IsQueueOf(queue, f) <==> queue == QueueFromIssue(f)
  {
    BeforeDashEnds(f.issue.key);
    if IsQueueOf(queue, f) && !(f.queue.Some? && Trim(f.queue.value) != "") {
      OnlyBeforeDash(queue, f.issue.key);
    }
  }

  ghost predicate ServesQueue(profile: Profile, f: Facts) {
    exists q, queue :: q in profile.queues && IsQueueOf(queue, f) && Lower(Trim(q)) == Lower(queue)
  }

  ghost predicate ServesTags(profile: Profile, f: Facts) {
    f.issue.tags != [] ==>
      exists l, r :: l in f.issue.tags && r in profile.tags && Lower(Trim(l)) == Lower(Trim(r))
  }

  lemma QueueMatchesIff(profile: Profile, f: Facts)
    ensures ServesQueue(profile, f) <==> exists q :: q in profile.queues && Normal(q) == Lower(QueueFromIssue(f))
  {
    var own := QueueFromIssue(f);
    QueueIsOnlyOne(own, f);
    if ServesQueue(profile, f) {
      var q, queue :| q in profile.queues && IsQueueOf(queue, f) && Lower(Trim(q)) == Lower(queue);
      QueueIsOnlyOne(queue, f);
      assert q in profile.queues && Normal(q) == Lower(own);
    }
  }

  lemma TagsMatchIff(profile: Profile, f: Facts)
    ensures ServesTags(profile, f) <==> Intersects(f.issue.tags, profile.tags)
  {
    if Intersects(f.issue.tags, profile.tags) && f.issue.tags != [] {
      var l, r :| l in f.issue.tags && r in profile.tags && Normal(l) == Normal(r);
      assert Lower(Trim(l)) == Lower(Trim(r));
    }
    if ServesTags(profile, f) && f.issue.tags != [] {
      var l, r :| l in f.issue.tags && r in profile.tags && Lower(Trim(l)) == Lower(Trim(r));
      assert Normal(l) == Normal(r);
    }
  }

  lemma MatchesIffServes(profile: Profile, f: Facts)
    ensures RepositoryMatchesIssue(profile, f) <==> Serves(profile, f)
  {
    QueueMatchesIff(profile, f);
    TagsMatchIff(profile, f);
  }

  /** An issue a cycle of `worker` may take for a repository. */
  ghost predicate IsTakeable(profile: Profile, f: Facts, worker: string, leasesInComments: bool) {
    && Serves(profile, f)
    && (leasesInComments && f.taskLeaseHolder.Some? ==> f.taskLeaseHolder.value == worker)
    && f.isOpen
    && f.dependenciesDone
  }

  /** A listing of one of the queues and one of the tags shows the issue. */
  ghost predicate IsListed(tracker: Tracker, profile: Profile, key: string) {
    exists q, t :: q in profile.queues && t in profile.tags && key in tracker.find(profile.name, q, t)
  }

  ghost predicate HaveDistinctNames(profiles: seq<Profile>) {
    forall i, j :: 0 <= i < j < |profiles| ==> profiles[i].name != profiles[j].name
  }

  predicate IsRepositoryAvailable(c: Candidate, leases: map<string, RepositoryLease>, worker: string) {
    var key := "repo:" + c.profile.leasePath;
    key !in leases || leases[key].worker == worker || leases[key].issueKey == c.key
  }

  /** Another worker holds the repository, if anybody does, only for this very issue. */
  ghost predicate IsFree(c: Candidate, leases: map<string, RepositoryLease>, worker: string) {
    forall l :: l in leases.Items && l.0 == "repo:" + c.profile.leasePath && l.1.worker != worker ==> l.1.issueKey == c.key
  }

  lemma AvailableIffFree(c: Candidate, leases: map<string, RepositoryLease>, worker: string)
    ensures IsRepositoryAvailable(c, leases, worker) <==> IsFree(c, leases, worker)
  {
    var key := "repo:" + c.profile.leasePath;
    assert key in leases ==> (key, leases[key]) in leases.Items;
  }

  // ---------------------------------------------------------------------------------------------
  // What the listings show, in order
  // ---------------------------------------------------------------------------------------------

  function CandidatesOf(profile: Profile, keys: seq<string>): seq<Candidate> {
    if keys == [] then [] else CandidatesOf(profile, keys[..|keys| - 1]) + [Candidate(profile, keys[|keys| - 1])]
  }

  lemma {:induction false} InCandidatesOf(profile: Profile, keys: seq<string>, c: Candidate)
    ensures c in CandidatesOf(profile, keys) <==> c.profile == profile && c.key in keys
  {
    if keys != [] {
      var n := |keys| - 1;
      InCandidatesOf(profile, keys[..n], c);
      assert keys == keys[..n] + [keys[n]];
    }
  }

  function ListedForTags(tracker: Tracker, profile: Profile, queue: string, tags: seq<string>): seq<Candidate> {
    if tags == [] then []
    else
      var n := |tags| - 1;
      ListedForTags(tracker, profile, queue, tags[..n]) + CandidatesOf(profile, tracker.find(profile.name, queue, tags[n]))
  }

  function ListedForQueues(tracker: Tracker, profile: Profile, queues: seq<string>): seq<Candidate> {
    if queues == [] then []
    else
      var n := |queues| - 1;
      ListedForQueues(tracker, profile, queues[..n]) + ListedForTags(tracker, profile, queues[n], profile.tags)
  }

  /** Every issue the listings of these repositories show, in order, as often as they show it. */
  function Listed(tracker: Tracker, profiles: seq<Profile>): seq<Candidate> {
    if profiles == [] then []
    else
      var n := |profiles| - 1;
      Listed(tracker, profiles[..n]) + ListedForQueues(tracker, profiles[n], profiles[n].queues)
  }

  lemma TagsStep(tracker: Tracker, profile: Profile, queue: string, i: nat)
    requires i < |profile.tags|
    ensures ListedForTags(tracker, profile, queue, profile.tags[..i + 1]) ==
            ListedForTags(tracker, profile, queue, profile.tags[..i])
            + CandidatesOf(profile, tracker.find(profile.name, queue, profile.tags[i]))
  {
    assert profile.tags[..i + 1][..i] == profile.tags[..i];
  }

  lemma QueuesStep(tracker: Tracker, profile: Profile, i: nat)
    requires i < |profile.queues|
    ensures ListedForQueues(tracker, profile, profile.queues[..i + 1]) ==
            ListedForQueues(tracker, profile, profile.queues[..i])
            + ListedForTags(tracker, profile, profile.queues[i], profile.tags)
  {
    assert profile.queues[..i + 1][..i] == profile.queues[..i];
  }

  lemma {:induction false} InListedForTags(tracker: Tracker, profile: Profile, queue: string, tags: seq<string>, c: Candidate)
    ensures c in ListedForTags(tracker, profile, queue, tags) <==>
            c.profile == profile && exists t :: t in tags && c.key in tracker.find(profile.name, queue, t)
  {
    if tags != [] {
      var n := |tags| - 1;
      InListedForTags(tracker, profile, queue, tags[..n], c);
      assert tags == tags[..n] + [tags[n]];
      InCandidatesOf(profile, tracker.find(profile.name, queue, tags[n]), c);
    }
  }

  lemma {:induction false} InListedForQueues(tracker: Tracker, profile: Profile, queues: seq<string>, c: Candidate)
    ensures c in ListedForQueues(tracker, profile, queues) <==>
            c.profile == profile
            && exists q, t :: q in queues && t in profile.tags && c.key in tracker.find(profile.name, q, t)
  {
    if queues != [] {
      var n := |queues| - 1;
      InListedForQueues(tracker, profile, queues[..n], c);
      InListedForTags(tracker, profile, queues[n], profile.tags, c);
      assert queues == queues[..n] + [queues[n]];
    }
  }

  lemma {:induction false} InListed(tracker: Tracker, profiles: seq<Profile>, c: Candidate)
    ensures c in Listed(tracker, profiles) <==> c.profile in profiles && IsListed(tracker, c.profile, c.key)
  {
    if profiles != [] {
      var n := |profiles| - 1;
      InListed(tracker, profiles[..n], c);
      InListedForQueues(tracker, profiles[n], profiles[n].queues, c);
      assert profiles == profiles[..n] + [profiles[n]];
    }
  }

  /** `name:key` of every issue. */
  function NamesOf(cs: seq<Candidate>): set<(string, string)> {
    set c | c in cs :: (c.profile.name, c.key)
  }

  /** The profiles a name was listed for. */
  ghost function ProfilesOf(cs: seq<Candidate>, name: string): set<Profile> {
    set c | c in cs && c.profile.name == name :: c.profile
  }

  lemma NamesAppend(cs: seq<Candidate>, profile: Profile, key: string)
    requires ProfilesOf(cs, profile.name) <= {profile}
    ensures var c := Candidate(profile, key);
            && NamesOf(cs + [c]) == NamesOf(cs) + {(profile.name, key)}
            && ProfilesOf(cs + [c], profile.name) <= {profile}
            && ((profile.name, key) in NamesOf(cs) <==> c in cs)
  {
    var c := Candidate(profile, key);
    assert forall d :: d in cs + [c] <==> d in cs || d == c;
    assert (profile.name, key) in NamesOf(cs) ==> c in cs by {
      if (profile.name, key) in NamesOf(cs) {
        var d :| d in cs && d.profile.name == profile.name && d.key == key;
        assert d.profile in ProfilesOf(cs, profile.name);
      }
    }
  }

  ghost function TakeableIn(tracker: Tracker, worker: string, leasesInComments: bool): Candidate -> bool {
    (c: Candidate) => IsTakeable(c.profile, tracker.facts(c.profile.name, c.key), worker, leasesInComments)
  }

  function TakeableAmong(cs: seq<Candidate>, takes: Candidate -> bool): set<Candidate> {
    set c | c in cs && takes(c)
  }

  lemma TakeableAppend(cs: seq<Candidate>, c: Candidate, takes: Candidate -> bool)
    ensures var before := TakeableAmong(cs, takes);
            && TakeableAmong(cs + [c], takes) == (if takes(c) then before + {c} else before)
            && (c in cs ==> TakeableAmong(cs + [c], takes) == before)
            && (c !in cs ==> c !in before)
  {
    assert forall d :: d in cs + [c] <==> d in cs || d == c;
  }

  /** The repository leases a list of issues shows, a later one replacing an earlier one under its key. */
  function LeasesOf(cs: seq<Candidate>, leaseOf: Candidate -> Option<RepositoryLease>): map<string, RepositoryLease> {
    if cs == [] then map[]
    else
      var before := LeasesOf(cs[..|cs| - 1], leaseOf);
      match leaseOf(cs[|cs| - 1])
      case Some(l) => before[l.key := l]
      case None => before
  }

  predicate ShowsLease(lease: Option<RepositoryLease>, key: string) {
    lease.Some? && lease.value.key == key
  }

  /** Issue `i` is the last of the list to show a lease under the key. */
  ghost predicate IsLastToShow(cs: seq<Candidate>, leaseOf: Candidate -> Option<RepositoryLease>, key: string, i: nat) {
    && i < |cs| && ShowsLease(leaseOf(cs[i]), key)
    && forall j :: i < j < |cs| ==> !ShowsLease(leaseOf(cs[j]), key)
  }

  /** The lease of a key is the one shown last, and there is none exactly when none is shown. */
  lemma {:induction false} LastShownDecides(cs: seq<Candidate>, leaseOf: Candidate -> Option<RepositoryLease>, key: string)
    ensures key in LeasesOf(cs, leaseOf) <==> exists i: nat :: IsLastToShow(cs, leaseOf, key, i)
    ensures forall i: nat :: IsLastToShow(cs, leaseOf, key, i) ==>
              key in LeasesOf(cs, leaseOf) && Some(LeasesOf(cs, leaseOf)[key]) == leaseOf(cs[i])
  {
    if cs != [] {
      var n := |cs| - 1;
      var init := cs[..n];
      LastShownDecides(init, leaseOf, key);
      if ShowsLease(leaseOf(cs[n]), key) {
        assert IsLastToShow(cs, leaseOf, key, n);
      } else {
        forall i: nat ensures IsLastToShow(cs, leaseOf, key, i) <==> IsLastToShow(init, leaseOf, key, i) {
        }
      }
    }
  }

  function LeaseIn(tracker: Tracker): Candidate -> Option<RepositoryLease> {
    (c: Candidate) => tracker.facts(c.profile.name, c.key).repositoryLease
  }

  // ---------------------------------------------------------------------------------------------
  // Collecting
  // ---------------------------------------------------------------------------------------------

  class Collector {
    const tracker: Tracker
    const worker: string
    const leasesInComments: bool

    var candidates: seq<Candidate>
    var fetched: set<(string, string)>
    var leases: map<string, RepositoryLease>
    ghost var listed: seq<Candidate>  // everything the listings showed so far, repetitions included

    constructor (tracker: Tracker, worker: string, leasesInComments: bool)
      ensures this.tracker == tracker && this.worker == worker && this.leasesInComments == leasesInComments
      ensures Valid() && listed == []
    {
      this.tracker, this.worker, this.leasesInComments := tracker, worker, leasesInComments;
      candidates, fetched, leases := [], {}, map[];
      listed := [];
    }

    /** Each listed issue was looked at once, when it was first shown: it is a candidate exactly if it can be
        taken, and its repository lease replaced any under the same key. */
    ghost predicate Valid()
      reads this
    {
      && NoDuplicates(candidates)
      && SetOf(candidates) == TakeableAmong(listed, TakeableIn(tracker, worker, leasesInComments))
      && leases == (if leasesInComments then LeasesOf(Dedup(listed), LeaseIn(tracker)) else map[])
      && fetched == NamesOf(listed)
    }

    /** Whatever was listed for this repository name was listed for this profile. */
    ghost predicate KnowsProfile(profile: Profile)
      reads this`listed
    {
      ProfilesOf(listed, profile.name) <= {profile}
    }

    /** One listed issue: skipped when this repository has fetched it before. */
    method Fetch(profile: Profile, key: string)
      requires Valid() && KnowsProfile(profile)
      modifies this
      ensures Valid() && KnowsProfile(profile)
      ensures listed == old(listed) + [Candidate(profile, key)]
    {
      var c := Candidate(profile, key);
      ghost var before := listed;
      NamesAppend(before, profile, key);
      DedupAppend(before, c);
      TakeableAppend(before, c, TakeableIn(tracker, worker, leasesInComments));
      listed := listed + [c];
      if (profile.name, key) in fetched {
        return;
      }
      fetched := fetched + {(profile.name, key)};
      NoteLease(c, Dedup(before));
      Take(c);
    }

    /** A new issue is a candidate if it can be taken. */
    method Take(c: Candidate)
      requires NoDuplicates(candidates) && c !in SetOf(candidates)
      modifies this`candidates
      ensures NoDuplicates(candidates)
      ensures SetOf(candidates) ==
              if IsTakeable(c.profile, tracker.facts(c.profile.name, c.key), worker, leasesInComments)
              then SetOf(old(candidates)) + {c} else SetOf(old(candidates))
    {
      var takes := IsTaken(c.profile, tracker.facts(c.profile.name, c.key));
      if takes {
        assert c !in candidates;
        assert SetOf(candidates + [c]) == SetOf(candidates) + {c};
        candidates := candidates + [c];
      }
    }

    /** Remembers the repository lease found with a new issue. */
    method NoteLease(c: Candidate, ghost before: seq<Candidate>)
      modifies this`leases
      requires leases == if leasesInComments then LeasesOf(before, LeaseIn(tracker)) else map[]
      ensures leases == if leasesInComments then LeasesOf(before + [c], LeaseIn(tracker)) else map[]
    {
      assert (before + [c])[..|before|] == before;
      var f := tracker.facts(c.profile.name, c.key);
      if leasesInComments && f.repositoryLease.Some? {
        leases := leases[f.repositoryLease.value.key := f.repositoryLease.value];
      }
    }

    /** The tests that may skip a fetched issue. */
    method IsTaken(profile: Profile, f: Facts) returns (r: bool)
      ensures r <==> IsTakeable(profile, f, worker, leasesInComments)
    {
      MatchesIffServes(profile, f);
      if !RepositoryMatchesIssue(profile, f) {
        return false;
      }
      if leasesInComments && f.taskLeaseHolder.Some? && f.taskLeaseHolder.value != worker {
        return false;
      }
      if !f.isOpen {
        return false;
      }
      r := f.dependenciesDone;
    }

    method FetchListing(profile: Profile, listing: seq<string>)
      requires Valid() && KnowsProfile(profile)
      modifies this
      ensures Valid() && KnowsProfile(profile)
      ensures listed == old(listed) + CandidatesOf(profile, listing)
    {
      for i := 0 to |listing|
        invariant Valid() && KnowsProfile(profile)
        invariant listed == old(listed) + CandidatesOf(profile, listing[..i])
      {
        assert listing[..i + 1][..i] == listing[..i];
        Fetch(profile, listing[i]);
      }
      assert listing[..|listing|] == listing;
    }

    method FetchQueue(profile: Profile, queue: string)
      requires Valid() && KnowsProfile(profile)
      modifies this
      ensures Valid() && KnowsProfile(profile)
      ensures listed == old(listed) + ListedForTags(tracker, profile, queue, profile.tags)
    {
      for i := 0 to |profile.tags|
        invariant Valid() && KnowsProfile(profile)
        invariant listed == old(listed) + ListedForTags(tracker, profile, queue, profile.tags[..i])
      {
        ghost var before := ListedForTags(tracker, profile, queue, profile.tags[..i]);
        var listing := tracker.find(profile.name, queue, profile.tags[i]);
        FetchListing(profile, listing);
        TagsStep(tracker, profile, queue, i);
        assert old(listed) + before + CandidatesOf(profile, listing) == old(listed) + (before + CandidatesOf(profile, listing));
      }
      assert profile.tags[..|profile.tags|] == profile.tags;
    }

    method FetchProfile(profile: Profile)
      requires Valid() && KnowsProfile(profile)
      modifies this
      ensures Valid()
      ensures listed == old(listed) + ListedForQueues(tracker, profile, profile.queues)
    {
      for i := 0 to |profile.queues|
        invariant Valid() && KnowsProfile(profile)
        invariant listed == old(listed) + ListedForQueues(tracker, profile, profile.queues[..i])
      {
        ghost var before := ListedForQueues(tracker, profile, profile.queues[..i]);
        ghost var found := ListedForTags(tracker, profile, profile.queues[i], profile.tags);
        FetchQueue(profile, profile.queues[i]);
        QueuesStep(tracker, profile, i);
        assert old(listed) + before + found == old(listed) + (before + found);
      }
      assert profile.queues[..|profile.queues|] == profile.queues;
    }

    /** The nested loops of `collectCandidates`: the candidates are exactly the listed issues that can be
        taken, each once; and of the repository leases shown under one key the
        last one counts. */
    method CollectCandidates(profiles: seq<Profile>)
      requires Valid() && listed == [] && HaveDistinctNames(profiles)
      modifies this
      ensures Valid() && listed == Listed(tracker, profiles)
    {
      for i := 0 to |profiles|
        invariant Valid() && listed == Listed(tracker, profiles[..i])
      {
        var profile := profiles[i];
        assert profiles[..i + 1][..i] == profiles[..i];
        forall c | c in listed ensures c.profile in profiles[..i] {
          InListed(tracker, profiles[..i], c);
        }
        FetchProfile(profile);
      }
      assert profiles[..|profiles|] == profiles;
    }
  }

  // ---------------------------------------------------------------------------------------------
  // One cycle
  // ---------------------------------------------------------------------------------------------

  /** The available candidates. */
  function Available(cs: seq<Candidate>, leases: map<string, RepositoryLease>, worker: string): (r: seq<Candidate>)
    ensures forall c :: c in r <==> c in cs && IsFree(c, leases, worker)
    ensures NoDuplicates(cs) ==> NoDuplicates(r)
  {
    if cs == [] then []
    else
      var rest := Available(cs[..|cs| - 1], leases, worker);
      assert cs == cs[..|cs| - 1] + [cs[|cs| - 1]];
      AvailableIffFree(cs[|cs| - 1], leases, worker);
      if IsRepositoryAvailable(cs[|cs| - 1], leases, worker) then rest + [cs[|cs| - 1]] else rest
  }

  /** What one cycle is given. */
  datatype Cycle = Cycle(
    profiles: seq<Profile>,
    tracker: Tracker,
    worker: string,
    leasesInComments: bool,
    config: Config,
    now: int)

  /** Repository names are distinct (the configuration is refused otherwise), and the tracker's issues carry
      their own keys. */
  ghost predicate IsConfigured(cycle: Cycle) {
    HaveDistinctNames(cycle.profiles) && forall name, key :: cycle.tracker.facts(name, key).issue.key == key
  }

  /** A listed issue that can be taken. */
  ghost predicate CanTake(cycle: Cycle, c: Candidate) {
    && c.profile in cycle.profiles
    && IsListed(cycle.tracker, c.profile, c.key)
    && IsTakeable(c.profile, cycle.tracker.facts(c.profile.name, c.key), cycle.worker, cycle.leasesInComments)
  }

  function Score(cycle: Cycle, c: Candidate): ScoredCandidate {
    var f := cycle.tracker.facts(c.profile.name, c.key);
    ScoredCandidate(f.issue, c.profile.name, ScoreCandidate(f.issue, f.confidence, cycle.config, cycle.now))
  }

  function Scores(cycle: Cycle, cs: seq<Candidate>): (r: seq<ScoredCandidate>)
    ensures |r| == |cs| && forall i :: 0 <= i < |cs| ==> r[i] == Score(cycle, cs[i])
  {
    if cs == [] then [] else [Score(cycle, cs[0])] + Scores(cycle, cs[1..])
  }

  /** What may run: the score of an issue that can be taken, whose repository is not leased away. */
  ghost predicate IsContender(cycle: Cycle, leases: map<string, RepositoryLease>, s: ScoredCandidate) {
    exists c :: CanTake(cycle, c) && IsFree(c, leases, cycle.worker) && s == Score(cycle, c)
  }

  ghost predicate AreTheTakeable(cycle: Cycle, cs: seq<Candidate>) {
    forall c :: c in cs <==> CanTake(cycle, c)
  }

  lemma ScoresHave(cycle: Cycle, cs: seq<Candidate>, s: ScoredCandidate)
    ensures s in Scores(cycle, cs) <==> exists c :: c in cs && s == Score(cycle, c)
  {
    var scores := Scores(cycle, cs);
    if s in scores {
      var i :| 0 <= i < |scores| && scores[i] == s;
      assert cs[i] in cs;
    }
    forall c | c in cs ensures Score(cycle, c) in scores {
      var i :| 0 <= i < |cs| && cs[i] == c;
      assert scores[i] == Score(cycle, c);
    }
  }

  lemma ScoresAreContenders(cycle: Cycle, cs: seq<Candidate>, leases: map<string, RepositoryLease>, s: ScoredCandidate)
    requires AreTheTakeable(cycle, cs)
    ensures s in Scores(cycle, Available(cs, leases, cycle.worker)) <==> IsContender(cycle, leases, s)
  {
    var available := Available(cs, leases, cycle.worker);
    ScoresHave(cycle, available, s);
    assert forall c :: c in available <==> CanTake(cycle, c) && IsFree(c, leases, cycle.worker);
  }

  lemma ScoreIdentifies(cycle: Cycle, c: Candidate)
    requires IsConfigured(cycle)
    ensures Score(cycle, c).issue.key == c.key && Score(cycle, c).repositoryName == c.profile.name
  {
  }

  lemma NameIdentifies(profiles: seq<Profile>, p: Profile, q: Profile)
    requires HaveDistinctNames(profiles) && p in profiles && q in profiles && p.name == q.name
    ensures p == q
  {
    var m :| 0 <= m < |profiles| && profiles[m] == p;
    var n :| 0 <= n < |profiles| && profiles[n] == q;
  }

  /** No two contenders are the same issue for the same repository: the ranking never ties them. */
  lemma ContendersAreDistinct(cycle: Cycle, cs: seq<Candidate>)
    requires IsConfigured(cycle)
    requires forall c :: c in cs ==> c.profile in cycle.profiles
    ensures AreDistinct(Scores(cycle, cs))
  {
    forall a, b | a in Scores(cycle, cs) && b in Scores(cycle, cs)
                  && a.issue.key == b.issue.key && a.repositoryName == b.repositoryName
      ensures a == b
    {
      ScoresHave(cycle, cs, a);
      ScoresHave(cycle, cs, b);
      var c :| c in cs && a == Score(cycle, c);
      var d :| d in cs && b == Score(cycle, d);
      ScoreIdentifies(cycle, c);
      ScoreIdentifies(cycle, d);
      NameIdentifies(cycle.profiles, c.profile, d.profile);
    }
  }

  /** Contenders are ranked the same way whatever order they were found in. */
  lemma ContenderRankingIsCanonical(
    cycle: Cycle, cs: seq<Candidate>, found: seq<ScoredCandidate>, collate: (string, string) -> bool)
    requires IsConfigured(cycle) && IsCollation(collate)
    requires forall c :: c in cs ==> c.profile in cycle.profiles
    requires multiset(found) == multiset(Scores(cycle, cs))
    ensures SortScoredCandidates(found, collate, cycle.config.oldestFirst)
            == SortScoredCandidates(Scores(cycle, cs), collate, cycle.config.oldestFirst)
  {
    ContendersAreDistinct(cycle, cs);
    RankingForgetsOrder(Scores(cycle, cs), found, collate, cycle.config.oldestFirst);
  }

  /** Asks for the leases of one ranked candidate after another. */
  method TryInOrder(ranked: seq<ScoredCandidate>, grant: ScoredCandidate -> Result<bool>)
    returns (r: Result<Outcome>, i: nat)
    ensures i <= |ranked| && forall j :: 0 <= j < i ==> grant(ranked[j]) == Ok(false)
    ensures i == |ranked| ==> r == Ok(Waiting)
    ensures i < |ranked| ==>
              if grant(ranked[i]).Ok? then r == Ok(Run(ranked[i])) && grant(ranked[i]).value
              else r == Err(grant(ranked[i]).error)
  {
    i := 0;
    while i < |ranked|
      invariant i <= |ranked| && forall j :: 0 <= j < i ==> grant(ranked[j]) == Ok(false)
    {
      var answer := grant(ranked[i]);
      if answer.Err? {
        return Err(answer.error), i;
      }
      if answer.value {
        return Ok(Run(ranked[i])), i;
      }
      i := i + 1;
    }
    r := Ok(Waiting);
  }

  /** Among the contenders that are not refused their leases, `s` comes first: it has the highest total, and of
      those the best date, key and name. */
  ghost predicate RunsFirst(
    cycle: Cycle, leases: map<string, RepositoryLease>, collate: (string, string) -> bool,
    grant: ScoredCandidate -> Result<bool>, s: ScoredCandidate)
  {
    && IsContender(cycle, leases, s)
    && forall d :: IsContender(cycle, leases, d) && grant(d) != Ok(false) ==>
         ComesFirst(s, d, collate, cycle.config.oldestFirst)
  }

  lemma RefusedPrefixRunsFirst(
    cycle: Cycle, leases: map<string, RepositoryLease>, collate: (string, string) -> bool,
    grant: ScoredCandidate -> Result<bool>, ranked: seq<ScoredCandidate>, i: nat)
    requires IsSorted(Ranking(collate, cycle.config.oldestFirst), ranked)
    requires IsCollation(collate)
    requires forall s :: s in ranked <==> IsContender(cycle, leases, s)
    requires i < |ranked| && forall j :: 0 <= j < i ==> grant(ranked[j]) == Ok(false)
    ensures RunsFirst(cycle, leases, collate, grant, ranked[i])
  {
    var le := Ranking(collate, cycle.config.oldestFirst);
    assert ranked[i] in ranked;
    RankingIsTotal(collate, cycle.config.oldestFirst);
    forall d | d in ranked && grant(d) != Ok(false) ensures ComesFirst(ranked[i], d, collate, cycle.config.oldestFirst) {
      var j :| 0 <= j < |ranked| && ranked[j] == d;
      assert le(ranked[i], ranked[i]) && le(ranked[i], ranked[j]);
      RanksBeforeMeans(ranked[i], d, collate, cycle.config.oldestFirst);
    }
  }

  /** How a cycle may end: the first contender that gets its leases runs, or throws while asking for them;
      or all are refused; or nothing can be taken. */
  ghost predicate IsCycleOutcome(
    cycle: Cycle, leases: map<string, RepositoryLease>, collate: (string, string) -> bool,
    grant: ScoredCandidate -> Result<bool>, r: Result<Outcome>)
  {
    match r
    case Ok(Idle) => forall c :: !CanTake(cycle, c)
    case Ok(Waiting) =>
      && (exists c :: CanTake(cycle, c))
      && forall d :: IsContender(cycle, leases, d) ==> grant(d) == Ok(false)
    case Ok(Run(s)) => grant(s) == Ok(true) && RunsFirst(cycle, leases, collate, grant, s)
    case Err(e) => exists s :: grant(s) == Err(e) && RunsFirst(cycle, leases, collate, grant, s)
  }

  method RunRanked(
    ghost cycle: Cycle, scores: seq<ScoredCandidate>, ghost leases: map<string, RepositoryLease>, oldestFirst: bool,
    collate: (string, string) -> bool, grant: ScoredCandidate -> Result<bool>)
    returns (r: Result<Outcome>)
    requires IsCollation(collate) && oldestFirst == cycle.config.oldestFirst
    requires forall s :: s in scores <==> IsContender(cycle, leases, s)
    requires exists c :: CanTake(cycle, c)
    ensures IsCycleOutcome(cycle, leases, collate, grant, r)
  {
    var ranked := SortScoredCandidates(scores, collate, oldestFirst);
    RankingIsTotal(collate, oldestFirst);
    SortSorts(scores, Ranking(collate, oldestFirst));
    forall s ensures s in ranked <==> IsContender(cycle, leases, s) {
      assert s in multiset(ranked) <==> s in multiset(scores);
    }
    var i;
    r, i := TryInOrder(ranked, grant);
    if i < |ranked| {
      RefusedPrefixRunsFirst(cycle, leases, collate, grant, ranked, i);
    }
  }

  /** The repository leases a cycle goes by: those the listed issues show, each issue counted where it is
      first listed; under one key the last one. */
  function ShownLeases(cycle: Cycle): map<string, RepositoryLease> {
    if cycle.leasesInComments then LeasesOf(Dedup(Listed(cycle.tracker, cycle.profiles)), LeaseIn(cycle.tracker)) else map[]
  }

  /** One cycle without a target. */
  method RunOnce(cycle: Cycle, collate: (string, string) -> bool, grant: ScoredCandidate -> Result<bool>)
    returns (r: Result<Outcome>)
    requires IsConfigured(cycle) && IsCollation(collate)
    ensures IsCycleOutcome(cycle, ShownLeases(cycle), collate, grant, r)
  {
    var collector := new Collector(cycle.tracker, cycle.worker, cycle.leasesInComments);
    collector.CollectCandidates(cycle.profiles);
    var leases := collector.leases;
    var cs := collector.candidates;
    forall c ensures c in cs <==> CanTake(cycle, c) {
      assert c in cs <==> c in SetOf(cs);
      InListed(cycle.tracker, cycle.profiles, c);
    }
    if cs == [] {
      assert forall c :: CanTake(cycle, c) ==> c in cs;
      return Ok(Idle);
    }
    assert cs[0] in cs;
    var scores := Scores(cycle, Available(cs, leases, cycle.worker));
    forall s ensures s in scores <==> IsContender(cycle, leases, s) {
      ScoresAreContenders(cycle, cs, leases, s);
    }
    r := RunRanked(cycle, scores, leases, cycle.config.oldestFirst, collate, grant);
  }
}
