/** src/domain/priorityQueue.ts: the score of a candidate, and the ranking it is put in. Weights are exact
    reals, and `localeCompare` is any total order of strings. */
module PriorityQueue {
  import opened Common
  import opened Text
  import opened Sorting

  datatype QueuedIssue = QueuedIssue(
    key: string,
    createdAt: string,           // createdAt, else updatedAt, else empty
    priority: Option<string>,
    deadline: Option<int>,       // milliseconds; None when absent or not a date
    tags: seq<string>,
    components: seq<string>)

  datatype Config = Config(
    priorityWeights: map<string, real>,
    tagBoosts: map<string, real>,
    componentBoosts: map<string, real>,
    manualOverrideTags: seq<string>,
    overdueBoost: real,
    dueTodayBoost: real,
    confidencePriorityWeight: Option<real>,
    oldestFirst: bool)

  datatype ScoredCandidate = ScoredCandidate(issue: QueuedIssue, repositoryName: string, total: real)

  const MANUAL_OVERRIDE_SCORE := 10_000.0
  const DAY_MS := 86_400_000

  function Normalize(s: string): string {
    Lower(Trim(s))
  }

  function Lookup(weights: map<string, real>, name: string): real {
    if name in weights then weights[name] else 0.0
  }

  function Names(values: seq<string>): seq<string> {
    if values == [] then [] else Names(values[..|values| - 1]) + [Normalize(values[|values| - 1])]
  }

  /** `values.reduce(...)`, over the names the values stand for. */
  function SumOf(names: seq<string>, boosts: map<string, real>): real {
    if names == [] then 0.0 else SumOf(names[..|names| - 1], boosts) + Lookup(boosts, names[|names| - 1])
  }

  function SumBoosts(values: seq<string>, boosts: map<string, real>): real {
    SumOf(Names(values), boosts)
  }

  predicate HasManualOverride(issue: QueuedIssue, config: Config) {
    exists t, m :: t in issue.tags && m in config.manualOverrideTags && Normalize(t) == Normalize(m)
  }

  function StartOfUtcDay(ms: int): int {
    ms / DAY_MS * DAY_MS
  }

  function ScoreDeadline(deadline: Option<int>, config: Config, now: int): real {
    if deadline.None? then 0.0
    else
      var today, dueDay := StartOfUtcDay(now), StartOfUtcDay(deadline.value);
      if dueDay < today then config.overdueBoost
      else if dueDay == today then config.dueTodayBoost
      else 0.0
  }

  lemma DayContains(m: int, t: int)
    requires m % DAY_MS == 0 && m <= t < m + DAY_MS
    ensures StartOfUtcDay(t) == m
  {
    assert t == m / DAY_MS * DAY_MS + (t - m);
  }

  lemma DayStarts(t: int)
    ensures StartOfUtcDay(t) % DAY_MS == 0 && StartOfUtcDay(t) <= t < StartOfUtcDay(t) + DAY_MS
  {
  }

  /** A deadline counts as overdue exactly when a midnight has passed since, as due today exactly when both
      times are in one day, and otherwise not at all. */
  lemma DeadlineByMidnight(due: int, midnight: int, config: Config, now: int)
    requires midnight % DAY_MS == 0
    ensures due < midnight <= now ==> ScoreDeadline(Some(due), config, now) == config.overdueBoost
    ensures midnight <= due < midnight + DAY_MS && midnight <= now < midnight + DAY_MS ==>
              ScoreDeadline(Some(due), config, now) == config.dueTodayBoost
    ensures now < midnight <= due ==> ScoreDeadline(Some(due), config, now) == 0.0
  {
    DayStarts(due);
    DayStarts(now);
    if midnight <= due < midnight + DAY_MS && midnight <= now < midnight + DAY_MS {
      DayContains(midnight, due);
      DayContains(midnight, now);
    } else if due < midnight <= now {
      MidnightBetween(due, midnight, now);
    } else if now < midnight <= due {
      MidnightBetween(now, midnight, due);
    }
  }

  lemma MidnightBetween(earlier: int, midnight: int, later: int)
    requires midnight % DAY_MS == 0 && earlier < midnight <= later
    ensures StartOfUtcDay(earlier) < StartOfUtcDay(later)
  {
    assert earlier / DAY_MS < midnight / DAY_MS <= later / DAY_MS;
  }

  function ConfidenceTerm(manual: bool, confidence: Option<real>, weight: real): real {
    if confidence.None? then 0.0
    else
      var c := confidence.value;
      if manual then c * weight
      else c * weight + if c < 50.0 then -(50.0 - c) * weight else 0.0
  }

  /** The confidence term for the latest analysis decision of the issue, if it has one. */
  function ConfidenceScore(issue: QueuedIssue, confidence: Option<real>, config: Config): real {
    ConfidenceTerm(HasManualOverride(issue, config), confidence, config.confidencePriorityWeight.GetOr(0.0))
  }

  function ScoreCandidate(issue: QueuedIssue, confidence: Option<real>, config: Config, now: int): real {
    var priority := if issue.priority.Some? && issue.priority.value != ""
                    then Lookup(config.priorityWeights, Normalize(issue.priority.value)) else 0.0;
    var manualOverride := if HasManualOverride(issue, config) then MANUAL_OVERRIDE_SCORE else 0.0;
    priority + ScoreDeadline(issue.deadline, config, now) + SumBoosts(issue.tags, config.tagBoosts)
    + SumBoosts(issue.components, config.componentBoosts) + manualOverride + ConfidenceScore(issue, confidence, config)
  }

  ghost predicate ConfidenceIsMonotone(issue: QueuedIssue, config: Config) {
    forall c, d :: c <= d ==> ConfidenceScore(issue, Some(c), config) <= ConfidenceScore(issue, Some(d), config)
  }

  lemma ScaleMonotone(x: real, y: real, weight: real)
    requires x <= y && weight >= 0.0
    ensures x * weight <= y * weight
  {
    assert (y - x) * weight >= 0.0;
  }

  /** What the weight multiplies: a confidence below 50 also loses its distance to 50. */
  function Effective(c: real, manual: bool): real {
    if c < 50.0 && !manual then 2.0 * c - 50.0 else c
  }

  lemma ConfidenceIsWeighted(issue: QueuedIssue, c: real, config: Config)
    ensures ConfidenceScore(issue, Some(c), config) ==
            Effective(c, HasManualOverride(issue, config)) * config.confidencePriorityWeight.GetOr(0.0)
  {
    var weight := config.confidencePriorityWeight.GetOr(0.0);
    assert c * weight + -(50.0 - c) * weight == (2.0 * c - 50.0) * weight;
  }

  /** More confidence never ranks an issue lower, exactly when the weight is not negative. */
  lemma ConfidenceMonotoneIff(issue: QueuedIssue, config: Config)
    ensures ConfidenceIsMonotone(issue, config) <==> config.confidencePriorityWeight.GetOr(0.0) >= 0.0
  {
    var weight := config.confidencePriorityWeight.GetOr(0.0);
    if weight >= 0.0 {
      forall c, d | c <= d ensures ConfidenceScore(issue, Some(c), config) <= ConfidenceScore(issue, Some(d), config) {
        ConfidenceGrows(issue, c, d, config);
      }
    } else {
      ConfidenceIsWeighted(issue, 50.0, config);
      ConfidenceIsWeighted(issue, 60.0, config);
      assert ConfidenceScore(issue, Some(50.0), config) > ConfidenceScore(issue, Some(60.0), config);
    }
  }

  lemma ConfidenceGrows(issue: QueuedIssue, c: real, d: real, config: Config)
    requires c <= d && config.confidencePriorityWeight.GetOr(0.0) >= 0.0
    ensures ConfidenceScore(issue, Some(c), config) <= ConfidenceScore(issue, Some(d), config)
  {
    var manual := HasManualOverride(issue, config);
    ConfidenceIsWeighted(issue, c, config);
    ConfidenceIsWeighted(issue, d, config);
    ScaleMonotone(Effective(c, manual), Effective(d, manual), config.confidencePriorityWeight.GetOr(0.0));
  }

  // ---------------------------------------------------------------------------------------------
  // What the total is made of
  // ---------------------------------------------------------------------------------------------

  /** An issue with nothing to score, without an analysis: its total is zero. */
  lemma NothingScoresNothing(issue: QueuedIssue, config: Config, now: int)
    requires issue.priority.GetOr("") == "" && issue.deadline.None? && issue.tags == [] && issue.components == []
    ensures ScoreCandidate(issue, None, config, now) == 0.0
  {
  }

  /** The configured weight of a name, whatever its case and padding, is added; an unknown one adds nothing. */
  lemma PriorityAdds(issue: QueuedIssue, confidence: Option<real>, config: Config, now: int, name: string, weight: real)
    requires issue.priority.None?
    ensures name == "" || Lower(Trim(name)) !in config.priorityWeights ==>
              ScoreCandidate(issue.(priority := Some(name)), confidence, config, now)
              == ScoreCandidate(issue, confidence, config, now)
    ensures name != "" && Lower(Trim(name)) in config.priorityWeights && config.priorityWeights[Lower(Trim(name))] == weight ==>
              ScoreCandidate(issue.(priority := Some(name)), confidence, config, now)
              == ScoreCandidate(issue, confidence, config, now) + weight
  {
    assert HasManualOverride(issue.(priority := Some(name)), config) == HasManualOverride(issue, config);
  }

  /** A deadline adds its boost: overdue once a midnight has passed since, due today within one day. */
  lemma DeadlineAdds(issue: QueuedIssue, confidence: Option<real>, config: Config, due: int, midnight: int, now: int)
    requires issue.deadline.None? && midnight % DAY_MS == 0
    ensures var added := ScoreCandidate(issue.(deadline := Some(due)), confidence, config, now)
                         - ScoreCandidate(issue, confidence, config, now);
            && (due < midnight <= now ==> added == config.overdueBoost)
            && (midnight <= due < midnight + DAY_MS && midnight <= now < midnight + DAY_MS ==> added == config.dueTodayBoost)
            && (now < midnight <= due ==> added == 0.0)
  {
    DeadlineByMidnight(due, midnight, config, now);
    assert HasManualOverride(issue.(deadline := Some(due)), config) == HasManualOverride(issue, config);
  }

  /** What a boost table gives one value. */
  function BoostOf(value: string, boosts: map<string, real>): real {
    var name := Lower(Trim(value));
    if name in boosts then boosts[name] else 0.0
  }

  lemma {:induction false} NamesConcat(a: seq<string>, b: seq<string>)
    ensures Names(a + b) == Names(a) + Names(b)
  {
    if b == [] {
      assert a + b == a;
    } else {
      var init, last := b[..|b| - 1], b[|b| - 1];
      NamesConcat(a, init);
      assert (a + b)[..|a + b| - 1] == a + init && (a + b)[|a + b| - 1] == last;
    }
  }

  lemma LastName(names: seq<string>, name: string, boosts: map<string, real>)
    ensures SumOf(names + [name], boosts) == SumOf(names, boosts) + Lookup(boosts, name)
  {
    assert (names + [name])[..|names|] == names;
  }

  lemma {:induction false} OneMoreName(before: seq<string>, name: string, after: seq<string>, boosts: map<string, real>)
    ensures SumOf(before + [name] + after, boosts) == SumOf(before + after, boosts) + Lookup(boosts, name)
  {
    if after == [] {
      assert before + [name] + after == before + [name] && before + after == before;
      LastName(before, name, boosts);
    } else {
      var init, last := after[..|after| - 1], after[|after| - 1];
      OneMoreName(before, name, init, boosts);
      assert before + [name] + after == (before + [name] + init) + [last] && before + after == (before + init) + [last];
      LastName(before + [name] + init, last, boosts);
      LastName(before + init, last, boosts);
    }
  }

  lemma NameOf(value: string)
    ensures Names([value]) == [Lower(Trim(value))]
  {
    assert [value][..0] == [];
  }

  lemma OneMoreBoost(before: seq<string>, value: string, after: seq<string>, boosts: map<string, real>)
    ensures SumBoosts(before + [value] + after, boosts) == SumBoosts(before + after, boosts) + BoostOf(value, boosts)
  {
    NameOf(value);
    NamesConcat(before, after);
    NamesConcat(before + [value], after);
    NamesConcat(before, [value]);
    OneMoreName(Names(before), Lower(Trim(value)), Names(after), boosts);
  }

  predicate IsOverrideTag(tag: string, config: Config) {
    exists m :: m in config.manualOverrideTags && Lower(Trim(tag)) == Lower(Trim(m))
  }

  lemma OverrideIff(issue: QueuedIssue, config: Config)
    ensures HasManualOverride(issue, config) <==> exists t :: t in issue.tags && IsOverrideTag(t, config)
  {
  }

  lemma OverrideWithTag(issue: QueuedIssue, before: seq<string>, tag: string, after: seq<string>, config: Config)
    requires issue.tags == before + after
    ensures HasManualOverride(issue.(tags := before + [tag] + after), config) <==>
            HasManualOverride(issue, config) || IsOverrideTag(tag, config)
  {
    var more := issue.(tags := before + [tag] + after);
    assert forall t :: t in more.tags <==> t in issue.tags || t == tag;
    OverrideIff(issue, config);
    OverrideIff(more, config);
  }

  /** One more tag, wherever it stands, adds exactly its boost, unless it is the first to override by hand. */
  lemma TagAdds(
    issue: QueuedIssue, confidence: Option<real>, config: Config, now: int,
    before: seq<string>, tag: string, after: seq<string>)
    requires issue.tags == before + after && (IsOverrideTag(tag, config) ==> HasManualOverride(issue, config))
    ensures ScoreCandidate(issue.(tags := before + [tag] + after), confidence, config, now) ==
            ScoreCandidate(issue, confidence, config, now) + BoostOf(tag, config.tagBoosts)
  {
    OverrideWithTag(issue, before, tag, after, config);
    OneMoreBoost(before, tag, after, config.tagBoosts);
  }

  lemma ComponentAdds(
    issue: QueuedIssue, confidence: Option<real>, config: Config, now: int,
    before: seq<string>, component: string, after: seq<string>)
    requires issue.components == before + after
    ensures ScoreCandidate(issue.(components := before + [component] + after), confidence, config, now) ==
            ScoreCandidate(issue, confidence, config, now) + BoostOf(component, config.componentBoosts)
  {
    var more := issue.(components := before + [component] + after);
    assert HasManualOverride(more, config) == HasManualOverride(issue, config);
    OneMoreBoost(before, component, after, config.componentBoosts);
  }

  /** What an override gives back of a low confidence. */
  function GivenBack(confidence: Option<real>, weight: real): real {
    if confidence.Some? && confidence.value < 50.0 then (50.0 - confidence.value) * weight else 0.0
  }

  lemma NegateProduct(x: real, y: real)
    ensures -x * y == -(x * y)
  {
  }

  /** The confidence terms of two issues of which only one overrides. */
  lemma OverrideGivesBack(confidence: Option<real>, weight: real)
    ensures ConfidenceTerm(true, confidence, weight) ==
            ConfidenceTerm(false, confidence, weight) + GivenBack(confidence, weight)
  {
    if confidence.Some? {
      NegateProduct(50.0 - confidence.value, weight);
    }
  }

  /** The tag that overrides by hand adds ten thousand on top of its boost, and gives back what a confidence
      below 50 had cost. */
  lemma OverrideTagAdds(
    issue: QueuedIssue, confidence: Option<real>, config: Config, now: int,
    before: seq<string>, tag: string, after: seq<string>)
    requires issue.tags == before + after && IsOverrideTag(tag, config) && !HasManualOverride(issue, config)
    ensures ScoreCandidate(issue.(tags := before + [tag] + after), confidence, config, now) ==
            ScoreCandidate(issue, confidence, config, now) + BoostOf(tag, config.tagBoosts) + 10_000.0
            + GivenBack(confidence, config.confidencePriorityWeight.GetOr(0.0))
  {
    var more := issue.(tags := before + [tag] + after);
    OverrideWithTag(issue, before, tag, after, config);
    OneMoreBoost(before, tag, after, config.tagBoosts);
    OverrideGivesBack(confidence, config.confidencePriorityWeight.GetOr(0.0));
  }

  /** An analysis adds its confidence by weight; without an override a confidence below 50 counts as its
      distance to 50 less. */
  lemma ConfidenceAdds(issue: QueuedIssue, c: real, config: Config, now: int)
    ensures ScoreCandidate(issue, Some(c), config, now) ==
            ScoreCandidate(issue, None, config, now)
            + Effective(c, HasManualOverride(issue, config)) * config.confidencePriorityWeight.GetOr(0.0)
  {
    ConfidenceIsWeighted(issue, c, config);
  }

  /** What an issue would score under a configuration that knows no override tags. */
  function ScoreWithoutOverride(issue: QueuedIssue, confidence: Option<real>, config: Config, now: int): real {
    ScoreCandidate(issue, confidence, config.(manualOverrideTags := []), now)
  }

  lemma OverrideSplits(issue: QueuedIssue, confidence: Option<real>, config: Config, now: int)
    ensures ScoreCandidate(issue, confidence, config, now) ==
            ScoreWithoutOverride(issue, confidence, config, now)
            + if HasManualOverride(issue, config)
              then 10_000.0 + GivenBack(confidence, config.confidencePriorityWeight.GetOr(0.0)) else 0.0
  {
    var without := config.(manualOverrideTags := []);
    assert !HasManualOverride(issue, without);
    if HasManualOverride(issue, config) {
      OverrideGivesBack(confidence, config.confidencePriorityWeight.GetOr(0.0));
      assert ScoreCandidate(issue, confidence, config, now) - ConfidenceScore(issue, confidence, config) ==
             ScoreCandidate(issue, confidence, without, now) - ConfidenceScore(issue, confidence, without) + 10_000.0;
    } else {
      assert ConfidenceScore(issue, confidence, config) == ConfidenceScore(issue, confidence, without);
    }
  }

  lemma GivesNothingAway(confidence: Option<real>, weight: real)
    requires weight >= 0.0
    ensures GivenBack(confidence, weight) >= 0.0
  {
    if confidence.Some? && confidence.value < 50.0 {
      ScaleMonotone(0.0, 50.0 - confidence.value, weight);
    }
  }

  /** Overriding by hand outranks: against an issue without an override that scores less than ten thousand
      more without it, whatever is set, as long as confidence does not count against. */
  lemma OverrideOutranks(
    a: QueuedIssue, b: QueuedIssue, confidenceA: Option<real>, confidenceB: Option<real>, config: Config, now: int)
    requires config.confidencePriorityWeight.GetOr(0.0) >= 0.0
    requires HasManualOverride(a, config) && !HasManualOverride(b, config)
    requires ScoreWithoutOverride(b, confidenceB, config, now) < ScoreWithoutOverride(a, confidenceA, config, now) + 10_000.0
    ensures ScoreCandidate(a, confidenceA, config, now) > ScoreCandidate(b, confidenceB, config, now)
  {
    OverrideSplits(a, confidenceA, config, now);
    OverrideSplits(b, confidenceB, config, now);
    GivesNothingAway(confidenceA, config.confidencePriorityWeight.GetOr(0.0));
  }

  // ---------------------------------------------------------------------------------------------
  // The ranking
  // ---------------------------------------------------------------------------------------------

  /** Which of two candidates comes first: more in total; then created earlier, or later if the newest go first;
      then the smaller key; then the smaller repository name. */
  ghost predicate ComesFirst(a: ScoredCandidate, b: ScoredCandidate, collate: (string, string) -> bool, oldestFirst: bool) {
    && a.total >= b.total
    && (a.total == b.total ==>
          && (oldestFirst ==> collate(a.issue.createdAt, b.issue.createdAt))
          && (!oldestFirst ==> collate(b.issue.createdAt, a.issue.createdAt))
          && (a.issue.createdAt == b.issue.createdAt ==>
                && collate(a.issue.key, b.issue.key)
                && (a.issue.key == b.issue.key ==> collate(a.repositoryName, b.repositoryName))))
  }

  /** That is what the comparator says. */
  lemma RanksBeforeMeans(a: ScoredCandidate, b: ScoredCandidate, collate: (string, string) -> bool, oldestFirst: bool)
    requires IsCollation(collate)
    ensures RanksBefore(a, b, collate, oldestFirst) <==> ComesFirst(a, b, collate, oldestFirst)
  {
  }

  predicate Ties(collate: (string, string) -> bool, s: string, t: string) {
    collate(s, t) && collate(t, s)
  }

  /** The comparator: not after. */
  predicate RanksBefore(a: ScoredCandidate, b: ScoredCandidate, collate: (string, string) -> bool, oldestFirst: bool) {
    if a.total != b.total then a.total > b.total
    else if !Ties(collate, a.issue.createdAt, b.issue.createdAt) then
      if oldestFirst then collate(a.issue.createdAt, b.issue.createdAt) else collate(b.issue.createdAt, a.issue.createdAt)
    else if !Ties(collate, a.issue.key, b.issue.key) then collate(a.issue.key, b.issue.key)
    else collate(a.repositoryName, b.repositoryName)
  }

  function Ranking(collate: (string, string) -> bool, oldestFirst: bool): (ScoredCandidate, ScoredCandidate) -> bool {
    (a: ScoredCandidate, b: ScoredCandidate) => RanksBefore(a, b, collate, oldestFirst)
  }

  function SortScoredCandidates(
    cs: seq<ScoredCandidate>, collate: (string, string) -> bool, oldestFirst: bool): seq<ScoredCandidate>
  {
    Sort(cs, Ranking(collate, oldestFirst))
  }

  /** A collation that tells any two different strings apart. */
  ghost predicate IsCollation(collate: (string, string) -> bool) {
    IsTotalOrder(collate) && forall s, t :: collate(s, t) && collate(t, s) ==> s == t
  }

  /** No two candidates are the same issue for the same repository. */
  ghost predicate AreDistinct(cs: seq<ScoredCandidate>) {
    forall a, b :: a in cs && b in cs && a.issue.key == b.issue.key && a.repositoryName == b.repositoryName ==> a == b
  }

  lemma RankingIsTotal(collate: (string, string) -> bool, oldestFirst: bool)
    requires IsTotalOrder(collate)
    ensures IsTotalOrder(Ranking(collate, oldestFirst))
  {
    var le := Ranking(collate, oldestFirst);
    forall a, b ensures le(a, b) || le(b, a) {
      assert collate(a.issue.createdAt, b.issue.createdAt) || collate(b.issue.createdAt, a.issue.createdAt);
      assert collate(a.issue.key, b.issue.key) || collate(b.issue.key, a.issue.key);
    }
    forall a, b, c | le(a, b) && le(b, c) ensures le(a, c) {
      RanksBeforeTransitive(a, b, c, collate, oldestFirst);
    }
  }

  lemma RanksBeforeTransitive(
    a: ScoredCandidate, b: ScoredCandidate, c: ScoredCandidate, collate: (string, string) -> bool, oldestFirst: bool)
    requires IsTotalOrder(collate)
    requires RanksBefore(a, b, collate, oldestFirst) && RanksBefore(b, c, collate, oldestFirst)
    ensures RanksBefore(a, c, collate, oldestFirst)
  {
    TiesChain(a.issue.createdAt, b.issue.createdAt, c.issue.createdAt, collate);
    TiesChain(c.issue.createdAt, b.issue.createdAt, a.issue.createdAt, collate);
    TiesChain(a.issue.key, b.issue.key, c.issue.key, collate);
  }

  /** Along a chain, two ends tie only when every step does. */
  lemma TiesChain(x: string, y: string, z: string, collate: (string, string) -> bool)
    requires IsTotalOrder(collate)
    ensures collate(x, y) && collate(y, z) ==>
              collate(x, z) && (Ties(collate, x, z) <==> Ties(collate, x, y) && Ties(collate, y, z))
  {
  }

  /** Candidates of different issues or repositories never tie. */
  lemma RankingTiesNothing(cs: seq<ScoredCandidate>, collate: (string, string) -> bool, oldestFirst: bool)
    requires IsCollation(collate) && AreDistinct(cs)
    ensures TiesNothing(Ranking(collate, oldestFirst), cs)
  {
    forall a, b | a in cs && b in cs && Ranking(collate, oldestFirst)(a, b) && Ranking(collate, oldestFirst)(b, a)
      ensures a == b
    {
    }
  }

  /** The ranking is a sorted permutation, and the same for every order the candidates were found in. */
  lemma RankingForgetsOrder(
    cs: seq<ScoredCandidate>, ds: seq<ScoredCandidate>, collate: (string, string) -> bool, oldestFirst: bool)
    requires IsCollation(collate) && AreDistinct(cs) && multiset(cs) == multiset(ds)
    ensures var ranked := SortScoredCandidates(cs, collate, oldestFirst);
            && (forall i, j :: 0 <= i < j < |ranked| ==> ComesFirst(ranked[i], ranked[j], collate, oldestFirst))
            && multiset(ranked) == multiset(cs)
            && ranked == SortScoredCandidates(ds, collate, oldestFirst)
  {
    RankingIsTotal(collate, oldestFirst);
    SortSorts(cs, Ranking(collate, oldestFirst));
    RankingTiesNothing(cs, collate, oldestFirst);
    SortForgetsOrder(cs, ds, Ranking(collate, oldestFirst));
    var ranked := SortScoredCandidates(cs, collate, oldestFirst);
    forall i, j | 0 <= i < j < |ranked| ensures ComesFirst(ranked[i], ranked[j], collate, oldestFirst) {
      assert Ranking(collate, oldestFirst)(ranked[i], ranked[j]);
      RanksBeforeMeans(ranked[i], ranked[j], collate, oldestFirst);
    }
  }
}
