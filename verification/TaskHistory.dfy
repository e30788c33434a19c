/** src/domain/orchestrator.ts: what histories of worker cycles and of people at work keep, whichever workers run. */
module TaskHistory {
  import opened Common
  import opened CommentLog
  import opened ReviewFeedback
  import opened TaskRules
  import opened CycleRules
  import TaskIntake

  // ---------------------------------------------------------------------------------------------
  // Many cycles of many workers
  // ---------------------------------------------------------------------------------------------

  /** What happened to the tracker: a cycle of a worker, or people at work. */
  datatype Turn =
    | CycleTurn(worker: string, log: CycleLog, after: map<string, Issue>)
    | EditTurn(after: map<string, Issue>)

  function StateAfter(start: map<string, Issue>, turns: seq<Turn>): map<string, Issue> {
    if turns == [] then start else turns[|turns| - 1].after
  }

  /** Turns of any number of workers and people, each starting where the one before it ended. */
  ghost predicate IsHistory(start: map<string, Issue>, turns: seq<Turn>, fingerprint: Fingerprint) {
    turns == [] ||
    (var init, last := turns[..|turns| - 1], turns[|turns| - 1];
     && IsHistory(start, init, fingerprint)
     && (last.CycleTurn? ==> IsCycle(last.worker, fingerprint, StateAfter(start, init), last.after, last.log)))
  }

  /** People do anything to other issues; this one they may comment on, without touching status or hold. */
  ghost predicate NobodyLiftsHold(start: map<string, Issue>, turns: seq<Turn>, key: string) {
    turns == [] ||
    (var init, last := turns[..|turns| - 1], turns[|turns| - 1];
     var before := StateAfter(start, init);
     && NobodyLiftsHold(start, init, key)
     && (last.EditTurn? && key in before ==>
           && key in last.after && last.after[key].status == before[key].status
           && FindLatestStatus(last.after[key].comments) == FindLatestStatus(before[key].comments)))
  }

  lemma CycleKeepsHeld(
    worker: string, fingerprint: Fingerprint, before: map<string, Issue>, after: map<string, Issue>, log: CycleLog,
    key: string)
    requires IsCycle(worker, fingerprint, before, after, log)
    requires key in before && IsHeld(before[key])
    ensures key !in log.picked && key in after && after[key] == before[key]
  {
    assert !IsSelectable(before[key], worker);
    assert IsCycleOn(worker, fingerprint, key, before[key], after[key], At(log.record, key), At(log.review, key));
  }

  /** Turn `i` is not a cycle that picked or changed the issue. */
  ghost predicate IsSparedAt(start: map<string, Issue>, turns: seq<Turn>, key: string, i: nat)
    requires i < |turns|
  {
    turns[i].CycleTurn? ==>
      var before, after := StateAfter(start, turns[..i]), turns[i].after;
      key !in turns[i].log.picked && key in before && key in after && after[key] == before[key]
  }

  /** Until somebody lifts the hold, no cycle of any worker picks or changes a held issue. */
  lemma {:induction false} HeldIsNeverPickedAgain(
    start: map<string, Issue>, turns: seq<Turn>, fingerprint: Fingerprint, key: string)
    requires IsHistory(start, turns, fingerprint) && NobodyLiftsHold(start, turns, key)
    requires key in start && IsHeld(start[key])
    ensures forall i :: 0 <= i < |turns| ==> IsSparedAt(start, turns, key, i)
    ensures key in StateAfter(start, turns) && IsHeld(StateAfter(start, turns)[key])
  {
    if turns != [] {
      var n := |turns| - 1;
      var init, last := turns[..n], turns[n];
      HeldIsNeverPickedAgain(start, init, fingerprint, key);
      if last.CycleTurn? {
        CycleKeepsHeld(last.worker, fingerprint, StateAfter(start, init), last.after, last.log, key);
      }
      forall i | 0 <= i < n ensures IsSparedAt(start, turns, key, i) {
        assert IsSparedAt(start, init, key, i);
        assert init[..i] == turns[..i];
      }
    }
  }

  // ---------------------------------------------------------------------------------------------
  // Review notes over many cycles
  // ---------------------------------------------------------------------------------------------

  /** People leave the review metadata of this issue alone. */
  ghost predicate NobodyForgesReviews(start: map<string, Issue>, turns: seq<Turn>, key: string) {
    turns == [] ||
    (var init, last := turns[..|turns| - 1], turns[|turns| - 1];
     var before := StateAfter(start, init);
     && NobodyForgesReviews(start, init, key)
     && (last.EditTurn? && key in before ==>
           key in last.after && ReviewsIn(last.after[key].comments) == ReviewsIn(before[key].comments)))
  }

  /** The notes the recorded review-fix cycles of one merge request handed to Codex, cycle by cycle, each
      computed from the comments that cycle read. */
  ghost function HandedBy(start: map<string, Issue>, turns: seq<Turn>, key: string, iid: int): seq<seq<int>> {
    if turns == [] then []
    else
      var init, last := turns[..|turns| - 1], turns[|turns| - 1];
      var before := StateAfter(start, init);
      var handed := HandedBy(start, init, key, iid);
      var record := if last.CycleTurn? then At(last.log.record, key) else None;
      if record.Some? && record.value.iid == iid && key in before
      then handed + [AllNoteIds(ShownBy(record.value, key, before[key].comments))]
      else handed
  }

  /** The review metadata of a merge request as the comments show it, with what was handed to Codex so far. */
  ghost function ReviewWorld(start: map<string, Issue>, turns: seq<Turn>, key: string, iid: int): World
    requires key in StateAfter(start, turns)
  {
    World([], FindLatestReviewMetadata(StateAfter(start, turns)[key].comments, key, iid), HandedBy(start, turns, key, iid))
  }

  /** A cycle that records a review of the merge request is one step of the review-fix model; any other leaves
      the metadata of the merge request as it is. */
  lemma RecordIsCycle(
    worker: string, key: string, before: Issue, after: Issue, record: Option<ReviewRecord>, iid: int, handed: seq<seq<int>>)
    requires Records(worker, key, before.comments, before, after, record)
    ensures var metadata := FindLatestReviewMetadata(after.comments, key, iid);
            if record.Some? && record.value.iid == iid then
              var w := World(record.value.discussions, FindLatestReviewMetadata(before.comments, key, iid), handed);
              var w' := ReviewFeedback.Apply(w, Cycle(worker, record.value.me, record.value.commit), key, iid);
              w'.metadata == metadata
              && w'.handed == handed + [AllNoteIds(ShownBy(record.value, key, before.comments))]
            else metadata == FindLatestReviewMetadata(before.comments, key, iid)
  {
    LatestReviewOfLog(before.comments, key, iid);
    LatestReviewOfLog(after.comments, key, iid);
    if record.Some? {
      var reviews := ReviewsIn(after.comments);
      assert reviews[..|reviews| - 1] == ReviewsIn(before.comments);
    }
  }

  lemma {:induction false} HistoryKeepsReviews(
    start: map<string, Issue>, turns: seq<Turn>, fingerprint: Fingerprint, key: string, iid: int)
    requires IsHistory(start, turns, fingerprint) && NobodyForgesReviews(start, turns, key)
    requires key in start && FindLatestReviewMetadata(start[key].comments, key, iid).None?
    ensures key in StateAfter(start, turns) && CycleInvariant(ReviewWorld(start, turns, key, iid))
  {
    if turns != [] {
      var n := |turns| - 1;
      var init, last := turns[..n], turns[n];
      HistoryKeepsReviews(start, init, fingerprint, key, iid);
      var before := StateAfter(start, init);
      var w := ReviewWorld(start, init, key, iid);
      if last.CycleTurn? {
        var record := At(last.log.record, key);
        assert IsCycleOn(last.worker, fingerprint, key, before[key], last.after[key], record, At(last.log.review, key));
        RecordIsCycle(last.worker, key, before[key], last.after[key], record, iid, w.handed);
        if record.Some? && record.value.iid == iid {
          StepKeepsInvariant(w.(discussions := record.value.discussions),
                             Cycle(last.worker, record.value.me, record.value.commit), key, iid);
        }
      } else {
        LatestReviewOfLog(before[key].comments, key, iid);
        LatestReviewOfLog(last.after[key].comments, key, iid);
      }
    }
  }

  /** Over any history of workers and people: no note of a merge request is handed to Codex by two recorded
      review-fix cycles, whichever workers ran them, and the next cycle, going by the comments as they are
      now, is handed exactly the unanswered notes no recorded cycle was handed. */
  lemma ReviewsHandedOnceOverHistory(
    start: map<string, Issue>, turns: seq<Turn>, fingerprint: Fingerprint, key: string, iid: int)
    requires IsHistory(start, turns, fingerprint) && NobodyForgesReviews(start, turns, key)
    requires key in start && FindLatestReviewMetadata(start[key].comments, key, iid).None?
    ensures var handed := HandedBy(start, turns, key, iid);
            forall i, j, id :: 0 <= i < j < |handed| && id in handed[i] ==> id !in handed[j]
    ensures key in StateAfter(start, turns)
    ensures var metadata := FindLatestReviewMetadata(StateAfter(start, turns)[key].comments, key, iid);
            && (forall id :: id in NoteIdsOf(metadata) <==> Handed(HandedBy(start, turns, key, iid), id))
            && forall ds: seq<Discussion>, me, id ::
                 id in AllNoteIds(FindPendingReviewDiscussions(ds, me, metadata)) <==>
                 Unanswered(ds, me, NoteIdsOf(metadata), id)
  {
    HistoryKeepsReviews(start, turns, fingerprint, key, iid);
    var w := ReviewWorld(start, turns, key, iid);
    forall me {
      InvariantMeansExactlyOnce(w, me);
    }
  }

  // ---------------------------------------------------------------------------------------------
  // Task reviews over many cycles
  // ---------------------------------------------------------------------------------------------

  /** People edit the issue and its comments as they like, but leave the workers' reviews of it alone. */
  ghost predicate NobodyForgesFingerprints(start: map<string, Issue>, turns: seq<Turn>, key: string) {
    turns == [] ||
    (var init, last := turns[..|turns| - 1], turns[|turns| - 1];
     var before := StateAfter(start, init);
     && NobodyForgesFingerprints(start, init, key)
     && (last.EditTurn? && key in before ==>
           && key in last.after
           && TaskIntake.FingerprintsOf(last.after[key].comments, key) ==
              TaskIntake.FingerprintsOf(before[key].comments, key)))
  }

  /** What Codex was shown for each review of the issue. */
  function ShownIn(turns: seq<Turn>, key: string): seq<TaskIntake.Shown> {
    if turns == [] then []
    else
      var init, last := ShownIn(turns[..|turns| - 1], key), turns[|turns| - 1];
      var review := if last.CycleTurn? then At(last.log.review, key) else None;
      if review.Some? then init + [review.value] else init
  }

  lemma {:induction false} HistoryKeepsFingerprints(
    start: map<string, Issue>, turns: seq<Turn>, fingerprint: Fingerprint, key: string)
    requires IsHistory(start, turns, fingerprint) && NobodyForgesFingerprints(start, turns, key)
    requires key in start && TaskIntake.FingerprintsOf(start[key].comments, key) == []
    ensures key in StateAfter(start, turns)
    ensures var reviews := TaskIntake.FingerprintsOf(StateAfter(start, turns)[key].comments, key);
            TaskIntake.CarriesShown(reviews, ShownIn(turns, key), fingerprint) && TaskIntake.ConsecutiveDiffer(reviews)
  {
    if turns != [] {
      var n := |turns| - 1;
      var init, last := turns[..n], turns[n];
      HistoryKeepsFingerprints(start, init, fingerprint, key);
      if last.CycleTurn? {
        var before := StateAfter(start, init);
        assert IsCycleOn(last.worker, fingerprint, key, before[key], last.after[key],
                         At(last.log.record, key), At(last.log.review, key));
        TaskIntake.ReviewedAppends(before[key].comments, last.after[key].comments, key, fingerprint,
                                   At(last.log.review, key), ShownIn(init, key));
      }
    }
  }

  /** Over any history of workers and people: every review on record carries the fingerprint of what Codex was
      shown for it, and two in a row were of sources that differ in more than order and service comments. */
  lemma TaskReviewsSawDifferentSources(
    start: map<string, Issue>, turns: seq<Turn>, fingerprint: Fingerprint, digest: TaskIntake.Payload -> string,
    key: string, i: nat)
    requires IsHistory(start, turns, fingerprint) && NobodyForgesFingerprints(start, turns, key)
    requires key in start && TaskIntake.FingerprintsOf(start[key].comments, key) == []
    requires TaskIntake.Digests(fingerprint, digest)
    requires i + 1 < |ShownIn(turns, key)| && TaskIntake.IdsIdentify(ShownIn(turns, key)[i].comments)
    ensures key in StateAfter(start, turns)
    ensures var reviews, shown := TaskIntake.FingerprintsOf(StateAfter(start, turns)[key].comments, key), ShownIn(turns, key);
            && |reviews| == |shown|
            && reviews[i] == fingerprint(shown[i].source, shown[i].comments)
            && !TaskIntake.SameSource(shown[i].source, shown[i].comments, shown[i + 1].source, shown[i + 1].comments)
  {
    HistoryKeepsFingerprints(start, turns, fingerprint, key);
    TaskIntake.ConsecutiveReviewsSawDifferentSources(
      TaskIntake.FingerprintsOf(StateAfter(start, turns)[key].comments, key), ShownIn(turns, key), fingerprint, digest, i);
  }
}
