/** src/domain/reviewFeedback.ts: which reviewer notes a review-fix cycle hands to Codex, and what it
    records as processed. */
module ReviewFeedback {
  import opened Common

  datatype Note = Note(id: int, author: string, isSystem: bool, position: Option<int>)

  datatype Discussion = Discussion(id: string, resolved: bool, notes: seq<Note>)

  datatype ReviewMetadata = ReviewMetadata(
    worker: string,
    issueKey: string,
    mergeRequestIid: int,
    processedDiscussionIds: seq<string>,
    processedNoteIds: seq<int>,
    lastFixCommit: int)

  predicate IsPendingReviewerNote(note: Note, me: string, processed: seq<int>) {
    !note.isSystem && note.author != me && note.id !in processed
  }

  function AnchorPosition(notes: seq<Note>): Option<int> {
    if notes == [] then None
    else notes[0].position.OrElse(AnchorPosition(notes[1..]))
  }

  /** The pending notes of a discussion, each carrying a position when the discussion has one. */
  function PendingNotes(notes: seq<Note>, me: string, processed: seq<int>, anchor: Option<int>): seq<Note> {
    if notes == [] then []
    else
      var rest := PendingNotes(notes[1..], me, processed, anchor);
      if IsPendingReviewerNote(notes[0], me, processed)
      then [notes[0].(position := notes[0].position.OrElse(anchor))] + rest
      else rest
  }

  function FilterPendingReviewNotes(
    d: Discussion, me: string, processedDiscussions: seq<string>, processed: seq<int>
  ): Option<Discussion> {
    if d.id in processedDiscussions && processed == [] then None
    else
      var notes := PendingNotes(d.notes, me, processed, AnchorPosition(d.notes));
      if notes == [] then None else Some(d.(notes := notes))
  }

  function PendingDiscussions(
    ds: seq<Discussion>, me: string, processedDiscussions: seq<string>, processed: seq<int>
  ): seq<Discussion> {
    if ds == [] then []
    else
      var rest := PendingDiscussions(ds[1..], me, processedDiscussions, processed);
      if ds[0].resolved then rest
      else
        match FilterPendingReviewNotes(ds[0], me, processedDiscussions, processed)
        case Some(d) => [d] + rest
        case None => rest
  }

  function DiscussionIdsOf(previous: Option<ReviewMetadata>): seq<string> {
    if previous.Some? then previous.value.processedDiscussionIds else []
  }

  function NoteIdsOf(previous: Option<ReviewMetadata>): seq<int> {
    if previous.Some? then previous.value.processedNoteIds else []
  }

  function FindPendingReviewDiscussions(
    ds: seq<Discussion>, me: string, previous: Option<ReviewMetadata>
  ): seq<Discussion> {
    PendingDiscussions(ds, me, DiscussionIdsOf(previous), NoteIdsOf(previous))
  }

  function IdsOfNotes(notes: seq<Note>): seq<int> {
    if notes == [] then [] else [notes[0].id] + IdsOfNotes(notes[1..])
  }

  function IdsOfDiscussions(ds: seq<Discussion>): seq<string> {
    if ds == [] then [] else [ds[0].id] + IdsOfDiscussions(ds[1..])
  }

  /** `discussions.flatMap(d => d.notes.map(n => n.id))`. */
  function AllNoteIds(ds: seq<Discussion>): seq<int> {
    if ds == [] then [] else IdsOfNotes(ds[0].notes) + AllNoteIds(ds[1..])
  }

  function MergeReviewMetadata(
    worker: string, issueKey: string, mergeRequestIid: int, previous: Option<ReviewMetadata>,
    discussions: seq<Discussion>, lastFixCommit: int
  ): ReviewMetadata {
    ReviewMetadata(worker, issueKey, mergeRequestIid,
                   Dedup(DiscussionIdsOf(previous) + IdsOfDiscussions(discussions)),
                   Dedup(NoteIdsOf(previous) + AllNoteIds(discussions)),
                   lastFixCommit)
  }

  // ---------------------------------------------------------------------------------------------
  // What "pending" means, without the filters
  // ---------------------------------------------------------------------------------------------

  /** Some unresolved discussion holds a reviewer note with this id that is not yet processed. */
  ghost predicate Unanswered(ds: seq<Discussion>, me: string, processed: seq<int>, id: int) {
    exists d, n :: OpenReviewerNote(ds, me, d, n) && n.id == id && id !in processed
  }

  ghost predicate OpenReviewerNote(ds: seq<Discussion>, me: string, d: Discussion, n: Note) {
    d in ds && n in d.notes && !d.resolved && !n.isSystem && n.author != me
  }

  /** Metadata that names processed discussions but no processed note: written by an older version. */
  predicate IsLegacy(previous: Option<ReviewMetadata>) {
    DiscussionIdsOf(previous) != [] && NoteIdsOf(previous) == []
  }

  lemma {:induction false} PendingNoteIds(
    notes: seq<Note>, me: string, processed: seq<int>, anchor: Option<int>, id: int)
    ensures id in IdsOfNotes(PendingNotes(notes, me, processed, anchor)) <==>
            exists n :: n in notes && n.id == id && IsPendingReviewerNote(n, me, processed)
  {
    if notes != [] {
      PendingNoteIds(notes[1..], me, processed, anchor, id);
      assert forall n :: n in notes <==> n == notes[0] || n in notes[1..];
    }
  }

  /** Exactly which note ids the filters hand over, legacy metadata included. */
  lemma {:induction false} PendingIdsExactly(
    ds: seq<Discussion>, me: string, processedDiscussions: seq<string>, processed: seq<int>, id: int)
    ensures id in AllNoteIds(PendingDiscussions(ds, me, processedDiscussions, processed)) <==>
            exists d, n :: OpenReviewerNote(ds, me, d, n) && n.id == id && id !in processed
                           && !(d.id in processedDiscussions && processed == [])
  {
    if ds != [] {
      var d0 := ds[0];
      PendingIdsExactly(ds[1..], me, processedDiscussions, processed, id);
      PendingNoteIds(d0.notes, me, processed, AnchorPosition(d0.notes), id);
      assert forall d :: d in ds <==> d == d0 || d in ds[1..];
      var dropped := d0.id in processedDiscussions && processed == [];
      var fromHead := exists n :: n in d0.notes && n.id == id && IsPendingReviewerNote(n, me, processed);
      if !d0.resolved && !dropped && fromHead {
        var n :| n in d0.notes && n.id == id && IsPendingReviewerNote(n, me, processed);
        assert OpenReviewerNote(ds, me, d0, n);
      }
      forall d, n | OpenReviewerNote(ds[1..], me, d, n)
        ensures OpenReviewerNote(ds, me, d, n)
      {
      }
      forall d, n | OpenReviewerNote(ds, me, d, n)
        ensures d == d0 || OpenReviewerNote(ds[1..], me, d, n)
      {
      }
    }
  }

  /** The pending set is the set of unanswered notes for every list of discussions, if and only if the
      metadata is not legacy. */
  lemma PendingIsUnansweredIffNotLegacy(me: string, previous: Option<ReviewMetadata>)
    ensures (forall ds: seq<Discussion>, id ::
               id in AllNoteIds(FindPendingReviewDiscussions(ds, me, previous)) <==>
               Unanswered(ds, me, NoteIdsOf(previous), id))
            <==> !IsLegacy(previous)
  {
    var pd, pn := DiscussionIdsOf(previous), NoteIdsOf(previous);
    if IsLegacy(previous) {
      var n := Note(0, me + "x", false, None);
      var d := Discussion(pd[0], false, [n]);
      assert n.author != me by { assert |n.author| == |me| + 1; }
      assert OpenReviewerNote([d], me, d, n);
      assert Unanswered([d], me, pn, 0);
      assert PendingDiscussions([d], me, pd, pn) == [];
      assert 0 !in AllNoteIds(FindPendingReviewDiscussions([d], me, previous));
    } else {
      forall ds: seq<Discussion>, id
        ensures id in AllNoteIds(FindPendingReviewDiscussions(ds, me, previous)) <==> Unanswered(ds, me, pn, id)
      {
        PendingIdsExactly(ds, me, pd, pn, id);
      }
    }
  }

  // ---------------------------------------------------------------------------------------------
  // Runs of review-fix cycles
  // ---------------------------------------------------------------------------------------------

  /** One merge request: its discussions, the latest metadata comment, and what every completed cycle
      handed to Codex. */
  datatype World = World(discussions: seq<Discussion>, metadata: Option<ReviewMetadata>, handed: seq<seq<int>>)

  datatype Step =
    | Edit(discussions: seq<Discussion>)  // reviewers add, resolve, reopen or delete anything
    | Cycle(worker: string, me: string, commit: int)  // a review-fix cycle that reaches its metadata comment

  function Apply(w: World, step: Step, key: string, iid: int): World {
    match step
    case Edit(ds) => w.(discussions := ds)
    case Cycle(worker, me, commit) =>
      var pending := FindPendingReviewDiscussions(w.discussions, me, w.metadata);
      if pending == [] then w
      else w.(metadata := Some(MergeReviewMetadata(worker, key, iid, w.metadata, pending, commit)),
              handed := w.handed + [AllNoteIds(pending)])
  }

  function Run(w: World, steps: seq<Step>, key: string, iid: int): World {
    if steps == [] then w else Apply(Run(w, steps[..|steps| - 1], key, iid), steps[|steps| - 1], key, iid)
  }

  function AllHanded(handed: seq<seq<int>>): set<int> {
    if handed == [] then {} else AllHanded(handed[..|handed| - 1]) + SetOf(handed[|handed| - 1])
  }

  /** Some cycle was handed this note. */
  ghost predicate Handed(handed: seq<seq<int>>, id: int) {
    exists i :: 0 <= i < |handed| && id in handed[i]
  }

  /** No cycle was handed a note that an earlier cycle was handed. */
  ghost predicate HandedOnce(handed: seq<seq<int>>) {
    handed == [] ||
    (var init, last := handed[..|handed| - 1], handed[|handed| - 1];
     HandedOnce(init) && AllHanded(init) !! SetOf(last))
  }

  lemma {:induction false} HandedOnceMeansDisjoint(handed: seq<seq<int>>, i: nat, j: nat, id: int)
    requires HandedOnce(handed)
    requires i < j < |handed| && id in handed[i]
    ensures id !in handed[j]
  {
    var n := |handed| - 1;
    if j == n {
      HandedIsCollected(handed[..n], i, id);
    } else {
      HandedOnceMeansDisjoint(handed[..n], i, j, id);
    }
  }

  lemma {:induction false} HandedIsCollected(handed: seq<seq<int>>, i: nat, id: int)
    requires i < |handed| && id in handed[i]
    ensures id in AllHanded(handed)
  {
    if i < |handed| - 1 {
      HandedIsCollected(handed[..|handed| - 1], i, id);
    }
  }

  ghost predicate CycleInvariant(w: World) {
    && !IsLegacy(w.metadata)
    && NoDuplicates(NoteIdsOf(w.metadata))
    && NoDuplicates(DiscussionIdsOf(w.metadata))
    && HandedOnce(w.handed)
    && SetOf(NoteIdsOf(w.metadata)) == AllHanded(w.handed)
  }

  lemma {:induction false} PendingHaveNotes(
    ds: seq<Discussion>, me: string, processedDiscussions: seq<string>, processed: seq<int>)
    ensures var p := PendingDiscussions(ds, me, processedDiscussions, processed);
            p != [] ==> AllNoteIds(p) != []
  {
    if ds != [] {
      PendingHaveNotes(ds[1..], me, processedDiscussions, processed);
    }
  }

  lemma SetOfDedup(a: seq<int>, b: seq<int>)
    ensures SetOf(Dedup(a + b)) == SetOf(a) + SetOf(b)
  {
    DedupMeans(a + b);
    forall x ensures x in SetOf(Dedup(a + b)) <==> x in SetOf(a) + SetOf(b) {
      assert x in Dedup(a + b) <==> x in a + b;
    }
  }

  lemma HandedMore(handed: seq<seq<int>>, ids: seq<int>)
    ensures HandedOnce(handed + [ids]) <==> HandedOnce(handed) && AllHanded(handed) !! SetOf(ids)
    ensures AllHanded(handed + [ids]) == AllHanded(handed) + SetOf(ids)
  {
    assert (handed + [ids])[..|handed|] == handed;
  }

  /** The notes of a pending set are new: no earlier cycle recorded them. */
  lemma PendingAreNew(ds: seq<Discussion>, me: string, previous: Option<ReviewMetadata>)
    ensures SetOf(NoteIdsOf(previous)) !! SetOf(AllNoteIds(FindPendingReviewDiscussions(ds, me, previous)))
  {
    forall id | id in AllNoteIds(FindPendingReviewDiscussions(ds, me, previous)) ensures id !in NoteIdsOf(previous) {
      PendingIdsExactly(ds, me, DiscussionIdsOf(previous), NoteIdsOf(previous), id);
    }
  }

  /** Every step keeps the invariant, and processed ids only grow, as prefixes. */
  lemma StepKeepsInvariant(w: World, step: Step, key: string, iid: int)
    requires CycleInvariant(w)
    ensures CycleInvariant(Apply(w, step, key, iid))
    ensures NoteIdsOf(w.metadata) <= NoteIdsOf(Apply(w, step, key, iid).metadata)
    ensures DiscussionIdsOf(w.metadata) <= DiscussionIdsOf(Apply(w, step, key, iid).metadata)
  {
    if step.Cycle? {
      var pending := FindPendingReviewDiscussions(w.discussions, step.me, w.metadata);
      if pending != [] {
        PendingAreNew(w.discussions, step.me, w.metadata);
        PendingHaveNotes(w.discussions, step.me, DiscussionIdsOf(w.metadata), NoteIdsOf(w.metadata));
        MergeKeepsInvariant(w, pending, step.worker, key, iid, step.commit);
      }
    }
  }

  lemma MergeKeepsInvariant(
    w: World, pending: seq<Discussion>, worker: string, key: string, iid: int, commit: int)
    requires CycleInvariant(w)
    requires AllNoteIds(pending) != [] && SetOf(NoteIdsOf(w.metadata)) !! SetOf(AllNoteIds(pending))
    ensures var merged := Some(MergeReviewMetadata(worker, key, iid, w.metadata, pending, commit));
            && CycleInvariant(w.(metadata := merged, handed := w.handed + [AllNoteIds(pending)]))
            && NoteIdsOf(w.metadata) <= NoteIdsOf(merged)
            && DiscussionIdsOf(w.metadata) <= DiscussionIdsOf(merged)
  {
    var ids := AllNoteIds(pending);
    DedupKeepsPrefix(NoteIdsOf(w.metadata), ids);
    DedupKeepsPrefix(DiscussionIdsOf(w.metadata), IdsOfDiscussions(pending));
    SetOfDedup(NoteIdsOf(w.metadata), ids);
    DedupMeans(NoteIdsOf(w.metadata) + ids);
    DedupMeans(DiscussionIdsOf(w.metadata) + IdsOfDiscussions(pending));
    HandedMore(w.handed, ids);
    assert ids[0] in SetOf(ids);
  }

  lemma {:induction false} RunKeepsInvariant(w: World, steps: seq<Step>, key: string, iid: int)
    requires CycleInvariant(w)
    ensures CycleInvariant(Run(w, steps, key, iid))
    ensures NoteIdsOf(w.metadata) <= NoteIdsOf(Run(w, steps, key, iid).metadata)
  {
    if steps != [] {
      var init := steps[..|steps| - 1];
      RunKeepsInvariant(w, init, key, iid);
      StepKeepsInvariant(Run(w, init, key, iid), steps[|steps| - 1], key, iid);
    }
  }

  /** While the invariant holds, no note was handed to Codex twice, and whoever looks next is handed exactly
      the notes nobody has answered, answered meaning handed over before. */
  lemma InvariantMeansExactlyOnce(w: World, me: string)
    requires CycleInvariant(w)
    ensures forall i, j, id :: 0 <= i < j < |w.handed| && id in w.handed[i] ==> id !in w.handed[j]
    ensures forall ds: seq<Discussion>, id ::
              id in AllNoteIds(FindPendingReviewDiscussions(ds, me, w.metadata)) <==>
              Unanswered(ds, me, NoteIdsOf(w.metadata), id)
    ensures forall id :: id in NoteIdsOf(w.metadata) <==> Handed(w.handed, id)
  {
    forall i, j, id | 0 <= i < j < |w.handed| && id in w.handed[i] ensures id !in w.handed[j] {
      HandedOnceMeansDisjoint(w.handed, i, j, id);
    }
    PendingIsUnansweredIffNotLegacy(me, w.metadata);
    forall id ensures id in NoteIdsOf(w.metadata) <==> Handed(w.handed, id) {
      AllHandedMeans(w.handed, id);
      assert id in NoteIdsOf(w.metadata) <==> id in SetOf(NoteIdsOf(w.metadata));
    }
  }

  lemma {:induction false} AllHandedMeans(handed: seq<seq<int>>, id: int)
    ensures id in AllHanded(handed) <==> Handed(handed, id)
  {
    if handed != [] {
      AllHandedMeans(handed[..|handed| - 1], id);
    }
  }

  /** From no metadata, whatever the reviewers do between cycles: no note is handed to Codex by two
      completed cycles, and the next cycle is handed exactly the unanswered notes. */
  lemma ReviewNotesHandedExactlyOnce(ds: seq<Discussion>, steps: seq<Step>, me: string, key: string, iid: int)
    ensures var w := Run(World(ds, None, []), steps, key, iid);
            && (forall i, j, id :: 0 <= i < j < |w.handed| && id in w.handed[i] ==> id !in w.handed[j])
            && forall id ::
                 id in AllNoteIds(FindPendingReviewDiscussions(w.discussions, me, w.metadata)) <==>
                 Unanswered(w.discussions, me, NoteIdsOf(w.metadata), id)
  {
    RunKeepsInvariant(World(ds, None, []), steps, key, iid);
    InvariantMeansExactlyOnce(Run(World(ds, None, []), steps, key, iid), me);
  }

  /** Without legacy metadata a cycle empties its own pending set: run again on unchanged discussions it
      finds nothing. */
  lemma NothingPendingAfterCycle(w: World, worker: string, commit: int, me: string, key: string, iid: int)
    requires !IsLegacy(w.metadata)
    ensures var w' := Apply(w, Cycle(worker, me, commit), key, iid);
            FindPendingReviewDiscussions(w'.discussions, me, w'.metadata) == []
  {
    var w' := Apply(w, Cycle(worker, me, commit), key, iid);
    var pd, pn := DiscussionIdsOf(w.metadata), NoteIdsOf(w.metadata);
    var pd', pn' := DiscussionIdsOf(w'.metadata), NoteIdsOf(w'.metadata);
    var again := FindPendingReviewDiscussions(w'.discussions, me, w'.metadata);
    PendingHaveNotes(w.discussions, me, pd', pn');
    DedupMeans(pn + AllNoteIds(FindPendingReviewDiscussions(w.discussions, me, w.metadata)));
    if again != [] {
      var id := AllNoteIds(again)[0];
      PendingIdsExactly(w.discussions, me, pd', pn', id);
      PendingIdsExactly(w.discussions, me, pd, pn, id);
      assert false;
    }
  }

  /** With legacy metadata it need not: the notes the legacy test hid surface in the next cycle. */
  lemma LegacyCycleLeavesPending(
    previous: ReviewMetadata, worker: string, me: string, key: string, iid: int, commit: int)
    requires IsLegacy(Some(previous))
    ensures exists ds: seq<Discussion> ::
              var w' := Apply(World(ds, Some(previous), []), Cycle(worker, me, commit), key, iid);
              FindPendingReviewDiscussions(w'.discussions, me, w'.metadata) != []
  {
    var pd := previous.processedDiscussionIds;
    var other := FreshId(pd);
    var hidden := Discussion(pd[0], false, [Note(0, me + "x", false, None)]);
    var shown := Discussion(other, false, [Note(1, me + "x", false, None)]);
    assert me + "x" != me by { assert |me + "x"| == |me| + 1; }
    var ds := [hidden, shown];
    var w := World(ds, Some(previous), []);
    var w' := Apply(w, Cycle(worker, me, commit), key, iid);
    PendingIdsExactly(ds, me, pd, [], 1);
    assert OpenReviewerNote(ds, me, shown, shown.notes[0]);
    PendingIdsExactly(ds, me, pd, [], 0);
    assert 0 !in AllNoteIds(FindPendingReviewDiscussions(ds, me, w.metadata)) by {
      assert forall d, n :: OpenReviewerNote(ds, me, d, n) && n.id == 0 ==> d.id == pd[0];
    }
    var pending := FindPendingReviewDiscussions(ds, me, w.metadata);
    assert pending != [];
    DedupMeans([] + AllNoteIds(pending));
    assert 1 in NoteIdsOf(w'.metadata) && 0 !in NoteIdsOf(w'.metadata);
    PendingIdsExactly(ds, me, DiscussionIdsOf(w'.metadata), NoteIdsOf(w'.metadata), 0);
    assert OpenReviewerNote(ds, me, hidden, hidden.notes[0]);
  }

  /** A string longer than every string of a list. */
  function FreshId(ids: seq<string>): (r: string)
    ensures forall id :: id in ids ==> |id| < |r|
  {
    if ids == [] then "x" else
      var rest := FreshId(ids[1..]);
      if |ids[0]| < |rest| then rest else ids[0] + "x"
  }
}
