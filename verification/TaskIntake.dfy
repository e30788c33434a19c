/** src/domain/taskIntakeReview.ts and the intake review of src/domain/orchestrator.ts: the fingerprint of an
    issue's source, and a worker that reviews every version of the source at most once. */
module TaskIntake {
  import opened Common
  import opened Text
  import opened Sorting
  import opened CommentLog

  datatype HumanComment = HumanComment(id: string, text: string, createdAt: string, author: string)

  datatype Payload = Payload(
    title: string,
    description: string,
    queue: string,
    tags: seq<string>,
    priority: string,
    deadline: string,
    components: seq<string>,
    humanComments: seq<HumanComment>)

  predicate IsHuman(c: Comment) {
    c.PlainComment? && !c.isSystem
  }

  function ToHuman(c: Comment): HumanComment
    requires IsHuman(c)
  {
    HumanComment(c.remark.id, Trim(c.remark.text), c.remark.createdAt, c.remark.author.GetOr(""))
  }

  /** `comments.filter(...).map(...)`. */
  function HumanComments(comments: seq<Comment>): seq<HumanComment> {
    if comments == [] then []
    else if IsHuman(comments[0]) then [ToHuman(comments[0])] + HumanComments(comments[1..])
    else HumanComments(comments[1..])
  }

  /** What a person writes, a command included, is one more of them. */
  lemma {:induction false} WrittenCommentCounts(comments: seq<Comment>, command: Option<Command>, remark: Remark)
    ensures HumanComments(comments + [PlainComment(false, command, remark)]) ==
            HumanComments(comments) + [HumanComment(remark.id, Trim(remark.text), remark.createdAt, remark.author.GetOr(""))]
  {
    var more := comments + [PlainComment(false, command, remark)];
    if comments != [] {
      WrittenCommentCounts(comments[1..], command, remark);
      assert more[1..] == comments[1..] + [PlainComment(false, command, remark)];
    }
  }

  predicate CommentLe(a: HumanComment, b: HumanComment) {
    if a.createdAt != b.createdAt then StringLe(a.createdAt, b.createdAt) else StringLe(a.id, b.id)
  }

  function SortStrings(values: Option<seq<string>>): seq<string> {
    Sort(values.GetOr([]), StringLe)
  }

  /** What the fingerprint hashes. */
  function PayloadOf(source: Source, comments: seq<Comment>): Payload {
    Payload(
      source.title,
      source.description,
      source.queue.GetOr(""),
      SortStrings(source.tags),
      source.priority.GetOr(""),
      source.deadline.GetOr(""),
      SortStrings(source.components),
      Sort(HumanComments(comments), CommentLe))
  }

  // ---------------------------------------------------------------------------------------------
  // What the fingerprint tells apart
  // ---------------------------------------------------------------------------------------------

  /** No two different human comments share an id. */
  ghost predicate IdsIdentify(comments: seq<Comment>) {
    forall a, b :: a in HumanComments(comments) && b in HumanComments(comments) && a.id == b.id ==> a == b
  }

  /** The same source, up to the order of tags, components and comments, and up to comments nobody wrote. */
  ghost predicate SameSource(s1: Source, cs1: seq<Comment>, s2: Source, cs2: seq<Comment>) {
    && s1.title == s2.title && s1.description == s2.description
    && s1.queue.GetOr("") == s2.queue.GetOr("")
    && s1.priority.GetOr("") == s2.priority.GetOr("")
    && s1.deadline.GetOr("") == s2.deadline.GetOr("")
    && multiset(s1.tags.GetOr([])) == multiset(s2.tags.GetOr([]))
    && multiset(s1.components.GetOr([])) == multiset(s2.components.GetOr([]))
    && multiset(HumanComments(cs1)) == multiset(HumanComments(cs2))
  }

  lemma CommentOrderIsTotal()
    ensures IsTotalOrder(CommentLe)
  {
    StringOrderIsTotal();
    forall a, b ensures CommentLe(a, b) || CommentLe(b, a) {
      StringLeTotal(a.createdAt, b.createdAt);
      StringLeTotal(a.id, b.id);
    }
    forall a, b, c | CommentLe(a, b) && CommentLe(b, c) ensures CommentLe(a, c) {
      CommentLeTransitive(a, b, c);
    }
  }

  lemma CommentLeTransitive(a: HumanComment, b: HumanComment, c: HumanComment)
    requires CommentLe(a, b) && CommentLe(b, c)
    ensures CommentLe(a, c)
  {
    if a.createdAt == b.createdAt && b.createdAt == c.createdAt {
      StringLeTransitive(a.id, b.id, c.id);
    } else if a.createdAt != b.createdAt && b.createdAt != c.createdAt {
      StringLeTransitive(a.createdAt, b.createdAt, c.createdAt);
      StringLeTotal(a.createdAt, b.createdAt);
    }
  }

  lemma CommentsDoNotTie(comments: seq<Comment>)
    requires IdsIdentify(comments)
    ensures TiesNothing(CommentLe, HumanComments(comments))
  {
    forall a, b | a in HumanComments(comments) && b in HumanComments(comments) && CommentLe(a, b) && CommentLe(b, a)
      ensures a == b
    {
      StringLeTotal(a.createdAt, b.createdAt);
      StringLeTotal(a.id, b.id);
    }
  }

  lemma SortedStringsIff(a: seq<string>, b: seq<string>)
    ensures Sort(a, StringLe) == Sort(b, StringLe) <==> multiset(a) == multiset(b)
  {
    StringOrderIsTotal();
    SortSorts(a, StringLe);
    SortSorts(b, StringLe);
    if multiset(a) == multiset(b) {
      assert TiesNothing(StringLe, a);
      SortForgetsOrder(a, b, StringLe);
    }
  }

  /** Two sources have the same payload exactly when they are the same up to order. */
  lemma SamePayloadIff(s1: Source, cs1: seq<Comment>, s2: Source, cs2: seq<Comment>)
    requires IdsIdentify(cs1)
    ensures PayloadOf(s1, cs1) == PayloadOf(s2, cs2) <==> SameSource(s1, cs1, s2, cs2)
  {
    SortedStringsIff(s1.tags.GetOr([]), s2.tags.GetOr([]));
    SortedStringsIff(s1.components.GetOr([]), s2.components.GetOr([]));
    CommentOrderIsTotal();
    SortSorts(HumanComments(cs1), CommentLe);
    SortSorts(HumanComments(cs2), CommentLe);
    if multiset(HumanComments(cs1)) == multiset(HumanComments(cs2)) {
      CommentsDoNotTie(cs1);
      SortForgetsOrder(HumanComments(cs1), HumanComments(cs2), CommentLe);
    }
  }

  lemma {:induction false} HumanCommentsConcat(a: seq<Comment>, b: seq<Comment>)
    ensures HumanComments(a + b) == HumanComments(a) + HumanComments(b)
  {
    if a == [] {
      assert a + b == b;
    } else {
      HumanCommentsConcat(a[1..], b);
      assert (a + b)[1..] == a[1..] + b;
    }
  }

  /** A service or system comment leaves the payload as it is, wherever it is inserted. */
  lemma ServiceCommentsDoNotCount(source: Source, before: seq<Comment>, c: Comment, after: seq<Comment>)
    requires !IsHuman(c)
    ensures PayloadOf(source, before + [c] + after) == PayloadOf(source, before + after)
  {
    HumanCommentsConcat(before + [c], after);
    HumanCommentsConcat(before, [c]);
    HumanCommentsConcat(before, after);
    assert HumanComments([c]) == [] && HumanComments(before) + [] == HumanComments(before);
  }

  /** Permuting the comments leaves it as it is, when ids identify comments. */
  lemma PermutedCommentsDoNotCount(source: Source, a: seq<Comment>, b: seq<Comment>)
    requires multiset(a) == multiset(b) && IdsIdentify(a)
    ensures PayloadOf(source, a) == PayloadOf(source, b)
  {
    HumanCommentsPermute(a, b);
    SamePayloadIff(source, a, source, b);
  }

  lemma {:induction false} HumanCommentsPermute(a: seq<Comment>, b: seq<Comment>)
    requires multiset(a) == multiset(b)
    ensures multiset(HumanComments(a)) == multiset(HumanComments(b))
    decreases |a|
  {
    assert |multiset(a)| == |multiset(b)|;
    if a != [] {
      assert a[0] in multiset(b);
      var i :| 0 <= i < |b| && b[i] == a[0];
      MultisetOfTail(a);
      MultisetWithout(b, i);
      HumanCommentsPermute(a[1..], b[..i] + b[i + 1..]);
      HumanCommentsWithout(b, i);
    }
  }

  lemma MultisetWithout<T>(b: seq<T>, i: nat)
    requires i < |b|
    ensures multiset(b[..i] + b[i + 1..]) == multiset(b) - multiset{b[i]}
  {
    assert b == b[..i] + [b[i]] + b[i + 1..];
  }

  /** Taking a comment out takes its human comment out, if it has one. */
  lemma HumanCommentsWithout(b: seq<Comment>, i: nat)
    requires i < |b|
    ensures multiset(HumanComments(b)) ==
            multiset(HumanComments(b[..i] + b[i + 1..])) + if IsHuman(b[i]) then multiset{ToHuman(b[i])} else multiset{}
  {
    assert b == b[..i] + b[i..] && b[i..][1..] == b[i + 1..];
    HumanCommentsConcat(b[..i], b[i..]);
    HumanCommentsConcat(b[..i], b[i + 1..]);
  }

  // ---------------------------------------------------------------------------------------------
  // The worker
  // ---------------------------------------------------------------------------------------------

  predicate IsReview(c: Comment, key: string) {
    c.TaskReviewComment? && c.issueKey == key
  }

  /** The fingerprints of the reviews of the issue, oldest first. */
  function FingerprintsOf(comments: seq<Comment>, key: string): seq<string> {
    if comments == [] then []
    else
      var rest := FingerprintsOf(comments[..|comments| - 1], key);
      var last := comments[|comments| - 1];
      if IsReview(last, key) then rest + [last.fingerprint] else rest
  }

  function FindLatestTaskIntakeReview(comments: seq<Comment>, key: string): (r: Option<string>)
    ensures var all := FingerprintsOf(comments, key);
            r == if all == [] then None else Some(all[|all| - 1])
  {
    if comments == [] then None
    else
      var last := comments[|comments| - 1];
      if IsReview(last, key) then Some(last.fingerprint)
      else FindLatestTaskIntakeReview(comments[..|comments| - 1], key)
  }

  lemma FingerprintsAppend(comments: seq<Comment>, c: Comment, key: string)
    ensures FingerprintsOf(comments + [c], key) ==
            if IsReview(c, key) then FingerprintsOf(comments, key) + [c.fingerprint] else FingerprintsOf(comments, key)
  {
    assert (comments + [c])[..|comments|] == comments;
  }

  /** What Codex was shown for a review that was posted. */
  datatype Shown = Shown(source: Source, comments: seq<Comment>)

  ghost predicate CarriesShown(reviews: seq<string>, shown: seq<Shown>, fingerprint: (Source, seq<Comment>) -> string) {
    |shown| == |reviews|
    && forall i :: 0 <= i < |reviews| ==> reviews[i] == fingerprint(shown[i].source, shown[i].comments)
  }

  ghost predicate ConsecutiveDiffer(reviews: seq<string>) {
    forall i :: 0 <= i < |reviews| - 1 ==> reviews[i] != reviews[i + 1]
  }

  /** What a review leaves on record: nothing, or the fingerprint of what Codex was shown, when the review
      before it had another. */
  ghost predicate IsReviewed(
    before: seq<Comment>, after: seq<Comment>, key: string, fingerprint: (Source, seq<Comment>) -> string,
    review: Option<Shown>)
  {
    match review
    case None => FingerprintsOf(after, key) == FingerprintsOf(before, key)
    case Some(s) =>
      && FingerprintsOf(after, key) == FingerprintsOf(before, key) + [fingerprint(s.source, s.comments)]
      && FindLatestTaskIntakeReview(before, key) != Some(fingerprint(s.source, s.comments))
  }

  lemma ReviewedAppends(
    before: seq<Comment>, after: seq<Comment>, key: string, fingerprint: (Source, seq<Comment>) -> string,
    review: Option<Shown>, shown: seq<Shown>)
    requires IsReviewed(before, after, key, fingerprint, review)
    requires CarriesShown(FingerprintsOf(before, key), shown, fingerprint) && ConsecutiveDiffer(FingerprintsOf(before, key))
    ensures CarriesShown(FingerprintsOf(after, key), if review.Some? then shown + [review.value] else shown, fingerprint)
    ensures ConsecutiveDiffer(FingerprintsOf(after, key))
  {
  }

  datatype Outcome = Processed | Idle

  class IntakeReviewer {
    const worker: string
    const key: string
    const fingerprint: (Source, seq<Comment>) -> string

    var source: Source
    var comments: seq<Comment>

    constructor (
      worker: string, key: string, fingerprint: (Source, seq<Comment>) -> string, source: Source, comments: seq<Comment>)
      ensures this.worker == worker && this.key == key && this.fingerprint == fingerprint
      ensures this.source == source && this.comments == comments
    {
      this.worker, this.key, this.fingerprint, this.source, this.comments := worker, key, fingerprint, source, comments;
    }

    /** Reviews, of the task and of merge requests, are as they were. */
    twostate predicate KeepsReviews()
      reads this`comments
    {
      && FingerprintsOf(comments, key) == FingerprintsOf(old(comments), key)
      && ReviewsIn(comments) == ReviewsIn(old(comments))
    }

    /** Unless all is quiet, anybody edits the issue, or adds, edits, deletes or reorders comments; the
        reviews stay. */
    method Edit(quiet: bool)
      modifies this`source, this`comments
      ensures KeepsReviews()
      ensures quiet ==> source == old(source) && comments == old(comments)
    {
      var edited: seq<Comment> := *;
      if !quiet && FingerprintsOf(edited, key) == FingerprintsOf(comments, key) && ReviewsIn(edited) == ReviewsIn(comments) {
        source, comments := *, edited;
      }
    }

    /** `getIssue`, `getComments`: two reads, edits before and between them. */
    method Load(quiet: bool) returns (issue: Source, log: seq<Comment>)
      modifies this`source, this`comments
      ensures KeepsReviews() && FingerprintsOf(log, key) == FingerprintsOf(comments, key)
      ensures quiet ==> issue == source == old(source) && log == comments == old(comments)
    {
      Edit(quiet);
      issue := source;
      Edit(quiet);
      log := comments;
    }

    /** A failing call may have landed. */
    method Post(posted: string, answer: Result<()>) returns (r: Result<()>)
      modifies this`comments
      ensures r == answer && ReviewsIn(comments) == ReviewsIn(old(comments))
      ensures (r.Err? && comments == old(comments))
              || FingerprintsOf(comments, key) == FingerprintsOf(old(comments), key) + [posted]
    {
      var landed: bool := *;
      r := answer;
      if landed || r.Ok? {
        var c := TaskReviewComment(worker, key, posted);
        FingerprintsAppend(comments, c, key);
        ReviewsAppend(comments, c);
        comments := comments + [c];
      }
    }

    /** What a review nobody interferes with comes to: `eligible` is what the status, queue and tag checks say
        of the last read, `codex` and `post` how the two calls fare. */
    static function QuietResult(changed: bool, eligible: bool, codex: Result<()>, post: Result<()>): Result<Outcome> {
      if !changed then Ok(Idle)
      else if codex.Err? then Err(codex.error)
      else if !eligible then Ok(Idle)
      else if post.Err? then Err(post.error)
      else Ok(Processed)
    }

    /** The latest review saw another version. */
    predicate IsChanged()
      reads this`source, this`comments
    {
      FindLatestTaskIntakeReview(comments, key) != Some(fingerprint(source, comments))
    }

    /** A review of an issue that was picked, with edits at any time unless all is quiet. */
    method ReviewPicked(eligible: bool, quiet: bool, codex: Result<()>, post: Result<()>)
      returns (r: Result<Outcome>, ghost review: Option<Shown>)
      modifies this
      ensures IsReviewed(old(comments), comments, key, fingerprint, review)
      ensures ReviewsIn(comments) == ReviewsIn(old(comments))
      ensures r.Ok? ==> (r.value == Processed <==> review.Some?)
      ensures r == Ok(Processed) ==> eligible
      ensures quiet ==> r == QuietResult(old(IsChanged()), eligible, codex, post)
      ensures quiet && review.Some? ==> review.value == Shown(old(source), old(comments))
    {
      review := None;
      var promptIssue, promptLog := Load(quiet);
      var promptFingerprint := fingerprint(promptIssue, promptLog);
      if FindLatestTaskIntakeReview(promptLog, key) == Some(promptFingerprint) {
        return Ok(Idle), review;
      }
      // Codex reviews promptIssue and promptLog here.
      if codex.Err? {
        return Err(codex.error), review;
      }
      var currentIssue, currentLog := Load(quiet);
      if !eligible {
        return Ok(Idle), review;
      }
      var currentFingerprint := fingerprint(currentIssue, currentLog);
      if FindLatestTaskIntakeReview(currentLog, key) == Some(currentFingerprint) {
        return Ok(Idle), review;
      }
      if currentFingerprint != promptFingerprint {
        return Ok(Idle), review;
      }
      Edit(quiet);
      var posted := Post(currentFingerprint, post);
      if FingerprintsOf(comments, key) != FingerprintsOf(old(comments), key) {
        review := Some(Shown(promptIssue, promptLog));
      }
      r := if posted.Ok? then Ok(Processed) else Err(posted.error);
    }

    /** One intake review, from picking the issue on. */
    method ReviewOnce(eligible: bool, quiet: bool, codex: Result<()>, post: Result<()>)
      returns (r: Result<Outcome>, ghost review: Option<Shown>)
      modifies this
      ensures IsReviewed(old(comments), comments, key, fingerprint, review)
      ensures ReviewsIn(comments) == ReviewsIn(old(comments))
      ensures r.Ok? ==> (r.value == Processed <==> review.Some?)
      ensures quiet ==> r == QuietResult(old(IsChanged()), eligible, codex, post)
    {
      var pickedIssue, pickedLog := Load(quiet);
      if FindLatestTaskIntakeReview(pickedLog, key) == Some(fingerprint(pickedIssue, pickedLog)) {
        return Ok(Idle), None;
      }
      r, review := ReviewPicked(eligible, quiet, codex, post);
    }

    /** Any number of cycles, one after another: every review carries the fingerprint of what Codex was shown,
        and no two in a row are equal. */
    method ReviewRepeatedly(eligible: seq<bool>, ghost before: seq<Shown>) returns (ghost shown: seq<Shown>)
      requires CarriesShown(FingerprintsOf(comments, key), before, fingerprint)
      requires ConsecutiveDiffer(FingerprintsOf(comments, key))
      modifies this
      ensures FingerprintsOf(old(comments), key) <= FingerprintsOf(comments, key)
      ensures CarriesShown(FingerprintsOf(comments, key), shown, fingerprint)
      ensures ConsecutiveDiffer(FingerprintsOf(comments, key))
    {
      shown := before;
      for i := 0 to |eligible|
        invariant FingerprintsOf(old(comments), key) <= FingerprintsOf(comments, key)
        invariant CarriesShown(FingerprintsOf(comments, key), shown, fingerprint)
        invariant ConsecutiveDiffer(FingerprintsOf(comments, key))
      {
        Edit(false);
        ghost var log := comments;
        ghost var review;
        var outcome;
        var codex: Result<()>, post: Result<()> := *, *;
        outcome, review := ReviewOnce(eligible[i], false, codex, post);
        ReviewedAppends(log, comments, key, fingerprint, review, shown);
        shown := if review.Some? then shown + [review.value] else shown;
      }
    }
  }

  /** The fingerprint is a digest of the payload. */
  ghost predicate Digests(fingerprint: (Source, seq<Comment>) -> string, digest: Payload -> string) {
    forall s, cs :: fingerprint(s, cs) == digest(PayloadOf(s, cs))
  }

  /** In every state the worker can be in, two consecutive reviews saw different sources. */
  lemma ConsecutiveReviewsSawDifferentSources(
    reviews: seq<string>, shown: seq<Shown>, fingerprint: (Source, seq<Comment>) -> string, digest: Payload -> string, i: nat)
    requires Digests(fingerprint, digest)
    requires CarriesShown(reviews, shown, fingerprint) && ConsecutiveDiffer(reviews) && i + 1 < |reviews|
    requires IdsIdentify(shown[i].comments)
    ensures !SameSource(shown[i].source, shown[i].comments, shown[i + 1].source, shown[i + 1].comments)
  {
    SamePayloadIff(shown[i].source, shown[i].comments, shown[i + 1].source, shown[i + 1].comments);
    assert reviews[i] != reviews[i + 1];
  }
}
