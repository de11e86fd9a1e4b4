/** Which records are likes, what a like carries, and that a walk returns
    those and no others. */
module Likes {
  import opened Common
  import opened Difm
  import opened DifmWalk

  /** An upvote with a track payload. Downvotes and votes without one are
      legitimately not likes. */
  predicate Upvoted(row: Row) {
    row.Decoded? && row.wire.up && row.wire.track.Some?
  }

  /** It can be read: a track id on the vote or the track, a title, a time. */
  predicate Usable(row: Row) {
    && Upvoted(row) && row.wire.createdAt.Some?
    && (row.wire.trackId != 0 || row.wire.track.value.id != 0)
    && (row.wire.track.value.displayTitle != "" || row.wire.track.value.title != "")
  }

  /** The like says what the record says: the vote's track id before the
      track's own, the display title before the plain one; and it is passed
      over exactly for an episode, a mix, or more than a quarter of an hour. */
  predicate Carries(row: Row, t: Track)
    requires Upvoted(row)
  {
    var vote, track := row.wire, row.wire.track.value;
    && t.voteId == vote.id && vote.createdAt == Some(t.likedAt)
    && (if vote.trackId != 0 then t.trackId == vote.trackId else t.trackId == track.id)
    && (if track.displayTitle != "" then t.title == track.displayTitle else t.title == track.title)
    && t.artist == track.displayArtist && t.durationSec == track.length && t.isrc == track.isrc
    && (t.skip <==> vote.episode || track.mix || track.length > 900)
  }

  /** Every record is a like, no like, or one that should have been readable
      and is not. */
  lemma JudgeMeans(row: Row)
    ensures Judge(row).RowOk? <==> Usable(row)
    ensures Judge(row).RowFiltered? <==> row.Decoded? && !Upvoted(row)
    ensures Judge(row).RowDropped? <==> row.Garbled? || (Upvoted(row) && !Usable(row))
    ensures Usable(row) ==> Carries(row, Judge(row).track)
  {
  }

  /** Whatever a walk returns comes from an upvote newer than the watermark,
      and carries what that record says. */
  lemma ReturnedIsUpvoted(
      votes: seq<Vote>, sizes: nat -> nat, faults: nat -> Option<Fault>, since: Time, t: Track)
    requires WellFormed(votes)
    requires t in Walk(ServerFor(votes, sizes, faults), since).tracks
    ensures exists v :: v in votes && Usable(v.row) && Carries(v.row, t) && v.at == t.likedAt
                        && (since == UNSET || v.at > since)
  {
    WalkReturnsLikes(votes, sizes, faults, since, t);
    var v :| v in votes && Judge(v.row) == RowOk(t) && t.likedAt == v.at && After(v, since);
    JudgeMeans(v.row);
  }

  /** After a walk without an error no upvote newer than the watermark is
      missing, and none was unreadable. */
  lemma NewerUpvoteIsReturned(
      votes: seq<Vote>, sizes: nat -> nat, faults: nat -> Option<Fault>, since: Time, v: Vote)
    requires WellFormed(votes) && v in votes && Upvoted(v.row) && (since == UNSET || v.at > since)
    requires Walk(ServerFor(votes, sizes, faults), since).end.Complete?
    ensures Usable(v.row)
    ensures exists t :: t in Walk(ServerFor(votes, sizes, faults), since).tracks && Carries(v.row, t)
                        && t.likedAt == v.at
  {
    JudgeMeans(v.row);
    CleanWalkReturns(votes, sizes, faults, since, v);
    var t := Judge(v.row).track;
    assert t in Walk(ServerFor(votes, sizes, faults), since).tracks && Carries(v.row, t);
    WellFormedIsOrdered(votes);
    JudgedLike(v);
  }

  // ---------- the order ----------

  lemma {:induction false} LikesAreNewestFirst(votes: seq<Vote>, since: Time, i: nat, j: nat)
    requires Ordered(votes) && i < j < |LikesAfter(votes, since)|
    ensures LikesAfter(votes, since)[i].likedAt >= LikesAfter(votes, since)[j].likedAt
  {
    var front, likes := Front(votes), LikesAfter(Front(votes), since);
    assert votes == front + [Last(votes)];
    if j < |likes| {
      LikesAreNewestFirst(front, since, i, j);
    } else {
      LikeIsNoOlderThanLast(votes, since, likes[i]);
    }
  }

  lemma LikeIsNoOlderThanLast(votes: seq<Vote>, since: Time, t: Track)
    requires Ordered(votes) && votes != [] && Judge(Last(votes).row).RowOk?
    requires t in LikesAfter(Front(votes), since)
    ensures t.likedAt >= Judge(Last(votes).row).track.likedAt
  {
    var i := LikeAt(Front(votes), since, t);
    assert Front(votes)[i] == votes[i] && votes[i] in votes && Last(votes) in votes;
    JudgedLike(votes[i]);
    JudgedLike(Last(votes));
  }

  lemma OutcomeIsOldestFirst(r: WalkResult, votes: seq<Vote>, since: Time, stop: Stop, i: nat, j: nat)
    requires Ordered(votes) && WalkedTo(r, votes, since, stop) && i < j < |r.tracks|
    ensures r.tracks[i].likedAt <= r.tracks[j].likedAt
  {
    var read := votes[..stop.at];
    var likes := LikesAfter(read, since);
    LikesAreNewestFirst(read, since, |likes| - 1 - j, |likes| - 1 - i);
  }

  /** However a walk ends, it returns its likes oldest first. */
  lemma WalkIsOldestFirst(
      votes: seq<Vote>, sizes: nat -> nat, faults: nat -> Option<Fault>, since: Time, i: nat, j: nat)
    requires WellFormed(votes)
    requires i < j < |Walk(ServerFor(votes, sizes, faults), since).tracks|
    ensures var tracks := Walk(ServerFor(votes, sizes, faults), since).tracks;
            tracks[i].likedAt <= tracks[j].likedAt
  {
    WellFormedIsOrdered(votes);
    WholeWalk(votes, sizes, faults, since);
    OutcomeIsOldestFirst(Walk(ServerFor(votes, sizes, faults), since), votes, since,
                         ReadTo(votes, sizes, since, 1), i, j);
  }

  // ---------- how a walk ends ----------

  /** A page from which the walk asks for the next one: it has a recoverable
      id, and does not show that only old likes follow. */
  predicate GoesOn(votes: seq<Vote>, sizes: nat -> nat, since: Time, k: nat)
    requires k >= 1
  {
    var page := PageVotes(votes, sizes, k);
    && (exists v :: v in page && RowId(v.row) != 0)
    && (since == UNSET || LikesAfter(page, UNSET) == [] || LikesAfter(page, since) != [])
  }

  /** The walk gets to ask for the k-th page. */
  predicate Reaches(votes: seq<Vote>, sizes: nat -> nat, faults: nat -> Option<Fault>, since: Time, k: nat) {
    forall j :: 1 <= j < k ==> faults(j).None? && GoesOn(votes, sizes, since, j)
  }

  lemma GoesOnMeans(votes: seq<Vote>, sizes: nat -> nat, since: Time, k: nat)
    requires k >= 1
    ensures var page := PageVotes(votes, sizes, k);
            GoesOn(votes, sizes, since, k) <==> page != [] && !Stalled(page) && !AllBelow(page, since)
  {
    var page := PageVotes(votes, sizes, k);
    if !Stalled(page) {
      var id :| id in IdsOf(page);
      assert exists v :: v in page && RowId(v.row) == id;
    } else {
      forall v | v in page && RowId(v.row) != 0
        ensures RowId(v.row) in IdsOf(page)
      {
      }
    }
  }

  lemma {:induction false} SameAllAlong(resume: nat -> WalkResult, k: nat)
    requires k >= 1 && forall j: nat :: 1 <= j < k ==> resume(j) == resume(j + 1)
    ensures resume(1) == resume(k)
  {
    if k > 1 {
      SameAllAlong(resume, k - 1);
    }
  }

  lemma FirstResume(votes: seq<Vote>, sizes: nat -> nat, faults: nat -> Option<Fault>, since: Time)
    ensures Resume(votes, sizes, faults, since, 1) == Walk(ServerFor(votes, sizes, faults), since)
  {
    assert IdsOf(votes[..0]) == {};
  }

  lemma ResumesOn(votes: seq<Vote>, sizes: nat -> nat, faults: nat -> Option<Fault>, since: Time, k: nat)
    requires Ordered(votes) && 1 <= k <= 200 && faults(k).None? && GoesOn(votes, sizes, since, k)
    ensures Resume(votes, sizes, faults, since, k) == Resume(votes, sizes, faults, since, k + 1)
  {
    GoesOnMeans(votes, sizes, since, k);
    ResumeStep(votes, sizes, faults, since, k);
  }

  lemma ResumesAllAlong(votes: seq<Vote>, sizes: nat -> nat, faults: nat -> Option<Fault>, since: Time, k: nat,
                        resume: nat -> WalkResult)
    requires Ordered(votes) && 1 <= k <= 201 && Reaches(votes, sizes, faults, since, k)
    requires forall j: nat :: resume(j) == Resume(votes, sizes, faults, since, j)
    ensures resume(1) == resume(k)
  {
    forall j: nat | 1 <= j < k
      ensures resume(j) == resume(j + 1)
    {
      ResumesOn(votes, sizes, faults, since, j);
    }
    SameAllAlong(resume, k);
  }

  lemma ResumesWhereReached(
      votes: seq<Vote>, sizes: nat -> nat, faults: nat -> Option<Fault>, since: Time, k: nat)
    requires Ordered(votes) && 1 <= k <= 201 && Reaches(votes, sizes, faults, since, k)
    ensures Walk(ServerFor(votes, sizes, faults), since) == Resume(votes, sizes, faults, since, k)
  {
    var resume := (j: nat) => Resume(votes, sizes, faults, since, j);
    ResumesAllAlong(votes, sizes, faults, since, k, resume);
    FirstResume(votes, sizes, faults, since);
    assert resume(1) == Resume(votes, sizes, faults, since, 1) && resume(k) == Resume(votes, sizes, faults, since, k);
  }

  /** A walk that reaches a page that cannot be had fails with that page's
      fault and returns nothing; one that reaches a page it does not go on from
      ends there, and one that gets past 200 pages was truncated. */
  lemma WalkEndsWhere(votes: seq<Vote>, sizes: nat -> nat, faults: nat -> Option<Fault>, since: Time, k: nat)
    requires WellFormed(votes) && 1 <= k <= 201 && Reaches(votes, sizes, faults, since, k)
    ensures var r := Walk(ServerFor(votes, sizes, faults), since);
            && (k == 201 ==> r.end.Truncated?)
            && (k <= 200 && faults(k).Some? ==> r == WalkResult([], Failed(faults(k).value)))
            && (k <= 200 && faults(k).None? && !GoesOn(votes, sizes, since, k) ==> r.end.Complete? || r.end.Dropped?)
  {
    WellFormedIsOrdered(votes);
    ResumesWhereReached(votes, sizes, faults, since, k);
    if k <= 200 && faults(k).None? {
      GoesOnMeans(votes, sizes, since, k);
      ResumeStep(votes, sizes, faults, since, k);
    }
  }
}
