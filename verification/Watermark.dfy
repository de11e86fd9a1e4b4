/** The watermark's purpose: a clean pass moves it to the newest like, so that
    the next pass reads nothing it has already read. */
module Watermark {
  import opened Common
  import opened Difm
  import opened DifmWalk
  import opened World
  import opened Pass
  import opened NoLoss

  // ---------- what the likes of a pass reach ----------

  /** The commit will take the mark at least to t. */
  predicate Reached(loc: Locals, t: Time) {
    t <= loc.high || exists p :: p in loc.rows && t <= p.likedAt
  }

  predicate Within(loc: Locals, bound: Time) {
    loc.high <= bound && forall p :: p in loc.rows ==> p.likedAt <= bound
  }

  predicate Climbs(loc: Locals, loc': Locals) {
    && (loc'.clean ==> loc.clean) && loc.high <= loc'.high
    && forall p :: p in loc.rows ==> p in loc'.rows
  }

  predicate AllReached(loc: Locals, likes: seq<Track>) {
    forall like :: like in likes ==> Reached(loc, like.likedAt)
  }

  lemma ClimbsTransitive(a: Locals, b: Locals, c: Locals)
    requires Climbs(a, b) && Climbs(b, c)
    ensures Climbs(a, c)
  {
  }

  lemma ReachedStays(loc: Locals, loc': Locals, front: seq<Track>, last: Track)
    requires AllReached(loc, front) && Climbs(loc, loc') && Reached(loc', last.likedAt)
    ensures AllReached(loc', front + [last])
  {
  }

  lemma StepReaches(w0: World, loc: Locals, like: Track, ls: LikeScript, th: Thresholds, bound: Time)
    requires Within(loc, bound) && like.likedAt <= bound
    ensures var p := LikeStep(w0, loc, like, ls, th, false);
            && Climbs(loc, p.loc) && Within(p.loc, bound)
            && (p.halt.Running? && p.loc.clean ==> Reached(p.loc, like.likedAt))
  {
    var p := LikeStep(w0, loc, like, ls, th, false);
    if ls.synced.Answered? && ls.search(like).Found? && ls.search(like).candidates != [] {
      var row := RowFor(like, ls.search(like).candidates[0]);
      assert p.loc.rows == loc.rows + [row] ==> row in p.loc.rows;
    }
  }

  lemma {:induction false} StepsReach(w: World, loc: Locals, likes: seq<Track>, scripts: nat -> LikeScript,
                                      th: Thresholds, bound: Time)
    requires Within(loc, bound) && forall like :: like in likes ==> like.likedAt <= bound
    ensures var p := LikeSteps(w, loc, likes, scripts, th, false);
            && Climbs(loc, p.loc) && Within(p.loc, bound)
            && (p.halt.Running? && p.loc.clean ==> AllReached(p.loc, likes))
  {
    if likes != [] {
      var front, last := Front(likes), Last(likes);
      assert likes == front + [last];
      assert forall like :: like in front ==> like in likes;
      StepsReach(w, loc, front, scripts, th, bound);
      var p := LikeSteps(w, loc, front, scripts, th, false);
      if p.halt.Running? {
        assert last in likes;
        var q := LikeSteps(w, loc, likes, scripts, th, false);
        assert q == LikeStep(p.w, p.loc, last, scripts(|likes| - 1), th, false);
        StepReaches(p.w, p.loc, last, scripts(|likes| - 1), th, bound);
        ClimbsTransitive(loc, p.loc, q.loc);
        if q.halt.Running? && q.loc.clean {
          ReachedStays(p.loc, q.loc, front, last);
        }
      }
    }
  }

  lemma {:induction false} AdvancedOverAll(high: Time, rows: seq<PendingRow>)
    ensures high <= AdvancedOver(high, rows)
    ensures forall p :: p in rows ==> p.likedAt <= AdvancedOver(high, rows)
  {
    if rows != [] {
      AdvancedOverAll(high, Front(rows));
      assert rows == Front(rows) + [Last(rows)];
    }
  }

  /** With every like reached and none beyond the newest, the mark the commit
      computes is the newest. */
  lemma AdvancesToNewest(loc: Locals, newest: Time)
    requires Within(loc, newest) && Reached(loc, newest)
    ensures AdvancedOver(loc.high, loc.rows) == newest
  {
    AdvancedOverAll(loc.high, loc.rows);
    AdvancedIsBounded(loc.high, loc.rows, newest);
  }

  // ---------- the newest like ----------

  lemma LastIsNoNewer(votes: seq<Vote>, since: Time)
    requires WellFormed(votes) && votes != [] && Judge(Last(votes).row).RowOk?
    requires LikesAfter(Front(votes), since) != []
    ensures Judge(Last(votes).row).track.likedAt <= LikesAfter(Front(votes), since)[0].likedAt
  {
    var front := Front(votes);
    var i := LikeAt(front, since, LikesAfter(front, since)[0]);
    assert front[i] == votes[i] && votes[i] in votes && Last(votes) in votes;
    WellFormedIsOrdered(votes);
    JudgedLike(votes[i]);
    JudgedLike(Last(votes));
  }

  lemma {:induction false} NewestComesFirst(votes: seq<Vote>, since: Time, t: Track)
    requires WellFormed(votes) && t in LikesAfter(votes, since)
    ensures t.likedAt <= LikesAfter(votes, since)[0].likedAt
  {
    var front := Front(votes);
    assert votes == front + [Last(votes)];
    if t in LikesAfter(front, since) {
      NewestComesFirst(front, since, t);
    } else if LikesAfter(front, since) != [] {
      LastIsNoNewer(votes, since);
    }
  }

  lemma LikesAreLater(w: World, since: Time, t: Track)
    requires Sane(w) && t in LikesAfter(w.votes, since)
    ensures t.likedAt > SECOND && (since != UNSET ==> t.likedAt > since)
  {
    var i := LikeAt(w.votes, since, t);
    assert w.votes[i] in w.votes;
    WellFormedIsOrdered(w.votes);
    JudgedLike(w.votes[i]);
  }

  // ---------- a clean pass ----------

  lemma CommittingMoves(w: World, loc: Locals, since: Time, s: PassScript, posted: seq<SpotifyId>)
    requires Committing(w, loc, since, s, posted).end.Clean?
    ensures loc.clean
    ensures var high := AdvancedOver(loc.high, loc.rows);
            Committing(w, loc, since, s, posted).world.watermark == if high > since then Stored(high) else w.watermark
  {
  }

  lemma AddingMoves(w: World, loc: Locals, since: Time, s: PassScript)
    requires w.watermark == since && Sane(w) && Adding(w, loc, since, s).end.Clean?
    ensures loc.clean
    ensures var high := AdvancedOver(loc.high, loc.rows);
            Adding(w, loc, since, s).world.watermark == if high > since then Stored(high) else since
  {
    if loc.ids == [] {
      ApplyAllExtends(w, s.beforeCommit);
      CommittingMoves(ApplyAll(w, s.beforeCommit), loc, since, s, []);
    } else {
      var w1 := ApplyAll(w, s.beforeReread);
      ApplyAllExtends(w, s.beforeReread);
      var absent := Without(loc.ids, Elements(w1.playlist));
      var posting := PostFrom(absent, s.posts, 0);
      var loc' := loc.(stats := loc.stats.(added := |absent|));
      var w2 := Appended(w1, posting.landed);
      ApplyAllExtends(w2, s.beforeCommit);
      CommittingMoves(ApplyAll(w2, s.beforeCommit), loc', since, s, posting.landed);
    }
  }

  lemma HandlingMoves(w0: World, w: World, s: PassScript, th: Thresholds)
    requires Sane(w0) && Sane(w) && Extends(w0, w)
    requires var walk := Walk(ServerFor(w0.votes, s.sizes, s.faults), w0.watermark);
             Handling(w, walk, w0.watermark, s, th, false).end.Clean? && (walk.end.Complete? || walk.end.Dropped?)
    ensures var walk := Walk(ServerFor(w0.votes, s.sizes, s.faults), w0.watermark);
            var likes := LikesAfter(w0.votes, w0.watermark);
            && walk.end.Complete? && walk.tracks == Reversed(likes)
            && Handling(w, walk, w0.watermark, s, th, false).world.watermark ==
               if likes == [] then w0.watermark else Stored(likes[0].likedAt)
  {
    var walk := Walk(ServerFor(w0.votes, s.sizes, s.faults), w0.watermark);
    var loc := FirstLocals(walk.end.Complete?, w0.watermark, w.playlist, |walk.tracks|);
    var p := LikeSteps(w, loc, walk.tracks, s.likes, th, false);
    LikeStepsExtend(w0, w, s, loc, th);
    AddingMoves(p.w, p.loc, w0.watermark, s);
    var bound := BoundOf(w0);
    FetchedWithin(w0, s);
    StepsReach(w, loc, walk.tracks, s.likes, th, bound);
    CleanWalkMissesNothing(w0.votes, s.sizes, s.faults, w0.watermark);
    var likes := LikesAfter(w0.votes, w0.watermark);
    if likes != [] {
      assert walk.tracks[|likes| - 1] == likes[0];
      LikesAreLater(w0, w0.watermark, likes[0]);
    }
    AdvancesToNewest(p.loc, bound);
  }

  /** The newest like newer than the watermark, or the watermark itself. */
  function BoundOf(w: World): Time {
    var likes := LikesAfter(w.votes, w.watermark);
    if likes == [] then w.watermark else likes[0].likedAt
  }

  lemma FetchedWithin(w: World, s: PassScript)
    requires Sane(w)
    ensures w.watermark <= BoundOf(w)
    ensures forall like :: like in Walk(ServerFor(w.votes, s.sizes, s.faults), w.watermark).tracks ==>
              like.likedAt <= BoundOf(w)
  {
    var likes := LikesAfter(w.votes, w.watermark);
    if likes != [] {
      LikesAreLater(w, w.watermark, likes[0]);
    }
    forall like | like in Walk(ServerFor(w.votes, s.sizes, s.faults), w.watermark).tracks
      ensures like.likedAt <= BoundOf(w)
    {
      FetchedLikesAreVotes(w, s, like);
      WalkReturnsLikes(w.votes, s.sizes, s.faults, w.watermark, like);
      var v :| v in w.votes && Judge(v.row) == RowOk(like) && like.likedAt == v.at && After(v, w.watermark);
      LikePresent(w.votes, w.watermark, v);
      NewestComesFirst(w.votes, w.watermark, like);
    }
  }

  lemma LikeStepsExtend(w0: World, w: World, s: PassScript, loc: Locals, th: Thresholds)
    requires Sane(w0) && Sane(w) && Extends(w0, w) && loc.rows == [] && loc.high <= w0.watermark
    ensures var walk := Walk(ServerFor(w0.votes, s.sizes, s.faults), w0.watermark);
            var p := LikeSteps(w, loc, walk.tracks, s.likes, th, false);
            Sane(p.w) && p.w.watermark == w0.watermark
  {
    var walk := Walk(ServerFor(w0.votes, s.sizes, s.faults), w0.watermark);
    var bound := if w0.clock > w0.watermark then w0.clock else w0.watermark;
    forall like | like in walk.tracks
      ensures FromVote(w, like) && like.likedAt <= bound
    {
      FetchedLikesAreVotes(w0, s, like);
      FromVoteStays(w0, w, like);
    }
    LikeStepsOk(w, loc, walk.tracks, s.likes, th, bound);
  }

  /** A clean pass leaves the watermark at its newest like, to the
      millisecond, or where it was when there was nothing new. */
  lemma CleanPassReachesTheNewestLike(w: World, s: PassScript, th: Thresholds)
    requires Sane(w) && RunPass(w, s, th, false).end.Clean?
    ensures var likes := LikesAfter(w.votes, w.watermark);
            RunPass(w, s, th, false).world.watermark == if likes == [] then w.watermark else Stored(likes[0].likedAt)
  {
    var w1 := ApplyAll(w, s.afterWalk);
    ApplyAllExtends(w, s.afterWalk);
    HandlingMoves(w, w1, s, th);
  }

  lemma LikeIsNoNewer(w: World, since: Time, mark: Time, t: Track)
    requires Sane(w) && LikesAfter(w.votes, since) != [] && t in LikesAfter(w.votes, mark)
    ensures t.likedAt <= LikesAfter(w.votes, since)[0].likedAt
  {
    var first := LikesAfter(w.votes, since)[0];
    LikesAreLater(w, since, first);
    LikesAreLater(w, mark, t);
    var i := LikeAt(w.votes, mark, t);
    var v := w.votes[i];
    assert v in w.votes;
    WellFormedIsOrdered(w.votes);
    JudgedLike(v);
    if After(v, since) {
      LikePresent(w.votes, since, v);
      NewestComesFirst(w.votes, since, t);
    }
  }

  /** After a clean pass, what a later pass would read again of the votes that
      pass saw lies in one millisecond: the newest like's. With times in whole
      milliseconds it reads none of them again. */
  lemma CleanPassIsNotReadAgain(w: World, s: PassScript, th: Thresholds, t: Track)
    requires Sane(w) && RunPass(w, s, th, false).end.Clean?
    requires LikesAfter(w.votes, w.watermark) != []
    requires t in LikesAfter(w.votes, RunPass(w, s, th, false).world.watermark)
    ensures Stored(t.likedAt) == Stored(LikesAfter(w.votes, w.watermark)[0].likedAt)
    ensures t.likedAt % MILLISECOND != 0
  {
    CleanPassReachesTheNewestLike(w, s, th);
    var newest := LikesAfter(w.votes, w.watermark)[0].likedAt;
    LikesAreLater(w, w.watermark, LikesAfter(w.votes, w.watermark)[0]);
    LikesAreLater(w, Stored(newest), t);
    LikeIsNoNewer(w, w.watermark, Stored(newest), t);
    SameMillisecond(t.likedAt, newest);
  }

  lemma SameMillisecond(t: Time, newest: Time)
    requires Stored(newest) < t <= newest
    ensures Stored(t) == Stored(newest) && t % MILLISECOND != 0
  {
    var a, b := t / MILLISECOND, newest / MILLISECOND;
    assert t == a * MILLISECOND + t % MILLISECOND && newest == b * MILLISECOND + newest % MILLISECOND;
  }
}
