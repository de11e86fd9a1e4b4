/** What a pass files about the likes it fetched: review rows with the
    candidates found, ledger rows for the matches, and the counts. */
module Filing {
  import opened Common
  import opened Difm
  import opened DifmWalk
  import opened World
  import opened Pass
  import opened NoLoss
  import opened PlaylistSafety

  // ---------- the rows ----------

  predicate Matches(ls: LikeScript, like: Track, th: Thresholds) {
    && ls.search(like).Found? && ls.search(like).candidates != []
    && ls.search(like).candidates[0].score >= th.auto
  }

  predicate FallsShort(ls: LikeScript, like: Track, th: Thresholds) {
    && ls.search(like).Found?
    && (ls.search(like).candidates == [] || ls.search(like).candidates[0].score < th.auto)
  }

  /** The time as stored: in whole milliseconds, the rest cut off. */
  predicate StoredAs(t: Time, stored: Time) {
    stored <= t < stored + 1_000_000 && stored % 1_000_000 == 0
  }

  /** The row names the vote and keeps the first five candidates of the answer;
      its reason is low confidence exactly when the first one reaches the review
      bar. A like that is no track has no candidates. */
  predicate Reviews(row: ReviewRow, like: Track, ls: LikeScript, th: Thresholds) {
    && row.voteId == like.voteId && StoredAs(like.likedAt, row.likedAt)
    && if like.skip then row.reason.Skipped? && row.candidates == [] && row.bestScore == 0.0
       else
         && FallsShort(ls, like, th)
         && var answer := ls.search(like).candidates;
            && row.candidates == answer[..if |answer| < 5 then |answer| else 5]
            && row.bestScore == (if answer == [] then 0.0 else answer[0].score)
            && (row.reason.LowConfidence? <==> answer != [] && answer[0].score >= th.review)
            && (row.reason.NoMatch? <==> answer == [] || answer[0].score < th.review)
  }

  /** The row names the vote and the first candidate of the answer. */
  predicate Records(row: LedgerRow, like: Track, ls: LikeScript, th: Thresholds) {
    && Matches(ls, like, th)
    && var best := ls.search(like).candidates[0];
       row.voteId == like.voteId && row.spotifyId == best.id && row.score == best.score
       && StoredAs(like.likedAt, row.likedAt)
  }

  // ---------- one like ----------

  function Later(a: Time, b: Time): Time {
    if a > b then a else b
  }

  /** The queue gets one row for the track; a decision already made stays. */
  predicate FiledIn(queue: map<int, ReviewRow>, queue': map<int, ReviewRow>, like: Track, ls: LikeScript,
                    th: Thresholds)
  {
    && queue'.Keys == queue.Keys + {like.trackId}
    && (forall id :: id in queue && id != like.trackId ==> queue'[id] == queue[id])
    && Reviews(queue'[like.trackId], like, ls, th)
    && queue'[like.trackId].status == if like.trackId in queue then queue[like.trackId].status else Pending
  }

  /** What one queue write does to the world and to the pass. */
  predicate FiledAs(w: World, loc: Locals, like: Track, ls: LikeScript, th: Thresholds, p: Progress) {
    && p.w == w.(queue := p.w.queue)
    && (if ls.enqueue.Lands() then FiledIn(w.queue, p.w.queue, like, ls, th) else p.w.queue == w.queue)
    && (ls.enqueue.Landed? ==> p.halt.Running? && p.loc == loc.(high := Later(loc.high, like.likedAt),
          stats := if like.skip then loc.stats.(skipped := loc.stats.skipped + 1)
                   else loc.stats.(queued := loc.stats.queued + 1)))
    && (ls.enqueue.Refused? || ls.enqueue.LandedReplyLost? ==> p.halt.Running? && p.loc == loc.(clean := false))
    && (ls.enqueue.DiedBefore? || ls.enqueue.DiedAfter? ==> p.halt.Crashed? && p.loc == loc)
  }

  lemma QueueingFiles(w: World, loc: Locals, like: Track, candidates: seq<Scored>, reason: Reason,
                      ls: LikeScript, th: Thresholds)
    requires reason.Skipped? <==> like.skip
    requires Reviews(ReviewRowFor(like, candidates, reason), like, ls, th)
    ensures FiledAs(w, loc, like, ls, th, Queueing(w, loc, like, candidates, reason, ls.enqueue, false))
  {
  }

  /** A like that is no track, or whose search falls short, goes to the review
      queue; it counts, and the high-water mark passes it, only once that write
      is acknowledged. */
  lemma ShortLikeIsFiled(w0: World, loc: Locals, like: Track, ls: LikeScript, th: Thresholds)
    requires var w := ApplyAll(w0, ls.outside);
             like.skip || (ls.synced.Answered? && like.trackId !in w.ledger && FallsShort(ls, like, th))
    ensures FiledAs(ApplyAll(w0, ls.outside), loc, like, ls, th, LikeStep(w0, loc, like, ls, th, false))
  {
    var w := ApplyAll(w0, ls.outside);
    if like.skip {
      QueueingFiles(w, loc, like, [], Skipped, ls, th);
    } else {
      var answer := ls.search(like).candidates;
      var reason := if answer != [] && answer[0].score >= th.review then LowConfidence else NoMatch;
      assert LikeStep(w0, loc, like, ls, th, false) == Queueing(w, loc, like, answer, reason, ls.enqueue, false);
      assert |answer| <= 5 ==> answer[..|answer|] == answer;
      QueueingFiles(w, loc, like, answer, reason, ls, th);
    }
  }

  /** A like whose search matches is kept for the commit, and its track for the
      playlist unless it is there or about to be. */
  lemma MatchedLikeIsPending(w0: World, loc: Locals, like: Track, ls: LikeScript, th: Thresholds)
    requires !like.skip && ls.synced.Answered? && like.trackId !in ApplyAll(w0, ls.outside).ledger
    requires Matches(ls, like, th)
    ensures var w, p := ApplyAll(w0, ls.outside), LikeStep(w0, loc, like, ls, th, false);
            var id := ls.search(like).candidates[0].id;
            && p.w == w && p.halt.Running? && |p.loc.rows| == |loc.rows| + 1
            && p.loc.rows[..|loc.rows|] == loc.rows
            && p.loc.rows[|loc.rows|].trackId == like.trackId && p.loc.rows[|loc.rows|].likedAt == like.likedAt
            && Records(p.loc.rows[|loc.rows|].row, like, ls, th)
            && p.loc == loc.(rows := p.loc.rows, present := loc.present + {id},
                             ids := if id in loc.present then loc.ids else loc.ids + [id])
  {
    var p, best := LikeStep(w0, loc, like, ls, th, false), ls.search(like).candidates[0];
    assert best.id in loc.present ==> loc.present + {best.id} == loc.present;
    assert p.loc.rows == loc.rows + [RowFor(like, best)];
  }

  /** Any other like leaves the world alone: one already in the ledger only
      moves the high-water mark, a search that fails marks the pass incomplete
      and goes on, and a failed read, throttling or a refused grant stops it. */
  lemma OtherLikesChangeNothing(w0: World, loc: Locals, like: Track, ls: LikeScript, th: Thresholds)
    requires var w := ApplyAll(w0, ls.outside);
             !like.skip && (!ls.synced.Answered? || like.trackId in w.ledger || !ls.search(like).Found?)
    ensures var w, p := ApplyAll(w0, ls.outside), LikeStep(w0, loc, like, ls, th, false);
            var known, reply := like.trackId in w.ledger, ls.search(like);
            && p.w == w
            && (ls.synced.Answered? && known ==> p.loc == loc.(high := Later(loc.high, like.likedAt)))
            && (ls.synced.Answered? && !known && reply.SearchFailed? ==> p.loc == loc.(clean := false))
            && (p.loc != loc ==> p.halt.Running?)
            && (p.halt.Running? <==> ls.synced.Answered? && (known || reply.SearchFailed?))
            && (p.halt.Stopped? <==>
                  ls.synced.ReadFailed? ||
                  (ls.synced.Answered? && !known && (reply.Throttled? || reply.GrantRefused?)))
  {
  }

  // ---------- the review rows of a pass ----------

  /** b is a, up to the decision on it. */
  predicate SameFinding(a: ReviewRow, b: ReviewRow) {
    b == a.(status := b.status)
  }

  predicate SameFindings(queue: map<int, ReviewRow>, queue': map<int, ReviewRow>) {
    queue'.Keys == queue.Keys && forall id :: id in queue ==> SameFinding(queue[id], queue'[id])
  }

  predicate ReviewsSome(row: ReviewRow, id: int, likes: seq<Track>, scripts: nat -> LikeScript, th: Thresholds) {
    exists i: nat :: i < |likes| && likes[i].trackId == id && Reviews(row, likes[i], scripts(i), th)
  }

  /** Every row is an old finding, or files one of the likes. */
  predicate QueueFrom(queue: map<int, ReviewRow>, queue': map<int, ReviewRow>, likes: seq<Track>,
                      scripts: nat -> LikeScript, th: Thresholds)
  {
    && queue.Keys <= queue'.Keys
    && forall id :: id in queue' ==>
         (id in queue && SameFinding(queue[id], queue'[id])) || ReviewsSome(queue'[id], id, likes, scripts, th)
  }

  lemma OneKeepsFindings(w: World, o: Outside)
    ensures SameFindings(w.queue, Apply(w, o).queue)
  {
  }

  lemma {:induction false} OthersKeepFindings(w: World, os: seq<Outside>)
    ensures SameFindings(w.queue, ApplyAll(w, os).queue)
    decreases |os|
  {
    if os != [] {
      OneKeepsFindings(w, os[0]);
      OthersKeepFindings(Apply(w, os[0]), os[1..]);
    }
  }

  lemma SomeOfLonger(row: ReviewRow, id: int, front: seq<Track>, last: Track, scripts: nat -> LikeScript,
                     th: Thresholds)
    ensures ReviewsSome(row, id, front, scripts, th) ==> ReviewsSome(row, id, front + [last], scripts, th)
    ensures last.trackId == id && Reviews(row, last, scripts(|front|), th) ==>
              ReviewsSome(row, id, front + [last], scripts, th)
  {
    var likes := front + [last];
    assert likes[|front|] == last;
    if ReviewsSome(row, id, front, scripts, th) {
      var i: nat :| i < |front| && front[i].trackId == id && Reviews(row, front[i], scripts(i), th);
      assert likes[i] == front[i];
    }
  }

  lemma FindingOfLonger(a: ReviewRow, b: ReviewRow, id: int, likes: seq<Track>, scripts: nat -> LikeScript,
                        th: Thresholds)
    requires SameFinding(a, b) && ReviewsSome(a, id, likes, scripts, th)
    ensures ReviewsSome(b, id, likes, scripts, th)
  {
    var i: nat :| i < |likes| && likes[i].trackId == id && Reviews(a, likes[i], scripts(i), th);
    assert Reviews(b, likes[i], scripts(i), th);
  }

  /** Other people's steps, then a row for the last like or none. */
  lemma QueueFromLonger(queue: map<int, ReviewRow>, q1: map<int, ReviewRow>, q2: map<int, ReviewRow>,
                        q3: map<int, ReviewRow>, front: seq<Track>, last: Track, scripts: nat -> LikeScript,
                        th: Thresholds)
    requires QueueFrom(queue, q1, front, scripts, th) && SameFindings(q1, q2)
    requires q3 == q2 || FiledIn(q2, q3, last, scripts(|front|), th)
    ensures QueueFrom(queue, q3, front + [last], scripts, th)
  {
    forall id | id in q3
      ensures (id in queue && SameFinding(queue[id], q3[id])) || ReviewsSome(q3[id], id, front + [last], scripts, th)
    {
      SomeOfLonger(q3[id], id, front, last, scripts, th);
      if id in q2 && q3[id] == q2[id] && ReviewsSome(q1[id], id, front, scripts, th) {
        FindingOfLonger(q1[id], q2[id], id, front, scripts, th);
      }
    }
  }

  lemma StepFiles(w0: World, loc: Locals, like: Track, ls: LikeScript, th: Thresholds, dry: bool)
    ensures var w, p := ApplyAll(w0, ls.outside), LikeStep(w0, loc, like, ls, th, dry);
            p.w.queue == w.queue || FiledIn(w.queue, p.w.queue, like, ls, th)
  {
    var w := ApplyAll(w0, ls.outside);
    if !dry {
      if like.skip || (ls.synced.Answered? && like.trackId !in w.ledger && FallsShort(ls, like, th)) {
        ShortLikeIsFiled(w0, loc, like, ls, th);
      } else if ls.synced.Answered? && like.trackId !in w.ledger && Matches(ls, like, th) {
        MatchedLikeIsPending(w0, loc, like, ls, th);
      } else {
        OtherLikesChangeNothing(w0, loc, like, ls, th);
      }
    }
  }

  lemma {:induction false} StepsFile(w: World, loc: Locals, likes: seq<Track>, scripts: nat -> LikeScript,
                                     th: Thresholds, dry: bool)
    ensures QueueFrom(w.queue, LikeSteps(w, loc, likes, scripts, th, dry).w.queue, likes, scripts, th)
  {
    if likes != [] {
      var front, last := Front(likes), Last(likes);
      assert likes == front + [last];
      StepsFile(w, loc, front, scripts, th, dry);
      var p, q := LikeSteps(w, loc, front, scripts, th, dry), LikeSteps(w, loc, likes, scripts, th, dry);
      if p.halt.Running? {
        var ls := scripts(|front|);
        assert q == LikeStep(p.w, p.loc, last, ls, th, dry);
        OthersKeepFindings(p.w, ls.outside);
        StepFiles(p.w, p.loc, last, ls, th, dry);
        QueueFromLonger(w.queue, p.w.queue, ApplyAll(p.w, ls.outside).queue, q.w.queue, front, last, scripts, th);
      } else {
        assert SameFindings(p.w.queue, p.w.queue);
        QueueFromLonger(w.queue, p.w.queue, p.w.queue, q.w.queue, front, last, scripts, th);
      }
    }
  }

  lemma QueueFromThen(queue: map<int, ReviewRow>, q1: map<int, ReviewRow>, q2: map<int, ReviewRow>,
                      likes: seq<Track>, scripts: nat -> LikeScript, th: Thresholds)
    requires QueueFrom(queue, q1, likes, scripts, th) && SameFindings(q1, q2)
    ensures QueueFrom(queue, q2, likes, scripts, th)
  {
    forall id | id in q2
      ensures (id in queue && SameFinding(queue[id], q2[id])) || ReviewsSome(q2[id], id, likes, scripts, th)
    {
      if ReviewsSome(q1[id], id, likes, scripts, th) {
        FindingOfLonger(q1[id], q2[id], id, likes, scripts, th);
      }
    }
  }

  lemma FromThenFrom(queue: map<int, ReviewRow>, q1: map<int, ReviewRow>, q2: map<int, ReviewRow>,
                     likes: seq<Track>, scripts: nat -> LikeScript, th: Thresholds)
    requires SameFindings(queue, q1) && QueueFrom(q1, q2, likes, scripts, th)
    ensures QueueFrom(queue, q2, likes, scripts, th)
  {
  }

  lemma CommittingKeepsFindings(w: World, loc: Locals, since: Time, s: PassScript, posted: seq<SpotifyId>)
    ensures SameFindings(w.queue, Committing(ApplyAll(w, s.beforeCommit), loc, since, s, posted).world.queue)
  {
    OthersKeepFindings(w, s.beforeCommit);
  }

  lemma AddingKeepsFindings(w: World, loc: Locals, since: Time, s: PassScript)
    ensures SameFindings(w.queue, Adding(w, loc, since, s).world.queue)
  {
    if loc.ids == [] {
      CommittingKeepsFindings(w, loc, since, s, []);
    } else {
      var w1 := ApplyAll(w, s.beforeReread);
      OthersKeepFindings(w, s.beforeReread);
      var absent := Without(loc.ids, Elements(w1.playlist));
      var landed := PostFrom(absent, s.posts, 0).landed;
      CommittingKeepsFindings(Appended(w1, landed), loc.(stats := loc.stats.(added := |absent|)), since, s, landed);
      AddingCases(w, loc, since, s);
    }
  }

  lemma HandlingFiles(w: World, walk: WalkResult, since: Time, s: PassScript, th: Thresholds, dry: bool)
    ensures QueueFrom(w.queue, Handling(w, walk, since, s, th, dry).world.queue, walk.tracks, s.likes, th)
  {
    var loc := FirstLocals(walk.end.Complete?, since, w.playlist, |walk.tracks|);
    var p := LikeSteps(w, loc, walk.tracks, s.likes, th, dry);
    StepsFile(w, loc, walk.tracks, s.likes, th, dry);
    if p.halt.Running? && !dry {
      AddingKeepsFindings(p.w, p.loc, since, s);
      QueueFromThen(w.queue, p.w.queue, Adding(p.w, p.loc, since, s).world.queue, walk.tracks, s.likes, th);
    }
  }

  /** Whatever happens during a pass, it loses no review row, and every row it
      leaves is the finding that was there, or files one of the fetched likes:
      the vote, the first five candidates its search gave, and the reason they
      fell short. */
  lemma PassFilesFindings(w: World, s: PassScript, th: Thresholds, dry: bool)
    ensures QueueFrom(w.queue, RunPass(w, s, th, dry).world.queue,
                      Walk(ServerFor(w.votes, s.sizes, s.faults), w.watermark).tracks, s.likes, th)
  {
    var walk := Walk(ServerFor(w.votes, s.sizes, s.faults), w.watermark);
    var w1 := ApplyAll(w, s.afterWalk);
    OthersKeepFindings(w, s.afterWalk);
    HandlingFiles(w1, walk, w.watermark, s, th, dry);
    var queue := RunPass(w, s, th, dry).world.queue;
    PassCases(w, s, th, dry);
    if QueueFrom(w1.queue, queue, walk.tracks, s.likes, th) {
      FromThenFrom(w.queue, w1.queue, queue, walk.tracks, s.likes, th);
    }
  }

  // ---------- ledger rows stay ----------

  /** A recorded track keeps its row. */
  predicate KeepsRows(ledger: map<int, LedgerRow>, ledger': map<int, LedgerRow>) {
    forall id :: id in ledger ==> id in ledger' && ledger'[id] == ledger[id]
  }

  lemma {:induction false} OthersKeepRows(w: World, os: seq<Outside>)
    ensures KeepsRows(w.ledger, ApplyAll(w, os).ledger)
    decreases |os|
  {
    if os != [] {
      OneKeepsRows(w, os[0]);
      OthersKeepRows(Apply(w, os[0]), os[1..]);
    }
  }

  lemma OneKeepsRows(w: World, o: Outside)
    ensures KeepsRows(w.ledger, Apply(w, o).ledger)
  {
  }

  lemma StepKeepsRows(w: World, loc: Locals, like: Track, ls: LikeScript, th: Thresholds, dry: bool)
    ensures KeepsRows(w.ledger, LikeStep(w, loc, like, ls, th, dry).w.ledger)
  {
    OthersKeepRows(w, ls.outside);
  }

  lemma {:induction false} StepsKeepRows(w: World, loc: Locals, likes: seq<Track>, scripts: nat -> LikeScript,
                                         th: Thresholds, dry: bool)
    ensures KeepsRows(w.ledger, LikeSteps(w, loc, likes, scripts, th, dry).w.ledger)
  {
    if likes != [] {
      StepsKeepRows(w, loc, Front(likes), scripts, th, dry);
      var p := LikeSteps(w, loc, Front(likes), scripts, th, dry);
      StepKeepsRows(p.w, p.loc, Last(likes), scripts(|likes| - 1), th, dry);
    }
  }

  lemma {:induction false} RecordedAllKeepsRows(ledger: map<int, LedgerRow>, rows: seq<PendingRow>)
    ensures KeepsRows(ledger, RecordedAll(ledger, rows))
  {
    if rows != [] {
      RecordedAllKeepsRows(ledger, Front(rows));
    }
  }

  lemma CommittingKeepsRows(w: World, loc: Locals, since: Time, s: PassScript, posted: seq<SpotifyId>)
    ensures KeepsRows(w.ledger, Committing(ApplyAll(w, s.beforeCommit), loc, since, s, posted).world.ledger)
  {
    OthersKeepRows(w, s.beforeCommit);
    RecordedAllKeepsRows(ApplyAll(w, s.beforeCommit).ledger, loc.rows);
  }

  lemma AddingKeepsRows(w: World, loc: Locals, since: Time, s: PassScript)
    ensures KeepsRows(w.ledger, Adding(w, loc, since, s).world.ledger)
  {
    if loc.ids == [] {
      CommittingKeepsRows(w, loc, since, s, []);
    } else {
      var w1 := ApplyAll(w, s.beforeReread);
      OthersKeepRows(w, s.beforeReread);
      var absent := Without(loc.ids, Elements(w1.playlist));
      var landed := PostFrom(absent, s.posts, 0).landed;
      CommittingKeepsRows(Appended(w1, landed), loc.(stats := loc.stats.(added := |absent|)), since, s, landed);
      AddingCases(w, loc, since, s);
    }
  }

  lemma HandlingKeepsRows(w: World, walk: WalkResult, since: Time, s: PassScript, th: Thresholds, dry: bool)
    ensures KeepsRows(w.ledger, Handling(w, walk, since, s, th, dry).world.ledger)
  {
    var loc := FirstLocals(walk.end.Complete?, since, w.playlist, |walk.tracks|);
    StepsKeepRows(w, loc, walk.tracks, s.likes, th, dry);
    var p := LikeSteps(w, loc, walk.tracks, s.likes, th, dry);
    AddingKeepsRows(p.w, p.loc, since, s);
  }

  /** Whatever happens during a pass, a track once recorded keeps its row. */
  lemma PassKeepsLedgerRows(w: World, s: PassScript, th: Thresholds, dry: bool)
    ensures KeepsRows(w.ledger, RunPass(w, s, th, dry).world.ledger)
  {
    OthersKeepRows(w, s.afterWalk);
    HandlingKeepsRows(ApplyAll(w, s.afterWalk), Walk(ServerFor(w.votes, s.sizes, s.faults), w.watermark),
                      w.watermark, s, th, dry);
    PassCases(w, s, th, dry);
  }
}
