/** When a pass ends clean: with every call it makes succeeding, exactly when
    its walk reported no error. */
module CleanPasses {
  import opened Common
  import opened Difm
  import opened DifmWalk
  import opened World
  import opened Pass
  import opened NoLoss
  import opened PlaylistSafety

  ghost predicate LikeSucceeds(ls: LikeScript) {
    ls.synced.Answered? && ls.enqueue.Landed? && forall t :: ls.search(t).Found?
  }

  /** Every call after the walk, and the two before it, succeeds, and the pass
      is not canceled. What others do beside it is free. */
  ghost predicate AllSucceeds(s: PassScript) {
    && s.reload.Answered? && s.start.Landed? && s.firstRead.Answered? && s.reread.Answered?
    && !s.canceled && s.commit.Landed?
    && (forall i :: LikeSucceeds(s.likes(i)))
    && (forall b :: s.posts(b).Landed?)
  }

  lemma StepSucceeds(w: World, loc: Locals, like: Track, ls: LikeScript, th: Thresholds)
    requires LikeSucceeds(ls)
    ensures var p := LikeStep(w, loc, like, ls, th, false);
            p.halt.Running? && p.loc.clean == loc.clean
  {
    assert ls.search(like).Found?;
  }

  lemma {:induction false} StepsSucceed(w: World, loc: Locals, likes: seq<Track>, scripts: nat -> LikeScript,
                                        th: Thresholds)
    requires forall i :: LikeSucceeds(scripts(i))
    ensures var p := LikeSteps(w, loc, likes, scripts, th, false);
            p.halt.Running? && p.loc.clean == loc.clean
  {
    if likes != [] {
      StepsSucceed(w, loc, Front(likes), scripts, th);
      var p := LikeSteps(w, loc, Front(likes), scripts, th, false);
      StepSucceeds(p.w, p.loc, Last(likes), scripts(|likes| - 1), th);
    }
  }

  lemma CommitSucceeds(w: World, loc: Locals, since: Time, s: PassScript, posted: seq<SpotifyId>)
    requires AllSucceeds(s)
    ensures Committing(w, loc, since, s, posted).end == if loc.clean then Clean else Incomplete
  {
  }

  lemma AddingSucceeds(w: World, loc: Locals, since: Time, s: PassScript)
    requires AllSucceeds(s)
    ensures Adding(w, loc, since, s).end == if loc.clean then Clean else Incomplete
  {
    if loc.ids == [] {
      CommitSucceeds(ApplyAll(w, s.beforeCommit), loc, since, s, []);
    } else {
      var w1 := ApplyAll(w, s.beforeReread);
      var absent := Without(loc.ids, Elements(w1.playlist));
      AllLand(absent, s.posts, 0);
      CommitSucceeds(ApplyAll(Appended(w1, absent), s.beforeCommit), loc.(stats := loc.stats.(added := |absent|)),
                     since, s, absent);
    }
  }

  lemma HandlingSucceeds(w: World, walk: WalkResult, since: Time, s: PassScript, th: Thresholds)
    requires AllSucceeds(s)
    ensures Handling(w, walk, since, s, th, false).end == if walk.end.Complete? then Clean else Incomplete
  {
    var loc := FirstLocals(walk.end.Complete?, since, w.playlist, |walk.tracks|);
    StepsSucceed(w, loc, walk.tracks, s.likes, th);
    var p := LikeSteps(w, loc, walk.tracks, s.likes, th, false);
    AddingSucceeds(p.w, p.loc, since, s);
  }

  lemma FetchedSucceeds(w: World, walk: WalkResult, s: PassScript, th: Thresholds)
    requires AllSucceeds(s)
    ensures Fetched(w, walk, s, th, false).end == EndAfter(walk.end)
  {
    HandlingSucceeds(ApplyAll(w, s.afterWalk), walk, w.watermark, s, th);
  }

  /** How a pass ends when nothing but its walk can fail: dropped records make
      it incomplete, a truncated or failed walk aborts it. */
  function EndAfter(walk: WalkEnd): PassEnd {
    match walk
    case Complete => Clean
    case Dropped => Incomplete
    case Truncated => Aborted
    case Failed(fault) => if fault.Killed? then Died else Aborted
  }

  lemma PassEndsWithItsWalk(w: World, s: PassScript, th: Thresholds)
    requires AllSucceeds(s)
    ensures RunPass(w, s, th, false).end == EndAfter(Walk(ServerFor(w.votes, s.sizes, s.faults), w.watermark).end)
  {
    FetchedSucceeds(w, Walk(ServerFor(w.votes, s.sizes, s.faults), w.watermark), s, th);
  }

  /** A pass all of whose other calls succeed ends clean exactly when its walk
      ended without an error. */
  lemma PassIsCleanExactlyWhen(w: World, s: PassScript, th: Thresholds)
    requires AllSucceeds(s)
    ensures RunPass(w, s, th, false).end.Clean?
            <==> Walk(ServerFor(w.votes, s.sizes, s.faults), w.watermark).end.Complete?
  {
    PassEndsWithItsWalk(w, s, th);
  }

  /** How the part after the likes ends: any failure on the way, or a commit
      that is not acknowledged, aborts it. */
  lemma AddingEndsAs(w: World, loc: Locals, since: Time, s: PassScript)
    requires forall b :: s.posts(b).Landed?
    ensures var end := Adding(w, loc, since, s).end;
            && (loc.ids != [] && s.reread.ReadFailed? ==> end.Aborted?)
            && (loc.ids == [] || s.reread.Answered? ==>
                  && (s.canceled ==> end.Aborted?)
                  && (!s.canceled && s.commit.Landed? ==> end == if loc.clean then Clean else Incomplete)
                  && (!s.canceled && loc.rows != [] && (s.commit.Refused? || s.commit.LandedReplyLost?) ==>
                        end.Aborted?))
  {
    if loc.ids != [] {
      AllLand(Without(loc.ids, Elements(ApplyAll(w, s.beforeReread).playlist)), s.posts, 0);
    }
  }

  lemma DryFetchedEndsAs(w: World, walk: WalkResult, s: PassScript, th: Thresholds)
    requires s.firstRead.Answered? && forall i :: LikeSucceeds(s.likes(i))
    ensures Fetched(w, walk, s, th, true).end ==
            if walk.end.Complete? || walk.end.Dropped? then PassEnd.DryRun else EndAfter(walk.end)
  {
    var w1 := ApplyAll(w, s.afterWalk);
    DryStepsSucceed(w1, FirstLocals(walk.end.Complete?, w.watermark, w1.playlist, |walk.tracks|), walk.tracks,
                    s.likes, th);
  }

  /** A dry run that gets through its likes says so, whether or not its walk
      dropped records. */
  lemma DryRunEndsWithItsWalk(w: World, s: PassScript, th: Thresholds)
    requires AllSucceeds(s)
    ensures var walk := Walk(ServerFor(w.votes, s.sizes, s.faults), w.watermark).end;
            RunPass(w, s, th, true).end == if walk.Complete? || walk.Dropped? then PassEnd.DryRun else EndAfter(walk)
  {
    DryFetchedEndsAs(w, Walk(ServerFor(w.votes, s.sizes, s.faults), w.watermark), s, th);
  }

  lemma {:induction false} DryStepsSucceed(w: World, loc: Locals, likes: seq<Track>, scripts: nat -> LikeScript,
                                           th: Thresholds)
    requires forall i :: LikeSucceeds(scripts(i))
    ensures LikeSteps(w, loc, likes, scripts, th, true).halt.Running?
  {
    if likes != [] {
      DryStepsSucceed(w, loc, Front(likes), scripts, th);
      assert LikeSucceeds(scripts(|likes| - 1));
    }
  }

  lemma {:induction false} StepsKeepFetched(w: World, loc: Locals, likes: seq<Track>, scripts: nat -> LikeScript,
                                            th: Thresholds, dry: bool)
    ensures LikeSteps(w, loc, likes, scripts, th, dry).loc.stats.fetched == loc.stats.fetched
  {
    if likes != [] {
      StepsKeepFetched(w, loc, Front(likes), scripts, th, dry);
      var p := LikeSteps(w, loc, Front(likes), scripts, th, dry);
      StepKeepsFetched(p.w, p.loc, Last(likes), scripts(|likes| - 1), th, dry);
    }
  }

  lemma StepKeepsFetched(w: World, loc: Locals, like: Track, ls: LikeScript, th: Thresholds, dry: bool)
    ensures LikeStep(w, loc, like, ls, th, dry).loc.stats.fetched == loc.stats.fetched
  {
  }

  lemma AddingKeepsFetched(w: World, loc: Locals, since: Time, s: PassScript)
    ensures Adding(w, loc, since, s).stats.fetched == loc.stats.fetched
  {
  }

  lemma HandlingKeepsFetched(w: World, walk: WalkResult, since: Time, s: PassScript, th: Thresholds, dry: bool)
    ensures Handling(w, walk, since, s, th, dry).stats.fetched == |walk.tracks|
  {
    var loc := FirstLocals(walk.end.Complete?, since, w.playlist, |walk.tracks|);
    StepsKeepFetched(w, loc, walk.tracks, s.likes, th, dry);
    var p := LikeSteps(w, loc, walk.tracks, s.likes, th, dry);
    AddingKeepsFetched(p.w, p.loc, since, s);
  }

  lemma FetchedCounts(w: World, walk: WalkResult, s: PassScript, th: Thresholds, dry: bool)
    requires walk.end.Complete? || walk.end.Dropped?
    ensures Fetched(w, walk, s, th, dry).stats.fetched == |walk.tracks|
  {
    HandlingKeepsFetched(ApplyAll(w, s.afterWalk), walk, w.watermark, s, th, dry);
  }

  /** However a pass ends, once its walk has returned likes it reports how many. */
  lemma FetchedIsReported(w: World, s: PassScript, th: Thresholds, dry: bool)
    requires s.reload.Answered? && s.start.Landed?
    requires var end := Walk(ServerFor(w.votes, s.sizes, s.faults), w.watermark).end; end.Complete? || end.Dropped?
    ensures RunPass(w, s, th, dry).stats.fetched ==
            |Walk(ServerFor(w.votes, s.sizes, s.faults), w.watermark).tracks|
  {
    FetchedCounts(w, Walk(ServerFor(w.votes, s.sizes, s.faults), w.watermark), s, th, dry);
  }

  // ---------- what a clean end rules out ----------

  predicate LikeWentWell(like: Track, ls: LikeScript) {
    if like.skip then ls.enqueue.Landed? else ls.synced.Answered?
  }

  lemma CleanStepWentWell(w: World, loc: Locals, like: Track, ls: LikeScript, th: Thresholds)
    ensures var p := LikeStep(w, loc, like, ls, th, false);
            p.halt.Running? && p.loc.clean ==> loc.clean && LikeWentWell(like, ls)
  {
  }

  predicate AllWentWell(likes: seq<Track>, scripts: nat -> LikeScript) {
    forall i :: 0 <= i < |likes| ==> LikeWentWell(likes[i], scripts(i))
  }

  lemma OneMoreWentWell(front: seq<Track>, last: Track, scripts: nat -> LikeScript)
    requires AllWentWell(front, scripts) && LikeWentWell(last, scripts(|front|))
    ensures AllWentWell(front + [last], scripts)
  {
  }

  lemma {:induction false} CleanStepsWentWell(w: World, loc: Locals, likes: seq<Track>, scripts: nat -> LikeScript,
                                              th: Thresholds)
    ensures var p := LikeSteps(w, loc, likes, scripts, th, false);
            p.halt.Running? && p.loc.clean ==> loc.clean && AllWentWell(likes, scripts)
  {
    if likes != [] {
      var front, last := Front(likes), Last(likes);
      assert likes == front + [last];
      CleanStepsWentWell(w, loc, front, scripts, th);
      var p, q := LikeSteps(w, loc, front, scripts, th, false), LikeSteps(w, loc, likes, scripts, th, false);
      if p.halt.Running? {
        assert q == LikeStep(p.w, p.loc, last, scripts(|front|), th, false);
        CleanStepWentWell(p.w, p.loc, last, scripts(|front|), th);
        if q.halt.Running? && q.loc.clean {
          OneMoreWentWell(front, last, scripts);
        }
      }
    }
  }

  lemma CleanAddingWentWell(w: World, loc: Locals, since: Time, s: PassScript)
    requires Adding(w, loc, since, s).end.Clean?
    ensures loc.clean && !s.canceled && (loc.ids != [] ==> s.reread.Answered?) && (loc.rows != [] ==> s.commit.Landed?)
  {
  }

  /** A clean end means that nothing failed: the walk and every read the pass
      made answered, nothing canceled it, and every track that cannot be synced
      was queued. */
  lemma CleanMeansNothingFailed(w: World, s: PassScript, th: Thresholds)
    requires RunPass(w, s, th, false).end.Clean?
    ensures var walk := Walk(ServerFor(w.votes, s.sizes, s.faults), w.watermark);
            && s.reload.Answered? && s.start.Landed? && walk.end.Complete? && s.firstRead.Answered? && !s.canceled
            && AllWentWell(walk.tracks, s.likes)
  {
    var walk := Walk(ServerFor(w.votes, s.sizes, s.faults), w.watermark);
    var w1 := ApplyAll(w, s.afterWalk);
    var loc := FirstLocals(walk.end.Complete?, w.watermark, w1.playlist, |walk.tracks|);
    CleanStepsWentWell(w1, loc, walk.tracks, s.likes, th);
    var p := LikeSteps(w1, loc, walk.tracks, s.likes, th, false);
    PassCases(w, s, th, false);
    CleanAddingWentWell(p.w, p.loc, w.watermark, s);
  }

  // ---------- when the walk ends without an error ----------

  lemma ReadOnCompletes(len: nat, sizes: nat -> nat, stops: nat -> bool)
    requires Offset(len, sizes, MAX_PAGES) == len
    ensures ReadOn(len, sizes, stops, 1).complete
  {
    var good := (k: nat, stop: Stop) => k <= MAX_PAGES ==> stop.complete;
    assert Halts(len, sizes, stops, MAX_PAGES);
    ReadOnReaches(len, sizes, stops, 1, good);
  }

  lemma {:induction false} NoneUnreadable(votes: seq<Vote>)
    requires forall v :: v in votes ==> !Judge(v.row).RowDropped?
    ensures Unreadable(votes) == 0
  {
    if votes != [] {
      assert votes == Front(votes) + [Last(votes)];
      NoneUnreadable(Front(votes));
    }
  }

  lemma TurnDoesNotFail(server: nat -> PageReply, since: Time, page: nat, w: Walked, c: Contribution)
    requires page <= MAX_PAGES && server(page).Page? && server(page).rows != []
    requires c == Contribute(PageOf(server(page).rows), w.seen, since)
    requires c.Stops(since) || !WalkFrom(server, since, page + 1, w.Take(c)).end.Failed?
    ensures !WalkFrom(server, since, page, w).end.Failed?
  {
    WalkTurn(server, since, page, server(page).rows, w, c);
  }

  lemma ShortTurnDoesNotFail(server: nat -> PageReply, since: Time, page: nat, w: Walked)
    requires page > MAX_PAGES || server(page) == Page([])
    ensures !WalkFrom(server, since, page, w).end.Failed?
  {
  }

  lemma {:induction false} AnsweredWalkDoesNotFail(server: nat -> PageReply, since: Time, page: nat, w: Walked)
    requires forall k: nat :: server(k).Page?
    ensures !WalkFrom(server, since, page, w).end.Failed?
    decreases MAX_PAGES + 1 - page
  {
    if page > MAX_PAGES || server(page).rows == [] {
      ShortTurnDoesNotFail(server, since, page, w);
    } else {
      var c := Contribute(PageOf(server(page).rows), w.seen, since);
      if !c.Stops(since) {
        AnsweredWalkDoesNotFail(server, since, page + 1, w.Take(c));
      }
      TurnDoesNotFail(server, since, page, w, c);
    }
  }

  lemma ReadableFront(votes: seq<Vote>, n: nat)
    requires n <= |votes| && forall v :: v in votes ==> !Judge(v.row).RowDropped?
    ensures Unreadable(votes[..n]) == 0
  {
    assert forall v :: v in votes[..n] ==> v in votes;
    NoneUnreadable(votes[..n]);
  }

  lemma OutcomeCompletes(r: WalkResult, votes: seq<Vote>, since: Time, stop: Stop)
    requires WalkedTo(r, votes, since, stop) && !r.end.Failed? && stop.complete
    requires forall v :: v in votes ==> !Judge(v.row).RowDropped?
    ensures r.end.Complete?
  {
    ReadableFront(votes, stop.at);
  }

  /** It does when no page fails, every record is readable, and the votes end
      before the last page the walk may ask for. */
  lemma HealthyWalkCompletes(votes: seq<Vote>, sizes: nat -> nat, faults: nat -> Option<Fault>, since: Time)
    requires WellFormed(votes) && (forall k :: faults(k).None?) && Offset(|votes|, sizes, MAX_PAGES) == |votes|
    requires forall v :: v in votes ==> !Judge(v.row).RowDropped?
    ensures Walk(ServerFor(votes, sizes, faults), since).end.Complete?
  {
    var server := ServerFor(votes, sizes, faults);
    WellFormedIsOrdered(votes);
    WholeWalk(votes, sizes, faults, since);
    AnsweredWalkDoesNotFail(server, since, 1, Walked({}, [], 0));
    ReadOnCompletes(|votes|, sizes, StopRule(votes, sizes, since));
    OutcomeCompletes(Walk(server, since), votes, since, ReadTo(votes, sizes, since, 1));
  }

  /** So with everything healthy every pass ends clean. */
  lemma HealthyPassIsClean(w: World, s: PassScript, th: Thresholds)
    requires WellFormed(w.votes) && AllSucceeds(s) && (forall k :: s.faults(k).None?)
    requires Offset(|w.votes|, s.sizes, MAX_PAGES) == |w.votes|
    requires forall v :: v in w.votes ==> !Judge(v.row).RowDropped?
    ensures RunPass(w, s, th, false).end.Clean?
  {
    HealthyWalkCompletes(w.votes, s.sizes, s.faults, w.watermark);
    PassIsCleanExactlyWhen(w, s, th);
  }
}
