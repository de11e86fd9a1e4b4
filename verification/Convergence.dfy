/** The sync converges: when Spotify's answer for a track does not change and
    nobody removes tracks, a clean pass settles every like it covered for
    good. */
module Convergence {
  import opened Common
  import opened Difm
  import opened DifmWalk
  import opened World
  import opened Pass
  import opened Resync
  import opened NoLoss
  import opened PlaylistSafety
  import opened Runs

  /** A fixed search answer per track, and the thresholds it is judged by. */
  datatype Fixed = Fixed(answer: int -> seq<Scored>, th: Thresholds) {
    predicate Auto(trackId: int) {
      answer(trackId) != [] && answer(trackId)[0].score >= th.auto
    }

    function Best(trackId: int): SpotifyId
      requires Auto(trackId)
    {
      answer(trackId)[0].id
    }
  }

  predicate NoRemovals(os: seq<Outside>) {
    forall o :: o in os ==> !o.HandRemove?
  }

  ghost predicate LikeFollows(ls: LikeScript, fx: Fixed) {
    && NoRemovals(ls.outside)
    && forall t :: ls.search(t).Found? ==> ls.search(t).candidates == fx.answer(t.trackId)
  }

  /** The pass gets the fixed answers, and nobody removes tracks beside it. */
  ghost predicate Follows(s: PassScript, fx: Fixed) {
    && NoRemovals(s.afterWalk) && NoRemovals(s.beforeReread) && NoRemovals(s.beforeCommit)
    && forall i :: LikeFollows(s.likes(i), fx)
  }

  ghost predicate EventFollows(e: Event, fx: Fixed) {
    match e
    case Sync(s, th, _) => th == fx.th && Follows(s, fx)
    case Meanwhile(o) => !o.HandRemove?
    case _ => true
  }

  ghost predicate AllFollow(es: seq<Event>, fx: Fixed) {
    forall e :: e in es ==> EventFollows(e, fx)
  }

  // ---------- what is settled ----------

  /** The like is one the engine adds on its own, under this answer. */
  predicate Wanted(v: Vote, fx: Fixed) {
    && Judge(v.row).RowOk? && !Judge(v.row).track.skip && fx.Auto(Judge(v.row).track.trackId)
  }

  predicate Placed(w: World, trackId: int, fx: Fixed) {
    fx.Auto(trackId) ==> fx.Best(trackId) in w.playlist
  }

  /** Every wanted like up to a time has its track in the playlist. */
  predicate Settled(w: World, until: Time, fx: Fixed) {
    forall v :: v in w.votes && v.at <= until && Wanted(v, fx) ==> Placed(w, Judge(v.row).track.trackId, fx)
  }

  /** The ledger and the queue agree with the fixed answers. */
  predicate Agrees(w: World, fx: Fixed) {
    && (forall id :: id in w.ledger ==> Placed(w, id, fx))
    && (forall id :: id in w.queue && fx.Auto(id) ==> w.queue[id].candidates == [])
  }

  predicate Converging(w: World, fx: Fixed) {
    Agrees(w, fx) && (w.watermark != UNSET ==> Settled(w, w.watermark, fx))
  }

  predicate Keeps(w: World, w': World) {
    forall id :: id in w.playlist ==> id in w'.playlist
  }

  /** Nothing left the playlist, and new votes are later than the clock. */
  predicate Onward(w: World, w': World) {
    && Keeps(w, w') && w.clock <= w'.clock
    && forall v :: v in w'.votes ==> v in w.votes || v.at > w.clock
  }

  /** What a pass from w does to convergence. */
  predicate PassGood(w: World, o: PassOutcome, fx: Fixed) {
    Converging(o.world, fx) && Onward(w, o.world) && (o.end.Clean? ==> Settled(o.world, w.clock, fx))
  }

  lemma SettledStays(w: World, w': World, until: Time, fx: Fixed)
    requires Settled(w, until, fx) && Onward(w, w') && until <= w.clock
    ensures Settled(w', until, fx)
  {
  }

  // ---------- beside the pass ----------

  lemma ApplyAgrees(w: World, o: Outside, fx: Fixed)
    requires Agrees(w, fx) && !o.HandRemove?
    ensures Agrees(Apply(w, o), fx) && Keeps(w, Apply(w, o))
  {
    match o
    case Approve(trackId, candidate, _, _, _, _) =>
      if trackId in w.queue && fx.Auto(trackId) {
        assert Choose(w.queue, trackId, candidate).None?;
      }
    case _ =>
  }

  lemma {:induction false} ApplyAllAgrees(w: World, os: seq<Outside>, fx: Fixed)
    requires Agrees(w, fx) && NoRemovals(os)
    ensures Agrees(ApplyAll(w, os), fx) && Keeps(w, ApplyAll(w, os))
    decreases |os|
  {
    if os != [] {
      ApplyAgrees(w, os[0], fx);
      ApplyAllAgrees(Apply(w, os[0]), os[1..], fx);
    }
  }

  // ---------- the likes of a pass ----------

  predicate InOrPending(w: World, loc: Locals, id: SpotifyId) {
    id in w.playlist || id in loc.ids
  }

  predicate LocalsAgree(w: World, loc: Locals, fx: Fixed) {
    && (forall id :: id in loc.present ==> InOrPending(w, loc, id))
    && (forall p :: p in loc.rows ==> fx.Auto(p.trackId) && p.row.spotifyId == fx.Best(p.trackId)
                                      && InOrPending(w, loc, p.row.spotifyId))
  }

  /** The like needs nothing more once the pending ids are posted. */
  predicate Met(w: World, loc: Locals, like: Track, fx: Fixed) {
    !like.skip && fx.Auto(like.trackId) ==> InOrPending(w, loc, fx.Best(like.trackId))
  }

  predicate StepAgrees(w: World, loc: Locals, p: Progress, fx: Fixed) {
    && Agrees(p.w, fx) && Keeps(w, p.w) && LocalsAgree(p.w, p.loc, fx)
    && loc.ids <= p.loc.ids && (p.loc.clean ==> loc.clean)
  }

  lemma QueueingAgrees(w: World, loc: Locals, like: Track, candidates: seq<Scored>, reason: Reason,
                       write: Write, fx: Fixed)
    requires Agrees(w, fx) && LocalsAgree(w, loc, fx)
    requires candidates == [] || !fx.Auto(like.trackId)
    ensures StepAgrees(w, loc, Queueing(w, loc, like, candidates, reason, write, false), fx)
  {
  }

  lemma DecidingAgrees(w: World, loc: Locals, like: Track, write: Write, fx: Fixed)
    requires Agrees(w, fx) && LocalsAgree(w, loc, fx)
    ensures var p := Deciding(w, loc, like, fx.answer(like.trackId), fx.th, write, false);
            StepAgrees(w, loc, p, fx) && Met(p.w, p.loc, like, fx)
  {
    var candidates := fx.answer(like.trackId);
    if fx.Auto(like.trackId) {
      var p := Deciding(w, loc, like, candidates, fx.th, write, false);
      assert loc.ids <= p.loc.ids;
    } else {
      QueueingAgrees(w, loc, like, candidates, LowConfidence, write, fx);
      QueueingAgrees(w, loc, like, candidates, NoMatch, write, fx);
    }
  }

  lemma LikeStepAgrees(w0: World, loc: Locals, like: Track, ls: LikeScript, fx: Fixed)
    requires Agrees(w0, fx) && LocalsAgree(w0, loc, fx) && LikeFollows(ls, fx)
    ensures var p := LikeStep(w0, loc, like, ls, fx.th, false);
            StepAgrees(w0, loc, p, fx) && (p.halt.Running? && p.loc.clean ==> Met(p.w, p.loc, like, fx))
  {
    var w := ApplyAll(w0, ls.outside);
    ApplyAllAgrees(w0, ls.outside, fx);
    assert LocalsAgree(w, loc, fx);
    if like.skip {
      QueueingAgrees(w, loc, like, [], Skipped, ls.enqueue, fx);
    } else if ls.search(like).Found? {
      DecidingAgrees(w, loc, like, ls.enqueue, fx);
    }
  }

  lemma {:induction false} LikeStepsAgree(w: World, loc: Locals, likes: seq<Track>, scripts: nat -> LikeScript,
                                          fx: Fixed)
    requires Agrees(w, fx) && LocalsAgree(w, loc, fx) && forall i :: LikeFollows(scripts(i), fx)
    ensures var p := LikeSteps(w, loc, likes, scripts, fx.th, false);
            && StepAgrees(w, loc, p, fx)
            && (p.halt.Running? && p.loc.clean ==> forall like :: like in likes ==> Met(p.w, p.loc, like, fx))
  {
    if likes != [] {
      var front, last := Front(likes), Last(likes);
      assert likes == front + [last];
      LikeStepsAgree(w, loc, front, scripts, fx);
      var p := LikeSteps(w, loc, front, scripts, fx.th, false);
      if p.halt.Running? {
        LikeStepAgrees(p.w, p.loc, last, scripts(|likes| - 1), fx);
      }
    }
  }

  // ---------- the end of a pass ----------

  predicate AllIn(w: World, ids: seq<SpotifyId>) {
    forall id :: id in ids ==> id in w.playlist
  }

  lemma {:induction false} RecordedAllPlaced(w: World, ledger: map<int, LedgerRow>, rows: seq<PendingRow>, fx: Fixed)
    requires forall id :: id in ledger ==> Placed(w, id, fx)
    requires forall p :: p in rows ==> Placed(w, p.trackId, fx)
    ensures forall id :: id in RecordedAll(ledger, rows) ==> Placed(w, id, fx)
  {
    if rows != [] {
      assert rows == Front(rows) + [Last(rows)];
      RecordedAllPlaced(w, ledger, Front(rows), fx);
    }
  }

  /** Every wanted like of w0 is met by the likes the pass handled or was
      settled before it. */
  predicate AllMet(w0: World, w: World, loc: Locals, fx: Fixed) {
    forall v :: v in w0.votes && After(v, w0.watermark) && Wanted(v, fx) ==> Met(w, loc, Judge(v.row).track, fx)
  }

  predicate ReadyToSettle(w0: World, w: World, loc: Locals, fx: Fixed) {
    && Inv(w0) && Converging(w0, fx) && Extends(w0, w) && Agrees(w, fx) && Keeps(w0, w)
    && LocalsAgree(w, loc, fx) && AllIn(w, loc.ids)
    && (loc.clean ==> AllMet(w0, w, loc, fx))
    && AdvancedOver(loc.high, loc.rows) <= w0.clock
  }

  lemma CleanSettles(w0: World, w: World, loc: Locals, fx: Fixed)
    requires ReadyToSettle(w0, w, loc, fx) && loc.clean
    ensures Settled(w, w0.clock, fx)
  {
    forall v | v in w.votes && v.at <= w0.clock && Wanted(v, fx)
      ensures Placed(w, Judge(v.row).track.trackId, fx)
    {
      assert v in w0.votes;
      if After(v, w0.watermark) {
        assert Met(w, loc, Judge(v.row).track, fx);
      }
    }
  }

  lemma WatermarkSettled(w0: World, w: World, fx: Fixed)
    requires Inv(w0) && Converging(w0, fx) && Extends(w0, w) && Agrees(w, fx) && Keeps(w0, w)
    ensures Converging(w, fx) && Onward(w0, w)
  {
    if w0.watermark != UNSET {
      SettledStays(w0, w, w0.watermark, fx);
    }
  }

  lemma CommittingConverges(w0: World, w: World, loc: Locals, s: PassScript, posted: seq<SpotifyId>, fx: Fixed)
    requires ReadyToSettle(w0, w, loc, fx)
    ensures PassGood(w0, Committing(w, loc, w0.watermark, s, posted), fx)
  {
    WatermarkSettled(w0, w, fx);
    RecordedAllPlaced(w, w.ledger, loc.rows, fx);
    if loc.clean {
      CleanSettles(w0, w, loc, fx);
    }
  }

  lemma StaysReady(w0: World, w: World, w': World, loc: Locals, loc': Locals, fx: Fixed)
    requires Inv(w0) && Converging(w0, fx) && Extends(w0, w) && Keeps(w0, w)
    requires LocalsAgree(w, loc, fx) && (loc.clean ==> AllMet(w0, w, loc, fx))
    requires AdvancedOver(loc.high, loc.rows) <= w0.clock
    requires Extends(w, w') && Keeps(w, w') && Agrees(w', fx) && AllIn(w', loc.ids)
    requires loc' == loc.(stats := loc'.stats)
    ensures ReadyToSettle(w0, w', loc', fx)
  {
    ExtendsTransitive(w0, w, w');
  }

  lemma AppendedAgrees(w: World, ids: seq<SpotifyId>, fx: Fixed)
    requires Agrees(w, fx)
    ensures Agrees(Appended(w, ids), fx) && Keeps(w, Appended(w, ids)) && Extends(w, Appended(w, ids))
  {
  }

  /** What the adding that follows the likes needs to know. */
  predicate ReadyToAdd(w0: World, w: World, loc: Locals, fx: Fixed) {
    && Inv(w0) && Converging(w0, fx) && Sane(w) && Extends(w0, w) && Keeps(w0, w) && Agrees(w, fx)
    && LocalsAgree(w, loc, fx) && (loc.clean ==> AllMet(w0, w, loc, fx))
    && AdvancedOver(loc.high, loc.rows) <= w0.clock
  }

  /** The commit, after what others do before it. */
  lemma CommitLaterConverges(w0: World, w: World, w2: World, loc: Locals, loc': Locals, s: PassScript,
                             posted: seq<SpotifyId>, fx: Fixed)
    requires ReadyToAdd(w0, w, loc, fx) && NoRemovals(s.beforeCommit) && loc' == loc.(stats := loc'.stats)
    requires Sane(w2) && Extends(w, w2) && Keeps(w, w2) && Agrees(w2, fx) && AllIn(w2, loc.ids)
    ensures PassGood(w0, Committing(ApplyAll(w2, s.beforeCommit), loc', w0.watermark, s, posted), fx)
  {
    var w3 := ApplyAll(w2, s.beforeCommit);
    ApplyAllAgrees(w2, s.beforeCommit, fx);
    ApplyAllExtends(w2, s.beforeCommit);
    ExtendsTransitive(w, w2, w3);
    StaysReady(w0, w, w3, loc, loc', fx);
    CommittingConverges(w0, w3, loc', s, posted, fx);
  }

  /** The playlist after the posts, and whether they are all in it. */
  lemma PostsAgree(w0: World, w: World, loc: Locals, s: PassScript, fx: Fixed)
    requires ReadyToAdd(w0, w, loc, fx) && NoRemovals(s.beforeReread)
    ensures var w1 := ApplyAll(w, s.beforeReread);
            var p := PostFrom(Without(loc.ids, Elements(w1.playlist)), s.posts, 0);
            var w2 := Appended(w1, p.landed);
            && Converging(w1, fx) && Onward(w0, w1) && Converging(w2, fx) && Onward(w0, w2)
            && Sane(w2) && Extends(w, w2) && Keeps(w, w2) && Agrees(w2, fx)
            && (p.end.AllPosted? ==> AllIn(w2, loc.ids))
  {
    var w1 := ApplyAll(w, s.beforeReread);
    ApplyAllAgrees(w, s.beforeReread, fx);
    ApplyAllExtends(w, s.beforeReread);
    ExtendsTransitive(w0, w, w1);
    WatermarkSettled(w0, w1, fx);
    var absent := Without(loc.ids, Elements(w1.playlist));
    var p := PostFrom(absent, s.posts, 0);
    var w2 := Appended(w1, p.landed);
    AppendedAgrees(w1, p.landed, fx);
    ExtendsTransitive(w0, w1, w2);
    ExtendsTransitive(w, w1, w2);
    WatermarkSettled(w0, w2, fx);
    WithoutMeans(loc.ids, Elements(w1.playlist));
    PostedIsAPrefix(absent, s.posts, 0);
  }

  lemma AddingConverges(w0: World, w: World, loc: Locals, s: PassScript, fx: Fixed)
    requires ReadyToAdd(w0, w, loc, fx) && NoRemovals(s.beforeReread) && NoRemovals(s.beforeCommit)
    ensures PassGood(w0, Adding(w, loc, w0.watermark, s), fx)
  {
    if loc.ids == [] {
      CommitLaterConverges(w0, w, w, loc, loc, s, [], fx);
    } else {
      var w1 := ApplyAll(w, s.beforeReread);
      var absent := Without(loc.ids, Elements(w1.playlist));
      var p := PostFrom(absent, s.posts, 0);
      PostsAgree(w0, w, loc, s, fx);
      if s.reread.Answered? && p.end.AllPosted? {
        var counted := loc.(stats := loc.stats.(added := |absent|));
        CommitLaterConverges(w0, w, Appended(w1, p.landed), loc, counted, s, p.landed, fx);
      }
    }
  }

  // ---------- a whole pass ----------

  lemma CleanWalkIsMet(w0: World, s: PassScript, w: World, loc: Locals, fx: Fixed)
    requires Sane(w0)
    requires var walk := Walk(ServerFor(w0.votes, s.sizes, s.faults), w0.watermark);
             walk.end.Complete? && forall like :: like in walk.tracks ==> Met(w, loc, like, fx)
    ensures AllMet(w0, w, loc, fx)
  {
    forall v | v in w0.votes && After(v, w0.watermark) && Wanted(v, fx)
      ensures Met(w, loc, Judge(v.row).track, fx)
    {
      CleanWalkReturns(w0.votes, s.sizes, s.faults, w0.watermark, v);
    }
  }

  lemma StepsReadyToAdd(w0: World, w: World, s: PassScript, loc: Locals, fx: Fixed)
    requires Inv(w0) && Converging(w0, fx) && Sane(w) && Extends(w0, w) && Keeps(w0, w) && Agrees(w, fx)
    requires Follows(s, fx) && LocalsAgree(w, loc, fx) && loc.high <= w0.clock && loc.rows == []
    requires loc.clean ==> Walk(ServerFor(w0.votes, s.sizes, s.faults), w0.watermark).end.Complete?
    ensures var walk := Walk(ServerFor(w0.votes, s.sizes, s.faults), w0.watermark);
            var p := LikeSteps(w, loc, walk.tracks, s.likes, fx.th, false);
            && Converging(p.w, fx) && Onward(w0, p.w)
            && (p.halt.Running? ==> ReadyToAdd(w0, p.w, p.loc, fx))
  {
    var walk := Walk(ServerFor(w0.votes, s.sizes, s.faults), w0.watermark);
    var p := LikeSteps(w, loc, walk.tracks, s.likes, fx.th, false);
    FetchedStepsOk(w0, w, s, loc, fx.th);
    LikeStepsAgree(w, loc, walk.tracks, s.likes, fx);
    WatermarkSettled(w0, p.w, fx);
    if p.halt.Running? && p.loc.clean {
      CleanWalkIsMet(w0, s, p.w, p.loc, fx);
    }
  }

  lemma HandlingConverges(w0: World, w: World, s: PassScript, fx: Fixed)
    requires Inv(w0) && Converging(w0, fx) && Sane(w) && Extends(w0, w) && Keeps(w0, w) && Agrees(w, fx)
    requires Follows(s, fx)
    ensures var walk := Walk(ServerFor(w0.votes, s.sizes, s.faults), w0.watermark);
            PassGood(w0, Handling(w, walk, w0.watermark, s, fx.th, false), fx)
  {
    var walk := Walk(ServerFor(w0.votes, s.sizes, s.faults), w0.watermark);
    var loc := FirstLocals(walk.end.Complete?, w0.watermark, w.playlist, |walk.tracks|);
    StepsReadyToAdd(w0, w, s, loc, fx);
    var p := LikeSteps(w, loc, walk.tracks, s.likes, fx.th, false);
    if p.halt.Running? {
      AddingConverges(w0, p.w, p.loc, s, fx);
    }
  }

  lemma FetchedStepsOk(w0: World, w: World, s: PassScript, loc: Locals, th: Thresholds)
    requires Inv(w0) && Sane(w) && Extends(w0, w) && loc.high <= w0.clock && loc.rows == []
    ensures var walk := Walk(ServerFor(w0.votes, s.sizes, s.faults), w0.watermark);
            var p := LikeSteps(w, loc, walk.tracks, s.likes, th, false);
            Sane(p.w) && Extends(w0, p.w) && AdvancedOver(p.loc.high, p.loc.rows) <= w0.clock
  {
    var likes := Walk(ServerFor(w0.votes, s.sizes, s.faults), w0.watermark).tracks;
    forall like | like in likes
      ensures FromVote(w, like) && like.likedAt <= w0.clock
    {
      FetchedLikesAreVotes(w0, s, like);
      FromVoteStays(w0, w, like);
    }
    var p := LikeSteps(w, loc, likes, s.likes, th, false);
    LikeStepsOk(w, loc, likes, s.likes, th, w0.clock);
    ExtendsTransitive(w0, w, p.w);
    AdvancedIsBounded(p.loc.high, p.loc.rows, w0.clock);
  }

  lemma {:induction false} DryStepsAgree(w: World, loc: Locals, likes: seq<Track>, scripts: nat -> LikeScript,
                                         fx: Fixed)
    requires Agrees(w, fx) && forall i :: LikeFollows(scripts(i), fx)
    ensures var p := LikeSteps(w, loc, likes, scripts, fx.th, true);
            Agrees(p.w, fx) && Keeps(w, p.w)
  {
    if likes != [] {
      DryStepsAgree(w, loc, Front(likes), scripts, fx);
      var p := LikeSteps(w, loc, Front(likes), scripts, fx.th, true);
      ApplyAllAgrees(p.w, scripts(|likes| - 1).outside, fx);
    }
  }

  lemma DryHandlingConverges(w0: World, w: World, walk: WalkResult, s: PassScript, fx: Fixed)
    requires Inv(w0) && Converging(w0, fx) && Sane(w) && Extends(w0, w) && Keeps(w0, w) && Agrees(w, fx)
    requires Follows(s, fx)
    ensures PassGood(w0, Handling(w, walk, w0.watermark, s, fx.th, true), fx)
  {
    var loc := FirstLocals(walk.end.Complete?, w0.watermark, w.playlist, |walk.tracks|);
    var p := LikeSteps(w, loc, walk.tracks, s.likes, fx.th, true);
    DryStepsAgree(w, loc, walk.tracks, s.likes, fx);
    DryStepsExtend(w, loc, walk.tracks, s.likes, fx.th);
    ExtendsTransitive(w0, w, p.w);
    WatermarkSettled(w0, p.w, fx);
  }

  lemma PassConverges(w: World, s: PassScript, dry: bool, fx: Fixed)
    requires Inv(w) && Converging(w, fx) && Follows(s, fx)
    ensures PassGood(w, RunPass(w, s, fx.th, dry), fx)
  {
    var w1 := ApplyAll(w, s.afterWalk);
    ApplyAllAgrees(w, s.afterWalk, fx);
    ApplyAllExtends(w, s.afterWalk);
    WatermarkSettled(w, w1, fx);
    var walk := Walk(ServerFor(w.votes, s.sizes, s.faults), w.watermark);
    PassCases(w, s, fx.th, dry);
    if walk.end.Complete? || walk.end.Dropped? {
      if dry {
        DryHandlingConverges(w, w1, walk, s, fx);
      } else {
        HandlingConverges(w, w1, s, fx);
      }
    }
  }

  // ---------- what later passes post ----------

  /** The like is wanted, and was made after a time. */
  predicate WantedLater(like: Track, until: Time, id: SpotifyId, fx: Fixed) {
    like.likedAt > until && !like.skip && fx.Auto(like.trackId) && fx.Best(like.trackId) == id
  }

  predicate LaterVoteFor(votes: seq<Vote>, until: Time, id: SpotifyId, fx: Fixed) {
    exists v :: v in votes && Judge(v.row).RowOk? && WantedLater(Judge(v.row).track, until, id, fx)
  }

  /** The answers for likes up to a time are all marked present. */
  predicate PresentUpTo(loc: Locals, likes: seq<Track>, until: Time, fx: Fixed) {
    forall like :: like in likes && like.likedAt <= until && !like.skip && fx.Auto(like.trackId) ==>
      fx.Best(like.trackId) in loc.present
  }

  lemma LikeStepPostsLater(w0: World, loc: Locals, like: Track, ls: LikeScript, fx: Fixed, until: Time, dry: bool)
    requires LikeFollows(ls, fx) && PresentUpTo(loc, [like], until, fx)
    ensures var p := LikeStep(w0, loc, like, ls, fx.th, dry);
            && loc.present <= p.loc.present
            && forall id :: id in p.loc.ids ==> id in loc.ids || WantedLater(like, until, id, fx)
  {
    assert like in [like];
  }

  lemma {:induction false} LikeStepsPostLater(w: World, loc: Locals, likes: seq<Track>, scripts: nat -> LikeScript,
                                              fx: Fixed, until: Time, dry: bool)
    requires (forall i :: LikeFollows(scripts(i), fx)) && PresentUpTo(loc, likes, until, fx) && loc.ids == []
    ensures var p := LikeSteps(w, loc, likes, scripts, fx.th, dry);
            && loc.present <= p.loc.present
            && forall id :: id in p.loc.ids ==> exists like :: like in likes && WantedLater(like, until, id, fx)
  {
    if likes != [] {
      var front, last := Front(likes), Last(likes);
      assert likes == front + [last];
      assert forall like :: like in front ==> like in likes;
      LikeStepsPostLater(w, loc, front, scripts, fx, until, dry);
      var p := LikeSteps(w, loc, front, scripts, fx.th, dry);
      if p.halt.Running? {
        assert last in likes;
        var q := LikeSteps(w, loc, likes, scripts, fx.th, dry);
        assert q == LikeStep(p.w, p.loc, last, scripts(|likes| - 1), fx.th, dry);
        LikeStepPostsLater(p.w, p.loc, last, scripts(|likes| - 1), fx, until, dry);
      }
    }
  }

  lemma AddingPostsPending(w: World, loc: Locals, since: Time, s: PassScript)
    ensures forall id :: id in Adding(w, loc, since, s).posted ==> id in loc.ids
  {
    if loc.ids == [] {
      CommittingReports(ApplyAll(w, s.beforeCommit), loc, since, s, []);
    } else {
      var w1 := ApplyAll(w, s.beforeReread);
      var absent := Without(loc.ids, Elements(w1.playlist));
      var landed := PostFrom(absent, s.posts, 0).landed;
      WithoutMeans(loc.ids, Elements(w1.playlist));
      PostedIsAPrefix(absent, s.posts, 0);
      AddingCases(w, loc, since, s);
      var counted := loc.(stats := loc.stats.(added := |absent|));
      CommittingReports(ApplyAll(Appended(w1, landed), s.beforeCommit), counted, since, s, landed);
    }
  }

  lemma HandlingPostsLater(w0: World, w: World, s: PassScript, fx: Fixed, until: Time, dry: bool)
    requires Sane(w0) && Settled(w0, until, fx) && Keeps(w0, w) && Follows(s, fx)
    ensures var walk := Walk(ServerFor(w0.votes, s.sizes, s.faults), w0.watermark);
            forall id :: id in Handling(w, walk, w0.watermark, s, fx.th, dry).posted ==>
              LaterVoteFor(w0.votes, until, id, fx)
  {
    var walk := Walk(ServerFor(w0.votes, s.sizes, s.faults), w0.watermark);
    var loc := FirstLocals(walk.end.Complete?, w0.watermark, w.playlist, |walk.tracks|);
    forall like | like in walk.tracks
      ensures FromVote(w0, like)
    {
      FetchedLikesAreVotes(w0, s, like);
    }
    assert PresentUpTo(loc, walk.tracks, until, fx);
    LikeStepsPostLater(w, loc, walk.tracks, s.likes, fx, until, dry);
    var p := LikeSteps(w, loc, walk.tracks, s.likes, fx.th, dry);
    AddingPostsPending(p.w, p.loc, w0.watermark, s);
  }

  lemma KeepsOverAll(w: World, os: seq<Outside>)
    requires NoRemovals(os)
    ensures Keeps(w, ApplyAll(w, os))
    decreases |os|
  {
    if os != [] {
      KeepsOverAll(Apply(w, os[0]), os[1..]);
    }
  }

  /** From a state in which every wanted like up to a time is in the playlist,
      a pass posts only for likes made later, whatever the ledger, the queue
      and the watermark hold. */
  lemma SettledPassPostsOnlyLater(w: World, s: PassScript, fx: Fixed, until: Time, dry: bool, id: SpotifyId)
    requires Sane(w) && Settled(w, until, fx) && Follows(s, fx)
    requires id in RunPass(w, s, fx.th, dry).posted
    ensures LaterVoteFor(w.votes, until, id, fx)
  {
    var w1 := ApplyAll(w, s.afterWalk);
    KeepsOverAll(w, s.afterWalk);
    HandlingPostsLater(w, w1, s, fx, until, dry);
  }

  // ---------- whole runs ----------

  lemma ResyncConverges(w: World, c: Command, fx: Fixed)
    requires Inv(w) && Converging(w, fx)
    ensures Converging(Resynced(w, c), fx)
  {
    StoredTimesOf(w);
    ForgetRemoves(w.ledger, c.forget);
    if !c.ClearsMark() {
      assert c == Command(false, c.forget, false);
      ForgetClearsBothSuppressors(w, c.forget);
    }
  }

  /** An older database is as settled as it was: the playlist kept its tracks. */
  lemma RestoreConverges(w: World, backup: World, fx: Fixed)
    requires Inv(backup) && Converging(backup, fx) && Onward(backup, w)
    ensures Converging(Restored(w, backup), fx)
  {
    var w' := Restored(w, backup);
    if w'.watermark != UNSET {
      SettledStays(backup, w', w'.watermark, fx);
    }
  }

  lemma StepConverges(w: World, e: Event, backup: World, fx: Fixed)
    requires Inv(w) && Converging(w, fx) && EventFollows(e, fx)
    requires Inv(backup) && Converging(backup, fx) && Onward(backup, w)
    ensures Converging(Step(w, e, backup), fx) && Onward(w, Step(w, e, backup))
  {
    match e
    case Sync(s, _, dry) => PassConverges(w, s, dry, fx);
    case Meanwhile(o) =>
      ApplyAgrees(w, o, fx);
      ApplyExtends(w, o);
      WatermarkSettled(w, Apply(w, o), fx);
    case Recover(c) => ResyncConverges(w, c, fx);
    case Restore(_) => RestoreConverges(w, backup, fx);
  }

  lemma OnwardTransitive(a: World, b: World, c: World)
    requires Onward(a, b) && Onward(b, c)
    ensures Onward(a, c)
  {
  }

  lemma StepOfRunConverges(w: World, es: seq<Event>, fx: Fixed)
    requires Initial(w) && es != [] && EventFollows(Last(es), fx)
    requires Converging(Exec(w, Front(es)), fx)
    requires var backup := Exec(w, es[..BackupOf(es)]); Converging(backup, fx) && Onward(backup, Exec(w, Front(es)))
    ensures Converging(Exec(w, es), fx) && Onward(Exec(w, Front(es)), Exec(w, es))
  {
    ReachableStatesAreGood(w, Front(es));
    ReachableStatesAreGood(w, es[..BackupOf(es)]);
    StepConverges(Exec(w, Front(es)), Last(es), Exec(w, es[..BackupOf(es)]), fx);
  }

  lemma FrontFollows(es: seq<Event>, fx: Fixed)
    requires es != [] && AllFollow(es, fx)
    ensures AllFollow(Front(es), fx) && EventFollows(Last(es), fx)
  {
    assert es == Front(es) + [Last(es)];
    assert forall e :: e in Front(es) ==> e in es;
    assert Last(es) in es;
  }

  /** Every state of the run is converging, and nothing left the playlist
      since any earlier one. */
  lemma {:induction false} RunConverges(w: World, es: seq<Event>, n: nat, fx: Fixed)
    requires Initial(w) && AllFollow(es, fx) && n <= |es|
    ensures Converging(Exec(w, es), fx)
    ensures Converging(Exec(w, es[..n]), fx) && Onward(Exec(w, es[..n]), Exec(w, es))
  {
    if es == [] {
      assert es[..n] == es;
    } else {
      var k := BackupOf(es);
      FrontFollows(es, fx);
      assert Front(es)[..k] == es[..k];
      RunConverges(w, Front(es), k, fx);
      StepOfRunConverges(w, es, fx);
      if n == |es| {
        assert es[..n] == es;
      } else {
        assert Front(es)[..n] == es[..n];
        RunConverges(w, Front(es), n, fx);
        OnwardTransitive(Exec(w, es[..n]), Exec(w, Front(es)), Exec(w, es));
      }
    }
  }

  /** What is settled stays settled, whatever resyncs and restored backups do
      to the ledger, the queue and the watermark. */
  lemma SettledForGood(w: World, before: seq<Event>, after: seq<Event>, until: Time, fx: Fixed)
    requires Initial(w) && AllFollow(before + after, fx)
    requires Settled(Exec(w, before), until, fx) && until <= Exec(w, before).clock
    ensures Settled(Exec(w, before + after), until, fx) && until <= Exec(w, before + after).clock
  {
    var es := before + after;
    assert es[..|before|] == before;
    RunConverges(w, es, |before|, fx);
    SettledStays(Exec(w, before), Exec(w, es), until, fx);
  }

  /** The sync converges. Once a clean pass has gone over the likes of a
      moment, every later pass of the run posts only for likes made after that
      moment, whatever ledger rows and watermarks resync clears in between, and
      whatever older database is restored. */
  lemma SyncConverges(w: World, before: seq<Event>, clean: PassScript, after: seq<Event>,
                      s: PassScript, dry: bool, id: SpotifyId, fx: Fixed)
    requires Initial(w) && AllFollow(before + [Sync(clean, fx.th, false)] + after, fx) && Follows(s, fx)
    requires RunPass(Exec(w, before), clean, fx.th, false).end.Clean?
    requires id in RunPass(Exec(w, before + [Sync(clean, fx.th, false)] + after), s, fx.th, dry).posted
    ensures LaterVoteFor(Exec(w, before + [Sync(clean, fx.th, false)] + after).votes, Exec(w, before).clock, id, fx)
  {
    var pass := Sync(clean, fx.th, false);
    var first, all := before + [pass], before + [pass] + after;
    assert Front(first) == before && Last(first) == pass;
    assert pass in all;
    assert all[..|before|] == before;
    RunConverges(w, all, |before|, fx);
    ReachableStatesAreGood(w, before);
    PassConverges(Exec(w, before), clean, false, fx);
    SettledForGood(w, first, after, Exec(w, before).clock, fx);
    ReachableStatesAreGood(w, all);
    SettledPassPostsOnlyLater(Exec(w, all), s, fx, Exec(w, before).clock, dry, id);
  }

  lemma NoVoteIsLaterThanNow(w: World, id: SpotifyId, fx: Fixed)
    requires Sane(w)
    ensures !LaterVoteFor(w.votes, w.clock, id, fx)
  {
    forall v | v in w.votes && Judge(v.row).RowOk?
      ensures !WantedLater(Judge(v.row).track, w.clock, id, fx)
    {
      JudgedLike(v);
    }
  }

  /** With no likes made since, later passes post nothing at all. */
  lemma NothingNewNothingPosted(w: World, before: seq<Event>, clean: PassScript, after: seq<Event>,
                                s: PassScript, dry: bool, fx: Fixed)
    requires Initial(w) && AllFollow(before + [Sync(clean, fx.th, false)] + after, fx) && Follows(s, fx)
    requires RunPass(Exec(w, before), clean, fx.th, false).end.Clean?
    requires Exec(w, before + [Sync(clean, fx.th, false)] + after).votes == Exec(w, before).votes
    ensures RunPass(Exec(w, before + [Sync(clean, fx.th, false)] + after), s, fx.th, dry).posted == []
  {
    var posted := RunPass(Exec(w, before + [Sync(clean, fx.th, false)] + after), s, fx.th, dry).posted;
    if posted != [] {
      ReachableStatesAreGood(w, before);
      NoVoteIsLaterThanNow(Exec(w, before), posted[0], fx);
      SyncConverges(w, before, clean, after, s, dry, posted[0], fx);
    }
  }
}
