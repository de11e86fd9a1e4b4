/** A dry run predicts a real run: it writes nothing, and counts what the real
    pass would count. */
module DryRun {
  import opened Common
  import opened Difm
  import opened DifmWalk
  import opened World
  import opened Pass
  import opened NoLoss
  import opened PlaylistSafety

  /** Nobody interferes with the pass. */
  ghost predicate Alone(s: PassScript) {
    && s.afterWalk == [] && s.beforeReread == []
    && forall i :: s.likes(i).outside == []
  }

  /** Every write the real pass makes before its commit succeeds. */
  ghost predicate WritesSucceed(s: PassScript) {
    && s.reread.Answered?
    && (forall i :: s.likes(i).enqueue.Landed?)
    && (forall b :: s.posts(b).Landed?)
  }

  /** No hand puts a track in the playlist and nobody approves one. Votes,
      rejections and removals are possible. */
  predicate AddsNothing(os: seq<Outside>) {
    forall o :: o in os ==> !o.HandAdd? && !o.Approve?
  }

  /** Nobody adds to the playlist between the pass's first read of it and its
      second. */
  ghost predicate Undisturbed(s: PassScript) {
    AddsNothing(s.beforeReread) && forall i :: AddsNothing(s.likes(i).outside)
  }

  /** The two passes have decided alike so far: they differ in the real one's
      queue, its pending rows and its high-water mark. */
  predicate SameCourse(dry: Progress, wet: Progress) {
    && SameButQueue(dry.w, wet.w)
    && dry.halt == wet.halt
    && dry.loc.clean == wet.loc.clean && dry.loc.stats == wet.loc.stats
    && dry.loc.present == wet.loc.present && dry.loc.ids == wet.loc.ids
  }

  predicate SameButQueue(w: World, w': World) {
    w' == w.(queue := w'.queue)
  }

  predicate PlaylistWithin(w: World, bound: set<SpotifyId>) {
    forall id :: id in w.playlist ==> id in bound
  }

  lemma {:induction false} OthersActAlike(dw: World, ww: World, os: seq<Outside>, bound: set<SpotifyId>)
    requires AddsNothing(os) && SameButQueue(dw, ww) && PlaylistWithin(ww, bound)
    ensures SameButQueue(ApplyAll(dw, os), ApplyAll(ww, os)) && PlaylistWithin(ApplyAll(ww, os), bound)
    decreases |os|
  {
    if os != [] {
      assert os[0] in os;
      OthersActAlike(Apply(dw, os[0]), Apply(ww, os[0]), os[1..], bound);
    }
  }

  lemma SameQueueing(dw: World, ww: World, dl: Locals, wl: Locals, like: Track,
                     candidates: seq<Scored>, reason: Reason, write: Write)
    requires SameCourse(Progress(dw, dl, Running), Progress(ww, wl, Running)) && write.Landed?
    ensures SameCourse(Queueing(dw, dl, like, candidates, reason, write, true),
                       Queueing(ww, wl, like, candidates, reason, write, false))
  {
  }

  lemma SameDeciding(dw: World, ww: World, dl: Locals, wl: Locals, like: Track,
                     candidates: seq<Scored>, th: Thresholds, write: Write)
    requires SameCourse(Progress(dw, dl, Running), Progress(ww, wl, Running)) && write.Landed?
    ensures SameCourse(Deciding(dw, dl, like, candidates, th, write, true),
                       Deciding(ww, wl, like, candidates, th, write, false))
  {
    SameQueueing(dw, ww, dl, wl, like, candidates, LowConfidence, write);
    SameQueueing(dw, ww, dl, wl, like, candidates, NoMatch, write);
  }

  /** A like's step touches the playlist only through what others do. */
  lemma StepKeepsPlaylist(w: World, loc: Locals, like: Track, ls: LikeScript, th: Thresholds)
    ensures LikeStep(w, loc, like, ls, th, false).w.playlist == ApplyAll(w, ls.outside).playlist
  {
  }

  lemma SameStep(dw: World, ww: World, dl: Locals, wl: Locals, like: Track, ls: LikeScript, th: Thresholds,
                 bound: set<SpotifyId>)
    requires SameCourse(Progress(dw, dl, Running), Progress(ww, wl, Running)) && PlaylistWithin(ww, bound)
    requires AddsNothing(ls.outside) && ls.enqueue.Landed?
    ensures SameCourse(LikeStep(dw, dl, like, ls, th, true), LikeStep(ww, wl, like, ls, th, false))
  {
    OthersActAlike(dw, ww, ls.outside, bound);
    var d, r := ApplyAll(dw, ls.outside), ApplyAll(ww, ls.outside);
    var dry, wet := LikeStep(dw, dl, like, ls, th, true), LikeStep(ww, wl, like, ls, th, false);
    if like.skip {
      SameQueueing(d, r, dl, wl, like, [], Skipped, ls.enqueue);
    } else if ls.synced.Answered? && like.trackId !in d.ledger && ls.search(like).Found? {
      var candidates := ls.search(like).candidates;
      assert dry == Deciding(d, dl, like, candidates, th, ls.enqueue, true);
      assert wet == Deciding(r, wl, like, candidates, th, ls.enqueue, false);
      SameDeciding(d, r, dl, wl, like, candidates, th, ls.enqueue);
    } else {
      assert dry.w == d && wet.w == r;
    }
  }

  lemma {:induction false} SameSteps(w: World, loc: Locals, likes: seq<Track>, scripts: nat -> LikeScript,
                                     th: Thresholds, bound: set<SpotifyId>)
    requires PlaylistWithin(w, bound) && forall i :: AddsNothing(scripts(i).outside) && scripts(i).enqueue.Landed?
    ensures SameCourse(LikeSteps(w, loc, likes, scripts, th, true), LikeSteps(w, loc, likes, scripts, th, false))
    ensures PlaylistWithin(LikeSteps(w, loc, likes, scripts, th, false).w, bound)
  {
    if likes != [] {
      SameSteps(w, loc, Front(likes), scripts, th, bound);
      var d := LikeSteps(w, loc, Front(likes), scripts, th, true);
      var r := LikeSteps(w, loc, Front(likes), scripts, th, false);
      if r.halt.Running? {
        var ls := scripts(|likes| - 1);
        SameStep(d.w, r.w, d.loc, r.loc, Last(likes), ls, th, bound);
        OthersActAlike(r.w, r.w, ls.outside, bound);
        StepKeepsPlaylist(r.w, r.loc, Last(likes), ls, th);
      }
    }
  }

  /** The ids a pass means to post are new to the playlist it read, and it has
      counted none as added. */
  predicate Owing(loc: Locals, before: set<SpotifyId>) {
    before <= loc.present && loc.stats.added == 0 && forall id :: id in loc.ids ==> id !in before
  }

  lemma StepOwes(w: World, loc: Locals, like: Track, ls: LikeScript, th: Thresholds, before: set<SpotifyId>)
    requires Owing(loc, before)
    ensures Owing(LikeStep(w, loc, like, ls, th, false).loc, before)
  {
    var w1 := ApplyAll(w, ls.outside);
    if !like.skip && ls.search(like).Found? {
      assert Owing(Deciding(w1, loc, like, ls.search(like).candidates, th, ls.enqueue, false).loc, before);
    }
  }

  lemma {:induction false} StepsOwe(w: World, loc: Locals, likes: seq<Track>, scripts: nat -> LikeScript,
                                    th: Thresholds, before: set<SpotifyId>)
    requires Owing(loc, before)
    ensures Owing(LikeSteps(w, loc, likes, scripts, th, false).loc, before)
  {
    if likes != [] {
      StepsOwe(w, loc, Front(likes), scripts, th, before);
      var p := LikeSteps(w, loc, Front(likes), scripts, th, false);
      StepOwes(p.w, p.loc, Last(likes), scripts(|likes| - 1), th, before);
    }
  }

  lemma {:induction false} NoneArrived(ids: seq<SpotifyId>, current: set<SpotifyId>)
    requires forall id :: id in ids ==> id !in current
    ensures Without(ids, current) == ids
  {
    if ids != [] {
      assert ids == Front(ids) + [Last(ids)];
      NoneArrived(Front(ids), current);
    }
  }

  /** Everything other processes do from the walk up to the n-th like. */
  function OutsideDuring(s: PassScript, n: nat): seq<Outside> {
    if n == 0 then s.afterWalk else OutsideDuring(s, n - 1) + s.likes(n - 1).outside
  }

  lemma {:induction false} ApplyAllSum(w: World, a: seq<Outside>, b: seq<Outside>)
    ensures ApplyAll(w, a + b) == ApplyAll(ApplyAll(w, a), b)
    decreases |a|
  {
    if a == [] {
      assert a + b == b;
    } else {
      assert (a + b)[1..] == a[1..] + b;
      ApplyAllSum(Apply(w, a[0]), a[1..], b);
    }
  }

  lemma {:induction false} DryStepsAreOutside(w: World, s: PassScript, loc: Locals, likes: seq<Track>, th: Thresholds)
      returns (n: nat)
    ensures var p := LikeSteps(ApplyAll(w, s.afterWalk), loc, likes, s.likes, th, true);
            && n <= |likes| && (p.halt.Running? ==> n == |likes|)
            && p.w == ApplyAll(w, OutsideDuring(s, n))
  {
    if likes == [] {
      n := 0;
    } else {
      n := DryStepsAreOutside(w, s, loc, Front(likes), th);
      var p := LikeSteps(ApplyAll(w, s.afterWalk), loc, Front(likes), s.likes, th, true);
      if p.halt.Running? {
        ApplyAllSum(w, OutsideDuring(s, n), s.likes(n).outside);
        DryStepIsOutside(p.w, p.loc, Last(likes), s.likes(n), th);
        n := n + 1;
      }
    }
  }

  lemma DryStepIsOutside(w: World, loc: Locals, like: Track, ls: LikeScript, th: Thresholds)
    ensures LikeStep(w, loc, like, ls, th, true).w == ApplyAll(w, ls.outside)
  {
  }

  lemma {:induction false} NothingOutside(s: PassScript, n: nat)
    requires Alone(s)
    ensures OutsideDuring(s, n) == []
  {
    if n != 0 {
      NothingOutside(s, n - 1);
    }
  }

  /** w' is what the other processes did up to some like of a pass, and
      nothing else. */
  ghost predicate OnlyOutside(w: World, s: PassScript, likes: nat, w': World) {
    w' == w || exists n :: 0 <= n <= likes && w' == ApplyAll(w, OutsideDuring(s, n))
  }

  lemma DryHandlingIsOutside(w: World, s: PassScript, walk: WalkResult, th: Thresholds)
    ensures var o := Handling(ApplyAll(w, s.afterWalk), walk, w.watermark, s, th, true);
            OnlyOutside(w, s, |walk.tracks|, o.world) && o.posted == []
  {
    var loc := FirstLocals(walk.end.Complete?, w.watermark, ApplyAll(w, s.afterWalk).playlist, |walk.tracks|);
    var n := DryStepsAreOutside(w, s, loc, walk.tracks, th);
  }

  /** A dry run writes nothing, whatever fails and whoever is at work beside
      it: what it leaves behind is what the others did meanwhile. */
  lemma DryRunWritesNothing(w: World, s: PassScript, th: Thresholds)
    ensures var fetched := |Walk(ServerFor(w.votes, s.sizes, s.faults), w.watermark).tracks|;
            OnlyOutside(w, s, fetched, RunPass(w, s, th, true).world)
    ensures RunPass(w, s, th, true).posted == []
    ensures Alone(s) ==> RunPass(w, s, th, true).world == w
  {
    assert OutsideDuring(s, 0) == s.afterWalk;
    DryHandlingIsOutside(w, s, Walk(ServerFor(w.votes, s.sizes, s.faults), w.watermark), th);
    PassCases(w, s, th, true);
    if Alone(s) {
      forall n: nat
        ensures OutsideDuring(s, n) == []
      {
        NothingOutside(s, n);
      }
    }
  }

  lemma AddingCounts(w: World, loc: Locals, since: Time, s: PassScript, before: set<SpotifyId>)
    requires AddsNothing(s.beforeReread) && s.reread.Answered? && (forall b :: s.posts(b).Landed?)
    requires PlaylistWithin(w, before) && Owing(loc, before)
    ensures Adding(w, loc, since, s).stats == loc.stats.(added := |loc.ids|)
    ensures Adding(w, loc, since, s).posted == loc.ids
  {
    if loc.ids == [] {
      CommittingReports(ApplyAll(w, s.beforeCommit), loc, since, s, []);
    } else {
      var w1 := ApplyAll(w, s.beforeReread);
      OthersActAlike(w, w, s.beforeReread, before);
      NoneArrived(loc.ids, Elements(w1.playlist));
      AllLand(loc.ids, s.posts, 0);
      var counted := loc.(stats := loc.stats.(added := |loc.ids|));
      CommittingReports(ApplyAll(Appended(w1, loc.ids), s.beforeCommit), counted, since, s, loc.ids);
    }
  }

  lemma HandlingCountsAlike(w: World, walk: WalkResult, since: Time, s: PassScript, th: Thresholds)
    requires Undisturbed(s) && WritesSucceed(s)
    ensures Handling(w, walk, since, s, th, true).stats == Handling(w, walk, since, s, th, false).stats
  {
    var loc := FirstLocals(walk.end.Complete?, since, w.playlist, |walk.tracks|);
    var before := Elements(w.playlist);
    SameSteps(w, loc, walk.tracks, s.likes, th, before);
    var r := LikeSteps(w, loc, walk.tracks, s.likes, th, false);
    if r.halt.Running? {
      StepsOwe(w, loc, walk.tracks, s.likes, th, before);
      AddingCounts(r.w, r.loc, since, s, before);
    }
  }

  /** With the same start and answers, nobody else adding to the playlist
      between its two reads, and the real pass's writes succeeding, the dry run
      reports the same fetched, added, queued and skipped counts: also when a
      search fails or aborts both, and whatever others do besides. */
  lemma DryRunPredictsRealRun(w: World, s: PassScript, th: Thresholds)
    requires Undisturbed(s) && WritesSucceed(s)
    ensures RunPass(w, s, th, true).stats == RunPass(w, s, th, false).stats
  {
    var walk := Walk(ServerFor(w.votes, s.sizes, s.faults), w.watermark);
    HandlingCountsAlike(ApplyAll(w, s.afterWalk), walk, w.watermark, s, th);
  }
}
