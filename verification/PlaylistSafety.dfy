/** What every step keeps of the playlist: the daemon adds no second copy, and
    the ledger never names a track the playlist has not held. */
module PlaylistSafety {
  import opened Common
  import opened Difm
  import opened DifmWalk
  import opened World
  import opened Pass
  import opened NoLoss

  /** Every id in the playlist was put there. */
  predicate HistoryKnows(w: World) {
    forall id :: id in w.playlist ==> id in w.history
  }

  /** The ledger is never ahead of Spotify. */
  predicate LedgerBehind(w: World) {
    HistoryKnows(w) && forall id :: id in w.ledger ==> w.ledger[id].spotifyId in w.history
  }

  /** However often an id stands in the playlist, at most one copy is not
      somebody's own doing. */
  ghost predicate NoExtraCopies(w: World) {
    forall id :: multiset(w.playlist)[id] <= 1 + w.byHand[id]
  }

  ghost predicate Safe(w: World) {
    LedgerBehind(w) && NoExtraCopies(w)
  }

  // ---------- adding to the playlist ----------

  lemma {:induction false} CountOfDistinct(ids: seq<SpotifyId>, id: SpotifyId)
    requires Distinct(ids)
    ensures multiset(ids)[id] == if id in ids then 1 else 0
  {
    if ids != [] {
      assert ids == Front(ids) + [Last(ids)];
      CountOfDistinct(Front(ids), id);
    }
  }

  /** Appending distinct absent ids makes no extra copy. */
  lemma AppendingAbsentIsSafe(w: World, ids: seq<SpotifyId>)
    requires Safe(w) && Distinct(ids) && forall id :: id in ids ==> id !in w.playlist
    ensures Safe(Appended(w, ids))
  {
    var w' := Appended(w, ids);
    forall id
      ensures multiset(w'.playlist)[id] <= 1 + w'.byHand[id]
    {
      CountOfDistinct(ids, id);
      assert multiset(w'.playlist)[id] == multiset(w.playlist)[id] + multiset(ids)[id];
    }
  }

  lemma RemovingIsSafe(w: World, at: nat)
    requires Safe(w) && at < |w.playlist|
    ensures Safe(w.(playlist := w.playlist[..at] + w.playlist[at + 1..]))
  {
    var kept := w.playlist[..at] + w.playlist[at + 1..];
    assert w.playlist == w.playlist[..at] + ([w.playlist[at]] + w.playlist[at + 1..]);
    forall id
      ensures multiset(kept)[id] <= 1 + w.byHand[id]
    {
      assert multiset(w.playlist)[id] == multiset(kept)[id] + multiset([w.playlist[at]])[id];
    }
  }

  /** A step that leaves the playlist alone keeps it safe if the rows it adds
      name known ids. */
  lemma SamePlaylistIsSafe(w: World, w': World)
    requires Safe(w) && w'.playlist == w.playlist && w'.history == w.history && w'.byHand == w.byHand
    requires forall id :: id in w'.ledger ==> w'.ledger[id].spotifyId in w.history
    ensures Safe(w')
  {
  }

  lemma PlacingIsSafe(w: World, trackId: int, row: LedgerRow, post: Write, record: Write, resolve: Write)
    requires Safe(w)
    ensures Safe(Placing(w, trackId, row, post, record, resolve))
  {
    var w' := Placing(w, trackId, row, post, record, resolve);
    if row.spotifyId in w.playlist {
      SamePlaylistIsSafe(w, w');
    } else {
      AppendingAbsentIsSafe(w, [row.spotifyId]);
      SamePlaylistIsSafe(if post.Lands() then Appended(w, [row.spotifyId]) else w, w');
    }
  }

  lemma ApprovingIsSafe(w: World, trackId: int, candidate: int, read: Read, post: Write, record: Write, resolve: Write)
    requires Safe(w)
    ensures Safe(Approving(w, trackId, candidate, read, post, record, resolve))
  {
    var chosen := Choose(w.queue, trackId, candidate);
    if chosen.Some? {
      PlacingIsSafe(w, trackId, chosen.value, post, record, resolve);
    }
  }

  lemma AddingByHandIsSafe(w: World, id: SpotifyId)
    requires Safe(w)
    ensures Safe(Appended(w, [id]).(byHand := w.byHand + multiset{id}))
  {
    assert multiset(w.playlist + [id]) == multiset(w.playlist) + multiset{id};
  }

  lemma QuietStepIsSafe(w: World, o: Outside)
    requires Safe(w) && (o.NewVote? || o.Reject?)
    ensures Safe(Apply(w, o))
  {
    SamePlaylistIsSafe(w, Apply(w, o));
  }

  lemma HandStepIsSafe(w: World, o: Outside)
    requires Safe(w) && (o.HandAdd? || o.HandRemove?)
    ensures Safe(Apply(w, o))
  {
    match o
    case HandAdd(id) => AddingByHandIsSafe(w, id);
    case HandRemove(at) =>
      if at < |w.playlist| {
        RemovingIsSafe(w, at);
      }
  }

  lemma ApplyIsSafe(w: World, o: Outside)
    requires Safe(w)
    ensures Safe(Apply(w, o))
  {
    match o
    case HandAdd(_) => HandStepIsSafe(w, o);
    case HandRemove(_) => HandStepIsSafe(w, o);
    case Approve(trackId, candidate, read, post, record, resolve) =>
      ApprovingIsSafe(w, trackId, candidate, read, post, record, resolve);
    case NewVote(_) => QuietStepIsSafe(w, o);
    case Reject(_, _) => QuietStepIsSafe(w, o);
  }

  /** Nobody takes anything out of the history. */
  predicate Remembers(w: World, w': World) {
    forall id :: id in w.history ==> id in w'.history
  }

  lemma {:induction false} ApplyAllIsSafe(w: World, os: seq<Outside>)
    requires Safe(w)
    ensures Safe(ApplyAll(w, os)) && Remembers(w, ApplyAll(w, os))
    decreases |os|
  {
    if os != [] {
      ApplyIsSafe(w, os[0]);
      ApplyAllIsSafe(Apply(w, os[0]), os[1..]);
    }
  }

  // ---------- the likes of a pass ----------

  /** The pass posts no id twice, and every pending row names an id that was
      in the playlist or is about to be posted. */
  predicate LocalsSafe(w: World, loc: Locals) {
    && Distinct(loc.ids)
    && (forall id :: id in loc.ids ==> id in loc.present)
    && (forall id :: id in loc.present ==> id in w.history || id in loc.ids)
    && (forall p :: p in loc.rows ==> p.row.spotifyId in w.history || p.row.spotifyId in loc.ids)
  }

  ghost predicate ProgressSafe(p: Progress) {
    Safe(p.w) && LocalsSafe(p.w, p.loc)
  }

  lemma QueueingIsSafe(w: World, loc: Locals, like: Track, candidates: seq<Scored>, reason: Reason,
                       write: Write, dry: bool)
    requires Safe(w) && LocalsSafe(w, loc)
    ensures ProgressSafe(Queueing(w, loc, like, candidates, reason, write, dry))
  {
    SamePlaylistIsSafe(w, Queueing(w, loc, like, candidates, reason, write, dry).w);
  }

  lemma PendingIsSafe(w: World, loc: Locals, like: Track, best: Scored)
    requires LocalsSafe(w, loc)
    ensures best.id in loc.present ==> LocalsSafe(w, loc.(rows := loc.rows + [RowFor(like, best)]))
    ensures best.id !in loc.present ==>
              LocalsSafe(w, loc.(ids := loc.ids + [best.id], rows := loc.rows + [RowFor(like, best)],
                                 present := loc.present + {best.id}))
  {
    forall p | p in loc.rows + [RowFor(like, best)]
      ensures p in loc.rows || p.row.spotifyId == best.id
    {
    }
    assert forall id :: id in loc.ids + [best.id] <==> id in loc.ids || id == best.id;
  }

  lemma DecidingIsSafe(w: World, loc: Locals, like: Track, candidates: seq<Scored>, th: Thresholds,
                       write: Write, dry: bool)
    requires Safe(w) && LocalsSafe(w, loc)
    ensures ProgressSafe(Deciding(w, loc, like, candidates, th, write, dry))
  {
    if candidates != [] && candidates[0].score >= th.auto {
      PendingIsSafe(w, loc, like, candidates[0]);
    } else {
      QueueingIsSafe(w, loc, like, candidates, LowConfidence, write, dry);
      QueueingIsSafe(w, loc, like, candidates, NoMatch, write, dry);
    }
  }

  lemma LocalsStaySafe(w: World, w': World, loc: Locals, loc': Locals)
    requires LocalsSafe(w, loc) && Remembers(w, w')
    requires loc'.ids == loc.ids && loc'.present == loc.present && loc'.rows == loc.rows
    ensures LocalsSafe(w', loc')
  {
  }

  lemma LikeStepIsSafe(w0: World, loc: Locals, like: Track, ls: LikeScript, th: Thresholds, dry: bool)
    requires Safe(w0) && LocalsSafe(w0, loc)
    ensures ProgressSafe(LikeStep(w0, loc, like, ls, th, dry))
  {
    var w := ApplyAll(w0, ls.outside);
    ApplyAllIsSafe(w0, ls.outside);
    LocalsStaySafe(w0, w, loc, loc);
    if like.skip {
      QueueingIsSafe(w, loc, like, [], Skipped, ls.enqueue, dry);
    } else if ls.synced.Answered? && like.trackId !in w.ledger && ls.search(like).Found? {
      DecidingIsSafe(w, loc, like, ls.search(like).candidates, th, ls.enqueue, dry);
    } else {
      LocalsStaySafe(w, w, loc, LikeStep(w0, loc, like, ls, th, dry).loc);
    }
  }

  lemma {:induction false} LikeStepsAreSafe(w: World, loc: Locals, likes: seq<Track>, scripts: nat -> LikeScript,
                                            th: Thresholds, dry: bool)
    requires Safe(w) && LocalsSafe(w, loc)
    ensures ProgressSafe(LikeSteps(w, loc, likes, scripts, th, dry))
  {
    if likes != [] {
      LikeStepsAreSafe(w, loc, Front(likes), scripts, th, dry);
      var p := LikeSteps(w, loc, Front(likes), scripts, th, dry);
      LikeStepIsSafe(p.w, p.loc, Last(likes), scripts(|likes| - 1), th, dry);
    }
  }

  // ---------- the write to Spotify ----------

  lemma {:induction false} PostedIsAPrefix(ids: seq<SpotifyId>, posts: nat -> Write, batch: nat)
    ensures var p := PostFrom(ids, posts, batch);
            p.landed <= ids && (p.end.AllPosted? ==> p.landed == ids)
  {
    if ids != [] {
      var n := if |ids| < BATCH then |ids| else BATCH;
      PostedIsAPrefix(ids[n..], posts, batch + 1);
      assert ids == ids[..n] + ids[n..];
    }
  }

  lemma {:induction false} AllLand(ids: seq<SpotifyId>, posts: nat -> Write, batch: nat)
    requires forall b :: posts(b).Landed?
    ensures PostFrom(ids, posts, batch) == Posting(ids, AllPosted)
  {
    if ids != [] {
      var n := if |ids| < BATCH then |ids| else BATCH;
      AllLand(ids[n..], posts, batch + 1);
      assert ids == ids[..n] + ids[n..];
    }
  }

  lemma FirstBatch(ids: seq<SpotifyId>, posts: nat -> Write, batch: nat)
    requires ids != []
    ensures var n := if |ids| < 100 then |ids| else 100;
            PostFrom(ids, posts, batch) == Then(Batch(ids[..n], posts(batch)), PostFrom(ids[n..], posts, batch + 1))
  {
  }

  lemma AfterTheFirst(ids: seq<SpotifyId>, k: nat, n: nat)
    requires 100 <= n <= |ids| && k >= 1 && 100 * k <= |ids|
    ensures ids[..100] + ids[100..][..n - 100] == ids[..n]
    ensures ids[..100] + ids[100..][..100 * (k - 1)] == ids[..100 * k]
  {
  }

  /** The end of the request that k hundreds come before. */
  function Through(ids: seq<SpotifyId>, k: nat): (n: nat)
    requires 100 * k < |ids|
    ensures 100 * k < n <= |ids|
  {
    if 100 * k + 100 < |ids| then 100 * k + 100 else |ids|
  }

  lemma {:induction false} PostsStopFrom(ids: seq<SpotifyId>, posts: nat -> Write, batch: nat, k: nat)
    requires 100 * k < |ids| && !posts(batch + k).Landed? && forall j :: batch <= j < batch + k ==> posts(j).Landed?
    ensures PostFrom(ids, posts, batch) ==
            Posting(if posts(batch + k).Lands() then ids[..Through(ids, k)] else ids[..100 * k],
                    if posts(batch + k).Died() then PostDied else PostFailed)
    decreases k
  {
    FirstBatch(ids, posts, batch);
    if k > 0 {
      var rest := ids[100..];
      PostsStopFrom(rest, posts, batch + 1, k - 1);
      AfterTheFirst(ids, k, Through(ids, k));
      assert Through(rest, k - 1) == Through(ids, k) - 100;
    }
  }

  /** Posts go out by the hundred: when the first k requests are acknowledged
      and the next is not, exactly the first k hundred ids have landed, or that
      request's hundred as well if it landed all the same. */
  lemma PostsGoByTheHundred(ids: seq<SpotifyId>, posts: nat -> Write, k: nat)
    requires 100 * k < |ids| && !posts(k).Landed? && forall j: nat :: j < k ==> posts(j).Landed?
    ensures PostFrom(ids, posts, 0) ==
            Posting(if posts(k).Lands() then ids[..Through(ids, k)] else ids[..100 * k],
                    if posts(k).Died() then PostDied else PostFailed)
  {
    PostsStopFrom(ids, posts, 0, k);
  }

  lemma {:induction false} WithoutMeans(ids: seq<SpotifyId>, current: set<SpotifyId>)
    ensures forall id :: id in Without(ids, current) <==> id in ids && id !in current
    ensures Distinct(ids) ==> Distinct(Without(ids, current))
  {
    if ids != [] {
      WithoutMeans(Front(ids), current);
      assert ids == Front(ids) + [Last(ids)];
    }
  }

  lemma {:induction false} RecordedAllNames(ledger: map<int, LedgerRow>, rows: seq<PendingRow>, id: int)
    requires id in RecordedAll(ledger, rows)
    ensures (id in ledger && RecordedAll(ledger, rows)[id] == ledger[id])
            || exists p :: p in rows && RecordedAll(ledger, rows)[id] == p.row
  {
    if rows != [] {
      if id in RecordedAll(ledger, Front(rows)) {
        RecordedAllNames(ledger, Front(rows), id);
      } else {
        assert Last(rows) in rows;
      }
    }
  }

  lemma CommittingIsSafe(w: World, loc: Locals, since: Time, s: PassScript, posted: seq<SpotifyId>)
    requires Safe(w) && forall p :: p in loc.rows ==> p.row.spotifyId in w.history
    ensures Safe(Committing(w, loc, since, s, posted).world)
  {
    forall id | id in RecordedAll(w.ledger, loc.rows)
      ensures RecordedAll(w.ledger, loc.rows)[id].spotifyId in w.history
    {
      RecordedAllNames(w.ledger, loc.rows, id);
    }
  }

  /** The playlist an add starts from and what it adds: distinct ids, none of
      them there already, and all of them there by the time rows are
      committed. */
  lemma AddingPostsAbsent(w: World, loc: Locals, s: PassScript)
    requires Safe(w) && LocalsSafe(w, loc)
    ensures var w1 := ApplyAll(w, s.beforeReread);
            var absent := Without(loc.ids, Elements(w1.playlist));
            var p := PostFrom(absent, s.posts, 0);
            && Safe(w1) && Distinct(p.landed) && (forall id :: id in p.landed ==> id !in w1.playlist)
            && Safe(Appended(w1, p.landed))
            && (p.end.AllPosted? ==> forall r :: r in loc.rows ==> r.row.spotifyId in Appended(w1, p.landed).history)
  {
    var w1 := ApplyAll(w, s.beforeReread);
    ApplyAllIsSafe(w, s.beforeReread);
    var absent := Without(loc.ids, Elements(w1.playlist));
    WithoutMeans(loc.ids, Elements(w1.playlist));
    var p := PostFrom(absent, s.posts, 0);
    PostedIsAPrefix(absent, s.posts, 0);
    assert forall id :: id in p.landed ==> id in absent;
    AppendingAbsentIsSafe(w1, p.landed);
  }

  /** The commit, after what others do before it. */
  lemma CommitLaterIsSafe(w: World, loc: Locals, since: Time, s: PassScript, posted: seq<SpotifyId>)
    requires Safe(w) && forall p :: p in loc.rows ==> p.row.spotifyId in w.history
    ensures Safe(Committing(ApplyAll(w, s.beforeCommit), loc, since, s, posted).world)
  {
    ApplyAllIsSafe(w, s.beforeCommit);
    CommittingIsSafe(ApplyAll(w, s.beforeCommit), loc, since, s, posted);
  }

  lemma AddingIsSafe(w: World, loc: Locals, since: Time, s: PassScript)
    requires Safe(w) && LocalsSafe(w, loc)
    ensures Safe(Adding(w, loc, since, s).world)
  {
    if loc.ids == [] {
      CommitLaterIsSafe(w, loc, since, s, []);
    } else {
      AddingPostsAbsent(w, loc, s);
      var w1 := ApplyAll(w, s.beforeReread);
      var absent := Without(loc.ids, Elements(w1.playlist));
      var p := PostFrom(absent, s.posts, 0);
      if s.reread.Answered? && p.end.AllPosted? {
        var counted := loc.(stats := loc.stats.(added := |absent|));
        CommitLaterIsSafe(Appended(w1, p.landed), counted, since, s, p.landed);
      }
    }
  }

  /** What a pass posted, it appended to a playlist holding none of it,
      without repeating itself. After that the playlist changed only by what
      others did before the commit, if the pass got there. */
  ghost predicate PostsAbsentIds(s: PassScript, o: PassOutcome) {
    && Distinct(o.posted)
    && exists before: World, later: seq<Outside> ::
         && (later == [] || later == s.beforeCommit)
         && (forall id :: id in o.posted ==> id !in before.playlist)
         && o.world.playlist == ApplyAll(Appended(before, o.posted), later).playlist
  }

  lemma PostedOnto(s: PassScript, o: PassOutcome, before: World, later: seq<Outside>)
    requires later == [] || later == s.beforeCommit
    requires Distinct(o.posted) && forall id :: id in o.posted ==> id !in before.playlist
    requires o.world.playlist == ApplyAll(Appended(before, o.posted), later).playlist
    ensures PostsAbsentIds(s, o)
  {
  }

  lemma NothingPosted(s: PassScript, o: PassOutcome)
    requires o.posted == []
    ensures PostsAbsentIds(s, o)
  {
    assert o.world.playlist + [] == o.world.playlist;
    PostedOnto(s, o, o.world, []);
  }

  /** Adding either posts nothing, or ends right after its posts, or commits
      after what others do then. */
  lemma AddingAppends(w: World, loc: Locals, since: Time, s: PassScript)
    requires loc.ids != [] && s.reread.Answered?
    ensures var o, before := Adding(w, loc, since, s), ApplyAll(w, s.beforeReread);
            && o.posted == PostFrom(Without(loc.ids, Elements(before.playlist)), s.posts, 0).landed
            && (|| o.world.playlist == Appended(before, o.posted).playlist
                || o.world.playlist == ApplyAll(Appended(before, o.posted), s.beforeCommit).playlist)
  {
  }

  lemma AddingPostsAbsentIds(w: World, loc: Locals, since: Time, s: PassScript)
    requires Safe(w) && LocalsSafe(w, loc)
    ensures PostsAbsentIds(s, Adding(w, loc, since, s))
  {
    var o, before := Adding(w, loc, since, s), ApplyAll(w, s.beforeReread);
    if loc.ids == [] || !s.reread.Answered? {
      NothingPosted(s, o);
    } else {
      AddingAppends(w, loc, since, s);
      AddingPostsAbsent(w, loc, s);
      if o.world.playlist == Appended(before, o.posted).playlist {
        PostedOnto(s, o, before, []);
      } else {
        PostedOnto(s, o, before, s.beforeCommit);
      }
    }
  }

  lemma HandlingIsSafe(w: World, walk: WalkResult, since: Time, s: PassScript, th: Thresholds, dry: bool)
    requires Safe(w)
    ensures Safe(Handling(w, walk, since, s, th, dry).world)
    ensures PostsAbsentIds(s, Handling(w, walk, since, s, th, dry))
  {
    var loc := FirstLocals(walk.end.Complete?, since, w.playlist, |walk.tracks|);
    LikeStepsAreSafe(w, loc, walk.tracks, s.likes, th, dry);
    var p := LikeSteps(w, loc, walk.tracks, s.likes, th, dry);
    if p.halt.Running? && !dry {
      AddingIsSafe(p.w, p.loc, since, s);
      AddingPostsAbsentIds(p.w, p.loc, since, s);
    } else {
      NothingPosted(s, Handling(w, walk, since, s, th, dry));
    }
  }

  lemma FetchedIsSafe(w: World, walk: WalkResult, s: PassScript, th: Thresholds, dry: bool)
    requires Safe(w)
    ensures Safe(Fetched(w, walk, s, th, dry).world)
    ensures PostsAbsentIds(s, Fetched(w, walk, s, th, dry))
  {
    ApplyAllIsSafe(w, s.afterWalk);
    HandlingIsSafe(ApplyAll(w, s.afterWalk), walk, w.watermark, s, th, dry);
    if Fetched(w, walk, s, th, dry).posted == [] {
      NothingPosted(s, Fetched(w, walk, s, th, dry));
    }
  }

  /** Whatever happens during a pass, and wherever it dies, the playlist gets
      no extra copy and the ledger stays behind it; and what the pass posts is
      distinct and absent, even when many likes resolve to one track. */
  lemma PassIsSafe(w: World, s: PassScript, th: Thresholds, dry: bool)
    requires Safe(w)
    ensures Safe(RunPass(w, s, th, dry).world)
    ensures PostsAbsentIds(s, RunPass(w, s, th, dry))
  {
    FetchedIsSafe(w, Walk(ServerFor(w.votes, s.sizes, s.faults), w.watermark), s, th, dry);
    if RunPass(w, s, th, dry).posted == [] {
      NothingPosted(s, RunPass(w, s, th, dry));
    }
  }

  // ---------- the history only grows ----------

  lemma StepRemembers(w: World, loc: Locals, like: Track, ls: LikeScript, th: Thresholds, dry: bool)
    ensures LikeStep(w, loc, like, ls, th, dry).w.history == ApplyAll(w, ls.outside).history
  {
  }

  lemma ApplyRemembers(w: World, o: Outside)
    ensures Remembers(w, Apply(w, o))
  {
  }

  lemma {:induction false} OthersRemember(w: World, os: seq<Outside>)
    ensures Remembers(w, ApplyAll(w, os))
    decreases |os|
  {
    if os != [] {
      ApplyRemembers(w, os[0]);
      OthersRemember(Apply(w, os[0]), os[1..]);
    }
  }

  lemma {:induction false} StepsRemember(w: World, loc: Locals, likes: seq<Track>, scripts: nat -> LikeScript,
                                         th: Thresholds, dry: bool)
    ensures Remembers(w, LikeSteps(w, loc, likes, scripts, th, dry).w)
  {
    if likes != [] {
      StepsRemember(w, loc, Front(likes), scripts, th, dry);
      var p := LikeSteps(w, loc, Front(likes), scripts, th, dry);
      if p.halt.Running? {
        var ls := scripts(|likes| - 1);
        OthersRemember(p.w, ls.outside);
        StepRemembers(p.w, p.loc, Last(likes), ls, th, dry);
      }
    }
  }

  lemma CommittingRemembers(w: World, loc: Locals, since: Time, s: PassScript, posted: seq<SpotifyId>)
    ensures Committing(w, loc, since, s, posted).world.history == w.history
  {
  }

  lemma AddingRemembers(w: World, loc: Locals, since: Time, s: PassScript)
    ensures Remembers(w, Adding(w, loc, since, s).world)
  {
    if loc.ids == [] {
      OthersRemember(w, s.beforeCommit);
      CommittingRemembers(ApplyAll(w, s.beforeCommit), loc, since, s, []);
    } else {
      var w1 := ApplyAll(w, s.beforeReread);
      var absent := Without(loc.ids, Elements(w1.playlist));
      var landed := PostFrom(absent, s.posts, 0).landed;
      var w3 := ApplyAll(Appended(w1, landed), s.beforeCommit);
      OthersRemember(w, s.beforeReread);
      OthersRemember(Appended(w1, landed), s.beforeCommit);
      CommittingRemembers(w3, loc.(stats := loc.stats.(added := |absent|)), since, s, landed);
      AddingCases(w, loc, since, s);
    }
  }

  lemma PassRemembers(w: World, s: PassScript, th: Thresholds, dry: bool)
    ensures Remembers(w, RunPass(w, s, th, dry).world)
  {
    var walk := Walk(ServerFor(w.votes, s.sizes, s.faults), w.watermark);
    var w1 := ApplyAll(w, s.afterWalk);
    var loc := FirstLocals(walk.end.Complete?, w.watermark, w1.playlist, |walk.tracks|);
    var p := LikeSteps(w1, loc, walk.tracks, s.likes, th, dry);
    OthersRemember(w, s.afterWalk);
    StepsRemember(w1, loc, walk.tracks, s.likes, th, dry);
    AddingRemembers(p.w, p.loc, w.watermark, s);
    PassCases(w, s, th, dry);
  }
}
